/** Sleeping, waking and expiring undo each other, and a deadline is armed for the
    running thread alone. */
module Sleeping {
  import opened Scheduler

  /** Thread `t` runs again, at the end of the queue, and waits for nothing. */
  ghost predicate RunsAgain(s: Sched, t: nat, timedOut: bool, r: Sched)
    requires t < |s.threads|
  {
    r == s.(threads := s.threads[t := s.threads[t].(waits := NULL, timedOut := timedOut)],
            queue := s.queue + [t], wakeups := s.wakeups + 1)
  }

  /** A thread that goes to sleep keeps its entry in the queue and does not run; to put
      it to sleep again changes nothing.  Waking it with another identity does nothing
      either; with its own it runs again, and only then a second wake-up is void. */
  lemma WakingUndoesSleep(s: Sched, t: nat, ident: Ident, other: Ident)
    requires t < |s.threads| && s.threads[t].runable
    ensures var a := Slept(s, t, ident);
            && a == s.(threads := s.threads[t := s.threads[t].(runable := false, waits := ident)])
            && Slept(a, t, other) == a
            && (other != ident ==> Woken(a, t, other) == a)
            && RunsAgain(s, t, s.threads[t].timedOut, Woken(a, t, ident))
            && Woken(Woken(a, t, ident), t, other) == Woken(a, t, ident)
  {
    var a := Slept(s, t, ident);
    assert Woken(a, t, ident).threads == s.threads[t := s.threads[t].(waits := NULL)];
  }

  /** A deadline that passes wakes it whatever it waits for, and marks it for that; a
      thread that runs is only marked. */
  lemma ExpiryUndoesSleep(s: Sched, t: nat, ident: Ident)
    requires t < |s.threads| && s.threads[t].runable
    ensures RunsAgain(s, t, true, TimedOut(Slept(s, t, ident), t))
    ensures TimedOut(s, t) == s.(threads := s.threads[t := s.threads[t].(timedOut := true)])
  {
    var r := TimedOut(Slept(s, t, ident), t);
    assert r.threads == s.threads[t := s.threads[t].(waits := NULL, timedOut := true)];
  }

  /** Arming a deadline sets that of the running thread and adds one entry for it. */
  lemma ArmingDoes(s: Sched, timeout: int)
    requires InRange(s) && s.job.Job? && Sorted(s.timers)
    ensures var r, t := Armed(s, timeout), s.job.t;
            && r == s.(threads := s.threads[t := s.threads[t].(tick := timeout)], timers := r.timers)
            && Sorted(r.timers) && forall e :: e in r.timers <==> e in s.timers || (e.tick == timeout && e.thread == t)
  {
    InsertIs(s.timers, Timer(timeout, s.job.t));
    hide Insert, Sorted;
  }
}
