/** Cooperative threads: a run queue that keeps stale entries, and a timer set
    that does too. */
module Scheduler {

  /** Longest time to wait when no timer is set. */
  const MAX_WAIT := 36000

  /** What a thread sleeps on; threads that sleep on nothing wait for `NULL`. */
  datatype Ident = NULL | On(id: nat)

  datatype Thread = Thread(runable: bool, waits: Ident, timedOut: bool, tick: int)

  /** Threads go by number, in the order of their addresses. */
  datatype Timer = Timer(tick: int, thread: nat)

  datatype Job = NoJob | Job(t: nat)

  /** `log` lists the threads dispatched so far and `pops` counts the entries taken
      off the queue. */
  datatype Sched = Sched(
    threads: seq<Thread>,
    queue: seq<nat>,
    job: Job,
    wakeups: nat,
    timers: seq<Timer>,
    log: seq<nat>,
    pops: nat)

  // --------------------------------------------------------------------- run queue

  function Slept(s: Sched, t: nat, ident: Ident): Sched
    requires t < |s.threads|
  {
    if s.threads[t].runable then s.(threads := s.threads[t := s.threads[t].(runable := false, waits := ident)])
    else s
  }

  function Woken(s: Sched, t: nat, ident: Ident): Sched
    requires t < |s.threads|
  {
    if s.threads[t].runable || s.threads[t].waits != ident then s
    else s.(
      threads := s.threads[t := s.threads[t].(runable := true, waits := NULL)],
      queue := s.queue + [t],
      wakeups := s.wakeups + 1)
  }

  function TimedOut(s: Sched, t: nat): Sched
    requires t < |s.threads|
  {
    Woken(s.(threads := s.threads[t := s.threads[t].(timedOut := true)]), t, s.threads[t].waits)
  }

  /** `bpoll`: takes entries off until one is of a runnable thread, and puts that
      one back at the end; finding none is a failed assertion. */
  datatype Polled = Dispatched(s: Sched) | QueueEmpty

  function Poll(s: Sched): Polled
    requires InRange(s)
    decreases |s.queue|
  {
    if s.queue == [] then QueueEmpty
    else
      var t := s.queue[0];
      var s' := s.(queue := s.queue[1..], pops := s.pops + 1, job := Job(t));
      if s.threads[t].runable then Dispatched(s'.(queue := s'.queue + [t], log := s'.log + [t])) else Poll(s')
  }

  ghost predicate InRange(s: Sched) {
    && (forall i :: 0 <= i < |s.queue| ==> s.queue[i] < |s.threads|)
    && (forall i :: 0 <= i < |s.timers| ==> s.timers[i].thread < |s.threads|)
    && (s.job.Job? ==> s.job.t < |s.threads|)
  }

  /** Every runnable thread is in the queue. */
  ghost predicate Queued(s: Sched) {
    forall t :: 0 <= t < |s.threads| && s.threads[t].runable ==> t in s.queue
  }

  /** Some thread can run. */
  ghost predicate Awake(s: Sched) {
    exists t :: 0 <= t < |s.threads| && s.threads[t].runable
  }

  lemma WokenKeeps(s: Sched, t: nat, ident: Ident)
    requires InRange(s) && t < |s.threads|
    ensures InRange(Woken(s, t, ident)) && s.queue <= Woken(s, t, ident).queue
    ensures Queued(s) ==> Queued(Woken(s, t, ident))
  {
  }

  lemma SleptKeeps(s: Sched, t: nat, ident: Ident)
    requires InRange(s) && t < |s.threads|
    ensures InRange(Slept(s, t, ident)) && (Queued(s) ==> Queued(Slept(s, t, ident)))
  {
  }

  /** The queue behind its first `k` entries, all of them stale. */
  ghost predicate StaleTo(s: Sched, k: nat) {
    k <= |s.queue| && forall i :: 0 <= i < k ==> s.queue[i] < |s.threads| && !s.threads[s.queue[i]].runable
  }

  /** The first entry of a runnable thread is the one dispatched, those before it
      are gone, and it is now last; without one, the assertion fails. */
  lemma {:induction false} PollFinds(s: Sched)
    requires InRange(s)
    ensures Poll(s).QueueEmpty? <==> StaleTo(s, |s.queue|)
    ensures Poll(s).Dispatched? ==>
      var s' := Poll(s).s;
      var k := s'.pops - s.pops - 1;
      && 0 <= k < |s.queue| && StaleTo(s, k) && s'.job == Job(s.queue[k]) && s.threads[s.queue[k]].runable
      && s'.queue == s.queue[k + 1..] + [s.queue[k]] && s'.log == s.log + [s.queue[k]]
      && s'.threads == s.threads && s'.timers == s.timers && s'.wakeups == s.wakeups
    decreases |s.queue|
  {
    if s.queue != [] && !s.threads[s.queue[0]].runable {
      var s' := s.(queue := s.queue[1..], pops := s.pops + 1, job := Job(s.queue[0]));
      PollFinds(s');
      assert forall i :: 0 < i < |s.queue| ==> s.queue[i] == s'.queue[i - 1];
    }
  }

  lemma PollKeeps(s: Sched)
    requires InRange(s) && Poll(s).Dispatched?
    ensures InRange(Poll(s).s) && (Queued(s) ==> Queued(Poll(s).s))
  {
    PollFinds(s);
    hide Poll;
    var s' := Poll(s).s;
    var k := s'.pops - s.pops - 1;
    assert s'.queue == s.queue[k + 1..] + [s.queue[k]];
    forall t | Queued(s) && 0 <= t < |s.threads| && s.threads[t].runable
      ensures t in s'.queue
    {
      var i :| 0 <= i < |s.queue| && s.queue[i] == t;
      if i > k {
        assert s'.queue[i - k - 1] == t;
      } else {
        assert s'.queue[|s'.queue| - 1] == s.queue[k];
      }
    }
  }

  /** The assertion cannot fail while some thread can run. */
  lemma PollRuns(s: Sched)
    requires InRange(s) && Queued(s) && Awake(s)
    ensures Poll(s).Dispatched?
  {
    PollFinds(s);
    hide Poll;
    var t :| 0 <= t < |s.threads| && s.threads[t].runable;
    var i :| 0 <= i < |s.queue| && s.queue[i] == t;
  }

  // ------------------------------------------------------------------------ timers

  predicate Before(a: Timer, b: Timer) {
    a.tick < b.tick || (a.tick == b.tick && a.thread < b.thread)
  }

  ghost predicate Sorted(ts: seq<Timer>) {
    forall i, j :: 0 <= i < j < |ts| ==> Before(ts[i], ts[j])
  }

  /** Into the ordered set. */
  function Insert(ts: seq<Timer>, x: Timer): seq<Timer> {
    if ts == [] then [x]
    else if ts[0] == x then ts
    else if Before(x, ts[0]) then [x] + ts
    else [ts[0]] + Insert(ts[1..], x)
  }

  lemma {:induction false} InsertIs(ts: seq<Timer>, x: Timer)
    requires Sorted(ts)
    ensures Sorted(Insert(ts, x))
    ensures forall e :: e in Insert(ts, x) <==> e in ts || e == x
  {
    if ts != [] {
      assert ts == [ts[0]] + ts[1..];
      if ts[0] != x && !Before(x, ts[0]) {
        InsertIs(ts[1..], x);
        var r := Insert(ts[1..], x);
        forall j | 0 <= j < |r|
          ensures Before(ts[0], r[j])
        {
          assert r[j] in r;
        }
      }
    }
  }

  /** The entry of the latest deadline of a thread. */
  function Latest(s: Sched, t: nat): Timer
    requires t < |s.threads|
  {
    Timer(s.threads[t].tick, t)
  }

  ghost predicate Pending(s: Sched, t: nat)
    requires t < |s.threads|
  {
    Latest(s, t) in s.timers
  }

  /** No entry is later than its thread's latest deadline, which has an entry too. */
  ghost predicate Timely(s: Sched)
    requires InRange(s)
  {
    forall i :: 0 <= i < |s.timers| ==>
      s.timers[i].tick <= s.threads[s.timers[i].thread].tick && Pending(s, s.timers[i].thread)
  }

  /** `enqueue`, for the running thread. */
  function Armed(s: Sched, timeout: int): Sched
    requires InRange(s) && s.job.Job?
  {
    s.(threads := s.threads[s.job.t := s.threads[s.job.t].(tick := timeout)], timers := Insert(s.timers, Timer(timeout, s.job.t)))
  }

  /** `check_timer`: a result and the time to wake at, or a failed assertion. */
  datatype Checked = Checked(s: Sched, comming: int) | EntryLate

  function Check(s: Sched, now: int): Checked
    requires InRange(s)
    decreases |s.timers|
  {
    if s.timers == [] then Checked(s, now + MAX_WAIT)
    else
      var head, tick := s.timers[0], s.threads[s.timers[0].thread].tick;
      if head.tick > tick then EntryLate
      else if now >= tick then Check(TimedOut(s, head.thread).(timers := s.timers[1..]), now)
      else if now < head.tick then Checked(s, head.tick)
      else Check(s.(timers := s.timers[1..]), now)
  }

  lemma ArmedKeeps(s: Sched, timeout: int)
    requires InRange(s) && s.job.Job? && Sorted(s.timers)
    ensures InRange(Armed(s, timeout)) && Sorted(Armed(s, timeout).timers)
    ensures Queued(s) ==> Queued(Armed(s, timeout))
  {
    InsertIs(s.timers, Timer(timeout, s.job.t));
    var s' := Armed(s, timeout);
    forall i | 0 <= i < |s'.timers|
      ensures s'.timers[i].thread < |s.threads|
    {
      assert s'.timers[i] in s'.timers;
    }
  }

  /** A new deadline keeps the set in order just when it is no earlier than the
      one the thread still waits for. */
  lemma ArmedTimelyIff(s: Sched, timeout: int)
    requires InRange(s) && s.job.Job? && Sorted(s.timers) && Timely(s)
    ensures InRange(Armed(s, timeout))
    ensures Timely(Armed(s, timeout)) <==> timeout >= s.threads[s.job.t].tick || !Pending(s, s.job.t)
  {
    var t := s.job.t;
    ArmedKeeps(s, timeout);
    InsertIs(s.timers, Timer(timeout, t));
    hide Insert, Sorted, Before;
    var s' := Armed(s, timeout);
    assert Latest(s', t) in s'.timers;
    if Pending(s, t) && timeout < s.threads[t].tick {
      assert Latest(s, t) in s'.timers;
      var i :| 0 <= i < |s'.timers| && s'.timers[i] == Latest(s, t);
      assert s'.timers[i].tick > s'.threads[t].tick;
    } else {
      forall i | 0 <= i < |s'.timers|
        ensures s'.timers[i].tick <= s'.threads[s'.timers[i].thread].tick && Pending(s', s'.timers[i].thread)
      {
        var e := s'.timers[i];
        assert e in s'.timers;
        if e != Timer(timeout, t) {
          var j :| 0 <= j < |s.timers| && s.timers[j] == e;
          if e.thread != t {
            assert Latest(s', e.thread) == Latest(s, e.thread);
          }
        }
      }
    }
  }

  /** A thread whose latest deadline, still waited for, has passed. */
  ghost predicate Due(s: Sched, t: nat, now: int)
    requires t < |s.threads|
  {
    Pending(s, t) && s.threads[t].tick <= now
  }

  function Roused(th: Thread): Thread {
    th.(runable := true, waits := if th.runable then th.waits else NULL, timedOut := true)
  }

  /** Just the due threads are roused. */
  ghost predicate RousesDue(s: Sched, s': Sched, now: int) {
    && |s'.threads| == |s.threads|
    && forall t :: 0 <= t < |s.threads| ==> s'.threads[t] == if Due(s, t, now) then Roused(s.threads[t]) else s.threads[t]
  }

  /** Just the entries of times to come are kept, and the first of them, or else
      the longest wait, is the time to wake at. */
  ghost predicate KeepsComing(s: Sched, c: Checked, now: int) {
    && c.Checked?
    && (forall e :: e in c.s.timers <==> e in s.timers && e.tick > now)
    && c.comming == (if c.s.timers == [] then now + MAX_WAIT else c.s.timers[0].tick)
    && (forall i :: 0 <= i < |c.s.timers| ==> c.comming <= c.s.timers[i].tick)
  }

  /** The timer set without its first entry. */
  function Dropped(s: Sched): Sched
    requires s.timers != []
  {
    s.(timers := s.timers[1..])
  }

  lemma DropKeeps(s: Sched)
    requires InRange(s) && Sorted(s.timers) && Timely(s) && s.timers != []
    ensures InRange(Dropped(s)) && Sorted(Dropped(s).timers) && Timely(Dropped(s))
  {
    var s' := Dropped(s);
    assert forall i :: 0 <= i < |s'.timers| ==> s'.timers[i] == s.timers[i + 1];
    forall i | 0 <= i < |s'.timers|
      ensures Pending(s', s'.timers[i].thread)
    {
      StillPending(s, i + 1);
    }
  }

  /** The latest entry of a thread that has an entry left is not the one dropped. */
  lemma StillPending(s: Sched, i: nat)
    requires InRange(s) && Sorted(s.timers) && Timely(s) && 0 < i < |s.timers|
    ensures Pending(Dropped(s), s.timers[i].thread)
  {
    var s', e := Dropped(s), s.timers[i];
    assert Before(s.timers[0], e);
    assert Pending(s, e.thread);
    hide Sorted, InRange, Timely;
    var j :| 0 <= j < |s.timers| && s.timers[j] == Latest(s, e.thread);
    assert s'.timers[j - 1] == Latest(s', e.thread);
  }

  lemma TimedOutIs(s: Sched, t: nat)
    requires InRange(s) && t < |s.threads|
    ensures var s' := TimedOut(s, t);
      && s'.threads == s.threads[t := Roused(s.threads[t])] && s'.timers == s.timers && s'.job == s.job
      && s.queue <= s'.queue && s'.log == s.log && s'.pops == s.pops
      && InRange(s') && (Queued(s) ==> Queued(s'))
  {
    var a := s.(threads := s.threads[t := s.threads[t].(timedOut := true)]);
    assert Queued(s) ==> Queued(a);
    WokenKeeps(a, t, s.threads[t].waits);
  }

  /** Only the clock, the queue's end and the threads themselves are touched. */
  ghost predicate CheckFrame(s: Sched, s': Sched) {
    && InRange(s') && (Queued(s) ==> Queued(s')) && s.queue <= s'.queue
    && s'.log == s.log && s'.pops == s.pops && s'.job == s.job
  }

  /** `fired` is `s` without its first entry and with that entry's thread roused. */
  ghost predicate Fires(s: Sched, fired: Sched) {
    && s.timers != [] && InRange(s) && fired.timers == s.timers[1..] && fired.job == s.job
    && (forall i :: 0 <= i < |fired.queue| ==> fired.queue[i] < |s.threads|)
    && fired.threads == s.threads[s.timers[0].thread := Roused(s.threads[s.timers[0].thread])]
  }

  lemma FiredTimely(s: Sched, fired: Sched)
    requires Fires(s, fired) && Sorted(s.timers) && Timely(s)
    ensures InRange(fired) && Sorted(fired.timers) && Timely(fired)
  {
    DropKeeps(s);
    hide Sorted;
    assert forall t :: 0 <= t < |s.threads| ==> fired.threads[t].tick == s.threads[t].tick;
    forall i | 0 <= i < |fired.timers|
      ensures Pending(fired, fired.timers[i].thread)
    {
      assert Pending(Dropped(s), fired.timers[i].thread);
    }
  }

  lemma InTail(ts: seq<Timer>, e: Timer)
    requires ts != []
    ensures e in ts <==> e == ts[0] || e in ts[1..]
  {
    assert ts == [ts[0]] + ts[1..];
  }

  lemma CheckFired(s: Sched, fired: Sched, c: Checked, now: int)
    requires Fires(s, fired) && Sorted(s.timers) && Timely(s) && s.threads[s.timers[0].thread].tick <= now
    requires KeepsComing(fired, c, now) && RousesDue(fired, c.s, now)
    ensures KeepsComing(s, c, now) && RousesDue(s, c.s, now)
  {
    var t := s.timers[0].thread;
    forall e: Timer
      ensures e in s.timers && e.tick > now <==> e in fired.timers && e.tick > now
    {
      InTail(s.timers, e);
    }
    assert Due(s, t, now);
    forall u | 0 <= u < |s.threads|
      ensures c.s.threads[u] == if Due(s, u, now) then Roused(s.threads[u]) else s.threads[u]
    {
      InTail(s.timers, Latest(s, u));
      assert Latest(s, u) == Latest(fired, u);
    }
  }

  lemma CheckStops(s: Sched, now: int)
    requires InRange(s) && Sorted(s.timers) && s.timers != [] && now < s.timers[0].tick
    ensures KeepsComing(s, Checked(s, s.timers[0].tick), now) && RousesDue(s, s, now)
  {
    forall e | e in s.timers
      ensures e.tick > now
    {
      var i :| 0 <= i < |s.timers| && s.timers[i] == e;
      assert i > 0 ==> Before(s.timers[0], s.timers[i]);
    }
    forall u | 0 <= u < |s.threads|
      ensures !Due(s, u, now)
    {
      assert Pending(s, u) ==> Latest(s, u).tick > now;
    }
  }

  lemma CheckDrops(s: Sched, c: Checked, now: int)
    requires InRange(s) && s.timers != [] && s.timers[0].tick <= now < s.threads[s.timers[0].thread].tick
    requires KeepsComing(Dropped(s), c, now) && RousesDue(Dropped(s), c.s, now)
    ensures KeepsComing(s, c, now) && RousesDue(s, c.s, now)
  {
    forall e: Timer
      ensures e in s.timers && e.tick > now <==> e in Dropped(s).timers && e.tick > now
    {
      InTail(s.timers, e);
    }
    forall u | 0 <= u < |s.threads|
      ensures Due(s, u, now) <==> Due(Dropped(s), u, now)
    {
      InTail(s.timers, Latest(s, u));
    }
  }

  lemma CheckOnce(s: Sched, now: int)
    requires InRange(s) && Timely(s) && s.timers != []
    ensures var head, tick := s.timers[0], s.threads[s.timers[0].thread].tick;
            Check(s, now) == if now >= tick then Check(TimedOut(s, head.thread).(timers := s.timers[1..]), now)
                             else if now < head.tick then Checked(s, head.tick)
                             else Check(Dropped(s), now)
  {
    hide TimedOut;
  }

  lemma FiresFirst(s: Sched, fired: Sched)
    requires InRange(s) && s.timers != [] && fired == TimedOut(s, s.timers[0].thread).(timers := s.timers[1..])
    ensures Fires(s, fired) && CheckFrame(s, fired)
  {
    TimedOutIs(s, s.timers[0].thread);
    hide TimedOut;
    assert forall i :: 0 <= i < |fired.timers| ==> fired.timers[i] == s.timers[i + 1];
  }

  lemma FrameJoins(a: Sched, b: Sched, c: Sched)
    requires CheckFrame(a, b) && CheckFrame(b, c)
    ensures CheckFrame(a, c)
  {
    hide InRange, Queued;
  }

  /** With a timely set the assertion holds, the due threads and no others are
      timed out and woken, and no entry that is still to come is dropped. */
  lemma {:induction false} CheckIsExact(s: Sched, now: int)
    requires InRange(s) && Sorted(s.timers) && Timely(s)
    ensures KeepsComing(s, Check(s, now), now)
    ensures RousesDue(s, Check(s, now).s, now) && CheckFrame(s, Check(s, now).s)
    ensures Sorted(Check(s, now).s.timers) && Timely(Check(s, now).s)
    decreases |s.timers|
  {
    if s.timers != [] {
      var head := s.timers[0];
      var t := head.thread;
      CheckOnce(s, now);
      hide Check, Sorted, TimedOut, KeepsComing, RousesDue, CheckFrame, Fires;
      DropKeeps(s);
      if now >= s.threads[t].tick {
        var fired := TimedOut(s, t).(timers := s.timers[1..]);
        FiresFirst(s, fired);
        FiredTimely(s, fired);
        CheckIsExact(fired, now);
        CheckFired(s, fired, Check(fired, now), now);
        FrameJoins(s, fired, Check(fired, now).s);
      } else if now < head.tick {
        CheckStops(s, now);
      } else {
        CheckIsExact(Dropped(s), now);
        CheckDrops(s, Check(Dropped(s), now), now);
      }
    }
  }

  /** An entry later than its thread's deadline fails the assertion once its time
      has come. */
  lemma {:induction false} LateFails(s: Sched, e: Timer, now: int)
    requires InRange(s) && Sorted(s.timers) && e in s.timers && e.thread < |s.threads|
    requires s.threads[e.thread].tick < e.tick <= now
    ensures Check(s, now).EntryLate?
    decreases |s.timers|
  {
    var head := s.timers[0];
    var t := head.thread;
    var i :| 0 <= i < |s.timers| && s.timers[i] == e;
    assert i > 0 ==> Before(head, e);
    InTail(s.timers, e);
    if head.tick <= s.threads[t].tick {
      TimedOutIs(s, t);
      hide TimedOut;
      if now >= s.threads[t].tick {
        LateFails(TimedOut(s, t).(timers := s.timers[1..]), e, now);
      } else {
        LateFails(Dropped(s), e, now);
      }
    }
  }

  /** A new deadline is safe, whenever the timers are checked, just when it is no
      earlier than the one the thread still waits for. */
  lemma ArmSafeIff(s: Sched, timeout: int)
    requires InRange(s) && s.job.Job? && Sorted(s.timers) && Timely(s)
    ensures InRange(Armed(s, timeout))
    ensures (forall now :: Check(Armed(s, timeout), now).Checked?) <==>
            timeout >= s.threads[s.job.t].tick || !Pending(s, s.job.t)
  {
    var s' := Armed(s, timeout);
    var t := s.job.t;
    ArmedKeeps(s, timeout);
    ArmedTimelyIff(s, timeout);
    hide Check;
    if Timely(s') {
      forall now
        ensures Check(s', now).Checked?
      {
        CheckIsExact(s', now);
      }
    } else {
      InsertIs(s.timers, Timer(timeout, t));
      LateFails(s', Latest(s, t), s.threads[t].tick);
    }
  }

  // -------------------------------------------------------------------------- runs

  datatype Event =
    | Wake(t: nat, ident: Ident)
    | Sleep(t: nat, ident: Ident)
    | Expire(t: nat)
    | Dispatch
    | Arm(timeout: int)
    | Tick(now: int)

  /** What can happen: threads that exist, deadlines for a running one. */
  predicate CanHappen(s: Sched, e: Event) {
    match e
    case Wake(t, _) => t < |s.threads|
    case Sleep(t, _) => t < |s.threads|
    case Expire(t) => t < |s.threads|
    case Arm(_) => s.job.Job?
    case _ => true
  }

  datatype Next = Next(s: Sched) | AssertionFailed

  function Step(s: Sched, e: Event): Next
    requires InRange(s) && CanHappen(s, e)
  {
    match e
    case Wake(t, ident) => Next(Woken(s, t, ident))
    case Sleep(t, ident) => Next(Slept(s, t, ident))
    case Expire(t) => Next(TimedOut(s, t))
    case Dispatch => (match Poll(s) case Dispatched(s') => Next(s') case QueueEmpty => AssertionFailed)
    case Arm(timeout) => Next(Armed(s, timeout))
    case Tick(now) => (match Check(s, now) case Checked(s', _) => Next(s') case EntryLate => AssertionFailed)
  }

  ghost predicate Inv(s: Sched) {
    InRange(s) && Queued(s) && Sorted(s.timers) && Timely(s)
  }

  /** Something can run when the dispatcher is called, and deadlines only grow. */
  ghost predicate Proper(s: Sched, e: Event)
    requires CanHappen(s, e) && InRange(s)
  {
    && (e.Dispatch? ==> Awake(s))
    && (e.Arm? ==> e.timeout >= s.threads[s.job.t].tick || !Pending(s, s.job.t))
  }

  lemma TicksKeep(s: Sched, s': Sched)
    requires InRange(s) && InRange(s') && Timely(s) && s'.timers == s.timers && |s'.threads| == |s.threads|
    requires forall t :: 0 <= t < |s.threads| ==> s'.threads[t].tick == s.threads[t].tick
    ensures Timely(s')
  {
    forall i | 0 <= i < |s.timers|
      ensures Pending(s', s'.timers[i].thread)
    {
      assert Pending(s, s.timers[i].thread);
    }
  }

  lemma StepKeeps(s: Sched, e: Event)
    requires Inv(s) && CanHappen(s, e) && Proper(s, e)
    ensures Step(s, e).Next? && Inv(Step(s, e).s) && |Step(s, e).s.threads| == |s.threads|
  {
    match e
    case Wake(t, ident) =>
      WokenKeeps(s, t, ident);
      TicksKeep(s, Woken(s, t, ident));
    case Sleep(t, ident) =>
      SleptKeeps(s, t, ident);
      TicksKeep(s, Slept(s, t, ident));
    case Expire(t) =>
      TimedOutIs(s, t);
      hide TimedOut;
      TicksKeep(s, TimedOut(s, t));
    case Dispatch =>
      hide Poll;
      PollRuns(s);
      PollFinds(s);
      PollKeeps(s);
      TicksKeep(s, Poll(s).s);
    case Arm(timeout) =>
      hide Armed;
      ArmedThreads(s, timeout);
      ArmedKeeps(s, timeout);
      ArmedTimelyIff(s, timeout);
    case Tick(now) =>
      hide Check;
      CheckIsExact(s, now);
  }

  lemma ArmedThreads(s: Sched, timeout: int)
    requires InRange(s) && s.job.Job?
    ensures |Armed(s, timeout).threads| == |s.threads| && Armed(s, timeout).queue == s.queue
    ensures Armed(s, timeout).log == s.log && Armed(s, timeout).pops == s.pops
    ensures forall t :: 0 <= t < |s.threads| ==> Armed(s, timeout).threads[t].runable == s.threads[t].runable
  {
  }

  /** The state before and after each event of a run. */
  ghost predicate Run(states: seq<Sched>, events: seq<Event>) {
    && |states| == |events| + 1
    && forall i :: 0 <= i < |events| ==>
      InRange(states[i]) && CanHappen(states[i], events[i]) && Step(states[i], events[i]) == Next(states[i + 1])
  }

  /** For one: a thread is woken and dispatched, waits until 10 and then asks for 5
      instead; the check at 10 fails its assertion. */
  lemma EarlierDeadlineFails() returns (states: seq<Sched>)
    ensures Run(states, [Wake(0, NULL), Dispatch, Arm(10), Arm(5)])
    ensures states[0] == Sched([Thread(false, NULL, false, 0)], [], NoJob, 0, [], [], 0)
    ensures InRange(states[4]) && Step(states[4], Tick(10)) == AssertionFailed
  {
    var s0 := Sched([Thread(false, NULL, false, 0)], [], NoJob, 0, [], [], 0);
    var s1 := Sched([Thread(true, NULL, false, 0)], [0], NoJob, 1, [], [], 0);
    var s2, s3, s4 := ArmedFor(0, []), ArmedFor(10, [Timer(10, 0)]), ArmedFor(5, [Timer(5, 0), Timer(10, 0)]);
    hide *;
    WokenOnce(s0, s1);
    ArmedOnce();
    RunFour(s0, s1, s2, s3, s4, Wake(0, NULL), Dispatch, Arm(10), Arm(5));
    states := [s0, s1, s2, s3, s4];
  }

  ghost predicate Goes(s: Sched, e: Event, s': Sched) {
    InRange(s) && CanHappen(s, e) && Step(s, e) == Next(s')
  }

  lemma RunFour(a: Sched, b: Sched, c: Sched, d: Sched, z: Sched, e0: Event, e1: Event, e2: Event, e3: Event)
    requires Goes(a, e0, b) && Goes(b, e1, c) && Goes(c, e2, d) && Goes(d, e3, z)
    ensures Run([a, b, c, d, z], [e0, e1, e2, e3])
  {
    var states, events := [a, b, c, d, z], [e0, e1, e2, e3];
    forall i | 0 <= i < 4
      ensures Goes(states[i], events[i], states[i + 1])
    {
      hide Goes;
    }
    hide InRange, CanHappen, Step;
  }

  lemma WokenOnce(s0: Sched, s1: Sched)
    requires s0 == Sched([Thread(false, NULL, false, 0)], [], NoJob, 0, [], [], 0)
    requires s1 == Sched([Thread(true, NULL, false, 0)], [0], NoJob, 1, [], [], 0)
    ensures Goes(s0, Wake(0, NULL), s1) && Goes(s1, Dispatch, ArmedFor(0, []))
  {
    assert Woken(s0, 0, NULL) == s1;
    assert Poll(s1) == Dispatched(ArmedFor(0, []));
  }

  function ArmedFor(tick: int, timers: seq<Timer>): Sched {
    Sched([Thread(true, NULL, false, tick)], [0], Job(0), 1, timers, [0], 1)
  }

  lemma ArmedOnce()
    ensures var s2, s3, s4 := ArmedFor(0, []), ArmedFor(10, [Timer(10, 0)]), ArmedFor(5, [Timer(5, 0), Timer(10, 0)]);
            && Goes(s2, Arm(10), s3) && Goes(s3, Arm(5), s4)
            && InRange(s4) && CanHappen(s4, Tick(10)) && Step(s4, Tick(10)) == AssertionFailed
  {
    var s2, s3, s4 := ArmedFor(0, []), ArmedFor(10, [Timer(10, 0)]), ArmedFor(5, [Timer(5, 0), Timer(10, 0)]);
    assert InRange(s2) && InRange(s3) && InRange(s4);
    assert Armed(s2, 10) == s3;
    assert Armed(s3, 5) == s4;
    assert s4.timers[1] == Timer(10, 0);
    hide Armed, Check;
    LateFails(s4, Timer(10, 0), 10);
  }

  /** The next event of a run that has not failed cannot fail either, and what
      the steps keep holds all along. */
  lemma {:induction false} RunKeeps(states: seq<Sched>, events: seq<Event>, e: Event)
    requires Run(states, events) && Inv(states[0])
    requires forall i :: 0 <= i < |events| ==> Proper(states[i], events[i])
    requires var s := states[|events|]; CanHappen(s, e) && (InRange(s) ==> Proper(s, e))
    ensures Inv(states[|events|]) && Step(states[|events|], e).Next?
    decreases |events|
  {
    if events == [] {
      StepKeeps(states[0], e);
    } else {
      var n := |events| - 1;
      assert Run(states[..n + 1], events[..n]);
      RunKeeps(states[..n + 1], events[..n], events[n]);
      StepKeeps(states[n], events[n]);
      StepKeeps(states[n + 1], e);
    }
  }

  // ---------------------------------------------------------------------- fairness

  /** Thread `t` can run and its turn is `p` entries away, or it has had its turn. */
  ghost predicate Waits(s: Sched, t: nat, p: int) {
    t < |s.threads| && s.threads[t].runable && 0 <= p < |s.queue| && s.queue[p] == t
  }

  lemma LiveStays(s: Sched, k: nat, t: nat, p: nat)
    requires StaleTo(s, k) && Waits(s, t, p)
    ensures k <= p
  {
  }

  lemma MovesUp(s: Sched, s': Sched, k: nat, t: nat, p: nat)
    requires Waits(s, t, p) && k <= p && s'.queue == s.queue[k + 1..] + [s.queue[k]] && s'.threads == s.threads
    ensures if k < p then Waits(s', t, p - k - 1) else s.queue[k] == t
  {
    if k < p {
      assert s'.queue[p - k - 1] == s.queue[p];
    }
  }

  lemma DispatchFair(s: Sched, t: nat, p: nat)
    requires InRange(s) && Waits(s, t, p) && Poll(s).Dispatched?
    ensures var s' := Poll(s).s;
      && s.log <= s'.log && s.pops <= s'.pops
      && (Waits(s', t, p - (s'.pops - s.pops)) || t in s'.log[|s.log|..])
  {
    hide *;
    PollFinds(s);
    var s' := Poll(s).s;
    var k := s'.pops - s.pops - 1;
    LiveStays(s, k, t, p);
    MovesUp(s, s', k, t, p);
    Appended(s.log, s.queue[k]);
  }

  lemma Appended(log: seq<nat>, t: nat)
    ensures log <= log + [t] && t in (log + [t])[|log|..]
  {
    assert (log + [t])[|log|..] == [t];
  }

  lemma StepFair(s: Sched, e: Event, t: nat, p: nat)
    requires Inv(s) && CanHappen(s, e) && Proper(s, e) && Waits(s, t, p) && !(e.Sleep? && e.t == t)
    ensures Step(s, e).Next?
    ensures var s' := Step(s, e).s;
      && s.log <= s'.log && s.pops <= s'.pops
      && (Waits(s', t, p - (s'.pops - s.pops)) || t in s'.log[|s.log|..])
  {
    StepKeeps(s, e);
    if e.Dispatch? {
      hide Poll, Proper, Queued, Sorted;
      DispatchFair(s, t, p);
    } else {
      StepUndisturbs(s, e, t);
      hide Step, Inv, CanHappen, Proper;
    }
  }

  /** Thread `t` keeps its place in the queue and can still run. */
  ghost predicate Undisturbed(s: Sched, s': Sched, t: nat) {
    && s'.log == s.log && s'.pops == s.pops && s.queue <= s'.queue && |s'.threads| == |s.threads|
    && (t < |s.threads| && s.threads[t].runable ==> s'.threads[t].runable)
  }

  lemma StepUndisturbs(s: Sched, e: Event, t: nat)
    requires Inv(s) && CanHappen(s, e) && Proper(s, e) && !e.Dispatch? && !(e.Sleep? && e.t == t)
    ensures Step(s, e).Next? && Undisturbed(s, Step(s, e).s, t)
  {
    StepKeeps(s, e);
    hide Proper, Queued, Sorted, KeepsComing, Timely;
    match e
    case Wake(u, ident) => WokenKeeps(s, u, ident);
    case Sleep(u, ident) =>
    case Expire(u) =>
      TimedOutIs(s, u);
      hide TimedOut;
    case Arm(timeout) =>
      ArmedThreads(s, timeout);
      hide Armed;
    case Tick(now) =>
      CheckTicks(s, now);
      hide Check;
  }

  lemma CheckTicks(s: Sched, now: int)
    requires Inv(s)
    ensures Check(s, now).Checked? && CheckFrame(s, Check(s, now).s) && RousesDue(s, Check(s, now).s, now)
  {
    CheckIsExact(s, now);
  }

  /** A thread that can run and is not put to sleep gets its turn after no more
      entries than stand before it and its own, whatever else is put to sleep,
      woken, timed out or armed meanwhile. */
  lemma {:induction false} RunFair(states: seq<Sched>, events: seq<Event>, t: nat, p: nat)
    requires Run(states, events) && Inv(states[0]) && Waits(states[0], t, p)
    requires forall i :: 0 <= i < |events| ==> Proper(states[i], events[i]) && !(events[i].Sleep? && events[i].t == t)
    ensures var s, s' := states[0], states[|events|];
      && s.log <= s'.log && s.pops <= s'.pops && Inv(s')
      && (t in s'.log[|s.log|..] || Waits(s', t, p - (s'.pops - s.pops)))
      && (s'.pops - s.pops > p ==> t in s'.log[|s.log|..])
    decreases |events|
  {
    if events != [] {
      var n := |events| - 1;
      var s, m, s' := states[0], states[n], states[n + 1];
      assert Run(states[..n + 1], events[..n]);
      RunFair(states[..n + 1], events[..n], t, p);
      StepKeeps(m, events[n]);
      var d := p - (m.pops - s.pops);
      if t in m.log[|s.log|..] {
        StepGrows(m, events[n]);
        assert m.log[|s.log|..] <= s'.log[|s.log|..];
      } else {
        StepFair(m, events[n], t, d);
        if t in s'.log[|m.log|..] {
          assert s'.log[|s.log|..] == m.log[|s.log|..] + s'.log[|m.log|..];
        }
      }
    }
  }

  lemma StepGrows(s: Sched, e: Event)
    requires Inv(s) && CanHappen(s, e) && Proper(s, e)
    ensures Step(s, e).Next? && s.log <= Step(s, e).s.log && s.pops <= Step(s, e).s.pops
  {
    StepKeeps(s, e);
    match e
    case Wake(u, ident) =>
    case Sleep(u, ident) =>
    case Expire(u) => TimedOutIs(s, u);
    case Dispatch =>
      PollFinds(s);
      hide Poll;
    case Arm(timeout) => ArmedThreads(s, timeout);
    case Tick(now) =>
      CheckIsExact(s, now);
      hide Check;
  }

  // ----------------------------------------------------------------- the code's form

  /** The threads, the run queue and the timer set, changed step by step. */
  class Kernel {
    var s: Sched

    constructor (threads: seq<Thread>)
      requires forall t :: 0 <= t < |threads| ==> !threads[t].runable
      ensures Inv(s) && s.threads == threads && s.queue == [] && s.timers == []
    {
      s := Sched(threads, [], NoJob, 0, [], [], 0);
    }

    method Tsleep(t: nat, ident: Ident)
      requires t < |s.threads|
      modifies this
      ensures s == Slept(old(s), t, ident)
    {
      if s.threads[t].runable {
        s := s.(threads := s.threads[t := s.threads[t].(runable := false, waits := ident)]);
      }
    }

    method Bwakeup(t: nat, wait: Ident)
      requires t < |s.threads|
      modifies this
      ensures s == Woken(old(s), t, wait)
    {
      if s.threads[t].runable {
        return;
      }
      if s.threads[t].waits != wait {
        return;
      }
      s := s.(wakeups := s.wakeups + 1, queue := s.queue + [t]);
      s := s.(threads := s.threads[t := s.threads[t].(waits := NULL, runable := true)]);
    }

    method Timeout(t: nat)
      requires t < |s.threads|
      modifies this
      ensures s == TimedOut(old(s), t)
    {
      s := s.(threads := s.threads[t := s.threads[t].(timedOut := true)]);
      Bwakeup(t, s.threads[t].waits);
    }

    /** Takes stale entries off until a thread can run, or fails its assertion. */
    method Bpoll() returns (ok: bool)
      requires InRange(s)
      modifies this
      ensures ok <==> Poll(old(s)).Dispatched?
      ensures ok ==> s == Poll(old(s)).s
    {
      ok := false;
      var t := 0;
      while !ok
        invariant InRange(s)
        invariant !ok ==> Poll(s) == Poll(old(s))
        invariant ok ==> Poll(old(s)) == Dispatched(s.(queue := s.queue + [t], log := s.log + [t]))
        decreases |s.queue|, !ok
      {
        if s.queue == [] {
          return;
        }
        t := s.queue[0];
        s := s.(queue := s.queue[1..], pops := s.pops + 1, job := Job(t));
        ok := s.threads[t].runable;
      }
      s := s.(queue := s.queue + [t], log := s.log + [t]);
    }

    method Enqueue(timeout: int)
      requires InRange(s) && s.job.Job?
      modifies this
      ensures s == Armed(old(s), timeout)
    {
      var t := s.job.t;
      s := s.(threads := s.threads[t := s.threads[t].(tick := timeout)]);
      s := s.(timers := Insert(s.timers, Timer(timeout, t)));
    }

    /** Goes through the timers that are due or stale. */
    method CheckTimer(now: int) returns (ok: bool, comming: int)
      requires InRange(s)
      modifies this
      ensures ok <==> Check(old(s), now).Checked?
      ensures ok ==> Check(old(s), now) == Checked(s, comming)
    {
      ok, comming := true, now + MAX_WAIT;
      while s.timers != []
        invariant InRange(s) && Check(s, now) == Check(old(s), now)
        invariant ok && comming == now + MAX_WAIT
        decreases |s.timers|
      {
        var head := s.timers[0];
        if head.tick > s.threads[head.thread].tick {
          ok := false;
          return;
        }
        TimedOutIs(s, head.thread);
        hide TimedOut;
        if now >= s.threads[head.thread].tick {
          Timeout(head.thread);
        } else if now < head.tick {
          comming := head.tick;
          return;
        }
        s := s.(timers := s.timers[1..]);
      }
    }

    /** The first deadline in the set, or the longest wait from now. */
    method CommingTime(now: int) returns (comming: int)
      requires Sorted(s.timers)
      ensures forall i :: 0 <= i < |s.timers| ==> comming <= s.timers[i].tick
      ensures if s.timers == [] then comming == now + MAX_WAIT else exists i :: 0 <= i < |s.timers| && s.timers[i].tick == comming
    {
      comming := now + MAX_WAIT;
      if s.timers != [] {
        comming := s.timers[0].tick;
      }
      assert forall i :: 0 < i < |s.timers| ==> Before(s.timers[0], s.timers[i]);
    }
  }
}
