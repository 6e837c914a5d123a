# ubitcore in Dafny

A model of the two BitTorrent programs of ubitcore and proofs about it: the
Kademlia node in `src/` and the C download client in `tools/libbt`. All files
verify together with `dafny verify dfyconfig.toml`.

The model follows the source in form. Objects whose methods update fields are
classes with loops, proved equal to specification functions on plain records;
the properties are lemmas about those functions and about whole runs of them.

| file | what it models |
| --- | --- |
| `Bits.dfy`, `BitSets.dfy` | bytes as bits, and the byte-wise bit set |
| `KadId.dfy` | identifiers, XOR distance, the prefix index and its table |
| `KBucket.dfy`, `KTable.dfy` | buckets with backups, and the routing table |
| `KFind.dfy` | the iterative lookup and its history |
| `Hearing.dfy`, `Contacts.dfy` | what a lookup hears from its packets and settles, and what a contact or failure does to bucket and table |
| `RequestRing.dfy` | the ring of thirty upload requests |
| `Pieces.dfy`, `Swarm.dfy` | the pieces of a torrent and the download engine as a machine |
| `SwarmSafety.dfy`, `Choking.dfy`, `SwarmRuns.dfy` | its invariants, the choke rounds, whole runs and the start |
| `Pipeline.dfy`, `BlockBytes.dfy` | the requests of a round, and the bytes a download holds |
| `News.dfy`, `Handling.dfy` | what is told to peers, and what each message changes |
| `Snubbing.dfy`, `Assignment.dfy` | who is selected when peers are snubbed, and who is asked for a piece it has not announced |
| `SwarmClient.dfy` | the engine's code form: loops over peers, pieces and favourites |
| `FileLayout.dfy` | pieces on disk across files |
| `BtTypes.dfy`, `Bencode.dfy`, `BencStream.dfy` | sorted dictionaries, the bencode printer and parser, their stream code |
| `Fips180.dfy`, `Sha1.dfy` | FIPS 180-4 as a specification, and the code that computes it |
| `BtCodec.dfy` | the lazy reader with one shared cursor |
| `Scheduler.dfy`, `Sleeping.dfy` | the run queue and the timer set |
| `StrBuf.dfy`, `Frames.dfy`, `Streams.dfy`, `PeerStream.dfy` | buffers, message framing, buffered streams, the framing of peer messages |
| `PeerRuns.dfy`, `OddLengths.dfy` | whole connections told beforehand, and lengths that are not ordinary |

## What the code does not do

Some properties one might expect are false of the code; each is replaced by the
exact condition under which it holds.

- Removing a request from the ring is a filter only if nothing but matches
  follows the second match (`RequestRing.RemovalIsFilterIff`, for
  example `RequestRing.RemovalIsNoFilter`).
- A peer can end the program, or make it touch memory outside a bit set: with a
  bit field of more than (npieces + 7) / 8 bytes, whose length `kBitSet_readBytes`
  asserts, or with a block number outside the bytes allocated for a set, which is
  not checked at all. In the engine these are the only ways
  (`SwarmRuns.RequestsStayInside`, for example `SwarmRuns.OversizeKills` and
  `SwarmRuns.StrayKills`). Before that, in the framing, a negative message length
  that is read as the first one ends it (`OddLengths.NegativeKills`).
- After a keep-alive `recv_peermsg` reports nothing more, so a whole message may
  stay in the buffer until the socket is readable again. On a stream without the
  lengths of the next item this is the only way for a message to be left behind,
  and `PeerRuns.DrivenTakesAllIff` says just when it happens
  (`PeerRuns.KeepAliveHidesNext` for one).
- What becomes of a header with one of the four highest lengths, a higher one or a
  negative one can hang on how the socket cuts the stream: on whether an answer is
  missing between the end of the message before it and its own. `OddLengths.OddHeaderIff`
  says when it is taken, refused or fatal; `OddLengths.MinusFiveHangsOnPause` and
  `OddLengths.LongestHangsOnPause` each give one stream and two cuts.
- A message of an unknown kind closes the connection only if the error noted last
  is not a missing answer (`PeerRuns.DrivenIsForetold`, for example
  `OddLengths.UnknownHangsOnPause`).
- A query that validates offers a node that never answered just when it has failed
  exactly twice, and not before (`Contacts.StandingOf`).
- After a bad hash the requests go round the piece: behind its end they begin again
  at the front, within one round (`Pipeline.AskDoes`).
- Near the end a peer can be asked for a piece it has not announced
  (`Assignment.RequestsUnannouncedIff`, for example
  `Assignment.CrowdedPieceIsShared`).
- A deadline earlier than the one a thread still waits for makes a later check
  fail its assertion (`Scheduler.ArmSafeIff`, for example
  `Scheduler.EarlierDeadlineFails`).
- The lazy reader does not see a string that ends the text
  (`BtCodec.ScanIsExact`).
- Reading and printing back changes a bencoded file unless it is of the strict
  grammar (`Bencode.ReprintIff`): the parser takes leading zeros, empty numbers,
  a NUL for a colon, numbers above 2^63-1 and unsorted keys.

`b_concurrency` of a lookup may become negative when replies come after a
time-out; only its upper bound is an invariant. A candidate can lose its host to
an earlier one that waits beyond the bound and is never asked; the result on
lookups names this case. An identifier may be in a bucket twice, so the table
results speak of slots.

## Model

| member | source | states |
|---|---|---|
| Hearing.LookupSettlesAll | src/btdht/kfind.cc:54-179 | when a lookup is over, every candidate among the items it began with and the nodes named by the packets it read, up to the distance of the eighth closest node that answered one of them, was asked under its identifier, or its host had gone to an earlier candidate that was asked or still waits farther off; with fewer than eight answers this holds of every candidate; nobody else was asked; the result is the number of non-empty packets read |
| Hearing.RunHears | src/btdht/kfind.cc:54-179 | over any sequence of calls the candidates heard of are the items it began with and, in order, the nodes of the replies with an identifier that it read; the responders are the senders of these; and the count is that of the non-empty packets |
| Hearing.CallHears | src/btdht/kfind.cc:109-179 | one call splits its inbox into what it reads and what is left; the candidates, responders and count grow by just what the packets read say; it returns the count, or sleeps with queries in flight until five seconds after the last one, the packets read up to an empty one |
| Lookups.LookupIsComplete | src/btdht/kfind.cc:70-171 | when a call returns a result, every candidate ever heard of within the distance of the eighth closest responder was asked under its identifier, or its host had been taken by an earlier candidate that was asked itself or still waits beyond that distance; with fewer than eight responders this holds of every candidate and the frontier is empty; with eight or more, the bound is the farthest of exactly the eight closest |
| Lookups.AskedAtMostOnce | src/btdht/kfind.cc:31-37 | in every run from a constructor, no identifier and no host is asked twice, nothing asked is in the frontier again, and at most three queries are counted as in flight |
| Lookups.CalledKeeps | src/btdht/kfind.cc:109-179 | from any of the three states a call keeps every invariant and only extends the history; a call that ends the lookup leaves nothing worth asking |
| Contacts.ContactIsFound | src/btdht/kbucket.cc:133-175 | after a contact is inserted a query for its identifier finds it iff its bucket had room: its identifier was known, a slot was free, or a node was bad; one that answered is found by a validating query too for fifteen minutes |
| Contacts.NewContact | src/btdht/kbucket.cc:144-150 | with a new identifier and a free slot the contact is appended as a fresh node, touched iff it answered, and nothing before it changes |
| Contacts.KnownContact | src/btdht/kbucket.cc:137-143 | a known identifier gives its first slot the new address, touched iff contacted, and changes no other slot |
| Contacts.ReplacingContact | src/btdht/kbucket.cc:152-158 | in a full bucket the first bad node, and only that slot, gives way to the contact |
| Contacts.SpareContact | src/btdht/kbucket.cc:159-174 | with no bad node either the nodes stay; if some node is in doubt the contact goes to the backups and pings are called for, otherwise the backups are emptied |
| KTables.FoundIsNearOptimal | src/btdht/ktable.cc:70-102 | a query returns min(8, eligible) slots, found and left out together are all eligible slots, and everything returned is less than twice as far as anything left out |
| KTables.InsertKeeps | src/btdht/ktable.cc:105-136 | an insertion keeps every node in the bucket of its shared prefix, and `b_nbucket0` is again the least index with at most eight nodes from there on, never smaller than before, and at most `b_nbucket1` |
| KTables.FailureKeepsTable | src/btdht/ktable.cc:47-56 | a failed contact keeps the same table invariant |
| KTables.StepKeeps | src/btdht/ktable.cc:47-136 | a contact or a failure keeps the table invariant |
| KTables.Run | src/btdht/ktable.cc:47-136 | the table invariant holds after every run of contacts and failures from the empty table |
| KTables.VisitedIsEverything | src/btdht/ktable.cc:78-97 | the order in which buckets are visited meets every eligible slot exactly once |
| KTables.VisitedByPrefix | src/btdht/ktable.cc:78-97 | slots visited later share no longer a prefix with the target than earlier ones, once the first eight are behind |
| Pipeline.AskDoes | tools/libbt/src/peer.c:1456-1494 | the requests of a round begin where the piece is to go on, follow each other without gap or overlap up to its end (only after a bad hash do they go on at the front), are sent and queued in this order and nothing else is; the piece goes on where the last one ends; the round stops when the window is full or the end is reached with something expected |
| Pipeline.NextRequestIs | tools/libbt/src/peer.c:1457-1493 | a request starts where the piece is to go on; at its end, at 0 after a bad hash and otherwise at the least missing byte; and is for 16384 bytes or what is left |
| News.RoundTells | tools/libbt/src/peer.c:1578-1619 | a round of favourites sends one message, in peer order, to each peer whose choke changes and nothing else; the message is what is so from then on: the selected are unchoked and the other GOOD peers choked |
| News.RequestAnswered | tools/libbt/src/peer.c:734-764 | a request from an unchoked peer is queued, if it fits, when the piece is complete and the peer lacks it; otherwise the peer is choked, its queue emptied, and told so; a choked peer is ignored |
| News.InterestTold | tools/libbt/src/peer.c:1300-1316 | our interest in a peer is that it has a piece wanted and not there; it is told exactly when it changed, and to what |
| News.NotifyTells | tools/libbt/src/peer.c:800-824 | when a piece is finished, every peer still GOOD afterwards has been told of it once, in list order, and nobody who was not GOOD before |
| SwarmRuns.RequestsStayInside | tools/libbt/src/peer.c:1421-1497 | in every run each peer has at most ten requests outstanding, all inside the piece it works on, a choking peer has no piece and none, no request was ever sent to a choking peer, and the run ends early iff a GOOD peer sent a bit field with more bytes than there is room for, or a have, or unchoked a request, with a number outside the bit sets |
| SwarmRuns.OversizeKills | tools/libbt/src/peer.c:724-725 | for one: a peer joins, completes its handshake and sends such a bit field |
| SwarmRuns.StrayKills | tools/libbt/src/peer.c:701-707 | for another: it tells of a block outside the bit sets, whose bit the code would set past the end |
| SwarmRuns.AtMostFourDownload | tools/libbt/src/peer.c:1578-1619 | in every run at most four GOOD peers are unchoked |
| SwarmRuns.StepKeeps | tools/libbt/src/peer.c:596-886 | every event (message, round of favourites, connection, loss of a peer) keeps the whole invariant, but for an oversize bit field and a stray block number, which end the run and change nothing else |
| SwarmRuns.RunKeeps | tools/libbt/src/peer.c:596-886 | along every run whose piece hashes stay the same the invariant holds of the state, the mark of its end aside, and the run has ended iff an oversize bit field or a stray block number was handled |
| Choking.SelectionIsStableTop | tools/libbt/src/peer.c:1533-1562 | with nobody snubbed, a GOOD peer is selected iff fewer than four come before it in the stable order (interested first, rate descending), and its place among the favourites is its place in that order |
| Snubbing.SelectionIsOrder | tools/libbt/src/peer.c:1533-1600 | snubbed or not, a GOOD peer is selected iff fewer than four GOOD peers come before it, and has the place they leave; one comes before another if it was there first and is not overtaken, or overtakes it by going in front of it or of somebody before it |
| Choking.FavoritesDecide | tools/libbt/src/peer.c:1578-1619 | after a round, snubbing or not, a GOOD peer is unchoked iff it was selected, and the bound of four uploads holds |
| RequestRing.RemovalIsFilterIff | tools/libbt/src/peer.c:487-510 | removing a request drops exactly the matching ones iff no other request follows the second match; one match at most is always such a case |
| RequestRing.RemovalKeepsOrder | tools/libbt/src/peer.c:493-506 | whatever the matches, what is left is a subsequence of what was there |
| RequestRing.UntidyRemoval | tools/libbt/src/peer.c:493-506 | whenever another request follows the second match, the request removed is still in the queue |
| RequestRing.RemovalIsNoFilter | tools/libbt/src/peer.c:493-506 | a concrete queue, two equal requests with another one behind, for which removal is not a filter |
| PeerStream.DrivenTakesFirst | tools/libbt/src/peer.c:605-884 | however the socket cuts the stream, a client run as long as its socket answers takes the first of the messages in all the bytes offered, and, unless the connection ends, has read every byte and taken all of them iff none waits whole in the buffer |
| PeerRuns.DrivenIsForetold | tools/libbt/src/peer.c:605-884 | for all bytes, all sequences of `recv` answers (data, empty, missing, failed) and all handlers, what a connection takes and how it ends is what is foretold message by message from the bytes, the places of the answers without bytes and the place of the last answer |
| PeerRuns.OnlyLullsMatter | tools/libbt/src/peer.c:605-884 | two ways to cut the same bytes lead to the same messages and ending if their answers without bytes and their last answer come at the same places |
| PeerRuns.DrivenTakesAllIff | tools/libbt/src/peer.c:605-884 | when a socket that never fails, and never has more than ten empty answers in a row, brings a stream whose lengths are between 0 and the highest less four, in pieces of any size, and handlers report no error, the connection lasts and every message is taken iff, among the messages buffered as the last answer comes, no keep-alive has another behind it |
| PeerRuns.KeepAliveHidesNext | tools/libbt/src/peer.c:626-631 | for one: a keep-alive and a one-byte message that come together, of which only the keep-alive is taken |
| PeerRuns.CutsDoNotMatter | tools/libbt/src/peer.c:605-884 | two such sockets that bring the same stream in different cuts, neither with a keep-alive in front of another message as the last answer comes, lead to the same messages, all of them, and the same rest |
| OddLengths.OddHeaderIff | tools/libbt/src/peer.c:861-878 | on such a socket, unless a keep-alive with the last answer stands before it, the first header of another length is fatal, refused or taken, each iff a condition on its length and on whether it is looked at from behind a message: it is iff the message before it has a body and no answer is missing while it is read |
| OddLengths.OddHeaderWaits | tools/libbt/src/peer.c:626-631 | when a keep-alive that comes with the last answer stands before it, such a header is not looked at: the connection lasts and it waits |
| OddLengths.NegativeKills | tools/libbt/src/peer.c:636-636 | a stream that begins with a negative length ends the program |
| OddLengths.MinusFiveHangsOnPause | tools/libbt/src/peer.c:861-878 | one stream, two cuts: the length -5 behind a message closes the connection, and after a missing answer ends the program |
| OddLengths.LongestHangsOnPause | tools/libbt/src/peer.c:861-878 | one stream, two cuts: the longest message behind another is refused, and after a missing answer taken |
| OddLengths.UnknownHangsOnPause | tools/libbt/src/peer.c:848-850 | a message of an unknown kind closes a connection, but not after a missing answer |
| Frames.RefusedThoughFineIff | tools/libbt/src/peer.c:866-875 | the two tests of a header differ, refused behind a message and allowed as the first, iff its length is one of the four highest |
| Frames.PassedThoughBadIff | tools/libbt/src/peer.c:866-875 | the look ahead lets a header pass that will not be taken iff its length is between -4 and -1 |
| PeerStream.SentAreTaken | tools/libbt/src/peer.c:892-915 | what one side has written and the other is offered in whatever pieces comes out as the first of the messages sent, and as all of them once everything is written, the connection lasts and none waits whole |
| BlockBytes.BytesAreWhatCame | tools/libbt/src/segmenter.c:258-312 | over every run from the start of a download a place of a partial piece is marked as filled iff an accepted block has come for it, and then holds the byte that came last; a piece on disk has all its bytes, each the one that came last; and bytes that came for a piece are held there or on disk |
| BlockBytes.RunHolds | tools/libbt/src/segmenter.c:258-312 | the same for one piece, from any start without pieces |
| BlockBytes.WriteBufDoes | tools/libbt/src/segmenter.c:258-312 | a block changes just its bytes of the piece and marks just those places; a piece that is full, or was before, is complete iff its hash is right, and its bytes then go to disk, the count of bytes downloaded grows and that of bytes left shrinks by its length; otherwise it stays and is known to have been full |
| SwarmRuns.PiecesAreAccountedFor | tools/libbt/src/segmenter.c:258-312 | in every run partial pieces have distinct numbers, none is completed, every current piece is among them, completed pieces passed their hash with the bytes written, a completed piece is requested or no longer wanted, `left` plus the lengths of completed pieces is `tsize`, and once every piece is complete no peer has a current piece, which `btget.c:577` asserts |
| SwarmRuns.BytesToCome | tools/libbt/src/segmenter.c:79-90 | the completed pieces never hold more bytes than the torrent, and hold all of them iff every piece is complete |
| FileLayout.PieceRoundTrip | tools/libbt/src/segmenter.c:315-373 | after any sequence of piece writes in any order, reading any part of a completed piece gives back exactly the bytes last written for it |
| FileLayout.WriteStores | tools/libbt/src/segmenter.c:214-251 | writing a piece puts every byte of it into the file and place it belongs to |
| FileLayout.WriteElsewhere | tools/libbt/src/segmenter.c:214-251 | writing a piece leaves the bytes of every other piece as they are |
| FileLayout.ReadsStored | tools/libbt/src/segmenter.c:315-373 | reading bytes that the contiguous files hold gives them back whole |
| Bencode.RoundTripIff | tools/libbt/src/benc.c:33-326 | an object survives printing and parsing, with exactly its text consumed, iff its numbers are in 0..2^63-1, its strings and keys under 8 MiB and its dictionaries in strict order, all the way down |
| Bencode.ParsePrint | tools/libbt/src/benc.c:293-326 | the text of such an object, standing anywhere in a stream, is parsed to it and exactly consumed, and the strict grammar accepts it |
| Bencode.ParsedIsPrintable | tools/libbt/src/benc.c:293-326 | whatever is parsed is such an object |
| Bencode.StrictParses | tools/libbt/src/benc.c:265-326 | text of the strict grammar (plain numbers, proper break characters, increasing keys) is parsed and printed back byte for byte |
| Bencode.ReprintIff | tools/libbt/src/context.c:672-676 | a parsed object prints as the bytes it was read from iff those bytes are of the strict grammar |
| Bencode.LeadingZeroIsLost | tools/libbt/src/context.c:672-676 | a concrete text, a number with a zero in front, that is not printed back |
| Bencode.ValueIsItsBytes | tools/libbt/src/context.c:672-676 | in a strict torrent file each value of the dictionary, the hashed `info` among them, prints as the very bytes that follow its key |
| Sha1.DigestOf | tools/libbt/src/sha1.c:112-175 | for every split of a message into update calls whose length and place in the buffer do not sum to 2^32 or more, the digest is the one FIPS 180-4 defines for the whole message |
| Sha1.Transform | tools/libbt/src/sha1.c:45-95 | the rolling sixteen words and the in-place rounds compute the block function of FIPS 180-4 section 6.1.2 |
| Sha1.CountIsBits | tools/libbt/src/sha1.c:118-120 | the two 32-bit counters with the carry as the code takes it hold the length in bits modulo 2^64 |
| Sha1.BranchRightIff | tools/libbt/src/sha1.c:121-121 | the test on the unsigned sum takes the right branch iff the sum does not wrap |
| BtCodec.LoadedAgrees | src/btcodec.cc:200-205 | on loaded text that begins with a printed tree, every chain of look-ups from the root gives what the full parse has at that path |
| BtCodec.LoneStringUnseen | src/btcodec.cc:304-307 | any string that is the whole text is not seen |
| BtCodec.ChainIsDescend | src/btcodec.cc:47-130 | any chain of `bget(name)` and `bget(index)` from an entity finds the first match at each step, or nothing where the tree has nothing |
| BtCodec.ScanIsExact | src/btcodec.cc:260-311 | scanning the text of a tree moves the cursor by exactly its length and gives the entity for it; the one exception, exactly, is a string that ends the text |
| Scheduler.CheckIsExact | src/btimerd.cc:57-77 | with timely entries the assertion holds, exactly the threads whose latest waited-for deadline has passed are timed out and woken, exactly the entries still to come are kept, and the result is the smallest of them or now+36000 |
| Scheduler.EarlierDeadlineFails | src/btimerd.cc:79-89 | a concrete run from a new thread: woken, dispatched, it waits until 10 and then asks for 5, and the check at 10 fails its assertion |
| Scheduler.ArmSafeIff | src/btimerd.cc:79-89 | a new deadline can never make a later check fail its assertion iff it is no earlier than the one the thread still waits for |
| Scheduler.LateFails | src/btimerd.cc:66-66 | an entry later than its thread's deadline does fail the assertion once its time has come |
| Scheduler.ArmedTimelyIff | src/btimerd.cc:79-89 | setting a deadline keeps the entries timely iff it is no earlier than the one waited for, or none is |
| Scheduler.RunFair | src/bthread.cc:84-98 | along every run, a thread that can run and is not put to sleep is dispatched after no more pops than its place in the queue plus one, whatever else sleeps, wakes, expires or is armed |
| Scheduler.RunKeeps | src/bthread.cc:36-98 | along every run every runnable thread is queued, timers are ordered and timely, and no assertion fails |
| Scheduler.PollRuns | src/bthread.cc:84-98 | the dispatcher ends without its assertion whenever some thread can run |
| Scheduler.PollFinds | src/bthread.cc:84-98 | the dispatcher fails iff all entries are stale; otherwise it drops just the stale entries before the first live one and puts that one last |
| BitSets.PickBlock | tools/libbt/src/bitset.c:199-229 | -1 iff no block is unrequested, offered and wanted, otherwise the chosen one of the candidates, so its DIE_UNLESS cannot fire |
| BitSets.ZeroBytesIffEmpty | tools/libbt/src/bitset.c:109-117 | all whole bytes and the unpadded part of the last one are zero iff the set is empty, whatever the pad bits |
| Lookups.KeptIsClosest | src/btdht/kfind.cc:76-85 | keeping a responder leaves exactly the min(8, n) smallest responder distances |
| Lookups.RespondKeeps | src/btdht/kfind.cc:70-85 | a responder keeps all invariants and never moves the bound outwards |
| Lookups.LearnKeeps | src/btdht/kfind.cc:95-103 | a node heard of keeps all invariants, joining the frontier only if identifier and host are new and it is within the bound |
| Lookups.ExpandKeeps | src/btdht/kfind.cc:54-106 | a whole reply keeps all invariants |
| Lookups.DrainKeeps | src/btdht/kfind.cc:147-153 | reading replies keeps all invariants and counts down the queries in flight |
| Lookups.AskKeeps | src/btdht/kfind.cc:132-141 | asking the closest candidate keeps all invariants |
| Lookups.FillKeeps | src/btdht/kfind.cc:126-142 | filling up to three queries keeps all invariants |
| Lookups.StartInv | src/btdht/kfind.cc:21-45 | the constructor establishes the invariants |
| Lookups.RunTarget | src/btdht/kfind.cc:21-179 | a run never changes its target |
| Lookups.KFind.constructor | src/btdht/kfind.cc:21-45 | builds the start state from the items given, burning identifiers and hosts in order |
| Lookups.HeardIsTried | src/btdht/kfind.cc:95-103 | when the frontier is exhausted, every candidate within the bound was asked under its identifier or lost its host to one that was asked or still waits |
| Lookups.JoinedIsUsed | src/btdht/kfind.cc:95-103 | whoever joined the frontier was then asked or waits beyond the bound |
| Lookups.LearnJoins | src/btdht/kfind.cc:95-103 | a node heard of takes a host only by joining the frontier, and whoever joined still waits or was asked |
| Lookups.KFind.HearOf | src/btdht/kfind.cc:99-103 | burns the identifier, then the host, and adds to the frontier only if both are new |
| Lookups.KFind.BurnId | src/btdht/kfind.cc:100-100 | burns the identifier and tells whether it was new |
| Lookups.KFind.Join | src/btdht/kfind.cc:101-102 | burns the host and adds to the frontier |
| Lookups.KFind.HearNode | src/btdht/kfind.cc:95-103 | skips a node beyond the bound |
| Lookups.KFind.HearNodes | src/btdht/kfind.cc:87-105 | the loop over the nodes of a reply |
| Lookups.KFind.Keep | src/btdht/kfind.cc:77-82 | inserts a distance and drops the ninth |
| Lookups.KFind.Respond | src/btdht/kfind.cc:70-85 | one responder: in-flight entry erased, distances kept, bound set at eight |
| Lookups.KFind.KfindExpand | src/btdht/kfind.cc:54-106 | one reply; without an identifier only the count of replies changes |
| Lookups.KFind.FindNode | src/btdht/kfind.cc:133-140 | moves the first candidate in flight and counts it |
| Lookups.KFind.SendRequests | src/btdht/kfind.cc:126-142 | the loop that asks while fewer than three are in flight and the first candidate is within the bound |
| Lookups.KFind.ReadReplies | src/btdht/kfind.cc:148-153 | the loop over replies up to an empty one |
| Lookups.KFind.CheckTimeout | src/btdht/kfind.cc:155-162 | five seconds without a query sent empties the in-flight set and the count |
| Lookups.KFind.Collect | src/btdht/kfind.cc:146-172 | state 2: read, time out, then restart, sleep or end |
| Lookups.KFind.Turn | src/btdht/kfind.cc:121-177 | one turn of the switch computes the specified call and decreases the lexicographic measure (packets, candidates, sends since the restart, phase) |
| Lookups.KFind.Vcall | src/btdht/kfind.cc:109-179 | the whole call computes the specified call, keeps the invariant, and terminates by that measure |
| Hearing.LearnDoes | src/btdht/kfind.cc:95-103 | a node beyond the bound is passed over; otherwise its identifier is used up, and if that was new its host, and if that was new too it waits in the frontier at its distance |
| Hearing.RespondDoes | src/btdht/kfind.cc:70-85 | a responder leaves the queries in flight and is kept if it is among the eight closest; from eight on the farthest of these is the bound |
| Hearing.ExpandHears | src/btdht/kfind.cc:54-106 | a reply with an identifier adds its sender and its nodes, in order; one without adds only to the count |
| Hearing.DrainHears | src/btdht/kfind.cc:147-153 | a drain reads up to the first empty packet or the end, hears what these packets say, and counts each non-empty one as a query answered |
| Hearing.FillAsks | src/btdht/kfind.cc:126-142 | the candidates asked are the nearest, in order, until three queries are in flight or nobody within the bound is left; they are moved from the frontier, counted, and the last one sets the clock |
| Hearing.AskNearest | src/btdht/kfind.cc:132-140 | the nearest candidate is asked and is in flight from then on |
| Hearing.GivesUp | src/btdht/kfind.cc:155-162 | five seconds after the last query nothing is in flight any more; earlier nothing changes |
| Hearing.SleepsWhenBusy | src/btdht/kfind.cc:163-171 | a call sleeps only with three queries in flight, or with one at least and nobody left worth asking, until five seconds after the last query |
| Hearing.CallSettles | src/btdht/kfind.cc:109-179 | the result on settled candidates for one call from any state with the invariants, in terms of the history it leaves |
| KadId.OrderIsNumeric | src/btdht/kutils.cc:29-37 | the byte order of distances is the order of the numbers they denote |
| KadId.DistNamesId | src/btdht/kutils.cc:21-27 | two identifiers at the same distance from a target are equal |
| KadId.XorInjective | src/btdht/kutils.cc:21-27 | XOR with a fixed identifier is injective |
| KadId.TableCountsZeros | src/btdht/ktable.cc:16-38 | the 256-entry table gives the number of leading zero bits of a byte |
| KadId.Bit1StartAt | src/btdht/ktable.cc:16-45 | the index of the first one bit of an identifier, 160 for zero |
| KadId.Bit1IndexOf | src/btdht/ktable.cc:58-67 | the length of the common prefix with the table identifier |
| KadId.IndexIsCommonPrefix | src/btdht/ktable.cc:58-67 | that index is the number of leading bits that agree, and the next bit differs |
| KadId.LzBrackets | src/btdht/ktable.cc:16-45 | a value whose first one bit is at n lies between two adjacent powers of two, and only zero has none |
| KadId.LzUltrametric | src/btdht/ktable.cc:40-44 | of two XORs with different first one bits, their XOR has the earlier one; with the same, a later one |
| KadId.IndexSeenFrom | src/btdht/ktable.cc:58-102 | how the prefix with the target follows from the bucket a node is in |
| KadId.LongerPrefixIsNear | src/btdht/ktable.cc:78-97 | a node with at least as long a common prefix is less than twice as far |
| KTables.EmptyTableInv | src/btdht/ktable.cc:151-157 | an empty table has the invariant |
| KTables.KTable.constructor | src/btdht/ktable.cc:151-157 | the empty table of 160 buckets |
| KTables.KTable.ContactBucket | src/btdht/ktable.cc:121-121 | hands a contact to its own bucket only |
| KTables.KTable.AdvanceTail | src/btdht/ktable.cc:124-135 | the two counting loops compute the least tail start |
| KTables.KTable.NoteIndex | src/btdht/ktable.cc:113-119 | the table size grows to the bucket touched |
| KTables.KTable.InsertNode | src/btdht/ktable.cc:105-136 | an insertion computes the specified table; the own identifier is ignored |
| KTables.KTable.FailedContact | src/btdht/ktable.cc:47-56 | a failure reaches only a bucket in use |
| KTables.KTable.Gather | src/btdht/ktable.cc:80-97 | appends what a bucket offers, never beyond eight |
| KTables.KTable.GatherUp | src/btdht/ktable.cc:78-88 | the upward loop |
| KTables.KTable.FindNodes | src/btdht/ktable.cc:70-102 | a query computes the specified answer |
| Buckets.ContactKeeps | src/btdht/kbucket.cc:133-175 | a contact keeps every node in the bucket of its prefix, adds at most one node, and never evicts one that is not bad |
| Buckets.BackupKeeps | src/btdht/kbucket.cc:101-130 | an update of the backups keeps every node in the bucket of its prefix |
| Buckets.PromoteKeeps | src/btdht/kbucket.cc:68-81 | a promoted backup belongs to the bucket |
| Buckets.FailureKeeps | src/btdht/kbucket.cc:43-83 | a failure keeps the number of nodes: the failed one is replaced by a backup of the same bucket or stays |
| Buckets.SlotOf | src/btdht/kbucket.cc:101-175 | the first slot that holds an identifier |
| Buckets.BadSlot | src/btdht/kbucket.cc:151-158 | the first slot with a bad node |
| Buckets.Stalest | src/btdht/kbucket.cc:117-128 | the slot of the backup seen longest ago |
| Buckets.Freshest | src/btdht/kbucket.cc:70-77 | the slot of the backup seen most recently |
| Buckets.Without | src/btdht/kbucket.cc:54-67 | the backups without an identifier, in order |
| Buckets.Offered | src/btdht/kbucket.cc:86-98 | what a bucket offers a query, in slot order |
| Buckets.KBucket.constructor | src/btdht/kbucket.cc:21-27 | an empty bucket |
| Buckets.KBucket.UpdateBackup | src/btdht/kbucket.cc:101-130 | updates or adds a backup in place |
| Buckets.KBucket.UpdateContact | src/btdht/kbucket.cc:133-175 | updates a node, replaces a bad one, or hands the contact to the backups |
| Buckets.KBucket.Compact | src/btdht/kbucket.cc:54-67 | drops an identifier and emptied slots from the backup array in place |
| Buckets.KBucket.PromoteBackup | src/btdht/kbucket.cc:68-81 | copies the freshest backup into the failed slot |
| Buckets.KBucket.FailedContact | src/btdht/kbucket.cc:43-83 | a failure in place; an identifier present in both arrays is copied back |
| Buckets.KBucket.FindNodes | src/btdht/kbucket.cc:86-98 | copies the eligible nodes |
| Contacts.StandingOf | src/btdht/knode.cc:26-97 | a node that answered is bad after three failures, another after two; it is in doubt when not bad and unheard or silent for more than fifteen minutes; hence a validating query takes those heard from in time and, of the unheard, those with exactly two failures |
| Contacts.RoomIsTaken | src/btdht/kbucket.cc:132-175 | with room for it the contact is in a slot afterwards, and without failures and seen now if it answered |
| Contacts.KnownBackup | src/btdht/kbucket.cc:105-110 | a known backup is touched iff contacted and keeps its address; no other slot changes |
| Contacts.NewBackup | src/btdht/kbucket.cc:111-116 | a new backup is appended as a fresh node while there are fewer than eight |
| Contacts.NinthBackup | src/btdht/kbucket.cc:117-129 | a ninth takes the slot of the stalest, and no other, if it answered or that one never did |
| Contacts.StalestIs | src/btdht/kbucket.cc:117-124 | the stalest is the first of those seen longest ago, or slot 0 when all were seen now or later |
| Contacts.FreshestIs | src/btdht/kbucket.cc:70-77 | the freshest is the first of those seen last, or slot 0 when none was ever seen |
| Contacts.WithoutJoins | src/btdht/kbucket.cc:54-67 | what stays of the backups is decided slot by slot, in order |
| Contacts.WithoutOne | src/btdht/kbucket.cc:54-67 | a slot stays iff it is not emptied and not the one that failed |
| Contacts.FailureCounts | src/btdht/kbucket.cc:42-53 | a failure is counted once, in the first slot with the identifier, when the node was heard from within fifteen minutes or no backup is left |
| Contacts.FailureReplaces | src/btdht/kbucket.cc:68-81 | a node silent for more than fifteen minutes gives way to the freshest backup left, whose slot is emptied, and no other slot changes |
| Contacts.FailureOfOther | src/btdht/kbucket.cc:42-67 | a failure of an identifier not in the slots only clears it and the emptied slots from the backups |
| Contacts.OfferedOne | src/btdht/kbucket.cc:85-98 | a node is offered with its identity, address and port, and to a validating query iff it is heard from within fifteen minutes with fewer than three failures or unheard with exactly two |
| Contacts.OfferedJoins | src/btdht/kbucket.cc:85-98 | what a bucket offers is decided slot by slot, in order |
| Contacts.InsertDoes | src/btdht/ktable.cc:105-136 | a contact changes only the bucket of its prefix, and the table's own identifier nothing; the table then spans that bucket |
| Contacts.FailDoes | src/btdht/ktable.cc:47-56 | a failure changes only the bucket of its prefix, and nothing when that is not in use |
| Contacts.BucketIsFound | src/btdht/ktable.cc:70-102 | an eligible node of the target's bucket is found |
| Contacts.FoundInBucket | src/btdht/ktable.cc:70-102 | what is found with the target's identifier is a node of that bucket |
| RequestRing.RequestQueue.constructor | tools/libbt/src/peer.c:209-209 | an empty ring, as in the zeroed record of a new peer |
| RequestRing.RequestQueue.QueueRequest | tools/libbt/src/peer.c:460-475 | appends, or gives -1 for an overlong request and -2 for a full ring (29 held), with nothing changed |
| RequestRing.RequestQueue.ClearRequestQueue | tools/libbt/src/peer.c:477-483 | empties the ring |
| RequestRing.RequestQueue.DequeueRequest | tools/libbt/src/peer.c:512-527 | takes off the oldest request, or nothing |
| RequestRing.RequestQueue.RemoveQueuedRequest | tools/libbt/src/peer.c:487-510 | returns the number of matches and shortens the queue by it; the queue becomes the specified one across the wrap |
| RequestRing.RequestQueue.ShiftDown | tools/libbt/src/peer.c:493-506 | the loop that copies slots down over matches |
| RequestRing.RemovedAt | tools/libbt/src/peer.c:493-506 | where each remaining request was before |
| RequestRing.SecondMatch | tools/libbt/src/peer.c:493-506 | the place of the second match |
| SwarmSafety.AskKeeps | tools/libbt/src/peer.c:1456-1494 | filling the window keeps all invariants |
| SwarmSafety.AskOneKeeps | tools/libbt/src/peer.c:1457-1493 | each request asked lies inside the piece and goes to a peer that does not choke |
| Assignment.RequestsUnannouncedIff | tools/libbt/src/peer.c:1335-1490 | the requests of a round name a piece their receiver has not announced iff it worked on such a piece before, or has none, pieces are shared and the first partial piece that it has or that four peers work on is one it does not have |
| Assignment.AssignedUnannouncedIff | tools/libbt/src/peer.c:1346-1372 | a peer without a piece is given one it has not announced iff that last condition holds |
| Assignment.CrowdedPieceIsShared | tools/libbt/src/peer.c:1354-1364 | for one: four of five peers work on the only partial piece, and the fifth is given it without having it |
| Assignment.AskNames | tools/libbt/src/peer.c:1456-1494 | the loop asks for the piece the peer works on and for no other |
| SwarmSafety.AssignBlockKeeps | tools/libbt/src/peer.c:1335-1373 | a piece assigned is wanted and not requested, hence not completed |
| SwarmSafety.SendRequestKeeps | tools/libbt/src/peer.c:1421-1497 | the whole of a request round keeps all invariants |
| SwarmSafety.CancelAllKeeps | tools/libbt/src/peer.c:806-814 | cancelling empties the queue of a peer and asks for nothing |
| SwarmSafety.NotifyOneKeeps | tools/libbt/src/peer.c:804-823 | telling a peer of a piece frees it from that piece and gives it another |
| SwarmSafety.NotifyKeeps | tools/libbt/src/peer.c:804-823 | so does the loop over all peers |
| SwarmSafety.RecvPieceKeeps | tools/libbt/src/peer.c:765-828 | a block received keeps all invariants, finished piece or not |
| SwarmSafety.ReleaseKeeps | tools/libbt/src/peer.c:654-663 | releasing a piece keeps all invariants |
| SwarmRuns.RecvChokeKeeps | tools/libbt/src/peer.c:648-672 | a choke frees the piece and empties the queue |
| SwarmRuns.RecvUnchokeKeeps | tools/libbt/src/peer.c:673-686 | an unchoke keeps the invariant |
| SwarmRuns.RecvHaveKeeps | tools/libbt/src/peer.c:701-723 | a have inside the bit sets keeps the invariant; any other number ends the run and changes nothing else |
| SwarmRuns.RecvBitfieldKeeps | tools/libbt/src/peer.c:724-733 | a bit field with room for its bytes keeps the invariant; a longer one ends the program and changes nothing else |
| SwarmRuns.RecvInterestedKeeps | tools/libbt/src/peer.c:687-700 | interest keeps the invariant |
| SwarmRuns.RecvCancelKeeps | tools/libbt/src/peer.c:830-847 | a cancel keeps the invariant |
| SwarmRuns.MetOneMore | tools/libbt/src/peer.c:701-725 | a run met an oversize bit field, or a stray number, iff its front did or its last event is one |
| SwarmRuns.RecvRequestKeeps | tools/libbt/src/peer.c:734-764 | a request keeps the invariant, unless an unchoked peer names a block outside the bit sets, which ends the run |
| SwarmRuns.HandleKeeps | tools/libbt/src/peer.c:647-852 | every message of a GOOD peer keeps the invariant, but for the two that end the run |
| SwarmRuns.DisconnectKeeps | tools/libbt/src/peer.c:1224-1252 | losing a peer frees its piece and keeps the invariant |
| SwarmRuns.RoundKeeps | tools/libbt/src/peer.c:1578-1619 | a round of favourites keeps the invariant |
| Swarm.Window | tools/libbt/src/peer.c:1421-1439 | how many requests may be in flight, from the rate |
| Snubbing.SelectedIsFront | tools/libbt/src/peer.c:1533-1600 | the favourites are the first four of the list that insertion without a limit makes of all GOOD peers |
| Snubbing.EveryoneInOrder | tools/libbt/src/peer.c:1533-1600 | that list holds every GOOD peer once, in the order of who comes before whom |
| Snubbing.PrioritizedIs | tools/libbt/src/peer.c:1533-1562 | a newcomer goes where the two searches together stop first, if that is one of the four places |
| Snubbing.PlaceIsCount | tools/libbt/src/peer.c:1533-1562 | the place of a peer is the number of peers that come before it |
| Choking.SelectedIsTop | tools/libbt/src/peer.c:1533-1562 | folding the peers one by one leaves the best four of those seen |
| Choking.InsertKeepsTop | tools/libbt/src/peer.c:1546-1560 | shifting a newcomer into its place keeps the best four |
| Choking.Prioritized | tools/libbt/src/peer.c:1533-1562 | the favourites after a newcomer: at most four, all of them favourites before or the newcomer |
| Choking.Selected | tools/libbt/src/peer.c:1578-1600 | the favourites of a round: at most four, each GOOD |
| Choking.NotifyChokesDecides | tools/libbt/src/peer.c:1601-1618 | after the loop each peer's choke is what the selection says, where it can be told |
| Choking.UploadsBound | tools/libbt/src/peer.c:1601-1618 | no more uploads than favourites |
| SwarmClient.Client.NoteInterest | tools/libbt/src/peer.c:1300-1316 | sends a change of interest |
| SwarmClient.Client.CountWorkers | tools/libbt/src/peer.c:1318-1331 | the loop that counts the workers of a piece |
| SwarmClient.Client.ScanIdle | tools/libbt/src/peer.c:1346-1352 | the loop that looks for a partial piece nobody works on |
| SwarmClient.Client.ScanShared | tools/libbt/src/peer.c:1354-1364 | the loop that looks for one to share near the end |
| SwarmClient.Client.PeerAssignBlock | tools/libbt/src/peer.c:1335-1373 | computes the specified assignment |
| SwarmClient.Client.RequestNext | tools/libbt/src/peer.c:1457-1493 | asks for the next block of the piece |
| SwarmClient.Client.FillWindow | tools/libbt/src/peer.c:1452-1494 | the loop that fills the window |
| SwarmClient.Client.PeerSendRequest | tools/libbt/src/peer.c:1421-1497 | computes the specified round of requests |
| SwarmClient.Client.CancelRequests | tools/libbt/src/peer.c:806-814 | the loop that cancels every request of a peer |
| SwarmClient.Client.TellPeer | tools/libbt/src/peer.c:806-822 | tells one peer of a finished piece |
| SwarmClient.Client.TellPeers | tools/libbt/src/peer.c:804-823 | the loop over all peers |
| SwarmClient.Client.OnPiece | tools/libbt/src/peer.c:765-828 | a block received |
| SwarmClient.Client.OnChoke | tools/libbt/src/peer.c:648-672 | a choke received |
| SwarmClient.Client.OnUnchoke | tools/libbt/src/peer.c:673-686 | an unchoke received |
| SwarmClient.Client.OnHave | tools/libbt/src/peer.c:701-723 | a have received: the block noted and asked for, or the end of the run for a number outside the bit sets |
| SwarmClient.Client.PeerShutdown | tools/libbt/src/peer.c:1224-1252 | a peer lost |
| SwarmClient.Client.ShiftIn | tools/libbt/src/peer.c:1546-1560 | shifts the favourites in place to let a newcomer in |
| SwarmClient.Client.Prioritize | tools/libbt/src/peer.c:1533-1562 | computes the specified favourites in an array of four |
| SwarmClient.Client.IsFavorite | tools/libbt/src/peer.c:1564-1576 | the search among the favourites |
| SwarmClient.Client.PeerFavorites | tools/libbt/src/peer.c:1578-1619 | computes the specified round |
| SwarmClient.Client.ChangeChoke | tools/libbt/src/peer.c:1606-1617 | sends a change of choke to one peer |
| SwarmClient.Client.ReleasePiece | tools/libbt/src/peer.c:654-664 | clears the request mark of a piece and sets it back to its first missing byte |
| PeerStream.RecvMessage | tools/libbt/src/peer.c:605-884 | one call computes the specified result and state, the outcome of handling the message given |
| PeerStream.RecvdIs | tools/libbt/src/peer.c:605-884 | a call takes nothing or just the message at the front of all bytes offered, fails only after a read that found nothing or on a length too large, ends the program iff the header it reads first is negative, and its result tells whether a message waits whole |
| PeerStream.TakeMessage | tools/libbt/src/peer.c:626-639 | takes a keep-alive or a message once all of it is there, and reads for it as long as the socket gives bytes |
| PeerStream.Conclude | tools/libbt/src/peer.c:646-884 | looks ahead behind a message that was handled well, and otherwise stops with the error given |
| PeerStream.LookAhead | tools/libbt/src/peer.c:861-878 | reads for the next header, then tells whether its message waits, or refuses it |
| PeerStream.SendMessage | tools/libbt/src/peer.c:896-915 | queues the length and the message, in order |
| PeerRuns.BehindIsForetold | tools/libbt/src/peer.c:861-878 | so does what follows the look at the next header, a lull of any kind in which is forgiven |
| PeerRuns.SoundCourse | tools/libbt/src/peer.c:605-884 | the course foretold for a stream of such lengths: all its messages iff none is behind a keep-alive at the last answer |
| OddLengths.FrontCourse | tools/libbt/src/peer.c:605-884 | ordinary messages are taken, and what stands behind them goes on with what is known there |
| OddLengths.Divide | tools/libbt/src/peer.c:605-884 | every stream with another length divides into ordinary messages and the first such header |
| Frames.LengthOfHeader | tools/libbt/src/peer.c:612-616 | a length written in network order is read back |
| Frames.SentIsReceived | tools/libbt/src/peer.c:896-915 | the messages one side sends are those the other side finds |
| Frames.MessagesJoin | tools/libbt/src/peer.c:610-643 | a stream that ends with a message divides the same whatever follows |
| Frames.MessagesGrow | tools/libbt/src/peer.c:610-643 | more bytes only add messages |
| Pipeline.FirstClrIs | tools/libbt/src/peer.c:1472-1472 | where a piece starts over is its least missing byte, or 0 when none is missing |
| Pipeline.AskOneDoes | tools/libbt/src/peer.c:1491-1493 | one request is sent and queued, and the piece goes on behind it; nothing else changes |
| Pipeline.WindowIs | tools/libbt/src/peer.c:1452-1454 | the window is what fifteen seconds take in blocks of 16 KiB, at least two and at most ten |
| Pipeline.SendRequestDoes | tools/libbt/src/peer.c:1421-1497 | a peer without a piece is given one, then such a round follows for its piece; with no piece to be had only our interest is told anew |
| Pipeline.AssignDoes | tools/libbt/src/peer.c:1333-1373 | the first partial piece that suits the peer is given; with none, a piece it offers, that is wanted and not requested; with none of these either, one that is not complete; otherwise none, and nothing changes |
| Pipeline.IdleSuits | tools/libbt/src/peer.c:1346-1351 | with many peers the search of the partial list finds the first piece that the peer has and nobody claimed |
| Pipeline.SharedSuits | tools/libbt/src/peer.c:1354-1357 | otherwise the first that the peer has or that four work on |
| Pipeline.ClaimDoes | tools/libbt/src/peer.c:1367-1370 | the peer works on the piece, the piece is requested, and it is started empty iff it is not partial |
| Pipeline.CountIs | tools/libbt/src/peer.c:1318-1331 | the number of peers that work on a piece |
| News.NotifyChokesTurn | tools/libbt/src/peer.c:1595-1617 | the loop over peers, up to any of them |
| News.NotifyChokeTurns | tools/libbt/src/peer.c:1597-1616 | one turn: a message iff the choke changes, with what it is then; a failed send breaks the peer; a change empties its queue of uploads |
| News.CancelsDo | tools/libbt/src/peer.c:806-814 | every request outstanding is taken back with a cancel, in order, and a failed one breaks the peer |
| News.NotifyOneTells | tools/libbt/src/peer.c:800-823 | one turn of telling: a peer still GOOD is told of the piece once, others are told nothing of any piece |
| Handling.ChokeDoes | tools/libbt/src/peer.c:648-672 | the first choke takes the piece from the peer, frees it, and forgets what was asked; a second does nothing |
| Handling.ReleaseDoes | tools/libbt/src/peer.c:654-663 | a piece freed is no longer requested and goes on with its first missing byte |
| Handling.LossDoes | tools/libbt/src/peer.c:1224-1252 | a peer lost frees its piece and leaves the list, the others keep their order |
| Handling.UnchokeDoes | tools/libbt/src/peer.c:673-686 | the peer is open, and asked for a piece when it interests us, newly looked at if it did not |
| Handling.InterestedDoes | tools/libbt/src/peer.c:687-700 | interest is noted and counted |
| Handling.HaveDoes | tools/libbt/src/peer.c:701-723 | the block is added and a peer with all blocks counted off; interest is told anew; then an interesting, unsnubbed peer that does not choke us is asked for more |
| Handling.BitfieldDoes | tools/libbt/src/peer.c:724-733 | the bytes say of each block whether the peer has it, those behind them stay; then interest is told anew |
| Handling.NoteDoes | tools/libbt/src/peer.c:707-713 | a peer that has all blocks is counted off the incomplete ones once |
| Handling.PieceDoes | tools/libbt/src/peer.c:765-828 | a block asked for is crossed off and written; a piece it finishes is no longer wanted and told to everybody; then the peer is asked for more |
| Handling.UnaskedDoesNothing | tools/libbt/src/peer.c:784-785 | a block not asked for, or for a peer without a piece, changes nothing |
| Handling.CancelDoes | tools/libbt/src/peer.c:830-847 | a cancel removes the request from the queue of that peer, as the ring does, and nothing else |
| Handling.JoiningDoes | tools/libbt/src/peer.c:208-217 | a peer that joins has no blocks, no piece and empty queues, chokes and is choked, and is added at the end of the list |
| Handling.ConnectionDoes | tools/libbt/src/peer.c:1261-1297 | a connection made and a handshake done each set the state of that peer, only from the state before; with the handshake the peer counts as incomplete |
| Handling.OthersUnheard | tools/libbt/src/peer.c:1286-1291 | messages of a peer that is not GOOD change nothing, nor does any once the run has ended |
| BlockBytes.AcceptedLays | tools/libbt/src/segmenter.c:258-312 | an accepted block, with all that follows in its event, does to the pieces just what a write does, and leaves the bytes of every other piece alone |
| BlockBytes.AcceptedInside | tools/libbt/src/segmenter.c:271-272 | an accepted block lies inside a partial piece, so the DIE_UNLESS cannot fire |
| BlockBytes.OthersQuiet | tools/libbt/src/segmenter.c:258-312 | no other event changes a byte, a mark or the disk; at most new pieces start, empty |
| Handling.EndingDoes | tools/libbt/src/btget.c:536-556 | a snub and a break each set one mark of that peer, and one that goes is shut down |
| PeerStream.ClientRun | tools/libbt/src/btget.c:94-107 | the loop over messages computes the specified messages, last result and stream |
| PeerStream.ClientIs | tools/libbt/src/btget.c:94-107 | one run takes whole messages off the front of what is offered, ends with a result that is no announced message, and makes progress unless it closes the connection |
| PeerStream.DrivenIs | tools/libbt/src/btget.c:94-107 | so do the runs while the socket answers; unless the connection ends, no answer is left |
| PeerRuns.RunIsForetold | tools/libbt/src/btget.c:94-107 | from any state of the buffer a run and those after it come out as foretold |
| SwarmSafety.WriteBufKeeps | tools/libbt/src/segmenter.c:258-312 | the bounds check holds, and a finished piece that passes its hash leaves the partial list, is completed and credited |
| SwarmSafety.GetPieceKeeps | tools/libbt/src/segmenter.c:58-77 | a piece found or made keeps the partial list distinct |
| SwarmClient.Client.TakePiece | tools/libbt/src/segmenter.c:58-77 | the search of the partial list |
| SwarmClient.Client.SegWritebuf | tools/libbt/src/segmenter.c:258-312 | writes a block into a partial piece, and the piece to disk when it is whole and right |
| Pieces.AllPieces | tools/libbt/src/segmenter.c:79-90 | the lengths of all pieces add up to the torrent |
| Pieces.PieceFits | tools/libbt/src/segmenter.c:79-90 | every piece is non-empty and inside the torrent |
| Pieces.PiecesApart | tools/libbt/src/segmenter.c:79-90 | different pieces hold different bytes |
| Pieces.TotalAdd | tools/libbt/src/segmenter.c:79-90 | completing a piece adds its length |
| FileLayout.AddFile | tools/libbt/src/segmenter.c:192-212 | a file added lies right behind the others |
| FileLayout.InCut | tools/libbt/src/segmenter.c:222-240 | a byte of a file is in the part written iff it is one of the bytes of the piece |
| FileLayout.StillStored | tools/libbt/src/segmenter.c:214-251 | a piece stays stored through later writes of others |
| FileLayout.PartStored | tools/libbt/src/segmenter.c:315-373 | a part of stored bytes is stored |
| FileLayout.FileSet.SegWrite | tools/libbt/src/segmenter.c:214-251 | the loop over files computes the specified disk, and its piece-size check holds |
| FileLayout.FileSet.SegReadbuf | tools/libbt/src/segmenter.c:315-373 | the loop over files computes the specified bytes or error |
| FileLayout.FileSet.SegReview | tools/libbt/src/segmenter.c:375-393 | 1, 0 or -1 for a right, a wrong and an unreadable piece, and only a right one is left marked |
| SwarmRuns.LoadFile | tools/libbt/src/context.c:742-784 | the accounting loop marks exactly the pieces found, and leaves the bytes of the others to come |
| SwarmRuns.LoadedInv | tools/libbt/src/context.c:742-784 | its result is a start for which the invariant holds |
| SwarmRuns.Survey | tools/libbt/src/context.c:752-776 | the pieces the survey finds lie in range and were verified |
| BitSets.BitSet.constructor | tools/libbt/src/bitset.c:24-33 | an empty set in the bytes allocated, one more than needed unless the size is a multiple of eight |
| BitSets.BitSet.ReadBytes | tools/libbt/src/bitset.c:53-60 | lays bytes over the front of the set, and dies iff there are more than it has |
| BitSets.BytesOver | tools/libbt/src/bitset.c:53-60 | which numbers are set then: those of the bytes given, and the old ones behind them |
| BitSets.BitSet.SetBit | tools/libbt/src/bitset.c:62-66 | adds one number |
| BitSets.BitSet.ClearBit | tools/libbt/src/bitset.c:68-72 | takes one number away |
| BitSets.BitSet.IsSet | tools/libbt/src/bitset.c:74-78 | tells membership |
| BitSets.BitSet.Intersect | tools/libbt/src/bitset.c:80-88 | byte-wise and is intersection |
| BitSets.BitSet.Complement | tools/libbt/src/bitset.c:90-97 | byte-wise not is the complement in the range |
| BitSets.BitSet.IsEmpty | tools/libbt/src/bitset.c:109-117 | true iff the set is empty, pad bits ignored |
| BitSets.BitSet.IsFull | tools/libbt/src/bitset.c:119-128 | true iff the set is the whole range, pad bits ignored |
| BitSets.BitSet.FirstClr | tools/libbt/src/bitset.c:130-136 | the least number not in the set, or 0 when the set is full |
| BitSets.BitSet.SetRange | tools/libbt/src/bitset.c:138-149 | adds exactly the numbers from start up to the end |
| BitSets.BitSet.GetSparseSet | tools/libbt/src/bitset.c:151-164 | lists the members in increasing order |
| BitSets.BitSet.CountBits | tools/libbt/src/bitset.c:166-175 | the number of members |
| BitSets.HasInteresting | tools/libbt/src/bitset.c:177-197 | true iff some block is offered, wanted and not there |
| BitSets.Candidates | tools/libbt/src/bitset.c:199-215 | the blocks unrequested, offered and wanted |
| BtTypes.OrderIsCompare | tools/libbt/src/types.c:103-119 | comparing up to the common length and then by length is the order used here |
| BtTypes.StringCmp | tools/libbt/src/types.c:103-119 | computes that order; it stops at a NUL |
| BtTypes.OrderFlips | tools/libbt/src/types.c:103-119 | the order is antisymmetric |
| BtTypes.OrderTrans | tools/libbt/src/types.c:103-119 | the order is transitive |
| BtTypes.OrderEqual | tools/libbt/src/types.c:103-119 | without NULs only equal strings compare as equal |
| BtTypes.PlaceSplits | tools/libbt/src/types.c:280-302 | exactly the keys before the place of a key are smaller |
| BtTypes.InsertSorted | tools/libbt/src/types.c:280-313 | a new key put in its place keeps strict order |
| BtTypes.BtDict.Add | tools/libbt/src/types.c:280-313 | adds a new key and its value in place; fails iff the key is there |
| BtTypes.BtDict.ShiftUp | tools/libbt/src/types.c:303-311 | moves later entries up by one and fills the hole |
| BtTypes.Find | tools/libbt/src/types.c:315-330 | binary search finds every key and nothing else |
| BencStream.StrStream.WriteDict | tools/libbt/src/types.c:216-246 | walking the keys and looking each up prints the dictionary in order |
| Bencode.Scan | tools/libbt/src/benc.c:50-60 | the place of the break character after digits, within the buffer |
| Bencode.GetString | tools/libbt/src/benc.c:50-80 | a string read is under the cap and inside the text |
| Bencode.GetInt | tools/libbt/src/benc.c:108-125 | a number read is in 0..2^63-1: no minus sign, and saturating |
| Bencode.PrintedLooks | tools/libbt/src/benc.c:33-291 | one printed text in full: a dictionary of a number and a list of a string |
| Bencode.StringBack | tools/libbt/src/benc.c:33-80 | a printed string is read back |
| Bencode.IntBack | tools/libbt/src/benc.c:92-125 | a printed number is read back |
| Bencode.ItemsBack | tools/libbt/src/benc.c:137-179 | a printed list is read back |
| Bencode.PairsBack | tools/libbt/src/benc.c:191-251 | a printed dictionary is read back, each key going last |
| Bencode.StringStrict | tools/libbt/src/benc.c:50-80 | a string with a plain length and a colon prints as its text |
| Bencode.IntStrict | tools/libbt/src/benc.c:108-125 | a plain number with its `e` prints as its text |
| Bencode.ItemsStrict | tools/libbt/src/benc.c:159-179 | so does a list |
| Bencode.PairsStrict | tools/libbt/src/benc.c:224-251 | and a dictionary with increasing keys |
| Bencode.EntryStands | tools/libbt/src/benc.c:191-212 | each entry of a printed dictionary stands in its text, key before value |
| Bencode.NumberOfDec | tools/libbt/src/benc.c:33-38 | the value of printed digits is the number, and they are plain |
| Bencode.DecOfNumber | tools/libbt/src/benc.c:56-60 | plain digits are what is printed for their value |
| BencStream.StrStream.ReadString | tools/libbt/src/benc.c:50-80 | a string is read as specified, or fails, or stops the program at the cap |
| BencStream.StrStream.ReadInt | tools/libbt/src/benc.c:108-125 | a number is read as specified |
| BencStream.StrStream.ReadList | tools/libbt/src/benc.c:159-179 | the list loop reads as specified |
| BencStream.StrStream.ReadDict | tools/libbt/src/benc.c:224-251 | the dictionary loop reads as specified, entering each key in its place |
| BencStream.StrStream.ReadObject | tools/libbt/src/benc.c:293-326 | an object is read exactly as the parser says, with the cursor where it says |
| BencStream.StrStream.WriteString | tools/libbt/src/benc.c:33-38 | appends the printed string |
| BencStream.StrStream.WriteInt | tools/libbt/src/benc.c:92-97 | appends the printed number |
| BencStream.StrStream.WriteList | tools/libbt/src/benc.c:137-147 | the loop appends the printed list |
| BencStream.StrStream.WriteObject | tools/libbt/src/benc.c:265-279 | appends the printed object |
| BencStream.StrStream.Read | tools/libbt/src/bts.c:49-58 | takes so many characters off or none |
| BencStream.StrStream.Peek | tools/libbt/src/bts.c:60-67 | the next character or -1 |
| BencStream.StrStream.Write | tools/libbt/src/bts.c:69-80 | appends |
| BencStream.StrStream.ScanBreak | tools/libbt/src/bts.c:281-297 | the scan loop finds the specified break, for which a NUL passes too |
| Sha1.SwappedIsBigEndian | tools/libbt/src/sha1.c:26-28 | the byte swap of a little-endian word is the big-endian word |
| Sha1.MixesAre | tools/libbt/src/sha1.c:36-39 | the mixing expressions of R0 and R3 are the choice and majority functions of section 4.1.1 |
| Sha1.MixedIsStep | tools/libbt/src/sha1.c:36-40 | what a round leaves is one step of section 6.1.2 |
| Sha1.Slots | tools/libbt/src/sha1.c:32-33 | the four slots read hold the schedule words 3, 8, 14 and 16 back |
| Sha1.RollingStep | tools/libbt/src/sha1.c:32-33 | writing the new word keeps the last sixteen schedule words in their slots |
| Sha1.FirstWord | tools/libbt/src/sha1.c:27-28 | the first sixteen words are those of the block |
| Sha1.Expand | tools/libbt/src/sha1.c:26-33 | makes the schedule word of a round in place |
| Sha1.Round | tools/libbt/src/sha1.c:36-40 | one round advances the working variables by one step |
| Sha1.FiveRounds | tools/libbt/src/sha1.c:67-86 | five rounds with turning names put the names back |
| Sha1.CountIsPlace | tools/libbt/src/sha1.c:118-118 | the counter gives the place in the buffer |
| Sha1.Context.constructor | tools/libbt/src/sha1.c:100-109 | the initial hash value and an empty message |
| Sha1.Context.Update | tools/libbt/src/sha1.c:114-131 | takes the bytes of the data: hash of the whole blocks, rest in the buffer, counters up to date |
| Sha1.Context.Count | tools/libbt/src/sha1.c:118-120 | the place in the buffer, and the two counters for that many more bytes |
| Sha1.Context.Flush | tools/libbt/src/sha1.c:121-129 | makes room for what is left, hashing what fills blocks |
| Sha1.Context.Absorb | tools/libbt/src/sha1.c:121-128 | hashes the block completed and the blocks the data holds |
| Sha1.Context.PadZeros | tools/libbt/src/sha1.c:146-148 | the padding loop ends, with the zeros section 5.1.1 asks for |
| Sha1.Context.Pad | tools/libbt/src/sha1.c:145-149 | the message is padded as section 5.1.1 says |
| Sha1.Context.WriteDigest | tools/libbt/src/sha1.c:150-153 | writes the hash value most significant byte first |
| Sha1.Context.Final | tools/libbt/src/sha1.c:136-163 | gives the digest of all bytes taken and wipes the context |
| BtCodec.IntScans | src/btcodec.cc:285-294 | a printed number is scanned exactly |
| BtCodec.StringScans | src/btcodec.cc:298-308 | a printed string is scanned iff something follows it |
| BtCodec.ItemsScan | src/btcodec.cc:276-284 | the items of a list are scanned to its end |
| BtCodec.PairsScan | src/btcodec.cc:267-275 | the entries of a dictionary are scanned to its end |
| BtCodec.NthShows | src/btcodec.cc:47-64 | the loop over items gives the one at the index, or nothing outside the range |
| BtCodec.NamedShows | src/btcodec.cc:103-130 | the loop over entries gives the value of the first key of that name, or nothing |
| BtCodec.InsideShows | src/btcodec.cc:221-229 | one look-up, nothing for an entity of another kind |
| BtCodec.Codec.constructor | src/btcodec.cc:190-198 | loads text |
| BtCodec.Codec.GetByte | src/btcodec.cc:252-258 | the byte at the cursor, or a mark at the end |
| BtCodec.Codec.ReadNumber | src/btcodec.cc:290-303 | the digit loop accumulates the value |
| BtCodec.Codec.BObject | src/btcodec.cc:260-311 | the recursive scan computes the entity and the cursor specified |
| BtCodec.Codec.ScanOver | src/btcodec.cc:267-284 | the loop over a container |
| BtCodec.Codec.BObjectAt | src/btcodec.cc:246-250 | the same from a place given |
| BtCodec.Codec.ListGet | src/btcodec.cc:47-64 | the item at an index, wherever the cursor was |
| BtCodec.Codec.DictGet | src/btcodec.cc:103-130 | the value of a name, wherever the cursor was |
| BtCodec.Codec.Walk | src/btcodec.cc:200-205 | a chain of calls on the shared cursor gives the specified result |
| Scheduler.InsertIs | src/btimerd.cc:79-89 | insertion keeps the set ordered and adds just the entry |
| Scheduler.CheckFired | src/btimerd.cc:67-68 | rousing the thread of the first entry leaves the due threads right |
| Scheduler.CheckDrops | src/btimerd.cc:73-73 | dropping a stale entry does too |
| Scheduler.CheckStops | src/btimerd.cc:69-72 | at the first entry still to come nothing more is due |
| Sleeping.ArmingDoes | src/btimerd.cc:79-89 | arming sets the deadline of the running thread and adds one entry for it, in order |
| Scheduler.Kernel.Enqueue | src/btimerd.cc:79-89 | sets the deadline of the running thread and adds its entry |
| Scheduler.Kernel.CheckTimer | src/btimerd.cc:57-77 | the loop computes the specified result, or fails where the specification does |
| Scheduler.Kernel.CommingTime | src/btimerd.cc:47-55 | the least deadline in the set, or the longest wait |
| Scheduler.WokenKeeps | src/bthread.cc:48-67 | waking keeps every runnable thread queued |
| Scheduler.SleptKeeps | src/bthread.cc:36-44 | sleeping leaves a stale entry and keeps the invariant |
| Scheduler.PollKeeps | src/bthread.cc:84-98 | dispatching keeps every runnable thread queued |
| Scheduler.StepFair | src/bthread.cc:36-98 | each event leaves the turn of a waiting thread as near as before, less the entries popped |
| Scheduler.StepKeeps | src/bthread.cc:36-98 | each proper event keeps the invariant and fails no assertion |
| Sleeping.WakingUndoesSleep | src/bthread.cc:36-67 | a second sleep changes nothing, waking with another identity neither, and with its own the thread is as before but queued at the end once more; a second wake-up does nothing |
| Sleeping.ExpiryUndoesSleep | src/bthread.cc:77-82 | a passed deadline wakes a sleeper whatever it waits for and marks it; a running thread is only marked |
| Scheduler.Kernel.Tsleep | src/bthread.cc:36-44 | a runnable thread sleeps on its identity |
| Scheduler.Kernel.Bwakeup | src/bthread.cc:48-67 | a sleeper on that identity is queued and made runnable |
| Scheduler.Kernel.Timeout | src/bthread.cc:77-82 | marks the thread and wakes it whatever it waits for |
| Scheduler.Kernel.Bpoll | src/bthread.cc:84-98 | the loop computes the specified dispatch |
| Streams.Stream.constructor | tools/libbt/src/stream.c:30-58 | an empty stream |
| Streams.Stream.Read | tools/libbt/src/stream.c:85-131 | one `recv`, its bytes handed on as they are; an error for nothing, and for good after more than ten empty answers in a row |
| Streams.ReceivedIs | tools/libbt/src/stream.c:85-131 | no byte of an answer is lost, and one answer is used up |
| Streams.Stream.ReadMore | tools/libbt/src/stream.c:180-194 | one turn of the reading loop appends what one `recv` gave, or reports that it gave nothing |
| Streams.Stream.Fpeek | tools/libbt/src/stream.c:171-199 | reads until there are enough bytes or a `recv` gives none; the bytes stay in place |
| Streams.PeekedIs | tools/libbt/src/stream.c:171-199 | nothing offered is lost or reordered, and a peek fails only with too few bytes buffered, after an answer that held none or with no answer left |
| Streams.Stream.Fread | tools/libbt/src/stream.c:201-207 | as the peek, and the bytes are taken off |
| Streams.Stream.Flush | tools/libbt/src/stream.c:215-226 | what `write` took is off the queue and nothing else; the result is what is queued, or -1 iff nothing was taken and the error is not "try again" |
| Streams.Stream.Write | tools/libbt/src/stream.c:134-160 | one `write`; a short one sets "try again", a failed one its error |
| Streams.Stream.Drop | tools/libbt/src/stream.c:220-222 | takes the bytes written off the queue |
| Streams.Flushed | tools/libbt/src/stream.c:215-226 | the result is -1 iff nothing was taken and the error is not "try again", and what is queued otherwise |
| Streams.FlushedError | tools/libbt/src/stream.c:134-160 | the error after a write: its own when it failed, "try again" when it would block or was short, else what it was |
| Streams.Stream.Fwrite | tools/libbt/src/stream.c:228-235 | appends to what is queued and offers all of it |
| Streams.Stream.Enqueue | tools/libbt/src/stream.c:230-233 | appends to what is queued |
| StrBuf.StringBuffer.constructor | tools/libbt/src/strbuf.c:29-41 | an empty buffer |
| StrBuf.StringBuffer.Grow | tools/libbt/src/strbuf.c:54-60 | more room, the contents kept |
| StrBuf.StringBuffer.Cat | tools/libbt/src/strbuf.c:83-94 | appends, growing when the contents and their NUL would not fit |
| StrBuf.StringBuffer.Tail | tools/libbt/src/strbuf.c:96-106 | drops the first bytes, moving the rest down in place |

## Left out

- Sockets, polling, connecting, trackers, DNS, file descriptor caching: `recv`, `write`, the hash of a piece, rates, random choices and send failures are parameters; files are byte sequences and opening them cannot fail except for a missing or short one.
- The handshake and the poll status map: a peer joins, completes its handshake, breaks or goes as an event.
- `kgetpeers.cc`, `provider.cc`, the small daemons around the core, `tools/builder`, tests and dumps: thin or copies; they would add easy members.
- Answering upload requests from the queue (`process_queue`) and the rate timers: rates are an arbitrary function fixed for a round.
- Floating point rates: an integer function stands for them.
- Pointers: pieces, peers and threads go by number or place; the order of thread addresses is the order of their numbers. Freeing of memory and the deletion of cached entities are not modelled.
- Bit sets index inside the bytes allocated for them; the end of a run at a number outside them is part of the engine, not of the bit sets.
- Clocks: the time is read once per call and passed in; times are unbounded integers.
- Setting the identifier of a table that is not empty, and the fields of a node item not used by any decision.
- Replies of the lookup are given decoded; its calls into the routing table and its log are not part of it.
- The SHA-1 inside the segmenter is an uninterpreted test of a piece; that the code of SHA-1 is right is proved apart from it.
- BtCodec.Codec.ReadNumber: does not model the overflow of 64-bit values, because the source leaves it undefined.
- BtCodec.Codec.DictGet: a key that is no string counts as not found; the source then compares with the length left over from an earlier key.
- BencStream.StrStream.Write: the capacity of the buffer is not modelled, its contents are.
- BencStream.StrStream.ReadObject: where the cursor stands after a failure is only said to be inside the text.
- PeerStream.RecvMessage: how the handling of a message ends is a parameter, any function of the message and its place in the stream; the messages themselves are the subject of the `Swarm` modules. A handler that ends the program is not among the outcomes, nor is an error code that sending leaves behind in a stream whose messages are all handled.
- PeerStream.ClientRun: the queue of uploads served at the end of the call is not part of it, nor is the poll loop around it: `PeerStream.Driven` runs a client as long as its socket has an answer.
- SwarmRuns.HandleKeeps: a message shorter than its fields is not modelled; the handling of interest, bit field, request and cancel messages exists only as functions, its parts (`BitSets.BitSet.ReadBytes`, the request ring) as methods.
- SwarmRuns.RunKeeps: a run ends where memory outside a bit set is touched; what the program then does is not modelled.
- Lookups.KFind.HearNode: does not hand the node to the routing table (`update_contact`), which has its own model.
- Lookups.KFind.HearNodes: does not hand the nodes to the routing table either.
- Lookups.KFind.Respond: does not hand the responder to the routing table either.
- Lookups.KFind.KfindExpand: takes the reply decoded, without the calls into the routing table.
- Lookups.KFind.CheckTimeout: does not report the silent nodes to the routing table (`failed_contact`).
- Streams.Stream.Fwrite: running out of memory is not modelled.
- The SHA-1 code is right only where `unsigned long` has 32 bits, as its words and counters wrap at 2^32; so it is modelled. With 64 bits the rotations and the carry go wrong.
- Sha1.Context.Update: the sum of place and length must not wrap, as the copy then overruns the buffer; `Sha1.BranchRightIff` says when it does.
- Scheduler.Kernel.Bpoll: the counts of pops and the list of dispatches are kept in the record for the fairness result; the source has no such fields.
