/** What holds in every run of the file-handle protocol. */
module FileSafety {
  import opened Words
  import opened Window
  import opened Scan
  import opened FileProtocol
  import opened FileInvariant

  /** The call for `id` has returned. */
  predicate Finished(s: State, id: nat) {
    id in s.readers && s.readers[id].Done?
  }

  /** The CQE at position `p` carries the id of a call that has returned. */
  predicate Returned(s: State, p: nat) {
    p < |s.posted| && Finished(s, s.posted[p].userData)
  }

  /** The CQE at position `p` carries the id of a call that has not returned yet. */
  predicate Awaited(s: State, p: nat) {
    p < |s.posted| && s.posted[p].userData in s.readers && !Finished(s, s.posted[p].userData)
  }

  // ---------- Safety ----------

  /** No CQE is overwritten before its reader is finished with it: whatever the interleaving, the head has
      not passed any position whose ack the completer has not processed, and that position's CQE is
      still in its slot, however often the counters have lapped the ring or wrapped at 2^32. */
  lemma {:induction false} UnreadIsIntact(n: nat, run: seq<Step>, s: State)
    requires RingSize(n) && Reaches(n, run, s)
    ensures s.headWord == Wrap(s.head) && s.tailWord == Wrap(|s.posted|) && |s.entries| == n
    ensures forall p :: 0 <= p < |s.posted| && p !in s.acked ==>
              s.head <= p && |s.posted| <= p + n && s.entries[p % n] == s.posted[p]
    ensures forall p :: p in s.acked ==> Returned(s, p)
  {
    RunInv(n, run, s);
    forall p | 0 <= p < |s.posted| && p !in s.acked
      ensures s.head <= p && |s.posted| <= p + n && s.entries[p % n] == s.posted[p]
    {
      UnprocessedInWindow(s, p);
      SlotIsMod(p, n);
    }
    forall p | p in s.acked ensures Returned(s, p) {
      assert Accepted(s, p);
    }
  }

  /** The completions of a run, in order. */
  function Posts(run: seq<Step>): (cs: seq<Cqe>) {
    if run == [] then []
    else
      var a := run[|run| - 1];
      Posts(run[..|run| - 1]) + if a.Post? then [a.c] else []
  }

  lemma {:induction false} HistoryIsRun(n: nat, run: seq<Step>, s: State)
    requires Reaches(n, run, s)
    ensures s.posted == Posts(run)
    decreases |run|
  {
    if run != [] {
      var r := LastStep(Init(n), run, s);
      HistoryIsRun(n, run[..|run| - 1], r);
    }
  }

  /** Every call returns the result the kernel gave in a completion carrying its own id, even though the head and
      tail it scanned between may have been stale and the kernel may have completed other entries twice. When the
      completions of the run carry distinct ids, that is the one result of the request. */
  lemma OwnResult(n: nat, run: seq<Step>, s: State, id: nat)
    requires RingSize(n) && Reaches(n, run, s)
    requires Finished(s, id)
    ensures exists p :: 0 <= p < |Posts(run)| && Posts(run)[p].userData == id
              && Posts(run)[p].res == s.readers[id].res
    ensures UniqueIds(Posts(run)) ==>
              forall p :: 0 <= p < |Posts(run)| && Posts(run)[p].userData == id ==>
                Posts(run)[p].res == s.readers[id].res
  {
    RunInv(n, run, s);
    HistoryIsRun(n, run, s);
    assert ReaderOk(s, id, s.readers[id]);
    var p := s.readers[id].pos;
    assert 0 <= p < |Posts(run)| && Posts(run)[p].userData == id;
  }

  /** A negative result is returned without an ack (read_writer.go:53-55), so the head never gets past it,
      and the ring takes at most one more lap of completions, ever. */
  lemma FailurePinsHead(n: nat, run: seq<Step>, s: State, p: nat)
    requires RingSize(n) && Reaches(n, run, s)
    requires p < |Posts(run)| && Posts(run)[p].res < 0
    ensures s.head <= p && |Posts(run)| <= p + n
  {
    RunInv(n, run, s);
    HistoryIsRun(n, run, s);
    assert p in s.acked ==> Accepted(s, p);
    UnprocessedInWindow(s, p);
  }

  function Receives(run: seq<Step>): nat {
    if run == [] then 0 else Receives(run[..|run| - 1]) + if run[|run| - 1].Receive? then 1 else 0
  }

  lemma {:induction false} AckedStep(s: State, a: Step)
    requires Channel(s) && s.n == |s.entries| && Enabled(s, a)
    ensures |Do(s, a).acked| == |s.acked| + if a.Receive? then 1 else 0
  {
    if a.Receive? { ReceiveChannel(s); }
  }

  lemma {:induction false} ReceivesAreAcks(n: nat, run: seq<Step>, s: State)
    requires RingSize(n) && Reaches(n, run, s)
    ensures |s.acked| == Receives(run)
    decreases |run|
  {
    if run != [] {
      var last := |run| - 1;
      var r := LastStep(Init(n), run, s);
      ReceivesAreAcks(n, run[..last], r);
      RunInv(n, run[..last], r);
      AckedStep(r, run[last]);
    }
  }

  /** Between acks: the map holds exactly the slots of the processed acks at or past the head, the head has moved once
      per ack received and no longer in the map, and it rests at the first position without an ack or at a lap
      boundary. */
  lemma {:induction false} CompleterAtRest(n: nat, run: seq<Step>, s: State)
    requires RingSize(n) && Reaches(n, run, s) && s.mover.Idle?
    ensures Receives(run) == s.head + |s.unacked|
    ensures forall p :: s.head <= p < |s.posted| ==> (p % n in s.unacked <==> p in s.acked)
    ensures forall x :: x in s.unacked ==> exists p :: p in s.acked && s.head <= p < |s.posted| && p % n == x
    ensures forall p :: 0 <= p < s.head ==> p in s.acked
    ensures s.head !in s.acked || s.head % n == 0
  {
    RunInv(n, run, s);
    ReceivesAreAcks(n, run, s);
    forall p | s.head <= p < |s.posted| ensures p % n in s.unacked <==> p in s.acked {
      SlotIsMod(p, n);
      OccupantInWindow(|s.posted|, n, p);
    }
    forall x | x in s.unacked ensures exists p :: p in s.acked && s.head <= p < |s.posted| && p % n == x {
      var p := Occupant(|s.posted|, n, x);
      SlotIsMod(p, n);
      assert p in s.acked && s.head <= p < |s.posted| && p % n == x;
    }
    SlotIsMod(s.head, n);
  }

  /** The inner loop of the completer stays inside the lap: it takes at most `n - (head & mask)` turns. */
  lemma InnerLoopBound(n: nat, run: seq<Step>, s: State)
    requires RingSize(n) && Reaches(n, run, s) && s.mover.Moving?
    ensures s.mover.cur == And(s.headWord, n - 1) && s.mover.seen <= n - And(s.headWord, n - 1)
    ensures Enabled(s, Delete) ==> s.mover.seen < n - And(s.headWord, n - 1)
  {
    RunInv(n, run, s);
    WordSlot(s.head, n);
  }

  // ---------- Progress of one pass ----------

  function Rank(n: nat, r: Reader): int {
    match r
    case HeadLoaded(_) => 2 * n + 3
    case First(x, _) => if x < n then 2 * n + 2 - x else n + 2
    case Reload => n + 1
    case Second(x, _) => if x < n then n - x else 0
    case _ => 0
  }

  /** One call running on its own from `r` until it matches or jumps back to findCqe. */
  function Solo(s: State, id: nat, r: Reader): Reader
    requires s.n == |s.entries| > 0
    decreases Rank(s.n, r)
  {
    if r.Restart? || r.Acking? || r.Done? then r
    else if r.Second? && (r.x >= r.end || r.x >= s.n) then Restart
    else Solo(s, id, ReaderNext(s, id, r))
  }

  /** The outcome a pass that settles on slot `x` (or on none, -1) leads to. */
  function Outcome(s: State, id: nat, x: int): Reader
    requires s.n == |s.entries| && x < s.n
  {
    if x < 0 then Restart else Examine(s, id, x, Restart)
  }

  lemma {:induction false} SoloSecond(s: State, id: nat, x: nat, end: nat)
    requires s.n == |s.entries| > 0 && x <= end < s.n
    ensures Solo(s, id, Second(x, end)) == Outcome(s, id, Hit(s.entries, x, end, id))
    decreases end - x
  {
    if x < end && s.entries[x].userData != id { SoloSecond(s, id, x + 1, end); }
  }

  lemma {:induction false} SoloFirst(s: State, id: nat, x: nat, end: nat)
    requires s.n == |s.entries| > 0 && x <= s.n && end < s.n
    ensures x <= end ==> Solo(s, id, First(x, end)) == Outcome(s, id, Hit(s.entries, x, end + 1, id))
    ensures end < x && Hit(s.entries, x, s.n, id) >= 0 ==>
              Solo(s, id, First(x, end)) == Outcome(s, id, Hit(s.entries, x, s.n, id))
    ensures end < x && Hit(s.entries, x, s.n, id) < 0 ==> Solo(s, id, First(x, end)) == Solo(s, id, Reload)
    decreases s.n - x
  {
    if x < s.n && s.entries[x].userData != id && x != end { SoloFirst(s, id, x + 1, end); }
  }

  /** The small steps of a pass are the pass. */
  lemma {:induction false} SoloIsPass(s: State, id: nat)
    requires RingSize(s.n) && s.n == |s.entries|
    ensures var end := And(s.tailWord, s.n - 1);
            Solo(s, id, HeadLoaded(s.headWord))
            == Outcome(s, id, PassHit(s.entries, And(s.headWord, s.n - 1), end, end, id))
  {
    var h, end := And(s.headWord, s.n - 1), And(s.tailWord, s.n - 1);
    assert Solo(s, id, HeadLoaded(s.headWord)) == Solo(s, id, First(h, end));
    assert Solo(s, id, Reload) == Solo(s, id, Second(0, end));
    SoloFirst(s, id, h, end);
    SoloSecond(s, id, 0, end);
  }

  lemma AwaitedInWindow(s: State, p: nat)
    requires Inv(s) && Awaited(s, p)
    ensures s.head <= p && |s.posted| <= p + s.n
    ensures Occupant(|s.posted|, s.n, Slot(p, s.n)) == p && s.entries[Slot(p, s.n)] == s.posted[p]
  {
    assert p in s.acked ==> Accepted(s, p);
    UnprocessedInWindow(s, p);
  }

  /** When a pass for the awaited CQE at `p` starts over. */
  lemma {:induction false} PassRestarts(s: State, p: nat)
    requires Inv(s) && Awaited(s, p)
    ensures Solo(s, s.posted[p].userData, HeadLoaded(s.headWord)).Restart?
            <==> |s.posted| == s.head + s.n && s.posted[s.head].userData != s.posted[p].userData
  {
    AwaitedInWindow(s, p);
    WindowRestarts(s, p);
  }

  lemma {:induction false} WindowRestarts(s: State, p: nat)
    requires Shape(s) && s.head <= p < |s.posted|
    ensures Solo(s, s.posted[p].userData, HeadLoaded(s.headWord)).Restart?
            <==> |s.posted| == s.head + s.n && s.posted[s.head].userData != s.posted[p].userData
  {
    var id, h, end := s.posted[p].userData, And(s.headWord, s.n - 1), And(s.tailWord, s.n - 1);
    SoloIsPass(s, id);
    OutcomeRestarts(s, id, PassHit(s.entries, h, end, end, id));
    PassFindsId(s.entries, s.posted, s.head, p);
  }

  lemma OutcomeRestarts(s: State, id: nat, x: int)
    requires s.n == |s.entries| && x < s.n && (x >= 0 ==> s.entries[x].userData == id)
    ensures Outcome(s, id, x).Restart? <==> x < 0
  {
  }

  lemma {:induction false} PassOutcome(s: State, p: nat)
    requires Shape(s) && UniqueIds(s.posted) && s.head <= p < |s.posted| && s.posted[p].userData > 0
    requires Occupant(|s.posted|, s.n, Slot(p, s.n)) == p && s.entries[Slot(p, s.n)] == s.posted[p]
    ensures Solo(s, s.posted[p].userData, HeadLoaded(s.headWord))
            == Outcome(s, s.posted[p].userData, if |s.posted| - s.head < s.n || p == s.head then Slot(p, s.n) else -1)
  {
    var id, end := s.posted[p].userData, And(s.tailWord, s.n - 1);
    assert PassHit(s.entries, And(s.headWord, s.n - 1), end, end, id)
        == if |s.posted| - s.head < s.n || p == s.head then Slot(p, s.n) else -1 by {
      PassFinds(s.entries, s.posted, s.head, p);
    }
    SoloIsPass(s, id);
  }

  /** A call for which a CQE has been posted, running on its own, goes back to findCqe after one pass if and only
      if the window is full and the CQE at its head carries another id. Otherwise it settles on a CQE of its id,
      which is the one at `p` when ids are not posted twice. */
  lemma {:induction false} PassSucceeds(n: nat, run: seq<Step>, s: State, p: nat)
    requires RingSize(n) && Reaches(n, run, s) && Awaited(s, p)
    ensures s.n == |s.entries| == n
    ensures var r := Solo(s, s.posted[p].userData, HeadLoaded(s.headWord));
            && (r.Restart? <==> |s.posted| - s.head == n && s.posted[s.head].userData != s.posted[p].userData)
            && (UniqueIds(s.posted) && !r.Restart? ==>
                  r == if s.posted[p].res < 0 then Done(s.posted[p].res, p)
                       else Acking(p % n, s.posted[p].res, p))
  {
    RunInv(n, run, s);
    PassRestarts(s, p);
    AwaitedInWindow(s, p);
    if UniqueIds(s.posted) { PassOutcome(s, p); }
    SlotIsMod(p, n);
  }

  /** The call for the CQE at `p` has not returned, and one pass on its own would return it. */
  predicate CanReturn(s: State, p: nat) {
    && s.n == |s.entries| > 0 && Awaited(s, p)
    && !Solo(s, s.posted[p].userData, HeadLoaded(s.headWord)).Restart?
  }

  /** When some posted CQE is still awaited, a pass can return one if and only if it is not the case that
      the ring is full and nobody awaits the CQE at its head. */
  lemma StuckExactlyWhenFull(n: nat, run: seq<Step>, s: State, q: nat)
    requires RingSize(n) && Reaches(n, run, s) && Awaited(s, q)
    ensures (exists p :: CanReturn(s, p)) <==> !(|s.posted| == s.head + n && !Awaited(s, s.head))
  {
    RunInv(n, run, s);
    if exists p :: CanReturn(s, p) {
      var p :| CanReturn(s, p);
      PassRestarts(s, p);
    }
    PassRestarts(s, q);
    if |s.posted| < s.head + n { assert CanReturn(s, q); }
    if |s.posted| == s.head + n && Awaited(s, s.head) {
      PassRestarts(s, s.head);
      assert CanReturn(s, s.head);
    }
  }
}
