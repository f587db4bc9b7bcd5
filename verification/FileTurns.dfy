/** Whole turns of the file-handle protocol: a call left alone, and the completer left alone. */
module FileTurns {
  import opened Words
  import opened Window
  import opened Completer
  import opened FileProtocol
  import opened FileInvariant
  import opened FileSafety

  /** Some run leads from `s` to `s'`. */
  ghost predicate Leads(s: State, s': State) {
    exists run :: Continues(s, run, s')
  }

  ghost predicate Reachable(n: nat, s: State) {
    n > 0 && Leads(Init(n), s)
  }

  lemma Start(s: State)
    ensures Leads(s, s)
  {
    assert Path([s], []);
    assert Continues(s, [], s);
  }

  lemma Take(s0: State, s: State, a: Step)
    requires Leads(s0, s) && s.n == |s.entries| > 0 && Enabled(s, a)
    ensures Leads(s0, Do(s, a))
  {
    var run :| Continues(s0, run, s);
    var states :| Path(states, run) && states[0] == s0 && states[|run|] == s;
    assert Path(states + [Do(s, a)], run + [a]);
    assert Continues(s0, run + [a], Do(s, a));
  }

  lemma Go(n: nat, s: State, a: Step, s': State)
    requires Reachable(n, s) && Makes(s, a, s')
    ensures Reachable(n, s')
  {
    Take(Init(n), s, a);
  }

  lemma LeadsInv(s0: State, s: State)
    requires Inv(s0) && Leads(s0, s)
    ensures Inv(s) && s.n == s0.n
  {
    var run :| Continues(s0, run, s);
    ContinuesInv(s0, run, s);
  }

  lemma ReachableInv(n: nat, s: State)
    requires RingSize(n) && Reachable(n, s)
    ensures Inv(s) && s.n == n
  {
    InitInv(n);
    LeadsInv(Init(n), s);
  }

  // ---------- A call on its own ----------

  /** The call for `id` stands at `r`. */
  function At(s: State, id: nat, r: Reader): State {
    s.(readers := s.readers[id := r])
  }

  /** What a call does on its own depends only on the ring memory and the tail. */
  lemma {:induction false} SoloFrame(s: State, s': State, id: nat, r: Reader)
    requires s.n == |s.entries| > 0
    requires s'.n == s.n && s'.entries == s.entries && s'.tailWord == s.tailWord && s'.posted == s.posted
    ensures Solo(s, id, r) == Solo(s', id, r)
    decreases Rank(s.n, r)
  {
    if !(r.Restart? || r.Acking? || r.Done?) && !(r.Second? && (r.x >= r.end || r.x >= s.n)) {
      SoloFrame(s, s', id, ReaderNext(s, id, r));
    }
  }

  /** A step of a call on its own does not change where it will end. */
  lemma SoloNext(s: State, id: nat, r: Reader)
    requires s.n == |s.entries| > 0 && !r.Restart? && !r.Acking? && !r.Done?
    ensures Solo(s, id, ReaderNext(s, id, r)) == Solo(s, id, r)
  {
  }

  /** One step of a call that has not matched yet changes only that call. */
  lemma ScanStep(s: State, id: nat)
    requires s.n == |s.entries| > 0 && id in s.readers && !s.readers[id].Acking? && !s.readers[id].Done?
    ensures Enabled(s, Read(id)) && Do(s, Read(id)) == At(s, id, ReaderNext(s, id, s.readers[id]))
  {
  }

  /** A call on its own can get to where Solo says. */
  lemma {:induction false} SoloReaches(s0: State, s: State, id: nat)
    requires Leads(s0, s) && s.n == |s.entries| > 0 && id in s.readers
    ensures Leads(s0, At(s, id, Solo(s, id, s.readers[id])))
    decreases Rank(s.n, s.readers[id])
  {
    var r := s.readers[id];
    if r.Restart? || r.Acking? || r.Done? {
      assert At(s, id, r) == s;
    } else {
      ScanStep(s, id);
      Take(s0, s, Read(id));
      var s' := Do(s, Read(id));
      if !(r.Second? && (r.x >= r.end || r.x >= s.n)) {
        SoloFrame(s, s', id, ReaderNext(s, id, r));
        SoloReaches(s0, s', id);
        assert At(s', id, Solo(s, id, r)) == At(s, id, Solo(s, id, r));
      }
    }
  }

  /** The state after the call for `id` has matched at `m` and sent its ack. */
  function Acked(s: State, id: nat, m: Reader): State
    requires m.Acking?
  {
    At(s, id, Done(m.res, m.pos)).(queue := s.queue + [m.x], queued := s.queued + [m.pos])
  }

  /** If a call on its own would match, then it can return, leaving its ack in the channel. */
  lemma {:induction false} SoloReturns(s0: State, s: State, id: nat, m: Reader)
    requires Leads(s0, s) && s.n == |s.entries| > 0 && id in s.readers && |s.queue| < CHANNEL
    requires m.Acking? && m == Solo(s, id, s.readers[id])
    ensures Leads(s0, Acked(s, id, m))
  {
    SoloReaches(s0, s, id);
    Take(s0, At(s, id, m), Read(id));
    assert At(s, id, m).readers[id := Done(m.res, m.pos)] == s.readers[id := Done(m.res, m.pos)];
  }

  /** A call about to scan, left alone, returns the CQE at `p` and acks its slot, on a window that is
      not full or whose head is `p`, when ids are not posted twice. */
  lemma {:induction false} ReturnAlone(n: nat, s: State, p: nat)
    requires RingSize(n) && Reachable(n, s) && |s.queue| < CHANNEL && UniqueIds(s.posted)
    requires p < |s.posted| && s.posted[p].res >= 0 && s.posted[p].userData in s.readers
    requires s.readers[s.posted[p].userData].Restart?
    requires |s.posted| - s.head < n || p == s.head
    ensures Reachable(n, Acked(s, s.posted[p].userData, Acking(Slot(p, n), s.posted[p].res, p)))
  {
    var id := s.posted[p].userData;
    var m := Acking(Slot(p, n), s.posted[p].res, p);
    assert s.n == n == |s.entries| && Solo(s, id, HeadLoaded(s.headWord)) == m by {
      ReachableInv(n, s);
      WouldMatch(s, p);
    }
    PassReturns(Init(n), s, id, m);
  }

  lemma {:induction false} WouldMatch(s: State, p: nat)
    requires Inv(s) && UniqueIds(s.posted) && Awaited(s, p) && s.posted[p].res >= 0
    requires |s.posted| - s.head < s.n || p == s.head
    ensures Solo(s, s.posted[p].userData, HeadLoaded(s.headWord)) == Acking(Slot(p, s.n), s.posted[p].res, p)
  {
    AwaitedInWindow(s, p);
    PassOutcome(s, p);
  }

  /** A call about to scan that would match in one pass can return. */
  lemma {:induction false} PassReturns(s0: State, s: State, id: nat, m: Reader)
    requires Leads(s0, s) && s.n == |s.entries| > 0 && id in s.readers && |s.queue| < CHANNEL && s.readers[id].Restart?
    requires m.Acking? && m == Solo(s, id, HeadLoaded(s.headWord))
    ensures Leads(s0, Acked(s, id, m))
  {
    ScanStep(s, id);
    Take(s0, s, Read(id));
    var s' := Do(s, Read(id));
    SoloFrame(s, s', id, HeadLoaded(s.headWord));
    SoloReturns(s0, s', id, m);
    assert Acked(s', id, m) == Acked(s, id, m);
  }

  // ---------- A turn of the completer ----------

  /** The state after the inner loop has run to its end. */
  function LoopDone(s: State): State
    requires s.mover.Moving?
  {
    var x := s.mover.cur + s.mover.seen;
    var k := s.mover.seen + RunLength(s.unacked, x);
    s.(unacked := Rest(s.unacked, x), mover := Idle, head := s.head + k, headWord := AddWord(s.headWord, k))
  }

  lemma LoopTurn(s: State)
    requires s.n == |s.entries| > 0 && s.mover.Moving?
    ensures Enabled(s, Delete) ==> LoopDone(Do(s, Delete)) == LoopDone(s)
    ensures Enabled(s, Store) ==> Do(s, Store) == LoopDone(s)
  {
  }

  lemma {:induction false} InnerLoop(s0: State, s: State)
    requires Leads(s0, s) && s.n == |s.entries| > 0 && s.mover.Moving?
    ensures Leads(s0, LoopDone(s))
    decreases |s.unacked|
  {
    LoopTurn(s);
    if Enabled(s, Delete) {
      Take(s0, s, Delete);
      InnerLoop(s0, Do(s, Delete));
    } else {
      Take(s0, s, Store);
    }
  }

  /** The state after the completer has handled the next ack in its channel. */
  function Turned(s: State): State
    requires s.n > 0 && s.queue != [] && s.queued != []
  {
    var a := AckSlot(s.n, Acks(s.head, s.unacked), s.queue[0]);
    s.(queue := s.queue[1..], queued := s.queued[1..], acked := s.acked + {s.queued[0]},
       unacked := a.unacked, head := a.head, headWord := Wrap(a.head))
  }

  lemma TurnedIsLoop(s: State)
    requires RingSize(s.n) && s.n == |s.entries| && s.mover.Idle? && s.queue != [] && s.queued != []
    requires s.headWord == Wrap(s.head)
    ensures LoopDone(Do(Do(s, Receive), Load)) == Turned(s)
  {
    var s2 := Do(Do(s, Receive), Load);
    WordSlot(s.head, s.n);
    WrapPlus(s.head, RunLength(s2.unacked, s2.mover.cur));
  }

  /** The small steps of completer.run add up to one ack. */
  lemma {:induction false} Turn(s0: State, s: State)
    requires Leads(s0, s) && Inv(s) && s.mover.Idle? && s.queue != []
    ensures s.queued != [] && Leads(s0, Turned(s))
  {
    Take(s0, s, Receive);
    Take(s0, Do(s, Receive), Load);
    InnerLoop(s0, Do(Do(s, Receive), Load));
    TurnedIsLoop(s);
  }

  lemma TurnFrom(n: nat, s: State)
    requires RingSize(n) && Reachable(n, s) && s.mover.Idle? && s.queue != []
    ensures s.n == n && s.queued != [] && Reachable(n, Turned(s))
  {
    ReachableInv(n, s);
    Turn(Init(n), s);
  }

  /** A head whose own ack has been processed is taken further by the next ack, whichever that is. */
  lemma {:induction false} LagResumes(s0: State, s: State)
    requires Leads(s0, s) && Inv(s) && s.mover.Idle? && s.queue != [] && s.head in s.acked
    ensures s.queued != [] && Leads(s0, Turned(s)) && Turned(s).head > s.head
  {
    Turn(s0, s);
    HeadPending(s);
    assert Slot(s.head, s.n) in s.unacked + {s.queue[0]};
  }

  /** Between acks, the slot of a head whose ack has been processed is still in the map. */
  lemma HeadPending(s: State)
    requires Inv(s) && !s.mover.Moving? && s.head in s.acked
    ensures Slot(s.head, s.n) in s.unacked
  {
    assert Accepted(s, s.head);
    OccupantInWindow(|s.posted|, s.n, s.head);
  }

  // ---------- The completer's channel ----------

  /** `k` calls have returned, one after another, and their acks are all in the channel. */
  ghost predicate Unhandled(s: State, k: nat) {
    && |s.posted| == s.lastId == |s.queue| == k && s.head == 0
    && forall p :: 0 <= p < k ==> s.posted[p].userData == p + 1
  }

  /** One more call is submitted, completed and returned, and the completer does not run. */
  lemma {:induction false} OneMoreAck(n: nat, s: State) returns (t: State)
    requires RingSize(n) && Reachable(n, s) && Unhandled(s, |s.queue|) && |s.queue| + 1 < n && |s.queue| < CHANNEL
    ensures Reachable(n, t) && Unhandled(t, |s.queue| + 1)
  {
    var k := |s.queue|;
    ReachableInv(n, s);
    var s1 := Do(s, Submit);
    Go(n, s, Submit, s1);
    WrapMinus(k, 0);
    var s2 := Do(s1, Post(Cqe(k + 1, 0, 0)));
    Go(n, s1, Post(Cqe(k + 1, 0, 0)), s2);
    ReturnAlone(n, s2, k);
    t := Acked(s2, k + 1, Acking(Slot(k, n), 0, k));
  }

  lemma {:induction false} ManyAcks(n: nat, k: nat) returns (s: State)
    requires RingSize(n) && k < n && k <= CHANNEL
    ensures Reachable(n, s) && Unhandled(s, k)
  {
    if k == 0 {
      s := Init(n);
      Start(s);
    } else {
      s := ManyAcks(n, k - 1);
      s := OneMoreAck(n, s);
    }
  }

  /** The channel holds 512 acks and no more: it is never longer, on a larger ring it gets that long, and a call that
      has matched can send its ack exactly when it is shorter. */
  lemma {:induction false} ChannelHolds(n: nat) returns (full: State)
    requires RingSize(n)
    ensures forall s :: Reachable(n, s) ==> |s.queue| <= 512
    ensures n > 512 ==> Reachable(n, full) && |full.queue| == 512
    ensures forall s, id :: Reachable(n, s) && id in s.readers && s.readers[id].Acking? ==>
              (Enabled(s, Read(id)) <==> |s.queue| < 512)
  {
    forall s | Reachable(n, s) ensures |s.queue| <= 512 {
      ReachableInv(n, s);
    }
    full := ManyAcks(n, if n > 512 then 512 else 0);
  }
}
