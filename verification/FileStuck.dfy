/** Exactly when one given call can still return. */
module FileStuck {
  import opened Words
  import opened Window
  import opened FileProtocol
  import opened FileInvariant
  import opened FileSafety
  import opened FileTurns
  import opened FileLiveness

  /** The call for `id` has not returned, and left alone from where it stands it would match and send an ack. */
  predicate AboutToAck(s: State, id: nat)
    requires s.n == |s.entries| > 0
  {
    id in s.readers && !s.readers[id].Done? && Solo(s, id, s.readers[id]).Acking?
  }

  /** The call whose id is at the head would, left alone, match there and acknowledge it. */
  predicate Settles(s: State)
    requires s.n == |s.entries| > 0 && s.head < |s.posted|
  {
    var c := s.posted[s.head];
    && c.userData in s.readers && !s.readers[c.userData].Done?
    && var m := Solo(s, c.userData, s.readers[c.userData]);
       (m.Acking? && m.pos == s.head) || (m.Restart? && c.res >= 0)
  }

  /** The ring is full, and its head cannot move: its ack has been sent, but the completer rests with an empty channel
      and no call is about to send another; or its ack has not been sent, and never will be. */
  ghost predicate HeadStuck(s: State) {
    && s.n == |s.entries| > 0 && |s.posted| == s.head + s.n
    && if Accepted(s, s.head) then s.queue == [] && s.mover.Idle? && (forall j :: j in s.readers ==> !AboutToAck(s, j))
       else !Settles(s)
  }

  /** The call for `id` is not about to match, the CQE at the head is not its own, and the head cannot move. */
  ghost predicate Stuck(s: State, id: nat) {
    && HeadStuck(s) && s.posted[s.head].userData != id
    && id in s.readers && !s.readers[id].Done? && Solo(s, id, s.readers[id]).Restart?
  }

  // ---------- A stuck call stays stuck ----------

  /** On a full ring, a fresh pass of the call whose id is at the head settles there. */
  lemma {:induction false} HeadPass(s: State)
    requires Shape(s) && |s.posted| == s.head + s.n
    ensures var c := s.posted[s.head];
            Solo(s, c.userData, HeadLoaded(s.headWord))
            == if c.res < 0 then Done(c.res, s.head) else Acking(Slot(s.head, s.n), c.res, s.head)
  {
    var n, x, id := s.n, Slot(s.head, s.n), s.posted[s.head].userData;
    assert And(s.headWord, n - 1) == x && And(s.tailWord, n - 1) == x by {
      WordSlot(s.head, n);
      WordSlot(|s.posted|, n);
    }
    ImageWindow(s.entries, s.posted, s.head);
    OccupantInWindow(|s.posted|, n, s.head);
    assert Solo(s, id, HeadLoaded(s.headWord)) == Solo(s, id, First(x, x));
    assert Solo(s, id, First(x, x)) == Solo(s, id, Examine(s, id, x, Restart));
  }

  /** A step of a call keeps what it would come to, unless it starts a pass or sends an ack. */
  lemma {:induction false} StepSolo(s: State, id: nat)
    requires Shape(s) && |s.posted| == s.head + s.n && id in s.readers && !s.readers[id].Done?
    ensures var r, m := s.readers[id], Solo(s, id, ReaderNext(s, id, s.readers[id]));
            && (!r.Restart? && !r.Acking? ==> m == Solo(s, id, r))
            && (r.Restart? && s.posted[s.head].userData != id ==> m.Restart?)
            && (r.Restart? && s.posted[s.head].userData == id && s.posted[s.head].res < 0 ==> m.Done?)
  {
    var r := s.readers[id];
    if r.Restart? {
      if s.posted[s.head].userData == id { HeadPass(s); } else { FullRestarts(s, id); }
    } else if !r.Acking? {
      SoloNext(s, id, r);
    }
  }

  /** What calls that do not move would come to is the same as long as ring memory and tail are. */
  lemma SettlesKept(s: State, s': State)
    requires s.n == |s.entries| > 0 && s.head < |s.posted| && s'.head == s.head
    requires s'.n == s.n && s'.entries == s.entries && s'.tailWord == s.tailWord && s'.posted == s.posted
    requires var id := s.posted[s.head].userData;
             (id in s'.readers <==> id in s.readers) && (id in s.readers ==> s'.readers[id] == s.readers[id])
    ensures Settles(s') <==> Settles(s)
  {
    var id := s.posted[s.head].userData;
    if id in s.readers { SoloFrame(s, s', id, s.readers[id]); }
  }

  lemma AboutKept(s: State, s': State, id: nat)
    requires s.n == |s.entries| > 0
    requires s'.n == s.n && s'.entries == s.entries && s'.tailWord == s.tailWord && s'.posted == s.posted
    requires id in s.readers && id in s'.readers && s'.readers[id] == s.readers[id]
    ensures AboutToAck(s', id) <==> AboutToAck(s, id)
  {
    SoloFrame(s, s', id, s.readers[id]);
  }

  /** A head whose ack has been sent stays where it is. */
  lemma {:induction false} AcceptedStuck(s: State, a: Step)
    requires Inv(s) && HeadStuck(s) && Accepted(s, s.head) && Enabled(s, a)
    ensures var s' := Do(s, a); HeadStuck(s') && s'.head == s.head && s'.posted == s.posted
  {
    var s' := Do(s, a);
    match a
    case Submit =>
      forall j | j in s'.readers ensures !AboutToAck(s', j) {
        if j in s.readers && j != s'.lastId { AboutKept(s, s', j); }
      }
    case Read(id) =>
      StepSolo(s, id);
      assert !AboutToAck(s, id);
      forall j | j in s'.readers ensures !AboutToAck(s', j) {
        if j == id { SoloFrame(s, s', id, s'.readers[id]); } else { AboutKept(s, s', j); }
      }
    case Post(_) =>
      WrapMinus(|s.posted|, s.head);
    case _ =>
  }

  /** A step of the call whose id is at the head does not acknowledge it. */
  lemma {:induction false} UnsettledRead(s: State, id: nat)
    requires Inv(s) && HeadStuck(s) && !Accepted(s, s.head) && Enabled(s, Read(id))
    requires id == s.posted[s.head].userData
    ensures var s' := Do(s, Read(id)); !Accepted(s', s.head) && !Settles(s')
  {
    var s' := Do(s, Read(id));
    StepSolo(s, id);
    SoloFrame(s, s', id, s'.readers[id]);
  }

  /** A head whose ack has not been sent stays where it is. */
  lemma {:induction false} UnacceptedStuck(s: State, a: Step)
    requires Inv(s) && HeadStuck(s) && !Accepted(s, s.head) && Enabled(s, a)
    ensures var s' := Do(s, a); HeadStuck(s') && s'.head == s.head && s'.posted == s.posted
  {
    var s' := Do(s, a);
    DeadHead(s);
    match a
    case Post(_) =>
      WrapMinus(|s.posted|, s.head);
    case Read(id) =>
      if id == s.posted[s.head].userData { UnsettledRead(s, id); } else { SettlesKept(s, s'); }
    case Delete =>
    case _ =>
      SettlesKept(s, s');
  }

  lemma {:induction false} StuckStep(s: State, id: nat, a: Step)
    requires Inv(s) && Stuck(s, id) && Enabled(s, a)
    ensures Stuck(Do(s, a), id)
  {
    var s' := Do(s, a);
    if Accepted(s, s.head) { AcceptedStuck(s, a); } else { UnacceptedStuck(s, a); }
    StepSolo(s, id);
    assert !a.Post? by { WrapMinus(|s.posted|, s.head); }
    assert id <= s.lastId;
    SoloFrame(s, s', id, s'.readers[id]);
  }

  /** A stuck call never returns. */
  lemma {:induction false} StuckForever(s: State, id: nat, run: seq<Step>, s': State)
    requires Inv(s) && Stuck(s, id) && Continues(s, run, s')
    ensures Stuck(s', id)
    decreases |run|
  {
    if run != [] {
      var r := LastStep(s, run, s');
      StuckForever(s, id, run[..|run| - 1], r);
      ContinuesInv(s, run[..|run| - 1], r);
      StuckStep(r, id, run[|run| - 1]);
    }
  }

  // ---------- A call that is not stuck can return ----------

  /** The call for `id` can be brought to return. */
  ghost predicate CanFinish(s: State, id: nat) {
    exists s' :: Leads(s, s') && Finished(s', id)
  }

  /** Once the head has moved, the call for an awaited CQE can return. */
  lemma {:induction false} AfterMove(s: State, t: State, q: nat)
    requires Inv(s) && Leads(s, t) && Awaited(t, q) && |t.posted| < t.head + t.n
    ensures CanFinish(s, t.posted[q].userData)
  {
    LeadsInv(s, t);
    PassAgain(s, t, q);
  }

  /** Another call sends an ack, and the completer moves a head it had left at the start of a lap. */
  lemma {:induction false} OtherAcks(s: State, q: nat, j: nat)
    requires Inv(s) && Awaited(s, q) && Accepted(s, s.head) && |s.posted| == s.head + s.n && s.queue == []
    requires AboutToAck(s, j) && j != s.posted[q].userData
    ensures CanFinish(s, s.posted[q].userData)
  {
    var m := Solo(s, j, s.readers[j]);
    Start(s);
    SoloReturns(s, s, j, m);
    var s1 := Acked(s, j, m);
    LeadsInv(s, s1);
    var t := HeadMoves(s, s1);
    AfterMove(s, t, q);
  }

  /** A call whose id is at the head of a full ring matches there when it starts over. */
  lemma {:induction false} MatchesAgain(s: State, t: State) returns (t': State)
    requires Inv(s) && |s.posted| == s.head + s.n && s.posted[s.head].res >= 0 && Leads(s, t)
    requires s.posted[s.head].userData in s.readers && t == At(s, s.posted[s.head].userData, Restart)
    ensures var id := s.posted[s.head].userData;
            Leads(s, t') && t' == At(s, id, Acking(Slot(s.head, s.n), s.posted[s.head].res, s.head))
  {
    var id := s.posted[s.head].userData;
    ScanStep(t, id);
    Take(s, t, Read(id));
    var s1 := Do(t, Read(id));
    HeadPass(s);
    SoloFrame(s, s1, id, HeadLoaded(s.headWord));
    SoloReaches(s, s1, id);
    t' := At(s1, id, Solo(s1, id, s1.readers[id]));
  }

  /** The call whose id is at the head can be brought to match there. */
  lemma {:induction false} HeadMatched(s: State) returns (t: State)
    requires Inv(s) && |s.posted| == s.head + s.n && Settles(s)
    ensures var id := s.posted[s.head].userData;
            && Leads(s, t) && id in t.readers && t.readers[id].Acking? && t.readers[id].pos == s.head
            && t == At(s, id, t.readers[id])
  {
    var id := s.posted[s.head].userData;
    var m := Solo(s, id, s.readers[id]);
    Start(s);
    SoloReaches(s, s, id);
    t := At(s, id, m);
    if m.Restart? { t := MatchesAgain(s, t); }
  }

  /** The call at the head returns, and the head moves. */
  lemma {:induction false} HeadSettles(s: State, q: nat)
    requires Inv(s) && Awaited(s, q) && |s.posted| == s.head + s.n && Settles(s)
    requires s.posted[s.head].userData != s.posted[q].userData
    ensures CanFinish(s, s.posted[q].userData)
  {
    var id := s.posted[s.head].userData;
    var s1 := HeadMatched(s);
    LeadsInv(s, s1);
    var s2 := MakeSpace(s, s1);
    LeadsInv(s, s2);
    Take(s, s2, Read(id));
    var t := Do(s2, Read(id));
    LeadsInv(s, t);
    assert ReaderOk(s2, id, s2.readers[id]);
    if t.head == s.head {
      assert Accepted(t, t.head);
      t := HeadMoves(s, t);
    }
    AfterMove(s, t, q);
  }

  lemma {:induction false} HeadFrees(s: State, q: nat)
    requires Inv(s) && Awaited(s, q) && |s.posted| == s.head + s.n && !HeadStuck(s)
    requires s.posted[s.head].userData != s.posted[q].userData
    requires Solo(s, s.posted[q].userData, s.readers[s.posted[q].userData]).Restart?
    ensures CanFinish(s, s.posted[q].userData)
  {
    if !Accepted(s, s.head) {
      HeadSettles(s, q);
    } else if s.queue != [] || !s.mover.Idle? {
      Start(s);
      var t := HeadMoves(s, s);
      AfterMove(s, t, q);
    } else {
      var j :| j in s.readers && AboutToAck(s, j);
      OtherAcks(s, q, j);
    }
  }

  lemma {:induction false} FreeReturns(s: State, q: nat)
    requires Inv(s) && Awaited(s, q) && !Stuck(s, s.posted[q].userData)
    ensures CanFinish(s, s.posted[q].userData)
  {
    var id := s.posted[q].userData;
    Start(s);
    if !Solo(s, id, s.readers[id]).Restart? {
      ReturnFrom(s, s, id);
    } else if |s.posted| < s.head + s.n {
      PassAgain(s, s, q);
    } else if s.posted[s.head].userData == id {
      PassAgain(s, s, s.head);
    } else {
      HeadFrees(s, q);
    }
  }

  /** A call whose completion has been posted can return, in some continuation, if and only if it is not stuck. It is
      stuck if the scan it is in ends without a match, the ring is full, the CQE at the head is not its own,
      and the head cannot move. */
  lemma {:induction false} CallExactly(n: nat, run: seq<Step>, s: State, q: nat)
    requires RingSize(n) && Reaches(n, run, s) && Awaited(s, q)
    ensures CanFinish(s, s.posted[q].userData) <==> !Stuck(s, s.posted[q].userData)
  {
    var id := s.posted[q].userData;
    RunInv(n, run, s);
    if !Stuck(s, id) {
      FreeReturns(s, q);
    } else if CanFinish(s, id) {
      var s' :| Leads(s, s') && Finished(s', id);
      var more :| Continues(s, more, s');
      StuckForever(s, id, more, s');
      assert false;
    }
  }
}
