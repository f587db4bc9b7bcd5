/** Exactly when a ring used through file handles can still return a call. */
module FileLiveness {
  import opened Words
  import opened Window
  import opened Scan
  import opened FileProtocol
  import opened FileInvariant
  import opened FileSafety
  import opened FileTurns

  /** Some continuation returns a call that has not returned in `s`. */
  ghost predicate CanProgress(s: State) {
    exists s', id :: Leads(s, s') && Finished(s', id) && !Finished(s, id)
  }

  /** Every call still running would, left alone from where it stands, go back to findCqe. */
  ghost predicate AllRestart(s: State) {
    s.n == |s.entries| > 0
    && forall id :: id in s.readers && !s.readers[id].Done? ==> Solo(s, id, s.readers[id]).Restart?
  }

  /** The ring is full, nobody awaits the CQE at the head, the head cannot move (no ack for it was ever sent, or the
      completer rests with an empty channel), and no scan under way is about to match. */
  ghost predicate Dead(s: State) {
    && |s.posted| == s.head + s.n
    && !Awaited(s, s.head)
    && (!Accepted(s, s.head) || (s.queue == [] && s.mover.Idle?))
    && AllRestart(s)
  }

  /** When ids are not posted twice and the head's id is known, its call has returned, and the head cannot
      move because that call failed or because the completer rests. */
  lemma DeadHeadForm(s: State)
    requires Inv(s) && s.head < |s.posted| && s.posted[s.head].userData > 0 && UniqueIds(s.posted)
    ensures !Awaited(s, s.head) <==> Returned(s, s.head)
    ensures Returned(s, s.head) ==> (!Accepted(s, s.head) <==> s.posted[s.head].res < 0)
  {
    var id := s.posted[s.head].userData;
    assert ReaderOk(s, id, s.readers[id]);
  }

  // ---------- A dead ring stays dead ----------

  /** The completer of a dead ring leaves the head alone. */
  lemma DeadHead(s: State)
    requires Inv(s) && !Accepted(s, s.head)
    ensures Frontier(s) == s.head && !Enabled(s, Delete)
  {
    assert s.head !in s.acked;
    if Enabled(s, Delete) { LoopSlot(s); }
  }

  /** A fresh pass on a full ring whose head nobody awaits starts over, for every call. */
  lemma {:induction false} FullRestarts(s: State, id: nat)
    requires Shape(s) && |s.posted| == s.head + s.n && s.posted[s.head].userData != id
    ensures Solo(s, id, HeadLoaded(s.headWord)).Restart?
  {
    var n, x := s.n, Slot(s.head, s.n);
    SoloIsPass(s, id);
    assert And(s.headWord, n - 1) == x && And(s.tailWord, n - 1) == x by {
      WordSlot(s.head, n);
      WordSlot(|s.posted|, n);
    }
    assert s.entries[x].userData != id by { ImageWindow(s.entries, s.posted, s.head); }
    OutcomeRestarts(s, id, PassHit(s.entries, x, x, x, id));
  }

  lemma {:induction false} DeadRead(s: State, id: nat)
    requires Inv(s) && Dead(s) && id in s.readers && !s.readers[id].Done?
    ensures var r := s.readers[id]; !r.Acking? && Solo(s, id, ReaderNext(s, id, r)).Restart?
    ensures !ReaderNext(s, id, s.readers[id]).Done?
  {
    var r := s.readers[id];
    assert Solo(s, id, r).Restart?;
    if r.Restart? {
      FullRestarts(s, id);
    } else {
      SoloNext(s, id, r);
    }
  }

  /** A step that leaves ring memory and tail alone and moves at most the call for `id` keeps AllRestart. */
  lemma AllRestartKept(s: State, s': State, id: nat)
    requires AllRestart(s)
    requires s'.n == s.n && s'.entries == s.entries && s'.tailWord == s.tailWord && s'.posted == s.posted
    requires forall i :: i in s'.readers && i != id ==> i in s.readers && s'.readers[i] == s.readers[i]
    requires id in s'.readers && !s'.readers[id].Done? ==> Solo(s, id, s'.readers[id]).Restart?
    ensures AllRestart(s')
  {
    forall i | i in s'.readers && !s'.readers[i].Done? ensures Solo(s', i, s'.readers[i]).Restart? {
      SoloFrame(s, s', i, s'.readers[i]);
    }
  }

  ghost predicate SameFinished(s: State, s': State) {
    forall id :: Finished(s', id) <==> Finished(s, id)
  }

  lemma {:induction false} DeadStep(s: State, a: Step)
    requires Inv(s) && Dead(s) && Enabled(s, a)
    ensures var s' := Do(s, a); Dead(s') && s'.head == s.head && s'.posted == s.posted && SameFinished(s, s')
  {
    var s' := Do(s, a);
    match a
    case Submit => AllRestartKept(s, s', s'.lastId);
    case Post(c) =>
      WrapMinus(|s.posted|, s.head);
    case Read(id) =>
      DeadRead(s, id);
      AllRestartKept(s, s', id);
    case Delete =>
      DeadHead(s);
    case _ =>
      DeadHead(s);
      AllRestartKept(s, s', 0);
  }

  /** From a dead ring no call that has not returned ever returns, and no further completion is ever posted. */
  lemma {:induction false} DeadForever(s: State, run: seq<Step>, s': State)
    requires Inv(s) && Dead(s) && Continues(s, run, s')
    ensures Dead(s') && s'.head == s.head && s'.posted == s.posted && SameFinished(s, s')
    decreases |run|
  {
    if run != [] {
      var r := LastStep(s, run, s');
      DeadForever(s, run[..|run| - 1], r);
      ContinuesInv(s, run[..|run| - 1], r);
      DeadStep(r, run[|run| - 1]);
    }
  }

  // ---------- A ring that is not dead can return a call ----------

  /** The completer alone has worked between `s` and `s'`. */
  ghost predicate Behind(s: State, s': State) {
    && s'.n == s.n && s'.entries == s.entries && s'.tailWord == s.tailWord && s'.lastId == s.lastId
    && s'.readers == s.readers && s'.posted == s.posted && s.head <= s'.head
  }

  /** The completer can finish the turn it is in, and moves the head if the head's ack has been processed. */
  lemma {:induction false} FinishTurn(s0: State, s: State) returns (t: State)
    requires Leads(s0, s) && Inv(s) && !s.mover.Idle?
    ensures Leads(s0, t) && Behind(s, t) && t.mover.Idle?
    ensures t.queue == s.queue && t.acked == s.acked
    ensures s.head in s.acked ==> t.head > s.head
  {
    if s.mover.Woken? {
      Take(s0, s, Load);
      LoadInv(s);
      t := FinishLoop(s0, Do(s, Load));
    } else {
      t := FinishLoop(s0, s);
    }
  }

  lemma {:induction false} FinishLoop(s0: State, s: State) returns (t: State)
    requires Leads(s0, s) && Inv(s) && s.mover.Moving?
    ensures Leads(s0, t) && Behind(s, t) && t.mover.Idle?
    ensures t.queue == s.queue && t.acked == s.acked
    ensures s.head in s.acked ==> t.head > s.head
  {
    InnerLoop(s0, s);
    t := LoopDone(s);
    if s.head in s.acked && s.mover.seen == 0 {
      MovingSlot(s);
    }
  }

  lemma MovingSlot(s: State)
    requires Inv(s) && s.mover.Moving? && s.mover.seen == 0 && s.head in s.acked
    ensures s.mover.cur in s.unacked
  {
    LoopSlot(s);
  }

  /** The completer can make room in the channel. */
  lemma {:induction false} MakeSpace(s0: State, s: State) returns (t: State)
    requires Leads(s0, s) && Inv(s)
    ensures Leads(s0, t) && Behind(s, t) && |t.queue| < CHANNEL
  {
    t := s;
    if |s.queue| == CHANNEL {
      if !s.mover.Idle? { t := FinishTurn(s0, s); }
      Take(s0, t, Receive);
      t := Do(t, Receive);
    }
  }

  /** A call that would match from where it stands can be brought to return. */
  lemma {:induction false} ReturnFrom(s0: State, s: State, id: nat)
    requires Inv(s0) && Leads(s0, s) && Inv(s) && id in s.readers && !Solo(s, id, s.readers[id]).Restart?
    ensures exists s' :: Leads(s0, s') && Finished(s', id)
  {
    var m := Solo(s, id, s.readers[id]);
    SoloReaches(s0, s, id);
    var s1 := At(s, id, m);
    SoloEnds(s, id, s.readers[id]);
    if m.Done? {
      assert Finished(s1, id);
    } else {
      LeadsInv(s0, s1);
      var t := MakeSpace(s0, s1);
      Take(s0, t, Read(id));
      assert Finished(Do(t, Read(id)), id);
    }
  }

  lemma {:induction false} SoloEnds(s: State, id: nat, r: Reader)
    requires s.n == |s.entries| > 0
    ensures var m := Solo(s, id, r); m.Restart? || m.Acking? || m.Done?
    decreases Rank(s.n, r)
  {
    if !(r.Restart? || r.Acking? || r.Done?) && !(r.Second? && (r.x >= r.end || r.x >= s.n)) {
      SoloEnds(s, id, ReaderNext(s, id, r));
    }
  }

  /** The call for an awaited CQE can be brought to return when the window is not full or that CQE is its head:
      it finishes the scan it is in, and if that finds nothing, the next one does. */
  lemma {:induction false} PassAgain(s0: State, s: State, p: nat)
    requires Inv(s0) && Leads(s0, s) && Inv(s) && Awaited(s, p)
    requires |s.posted| < s.head + s.n || p == s.head
    ensures exists s' :: Leads(s0, s') && Finished(s', s.posted[p].userData)
  {
    var id := s.posted[p].userData;
    var m := Solo(s, id, s.readers[id]);
    if m.Restart? {
      SoloReaches(s0, s, id);
      var s1 := At(s, id, Restart);
      ScanStep(s1, id);
      Take(s0, s1, Read(id));
      var s2 := Do(s1, Read(id));
      PassRestarts(s, p);
      SoloFrame(s, s2, id, HeadLoaded(s.headWord));
      LeadsInv(s0, s2);
      ReturnFrom(s0, s2, id);
    } else {
      ReturnFrom(s0, s, id);
    }
  }

  /** An accepted position has its ack in the channel or processed. */
  lemma AcceptedSent(s: State, p: nat)
    requires Inv(s) && Accepted(s, p)
    ensures p in s.acked || p in s.queued
  {
    assert ReaderOk(s, s.posted[p].userData, s.readers[s.posted[p].userData]);
  }

  /** The completer moves the head when it handles the head's own ack. */
  lemma ReceivedHead(s: State)
    requires Inv(s) && s.queue != [] && s.queued != [] && s.head == s.queued[0]
    ensures Turned(s).head > s.head
  {
    assert s.queue[0] == Slot(s.head, s.n);
  }

  /** One turn of the completer either moves a head whose ack has been sent, or leaves that ack in the channel. */
  lemma {:induction false} TurnOrWait(s0: State, s: State) returns (t: State)
    requires Leads(s0, s) && Inv(s) && Accepted(s, s.head) && (s.queue != [] || !s.mover.Idle?)
    ensures Leads(s0, t) && Behind(s, t) && t.mover.Idle?
    ensures t.head > s.head || (t.queue != [] && |t.queue| <= |s.queue| && (s.mover.Idle? ==> |t.queue| < |s.queue|))
  {
    AcceptedSent(s, s.head);
    if !s.mover.Idle? {
      t := FinishTurn(s0, s);
    } else {
      Turn(s0, s);
      t := Turned(s);
      if s.head in s.acked {
        LagResumes(s0, s);
      } else if s.queued[0] == s.head {
        ReceivedHead(s);
      }
    }
  }

  /** A head whose ack has been sent can be brought to move while an ack is in the channel or being handled. */
  lemma {:induction false} HeadMoves(s0: State, s: State) returns (t: State)
    requires Inv(s0) && Leads(s0, s) && Inv(s) && Accepted(s, s.head)
    requires s.queue != [] || !s.mover.Idle?
    ensures Leads(s0, t) && Behind(s, t) && t.head > s.head
    decreases |s.queue|, !s.mover.Idle?
  {
    t := TurnOrWait(s0, s);
    if t.head == s.head {
      LeadsInv(s0, t);
      t := HeadMoves(s0, t);
    }
  }

  /** A ring that is not dead, and in which some posted CQE is awaited, can return a call. */
  lemma {:induction false} NotDeadProgresses(s: State, q: nat)
    requires Inv(s) && Awaited(s, q) && !Dead(s)
    ensures CanProgress(s)
  {
    Start(s);
    if !AllRestart(s) {
      var id :| id in s.readers && !s.readers[id].Done? && !Solo(s, id, s.readers[id]).Restart?;
      ReturnFrom(s, s, id);
    } else if |s.posted| == s.head + s.n && !Awaited(s, s.head) {
      var t := HeadMoves(s, s);
      LeadsInv(s, t);
      PassAgain(s, t, q);
    } else {
      PassAgain(s, s, if |s.posted| == s.head + s.n then s.head else q);
    }
  }

  /** A call whose completion has been posted can return, in some continuation, unless the ring is dead: in every
      reachable state with an awaited completion, no continuation whatever returns a call if and only
      if the ring is dead. */
  lemma {:induction false} DeadExactly(n: nat, run: seq<Step>, s: State, q: nat)
    requires RingSize(n) && Reaches(n, run, s) && Awaited(s, q)
    ensures !CanProgress(s) <==> Dead(s)
  {
    RunInv(n, run, s);
    if Dead(s) {
      if CanProgress(s) {
        var s', id :| Leads(s, s') && Finished(s', id) && !Finished(s, id);
        var more :| Continues(s, more, s');
        DeadForever(s, more, s');
        assert false;
      }
    } else {
      NotDeadProgresses(s, q);
    }
  }
}
