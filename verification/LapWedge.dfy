/** A run without a single error that leaves a two-slot ring dead. The completion after a lap boundary is acknowledged
    before the one in front of it, so the head comes to rest on the boundary although the
    CQE there has been returned; the next completion fills the ring and cannot be found. */
module LapWedge {
  import opened Window
  import opened Completer
  import opened FileProtocol
  import opened FileSafety
  import opened FileTurns
  import opened FileLiveness
  import opened FileWedge

  function Ok(i: nat): Cqe {
    Completion(i, 0)
  }

  // First lap: request 1 is posted at position 0, returned and acknowledged.

  function Opened(): State {
    Small(0, [Ok(1)], [Ok(1), ZERO], 1, map[1 := Restart], [], {}, {})
  }

  function Acknowledged(): State {
    Small(1, [Ok(1)], [Ok(1), ZERO], 1, map[1 := Done(0, 0)], [], {}, {0})
  }

  lemma OpenSteps()
    ensures var s := Small(0, [], [ZERO, ZERO], 1, map[1 := Restart], [], {}, {});
            Makes(Init(2), Submit, s) && Makes(s, Post(Ok(1)), Opened())
  {
  }

  lemma AcknowledgeTurn()
    ensures Turned(Acked(Opened(), 1, Acking(0, 0, 0))) == Acknowledged()
  {
    assert RunLength({0}, 0) == 1 && Rest({0}, 0) == {} by { RunUnique({0}, 0, 1); RunIsLongest({0}, 0); }
  }

  lemma ReachAcknowledged()
    ensures Reachable(2, Acknowledged())
  {
    Start(Init(2));
    OpenSteps();
    var s := Small(0, [], [ZERO, ZERO], 1, map[1 := Restart], [], {}, {});
    Go(2, Init(2), Submit, s);
    Go(2, s, Post(Ok(1)), Opened());
    ReturnAlone(2, Opened(), 0);
    TurnFrom(2, Acked(Opened(), 1, Acking(0, 0, 0)));
    AcknowledgeTurn();
  }

  // Requests 2 and 3: the call for 3 has scanned to the ring end before its completion is posted.

  function Waiting(r: Reader): State {
    Small(1, [Ok(1), Ok(2)], [Ok(1), Ok(2)], 3, map[1 := Done(0, 0), 2 := Restart, 3 := r], [], {}, {0})
  }

  function Overtaken(): State {
    Small(1, [Ok(1), Ok(2), Ok(3)], [Ok(3), Ok(2)], 3, map[1 := Done(0, 0), 2 := Restart, 3 := Reload], [], {}, {0})
  }

  lemma WaitSteps()
    ensures var s := Acknowledged().(lastId := 2, readers := map[1 := Done(0, 0), 2 := Restart]);
            var s' := s.(lastId := 3, readers := map[1 := Done(0, 0), 2 := Restart, 3 := Restart]);
            Makes(Acknowledged(), Submit, s) && Makes(s, Submit, s') && Makes(s', Post(Ok(2)), Waiting(Restart))
  {
  }

  lemma ScanSteps()
    ensures Makes(Waiting(Restart), Read(3), Waiting(HeadLoaded(1)))
    ensures Makes(Waiting(HeadLoaded(1)), Read(3), Waiting(First(1, 0)))
    ensures Makes(Waiting(First(1, 0)), Read(3), Waiting(First(2, 0)))
    ensures Makes(Waiting(First(2, 0)), Read(3), Waiting(Reload))
  {
  }

  lemma OvertakeStep()
    ensures Makes(Waiting(Reload), Post(Ok(3)), Overtaken())
  {
  }

  lemma ReachOvertaken()
    ensures Reachable(2, Overtaken())
  {
    ReachAcknowledged();
    WaitSteps();
    var s := Acknowledged().(lastId := 2, readers := map[1 := Done(0, 0), 2 := Restart]);
    var s' := s.(lastId := 3, readers := map[1 := Done(0, 0), 2 := Restart, 3 := Restart]);
    Go(2, Acknowledged(), Submit, s);
    Go(2, s, Submit, s');
    Go(2, s', Post(Ok(2)), Waiting(Restart));
    ScanSteps();
    Go(2, Waiting(Restart), Read(3), Waiting(HeadLoaded(1)));
    Go(2, Waiting(HeadLoaded(1)), Read(3), Waiting(First(1, 0)));
    Go(2, Waiting(First(1, 0)), Read(3), Waiting(First(2, 0)));
    Go(2, Waiting(First(2, 0)), Read(3), Waiting(Reload));
    OvertakeStep();
    Go(2, Waiting(Reload), Post(Ok(3)), Overtaken());
  }

  // Both are returned, 3 first; the completer handles slot 0 before slot 1.

  function Resting(): State {
    Small(2, [Ok(1), Ok(2), Ok(3)], [Ok(3), Ok(2)], 3, map[1 := Done(0, 0), 2 := Done(0, 1), 3 := Done(0, 2)],
          [], {0}, {0, 1, 2})
  }

  lemma OvertakenMatch()
    ensures Solo(Overtaken(), 3, Reload) == Acking(0, 0, 2)
  {
    assert ReaderNext(Overtaken(), 3, Reload) == Second(0, 1);
    assert Occupant(3, 2, 0) == 2;
  }

  lemma RestingTurns()
    ensures var a := Acked(Acked(Overtaken(), 3, Acking(0, 0, 2)), 2, Acking(1, 0, 1));
            && Turned(a).queue == [1] && Turned(a).queued == [1] && Turned(a).mover.Idle?
            && Turned(Turned(a)) == Resting()
  {
    var a := Acked(Acked(Overtaken(), 3, Acking(0, 0, 2)), 2, Acking(1, 0, 1));
    assert RunLength({0}, 1) == 0 && Rest({0}, 1) == {0};
    assert Turned(a).unacked == {0} && Turned(a).head == 1;
    assert {0} + {1} == {0, 1};
    RunUnique({0, 1}, 1, 1);
    RunIsLongest({0, 1}, 1);
    assert Rest({0, 1}, 1) == {0};
  }

  lemma ReachResting()
    ensures Reachable(2, Resting())
  {
    ReachOvertaken();
    OvertakenMatch();
    SoloReturns(Init(2), Overtaken(), 3, Acking(0, 0, 2));
    var b := Acked(Overtaken(), 3, Acking(0, 0, 2));
    ReturnAlone(2, b, 1);
    var a := Acked(b, 2, Acking(1, 0, 1));
    RestingTurns();
    TurnFrom(2, a);
    TurnFrom(2, Turned(a));
  }

  // Request 4 fills the ring.

  function LappedFull(): State {
    Small(2, [Ok(1), Ok(2), Ok(3), Ok(4)], [Ok(3), Ok(4)], 4,
          map[1 := Done(0, 0), 2 := Done(0, 1), 3 := Done(0, 2), 4 := Restart], [], {0}, {0, 1, 2})
  }

  lemma FillSteps()
    ensures var s := Resting().(lastId := 4, readers := Resting().readers[4 := Restart]);
            Makes(Resting(), Submit, s) && Makes(s, Post(Ok(4)), LappedFull())
  {
  }

  lemma ReachLapped()
    ensures Reachable(2, LappedFull())
  {
    ReachResting();
    FillSteps();
    var s := Resting().(lastId := 4, readers := Resting().readers[4 := Restart]);
    Go(2, Resting(), Submit, s);
    Go(2, s, Post(Ok(4)), LappedFull());
  }

  lemma LappedIsStuck()
    ensures var s := LappedFull();
            && |s.posted| == s.head + 2 && s.queue == [] && s.mover.Idle? && !Awaited(s, s.head) && Awaited(s, 3)
            && (forall id :: id in s.readers ==> s.readers[id].Restart? || s.readers[id].Done?)
            && (forall p :: 0 <= p < |s.posted| ==> s.posted[p].res == 0)
  {
  }

  /** Every request succeeded, and still the fourth call never returns. */
  lemma {:induction false} LapBoundaryWedges()
    ensures Reachable(2, LappedFull()) && Dead(LappedFull()) && Awaited(LappedFull(), 3)
    ensures forall p :: 0 <= p < |LappedFull().posted| ==> LappedFull().posted[p].res == 0
  {
    ReachLapped();
    LappedIsStuck();
  }
}
