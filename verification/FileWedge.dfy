/** A ring of two slots, and the short run that one failed request needs to leave it dead. */
module FileWedge {
  import opened Words
  import opened Window
  import opened FileProtocol
  import opened FileInvariant
  import opened FileSafety
  import opened FileTurns
  import opened FileLiveness

  /** A ring of two slots, at rest. */
  function Small(head: nat, posted: seq<Cqe>, entries: seq<Cqe>, lastId: nat,
                 readers: map<nat, Reader>, queued: seq<nat>, unacked: set<nat>, acked: set<nat>): State
  {
    State(2, Wrap(head), Wrap(|posted|), entries, lastId, readers,
          seq(|queued|, i requires 0 <= i < |queued| => Slot(queued[i], 2)), unacked, Idle, head, posted, queued, acked)
  }

  /** The completion of request `i` with result `res`. */
  function Completion(i: nat, res: int): Cqe {
    Cqe(i, res, 0)
  }

  /** The first request has been completed with a failure; its call is at `r`. */
  function Failing(r: Reader): State {
    Small(0, [Completion(1, -5)], [Completion(1, -5), ZERO], 1, map[1 := r], [], {}, {})
  }

  function FailedFull(): State {
    Small(0, [Completion(1, -5), Completion(2, 0)], [Completion(1, -5), Completion(2, 0)], 2,
          map[1 := Done(-5, 0), 2 := Restart], [], {}, {})
  }

  lemma FailingStarts()
    ensures var s := Small(0, [], [ZERO, ZERO], 1, map[1 := Restart], [], {}, {});
            Makes(Init(2), Submit, s) && Makes(s, Post(Completion(1, -5)), Failing(Restart))
  {
  }

  lemma FailingReads()
    ensures Makes(Failing(Restart), Read(1), Failing(HeadLoaded(0)))
    ensures Makes(Failing(HeadLoaded(0)), Read(1), Failing(First(0, 1)))
    ensures Makes(Failing(First(0, 1)), Read(1), Failing(Done(-5, 0)))
  {
  }

  lemma FailingFills()
    ensures var s := Failing(Done(-5, 0)).(lastId := 2, readers := map[1 := Done(-5, 0), 2 := Restart]);
            Makes(Failing(Done(-5, 0)), Submit, s) && Makes(s, Post(Completion(2, 0)), FailedFull())
  {
  }

  lemma ReachFailing()
    ensures Reachable(2, Failing(Done(-5, 0)))
  {
    Start(Init(2));
    FailingStarts();
    Go(2, Init(2), Submit, Small(0, [], [ZERO, ZERO], 1, map[1 := Restart], [], {}, {}));
    Go(2, Small(0, [], [ZERO, ZERO], 1, map[1 := Restart], [], {}, {}), Post(Completion(1, -5)), Failing(Restart));
    FailingReads();
    Go(2, Failing(Restart), Read(1), Failing(HeadLoaded(0)));
    Go(2, Failing(HeadLoaded(0)), Read(1), Failing(First(0, 1)));
    Go(2, Failing(First(0, 1)), Read(1), Failing(Done(-5, 0)));
  }

  /** One failed request is enough: it is returned without an ack, the ring fills up behind it, and the
      next call never returns. */
  lemma FailureWedges()
    ensures Reachable(2, FailedFull()) && Dead(FailedFull()) && Awaited(FailedFull(), 1)
  {
    ReachFailing();
    FailingFills();
    var s := Failing(Done(-5, 0)).(lastId := 2, readers := map[1 := Done(-5, 0), 2 := Restart]);
    Go(2, Failing(Done(-5, 0)), Submit, s);
    Go(2, s, Post(Completion(2, 0)), FailedFull());
    FailedIsDead();
  }

  lemma FailedIsDead()
    ensures Dead(FailedFull()) && Awaited(FailedFull(), 1)
  {
    var s := FailedFull();
    assert !Accepted(s, 0) && !Awaited(s, 0);
    forall id | id in s.readers && !s.readers[id].Done? ensures Solo(s, id, s.readers[id]).Restart? {
      assert s.readers[id] == Restart;
    }
  }
}
