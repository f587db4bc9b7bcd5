/** On every ring size, two goroutines are enough for Ring.run to block on its own retry channel. One of them waits
    for a slow request; each request of the other leaves a token behind. */
module SelfBlock {
  import opened Words
  import opened Window
  import opened Dispatch
  import opened DispatchProtocol
  import opened DispatchSafety
  import opened DispatchSerial
  import opened DispatchTurns

  /** Call 1 is slow, and call 2 is received. */
  lemma {:induction false} QuickCalls(c: nat, z: nat, n: nat) returns (t: State)
    requires RingSize(n) && RingSize(z) && c > 1
    ensures Reached(Real(c, z), n, t) && t.n == n == |t.entries| && t.pc.Entering? && t.tokens == 1
    ensures t.lastId == 2 && t.head == |t.posted| == 0 && t.completions == []
    ensures t.inflight == {1, 2} && Pending(t) == {1, 2} && t.heads == [0, 1] && t.takes == 1
  {
    Pair(1, 2);
    One(1);
    var s := SlowWaits(c, z, n, 1);
    t := Calls(Real(c, z), n, s, false);
    assert t.heads == [0, 1];
  }

  /** The completion of call 2 is posted. */
  lemma {:induction false} QuickDone(c: nat, z: nat, n: nat) returns (t: State)
    requires RingSize(n) && RingSize(z) && c > 1
    ensures Reached(Real(c, z), n, t) && t.n == n == |t.entries| && t.pc.Scanning? && t.tokens == 1
    ensures t.lastId == 2 && t.head == 0 && t.posted == [Done(2)] && t.completions == []
    ensures t.inflight == {1, 2} && Pending(t) == {1, 2}
  {
    var s := QuickCalls(c, z, n);
    YieldsNext(z, s);
    Pair(1, 2);
    var s1 := Enters(Real(c, z), n, s, multiset{2});
    t := Posts(Real(c, z), n, s1, 2);
  }

  lemma {:induction false} QuickScan(m: Mode, n: nat, s: State)
    requires RingSize(n) && Reached(m, n, s) && s.head == 0 && s.posted == [Done(2)] && s.inflight == {1, 2}
    ensures |s.entries| == n
    ensures var r := Entry(s.entries, Slot(0, n), Slot(1, n), s.inflight); r.waiting == {1} && r.run == 1
  {
    ReachedSound(m, n, s);
    assert Slot(0, n) == 0 && Slot(1, n) == 1;
    ImageWindow(s.entries, s.posted, 0);
    Pair(1, 2);
    assert Sweep(s.entries, 1, 1, {1}) == Swept({1}, [], 0);
  }

  /** Call 2 is answered; call 1 is still waiting, so a second token is left. */
  lemma {:induction false} QuickAnswered(c: nat, z: nat, n: nat) returns (t: State)
    requires RingSize(n) && RingSize(z) && c > 1
    ensures Reached(Real(c, z), n, t) && t.n == n == |t.entries| && t.pc.Select? && t.tokens == 2
    ensures t.lastId == 2 && t.head == 1 && t.posted == [Done(2)] && t.completions == []
    ensures t.inflight == {1} && Pending(t) == {1}
  {
    var m := Real(c, z);
    var s := QuickDone(c, z, n);
    QuickScan(m, n, s);
    var s1 := Scans(m, n, s);
    Pair(1, 2);
    ScanPending(m, n, s, s1, {2});
    t := Returns(m, n, s1);
  }

  /** Call 3 is received, and its entry is not taken. */
  lemma {:induction false} ThirdWaits(c: nat, z: nat, n: nat) returns (t: State)
    requires RingSize(n) && RingSize(z) && c > 1
    ensures Reached(Real(c, z), n, t) && t.n == n == |t.entries| && t.pc.Scanning? && t.tokens == 2
    ensures t.head == 1 && t.posted == [Done(2)] && t.inflight == {1, 3} && Pending(t) == {1, 3}
  {
    Pair(1, 3);
    One(1);
    var s := QuickAnswered(c, z, n);
    var s1 := Calls(Real(c, z), n, s, false);
    YieldsNothing(z, s1);
    t := Enters(Real(c, z), n, s1, multiset{});
  }

  /** Never more than two calls are under way, and Ring.run blocks for good: the token it needs does not fit. */
  lemma {:induction false} TwoCallersBlock(c: nat, z: nat, n: nat) returns (t: State)
    requires RingSize(n) && RingSize(z) && c > 1
    ensures Reached(Real(c, z), n, t) && Blocked(t) && Pending(t) == {1, 3}
  {
    var m := Real(c, z);
    var s := ThirdWaits(c, z, n);
    NothingThere(m, n, s);
    t := Scans(m, n, s);
    ScanPending(m, n, s, t, {});
  }

  /** On rings of any sizes, no run with at most `c` calls under way makes Ring.run block on its own channel if and
      only if `c` is at most one, whether Enter takes what the submission ring yields or anything at all. */
  lemma {:induction false} BlocksExactly(c: nat, z: nat, n: nat)
    requires RingSize(n) && RingSize(z)
    ensures (forall run, s :: Reaches(Real(c, z), n, run, s) ==> !Blocked(s)) <==> c <= 1
    ensures (forall run, s :: Reaches(AtMost(c), n, run, s) ==> !Blocked(s)) <==> c <= 1
  {
    if c <= 1 {
      forall run, s | Reaches(AtMost(c), n, run, s) ensures !Blocked(s) {
        SerialNeverBlocks(AtMost(c), n, run, s);
      }
      forall run, s | Reaches(Real(c, z), n, run, s) ensures !Blocked(s) {
        RealIsBounded(c, z, Init(n), run, s);
        assert Reaches(AtMost(c), n, run, s);
      }
    } else {
      var t := TwoCallersBlock(c, z, n);
      var run :| Continues(Real(c, z), Init(n), run, t);
      RealIsBounded(c, z, Init(n), run, t);
      assert Reaches(Real(c, z), n, run, t) && Reaches(AtMost(c), n, run, t);
    }
  }
}
