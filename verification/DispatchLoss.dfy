/** With three calls under way, on every completion ring of four slots or more and with every submission ring, a
    completion can be lost: the head passes it before its request has been received, and the kernel overwrites it
    a lap later. Every Enter of the run takes what the submission ring yields. */
module DispatchLoss {
  import opened Words
  import opened Window
  import opened Naming
  import opened Scan
  import opened Dispatch
  import opened DispatchTheory
  import opened DispatchProtocol
  import opened DispatchHead
  import opened DispatchKept
  import opened DispatchTurns

  /** Where the kernel's head is at each of the first `k` claims of the run: claims `n + 1` and `n + 2` find one entry
      outstanding, all others none. */
  function Heads(n: nat, k: nat): (h: seq<nat>)
    ensures |h| == k
  {
    seq(k, i => if i == n + 1 then n else if i == n + 2 then n + 1 else i)
  }

  lemma HeadsNext(n: nat, k: nat)
    ensures Heads(n, k) + [if k == n + 1 then n else if k == n + 2 then n + 1 else k] == Heads(n, k + 1)
  {
  }

  // ---------- What the submission ring yields ----------

  /** The Enter for call `n + 2` can take just the entry of call `n + 1`. */
  lemma {:induction false} YieldsOther(z: nat, n: nat, s: State)
    requires RingSize(z) && RingSize(n) && n >= 4 && s.heads == Heads(n, n + 2) && s.takes == n && |s.inflight| == 2
    ensures Yields(z, s, multiset{n + 1})
  {
    AllAvailable(z, n + 2, n);
    NamesItself(z, s.heads, n);
    assert Yield(z, s.heads, n, 0) == multiset{};
    One(n + 1);
  }

  /** The entry of call `n + 2` is named by the position of call `n + 3`. */
  lemma {:induction false} NamesPrevious(z: nat, n: nat)
    requires RingSize(z)
    ensures Named(z, Heads(n, n + 3), n + 2) == n + 1
  {
    OccupantInWindow(n + 3, z, n + 2);
    OccupantInWindow(n + 3, z, n + 1);
  }

  /** The Enter for call `n + 3` takes two entries, that of call `n + 2` among them. */
  lemma {:induction false} YieldsPrevious(z: nat, n: nat, s: State) returns (taken: multiset<nat>)
    requires RingSize(z) && RingSize(n) && n >= 4 && s.heads == Heads(n, n + 3) && s.takes == n + 1
    requires |s.inflight| == 2 && s.lastId == n + 3 && s.pc.Entering?
    ensures |taken| == 2 && n + 2 in taken && Enabled(s, Enter(taken)) && Yields(z, s, taken)
  {
    AllAvailable(z, n + 3, n + 1);
    NamesPrevious(z, n);
    var first := Named(z, s.heads, n + 1) + 1;
    taken := multiset{first, n + 2};
    assert Yield(z, s.heads, n + 1, 0) == multiset{};
    assert Yield(z, s.heads, n + 1, 1) == multiset{first} by { One(first); }
    assert Yield(z, s.heads, n + 1, 2) == multiset{first} + multiset{n + 2};
    assert multiset{first} + multiset{n + 2} == taken;
  }

  // ---------- The head passes a completion ----------

  /** `n - 1` calls have been served, and call `n` has been taken. */
  lemma {:induction false} SlowStart(c: nat, z: nat, n: nat) returns (t: State)
    requires RingSize(n) && RingSize(z) && c > 0
    ensures Reached(Real(c, z), n, t) && t.n == n == |t.entries| && t.pc.Select? && t.tokens == 1
    ensures t.lastId == n && t.head == |t.posted| == n - 1 && t.completions == [] && t.kernel == multiset{n}
    ensures t.inflight == {n} && Pending(t) == {n} && t.heads == Heads(n, n) && t.takes == n
  {
    t := SlowWaits(c, z, n, n);
    assert t.heads == Heads(n, n);
  }

  /** Call `n + 1` commits its entry and does not send its request yet. */
  lemma {:induction false} OtherStarts(c: nat, z: nat, n: nat) returns (t: State)
    requires RingSize(n) && RingSize(z) && c > 2
    ensures Reached(Real(c, z), n, t) && t.n == n == |t.entries| && t.pc.Select? && t.tokens == 1
    ensures t.lastId == n + 1 && t.head == |t.posted| == n - 1 && t.completions == [] && t.kernel == multiset{n}
    ensures t.inflight == {n} && Pending(t) == {n, n + 1} && t.heads == Heads(n, n + 1) && t.takes == n
  {
    One(n);
    Pair(n, n + 1);
    HeadsNext(n, n);
    var s := SlowStart(c, z, n);
    t := Starts(Real(c, z), n, s);
  }

  /** Call `n + 2` is received. */
  lemma {:induction false} ThirdCalls(c: nat, z: nat, n: nat) returns (t: State)
    requires RingSize(n) && RingSize(z) && c > 2
    ensures Reached(Real(c, z), n, t) && t.n == n == |t.entries| && t.pc.Entering? && t.tokens == 1
    ensures t.lastId == n + 2 && t.head == |t.posted| == n - 1 && t.completions == [] && t.kernel == multiset{n}
    ensures t.inflight == {n, n + 2} && Pending(t) == {n, n + 1, n + 2} && t.heads == Heads(n, n + 2) && t.takes == n
    ensures Absent(t, n + 2)
  {
    Pair(n, n + 1);
    Pair(n, n + 2);
    Triple(n, n + 1, n + 2);
    HeadsNext(n, n + 1);
    var s := OtherStarts(c, z, n);
    t := Calls(Real(c, z), n, s, false);
  }

  /** Its Enter takes the entry of call `n + 1`. */
  lemma {:induction false} OtherTaken(c: nat, z: nat, n: nat) returns (t: State)
    requires RingSize(n) && RingSize(z) && n >= 4 && c > 2
    ensures Reached(Real(c, z), n, t) && t.n == n == |t.entries| && t.pc.Scanning? && t.tokens == 1
    ensures t.lastId == n + 2 && t.head == |t.posted| == n - 1 && t.completions == []
    ensures t.kernel == multiset{n} + multiset{n + 1}
    ensures t.inflight == {n, n + 2} && Pending(t) == {n, n + 1, n + 2}
    ensures t.heads == Heads(n, n + 2) && t.takes == n + 1 && Absent(t, n + 2)
  {
    Pair(n, n + 2);
    var s := ThirdCalls(c, z, n);
    YieldsOther(z, n, s);
    t := Enters(Real(c, z), n, s, multiset{n + 1});
  }

  /** Calls `n + 1` and `n` are completed, one in the last slot of the lap and the other in the first of the next. */
  lemma {:induction false} Straddle(c: nat, z: nat, n: nat) returns (t: State)
    requires RingSize(n) && RingSize(z) && n >= 4 && c > 2
    ensures Reached(Real(c, z), n, t) && t.n == n == |t.entries| && t.pc.Scanning? && t.tokens == 1
    ensures t.lastId == n + 2 && t.head == n - 1 && |t.posted| == n + 1 && t.completions == []
    ensures t.posted[n - 1] == Done(n + 1) && t.posted[n] == Done(n)
    ensures t.inflight == {n, n + 2} && Pending(t) == {n, n + 1, n + 2}
    ensures t.heads == Heads(n, n + 2) && t.takes == n + 1 && Absent(t, n + 2)
  {
    var s := OtherTaken(c, z, n);
    var s1 := Posts(Real(c, z), n, s, n + 1);
    t := Posts(Real(c, z), n, s1, n);
  }

  lemma {:induction false} StraddleScan(m: Mode, n: nat, s: State)
    requires RingSize(n) && Reached(m, n, s) && n >= 4 && s.head == n - 1 && |s.posted| == n + 1
    requires s.posted[n - 1] == Done(n + 1) && s.posted[n] == Done(n) && s.inflight == {n, n + 2}
    ensures |s.entries| == n
    ensures var r := Entry(s.entries, Slot(n - 1, n), Slot(n + 1, n), s.inflight); r.waiting == {n + 2} && r.run == 1
  {
    ReachedSound(m, n, s);
    assert Slot(n - 1, n) == n - 1 && Slot(n, n) == 0 && Slot(n + 1, n) == 1;
    ImageWindow(s.entries, s.posted, n - 1);
    ImageWindow(s.entries, s.posted, n);
    var w := s.inflight;
    assert Sweep(s.entries, n, n, w) == Swept(w, [], 0);
    assert Sweep(s.entries, n - 1, n, w).waiting == w && Sweep(s.entries, n - 1, n, w).run == 0;
    assert Sweep(s.entries, 1, 1, w - {n}) == Swept(w - {n}, [], 0);
  }

  /** The head has passed the completion of call `n + 1` at position `n - 1`, and rests on one that has been answered;
      call `slow` is in flight and has not been completed. */
  ghost predicate Hole(s: State, n: nat, t: nat, slow: nat) {
    && s.n == n == |s.entries| && s.pc.Select? && s.tokens == 2 && s.completions == []
    && s.head == n < |s.posted| == t && s.lastId == t + 1 && n + 1 < slow <= t + 1
    && n > 0 && s.posted[n - 1] == Done(n + 1) && s.posted[n] == Done(n) && Absent(s, slow)
    && s.inflight == {slow} && Pending(s) == {n + 1, slow}
  }

  lemma {:induction false} ReachHole(c: nat, z: nat, n: nat) returns (t: State)
    requires RingSize(n) && RingSize(z) && n >= 4 && c > 2
    ensures Reached(Real(c, z), n, t) && Hole(t, n, n + 1, n + 2) && t.heads == Heads(n, n + 2) && t.takes == n + 1
  {
    var m := Real(c, z);
    var s := Straddle(c, z, n);
    StraddleScan(m, n, s);
    var s1 := Scans(m, n, s);
    Pair(n, n + 2);
    Triple(n, n + 1, n + 2);
    ScanPending(m, n, s, s1, {n});
    t := Returns(m, n, s1);
  }

  // ---------- A lap later ----------

  /** One more call is received. */
  lemma {:induction false} HoleCalls(c: nat, z: nat, n: nat, s: State, t: nat, slow: nat) returns (u: State)
    requires RingSize(n) && c > 2 && Reached(Real(c, z), n, s) && Hole(s, n, t, slow)
    ensures Reached(Real(c, z), n, u) && u.n == n == |u.entries| && u.pc.Entering? && u.tokens == 1
    ensures u.head == n && u.posted == s.posted && u.lastId == t + 2 && u.completions == []
    ensures u.inflight == {slow, t + 2} && Pending(u) == {n + 1, slow, t + 2} && Absent(u, t + 2)
    ensures u.heads == s.heads + [s.takes] && u.takes == s.takes
  {
    Pair(n + 1, slow);
    Pair(slow, t + 2);
    Triple(n + 1, slow, t + 2);
    u := Calls(Real(c, z), n, s, true);
  }

  /** One of the two requests in flight, `done`, is completed; the other is `left`. */
  lemma {:induction false} HoleDone(m: Mode, n: nat, s: State, t: nat, left: nat, done: nat) returns (u: State)
    requires RingSize(n) && Reached(m, n, s) && s.n == n == |s.entries| && s.pc.Scanning? && s.tokens == 1
    requires s.head == n < |s.posted| == t && t + 1 < 2 * n && s.lastId == t + 2 && s.completions == []
    requires s.posted[n - 1] == Done(n + 1) && s.posted[n] == Done(n) && done in s.kernel
    requires n + 1 < left <= t + 2 && n + 1 < done && left != done && Absent(s, left)
    requires s.inflight == {left, done} && Pending(s) == {n + 1, left, done}
    ensures Reached(m, n, u) && Hole(u, n, t + 1, left) && u.heads == s.heads && u.takes == s.takes
  {
    var s1 := Posts(m, n, s, done);
    HoleScan(m, n, s1, t, left, done);
    var s2 := Scans(m, n, s1);
    Pair(left, done);
    Triple(n + 1, left, done);
    ScanPending(m, n, s1, s2, {done});
    u := Returns(m, n, s2);
  }

  lemma {:induction false} HoleScan(m: Mode, n: nat, s: State, t: nat, left: nat, done: nat)
    requires RingSize(n) && Reached(m, n, s) && s.head == n < t && |s.posted| == t + 1 < 2 * n
    requires s.posted[n] == Done(n) && s.posted[t] == Done(done) && n < left && n < done && left != done
    requires s.inflight == {left, done} && Absent(s, left)
    ensures |s.entries| == n
    ensures var r := Entry(s.entries, Slot(n, n), Slot(t + 1, n), s.inflight); r.waiting == {left} && r.run == 0
  {
    ReachedSound(m, n, s);
    assert Slot(n, n) == 0 && Slot(t, n) == t - n && Slot(t + 1, n) == t + 1 - n;
    ImageWindow(s.entries, s.posted, n);
    ImageWindow(s.entries, s.posted, t);
    EntryWaiting(s.entries, 0, t + 1 - n, s.inflight);
    forall x: nat | x < n ensures s.entries[x].userData != left {
      NotInRing(s, left, x);
    }
    assert Visited(n, 0, t + 1 - n, t + 1 - n, t - n);
    var w := Entry(s.entries, 0, t + 1 - n, s.inflight).waiting;
    assert left in w && done !in w;
    assert w == {left};
  }

  /** Call `n + 3` is received; its Enter takes the entry of call `n + 2`, which is completed and answered, while its
      own is left behind or slow. */
  lemma {:induction false} SecondHole(c: nat, z: nat, n: nat) returns (u: State)
    requires RingSize(n) && RingSize(z) && n >= 4 && c > 2
    ensures Reached(Real(c, z), n, u) && Hole(u, n, n + 2, n + 3) && u.heads == Heads(n, n + 3) && u.takes == n + 3
  {
    var m := Real(c, z);
    var s := ReachHole(c, z, n);
    HeadsNext(n, n + 2);
    var s1 := HoleCalls(c, z, n, s, n + 1, n + 2);
    Pair(n + 2, n + 3);
    var taken := YieldsPrevious(z, n, s1);
    var s2 := Enters(m, n, s1, taken);
    Triple(n + 1, n + 2, n + 3);
    assert {n + 2, n + 3} == {n + 3, n + 2} && {n + 1, n + 2, n + 3} == {n + 1, n + 3, n + 2};
    u := HoleDone(m, n, s2, n + 1, n + 3, n + 2);
  }

  /** From then on each call finds nothing outstanding, and its Enter takes its own entry. */
  lemma {:induction false} YieldsOwn(c: nat, z: nat, n: nat, s: State, t: nat)
    requires RingSize(z) && n + 2 <= t && s.heads == Heads(n, t + 2) && s.takes == t + 1
    requires s.pc.Entering? && s.inflight == {n + 3, t + 2} && s.lastId == t + 2
    ensures Enabled(s, Enter(multiset{t + 2})) && Allowed(Real(c, z), s, Enter(multiset{t + 2}))
  {
    Pair(n + 3, t + 2);
    YieldsNext(z, s);
  }

  lemma {:induction false} HoleTakes(c: nat, z: nat, n: nat, s: State, t: nat) returns (u: State)
    requires RingSize(n) && RingSize(z) && c > 2 && Reached(Real(c, z), n, s) && Hole(s, n, t, n + 3) && n + 2 <= t
    requires s.heads == Heads(n, t + 1) && s.takes == t + 1
    ensures Reached(Real(c, z), n, u) && u.n == n == |u.entries| && u.pc.Scanning? && u.tokens == 1
    ensures u.head == n && u.posted == s.posted && u.lastId == t + 2 && u.completions == [] && t + 2 in u.kernel
    ensures u.inflight == {n + 3, t + 2} && Pending(u) == {n + 1, n + 3, t + 2}
    ensures u.heads == Heads(n, t + 2) && u.takes == t + 2
  {
    HeadsNext(n, t + 1);
    var s1 := HoleCalls(c, z, n, s, t, n + 3);
    YieldsOwn(c, z, n, s1, t);
    u := Enters(Real(c, z), n, s1, multiset{t + 2});
  }

  lemma {:induction false} HoleStep(c: nat, z: nat, n: nat, s: State, t: nat) returns (u: State)
    requires RingSize(n) && RingSize(z) && c > 2 && Reached(Real(c, z), n, s) && Hole(s, n, t, n + 3) && n + 2 <= t
    requires s.heads == Heads(n, t + 1) && s.takes == t + 1 && t + 1 < 2 * n
    ensures Reached(Real(c, z), n, u) && Hole(u, n, t + 1, n + 3) && u.heads == Heads(n, t + 2) && u.takes == t + 2
  {
    var s1 := HoleTakes(c, z, n, s, t);
    u := HoleDone(Real(c, z), n, s1, t, n + 3, t + 2);
  }

  lemma {:induction false} FullHole(c: nat, z: nat, n: nat, t: nat) returns (u: State)
    requires RingSize(n) && RingSize(z) && n >= 4 && c > 2 && n + 2 <= t < 2 * n
    ensures Reached(Real(c, z), n, u) && Hole(u, n, t, n + 3) && u.heads == Heads(n, t + 1) && u.takes == t + 1
    decreases t
  {
    if t == n + 2 {
      u := SecondHole(c, z, n);
    } else {
      u := FullHole(c, z, n, t - 1);
      u := HoleStep(c, z, n, u, t - 1);
    }
  }

  /** The completion of call `n + 1`, posted at position `n - 1`, has been overwritten and call `n + 1` is still
      waiting. */
  lemma {:induction false} OneIsLost(c: nat, z: nat, n: nat) returns (u: State)
    requires RingSize(n) && RingSize(z) && n >= 4 && c > 2
    ensures Reached(Real(c, z), n, u) && Unanswered(u, n - 1) && |u.posted| == 2 * n && u.n == n
  {
    var s := FullHole(c, z, n, 2 * n - 1);
    var s1 := HoleTakes(c, z, n, s, 2 * n - 1);
    u := Posts(Real(c, z), n, s1, 2 * n + 1);
    assert n + 1 in Pending(u);
  }

  /** On a ring of `n` slots, every completion still waited for is in its slot, in every run with at most `c` calls
      under way, if and only if `c` is at most two or `n` is two, whether Enter takes what a submission ring of `z`
      entries yields or anything at all. */
  lemma {:induction false} IntactExactly(c: nat, z: nat, n: nat)
    requires RingSize(n) && RingSize(z)
    ensures (forall run, s :: Reaches(Real(c, z), n, run, s) ==> AllIntact(s)) <==> c <= 2 || n == 2
    ensures (forall run, s :: Reaches(AtMost(c), n, run, s) ==> AllIntact(s)) <==> c <= 2 || n == 2
  {
    if c <= 2 || n == 2 {
      forall run, s | Reaches(AtMost(c), n, run, s) ensures AllIntact(s) {
        NothingLost(c, n, run, s);
      }
      forall run, s | Reaches(Real(c, z), n, run, s) ensures AllIntact(s) {
        RealIsBounded(c, z, Init(n), run, s);
        assert Reaches(AtMost(c), n, run, s);
      }
    } else {
      SmallestRings(n);
      var u := OneIsLost(c, z, n);
      var run :| Continues(Real(c, z), Init(n), run, u);
      RealIsBounded(c, z, Init(n), run, u);
      assert Reaches(Real(c, z), n, run, u) && Reaches(AtMost(c), n, run, u) && !AllIntact(u);
    }
  }

  lemma SmallestRings(n: nat)
    requires RingSize(n) && n != 2
    ensures n >= 4
  {
  }
}
