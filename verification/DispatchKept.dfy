/** With at most two calls under way, or on a ring of two slots, the head passes no CQE that is still waited for. */
module DispatchKept {
  import opened Words
  import opened Window
  import opened DispatchProtocol
  import opened DispatchHead
  import opened DispatchPass
  import opened DispatchSerial

  // ---------- Two calls ----------

  /** The call `i` has not been received, yet its entry has been taken. */
  predicate TakenEarly(s: State, i: nat) {
    i in Pending(s) && i !in s.inflight && i !in s.sq
  }

  /** Then the one other call is in flight and its entry was left behind. */
  ghost predicate Exchanged(s: State, i: nat, k: nat) {
    k in Pending(s) && k != i && k in s.inflight && k in s.sq
  }

  /** Among any three ids, two calls under way at most. */
  ghost predicate Two(s: State) {
    forall i, j, k :: i in Pending(s) && j in Pending(s) && k in Pending(s) ==> i == j || j == k || i == k
  }

  ghost predicate PairInv(s: State) {
    && Two(s)
    && (forall i :: TakenEarly(s, i) ==> !s.pc.Entering? && exists k :: Exchanged(s, i, k))
    && (s.pc.Entering? ==> forall i :: i in s.inflight && s.inflight == {i} ==> i in s.sq)
  }

  /** Two different calls, one of them taken early, cannot both have been taken. */
  lemma NotBothTaken(s: State, i: nat, j: nat)
    requires PairInv(s) && TakenEarly(s, i) && j in Pending(s) && j != i
    ensures j in s.sq && j in s.inflight
  {
    var k :| Exchanged(s, i, k);
  }

  /** The first request to be in flight has not been taken early. */
  lemma NotEarly(s: State, x: nat)
    requires PairInv(s) && x in Pending(s) && s.inflight == {}
    ensures x in s.sq
  {
    assert TakenEarly(s, x) <==> x !in s.sq;
  }

  lemma {:induction false} TwoPrepare(s: State, c: nat)
    requires Inv(s) && Two(s) && c <= 2 && Allowed(AtMost(c), s, Prepare)
    ensures Two(Do(s, Prepare))
  {
    var s' := Do(s, Prepare);
    forall i, j, k | i in Pending(s') && j in Pending(s') && k in Pending(s') ensures i == j || j == k || i == k {
      PendingStep(s, Prepare, i);
      PendingStep(s, Prepare, j);
      PendingStep(s, Prepare, k);
      if i in Pending(s) && j in Pending(s) { PairSize(Pending(s), i, j); }
      if j in Pending(s) && k in Pending(s) { PairSize(Pending(s), j, k); }
      if i in Pending(s) && k in Pending(s) { PairSize(Pending(s), i, k); }
    }
  }

  lemma PairSize(a: set<nat>, i: nat, j: nat)
    requires i in a && j in a && |a| < 2
    ensures i == j
  {
    assert |a - {i}| == 0;
  }

  lemma {:induction false} TwoStep(s: State, a: Step, c: nat)
    requires Inv(s) && Two(s) && c <= 2 && Enabled(s, a) && Allowed(AtMost(c), s, a)
    ensures Two(Do(s, a))
  {
    if a.Prepare? {
      TwoPrepare(s, c);
    } else {
      forall i | i in Pending(Do(s, a)) ensures i in Pending(s) {
        PendingStep(s, a, i);
      }
    }
  }

  /** A request taken off the channel was not in flight. */
  lemma {:induction false} AdmitPair(s: State)
    requires Inv(s) && PairInv(s) && s.completions != [] && !s.pc.Entering?
    ensures PairInv(Admit(s))
  {
    var s', x := Admit(s), s.completions[0];
    assert x in s.completions && x in Pending(s) && x !in s.inflight;
    assert Pending(s') == Pending(s);
    forall i | TakenEarly(s', i) ensures false {
      assert TakenEarly(s, i);
      NotBothTaken(s, i, x);
    }
    forall i | i in s'.inflight && s'.inflight == {i} ensures i in s'.sq {
      assert i == x && s.inflight == {};
      NotEarly(s, x);
    }
  }

  /** Enter with one request in flight takes one entry; if that is the other call's, its own is left behind. */
  lemma {:induction false} EnterPair(s: State, taken: multiset<nat>)
    requires Inv(s) && PairInv(s) && Enabled(s, Enter(taken))
    ensures PairInv(Do(s, Enter(taken)))
  {
    var s' := Do(s, Enter(taken));
    assert Pending(s') == Pending(s);
    forall i | TakenEarly(s', i) ensures exists k :: Exchanged(s', i, k) {
      assert !TakenEarly(s, i);
      assert i in taken;
      var k := Companion(s, taken, i);
      assert Exchanged(s', i, k);
    }
  }

  lemma {:induction false} Companion(s: State, taken: multiset<nat>, i: nat) returns (k: nat)
    requires Inv(s) && PairInv(s) && Enabled(s, Enter(taken)) && i in taken && i in Pending(s) && i !in s.inflight
    ensures k in Pending(s) && k != i && k in s.inflight && k in s.sq && k !in taken
  {
    assert |taken| >= 1 by { assert taken == multiset{i} + (taken - multiset{i}); }
    k :| k in s.inflight;
    forall j | j in s.inflight ensures j == k {
      assert i in Pending(s) && j in Pending(s) && k in Pending(s);
    }
    assert s.inflight == {k};
    OnlyOne(taken, i, k);
  }

  lemma OnlyOne(taken: multiset<nat>, i: nat, k: nat)
    requires |taken| <= 1 && i in taken && k != i
    ensures k !in taken
  {
    assert k in taken ==> taken == multiset{i, k} + (taken - multiset{i, k});
  }

  /** Nobody is answered through an entry that was left behind. */
  lemma {:induction false} VisitPair(s: State)
    requires Inv(s) && PairInv(s) && InScan(s)
    ensures PairInv(Do(s, Visit))
  {
    var s' := Do(s, Visit);
    VisitForm(s);
    forall i | i in Pending(s') ensures i in Pending(s) {
      PendingStep(s, Visit, i);
    }
    forall i | TakenEarly(s', i) ensures exists k :: Exchanged(s', i, k) {
      assert TakenEarly(s, i);
      var k :| Exchanged(s, i, k);
      VisitKeepsLeft(s, k);
      assert Exchanged(s', i, k);
    }
  }

  lemma {:induction false} VisitKeepsLeft(s: State, k: nat)
    requires Inv(s) && InScan(s) && k in s.inflight && k in s.sq && k in Pending(s)
    ensures var s' := Do(s, Visit); k in s'.inflight && k in s'.sq && k in Pending(s')
  {
    VisitForm(s);
    if s.pc.i < s.n { assert s.entries[s.pc.i] == Content(s.posted, s.n, s.pc.i); }
  }

  lemma {:induction false} OtherPair(s: State, a: Step, c: nat)
    requires Inv(s) && PairInv(s) && c <= 2 && Enabled(s, a) && Allowed(AtMost(c), s, a)
    requires !a.Visit? && !a.Enter? && !a.Receive? && !a.Poll?
    ensures PairInv(Do(s, a))
  {
    var s' := Do(s, a);
    TwoStep(s, a, c);
    forall i | TakenEarly(s', i) ensures !s'.pc.Entering? && exists k :: Exchanged(s', i, k) {
      PendingStep(s, a, i);
      assert TakenEarly(s, i);
      var k :| Exchanged(s, i, k);
      assert Exchanged(s', i, k);
    }
  }

  lemma {:induction false} PollPair(s: State)
    requires Inv(s) && PairInv(s) && s.pc.Inner?
    ensures PairInv(Do(s, Poll))
  {
    if s.completions != [] {
      AdmitPair(s);
    } else {
      var s' := Do(s, Poll);
      assert Pending(s') == Pending(s);
      forall i | TakenEarly(s', i) ensures exists k :: Exchanged(s', i, k) {
        assert TakenEarly(s, i);
        var k :| Exchanged(s, i, k);
        assert Exchanged(s', i, k);
      }
    }
  }

  lemma {:induction false} PairStep(s: State, a: Step, c: nat)
    requires Inv(s) && PairInv(s) && c <= 2 && Enabled(s, a) && Allowed(AtMost(c), s, a)
    ensures PairInv(Do(s, a))
  {
    match a
    case Visit => VisitPair(s);
    case Enter(taken) => EnterPair(s, taken);
    case Receive => AdmitPair(s);
    case Poll => PollPair(s);
    case _ => OtherPair(s, a, c);
  }

  // ---------- Nothing is left behind the head ----------

  /** No CQE behind the head is waited for. */
  ghost predicate Swept(s: State) {
    forall q: nat :: q < Frontier(s) ==> !Unanswered(s, q)
  }

  /** Counting the CQE at the scan's position leaves nothing behind. */
  lemma {:induction false} CountKeeps(s: State, s1: State)
    requires Inv(s) && HeadInv(s) && Passed(s) && InScan(s) && s.pc.i < s.n && Position(s) < |s.posted|
    requires s.entries[s.pc.i] == s.posted[Position(s)] && Counted(s) == 1 && s1 == Offer(s, s.entries[s.pc.i])
    requires s.pc.Second? ==> PairInv(s)
    ensures !Unanswered(s1, Frontier(s))
  {
    var h, p := Frontier(s), Position(s);
    if h < p && Unanswered(s1, h) {
      OfferAnswers(s, s.entries[s.pc.i], h);
      assert s.posted[h].userData !in s.inflight;
      assert TakenEarly(s, s.posted[h].userData);
      NotBothTaken(s, s.posted[h].userData, s.posted[p].userData);
    }
  }

  lemma {:induction false} LookKeeps(s: State)
    requires Inv(s) && HeadInv(s) && Passed(s) && Swept(s) && InScan(s) && s.pc.i < s.n
    requires s.pc.Second? ==> PairInv(s) && Position(s) < s.loaded
    ensures var s1 := Offer(s, s.entries[s.pc.i]);
            forall q: nat :: q < Frontier(s) + Counted(s) ==> !Unanswered(s1, q)
  {
    var s1 := Offer(s, s.entries[s.pc.i]);
    if Counted(s) == 1 {
      LooksAtPosition(s);
      CountKeeps(s, s1);
    }
    forall q: nat | q < Frontier(s) ensures !Unanswered(s1, q) {
      OfferAnswers(s, s.entries[s.pc.i], q);
    }
  }

  lemma {:induction false} VisitKeeps(s: State)
    requires Inv(s) && HeadInv(s) && Passed(s) && Swept(s) && InScan(s)
    requires s.pc.Second? && Position(s) < s.loaded ==> PairInv(s)
    ensures Swept(Do(s, Visit))
  {
    if s.pc.Second? { SecondEnds(s); }
    if s.pc.First? && s.pc.i >= s.n {
      SameKept(s, Do(s, Visit));
    } else if s.pc.Second? && s.pc.i >= And(s.pc.tail, s.n - 1) {
      SameKept(s, Do(s, Visit));
    } else {
      LookKept(s);
    }
  }

  lemma {:induction false} LookKept(s: State)
    requires Inv(s) && HeadInv(s) && Passed(s) && Swept(s) && InScan(s) && s.pc.i < s.n
    requires s.pc.Second? ==> PairInv(s) && Position(s) < s.loaded && s.pc.i < And(s.pc.tail, s.n - 1)
    ensures Swept(Do(s, Visit))
  {
    var s', s1 := Do(s, Visit), Offer(s, s.entries[s.pc.i]);
    LookForm(s);
    LookKeeps(s);
    assert s'.callers == s1.callers && s'.posted == s1.posted && Frontier(s') == Frontier(s) + Counted(s);
    assert forall q: nat :: Unanswered(s', q) == Unanswered(s1, q);
  }

  /** Steps that answer nobody. */
  lemma {:induction false} SameKept(s: State, s': State)
    requires Ids(s) && Swept(s) && s.posted <= s'.posted
    requires Frontier(s') == Frontier(s) <= |s.posted|
    requires NobodyNew(s, s')
    ensures Swept(s')
  {
    forall q: nat | q < Frontier(s') ensures !Unanswered(s', q) {
      assert !Unanswered(s, q);
    }
  }

  lemma {:induction false} LoadKept(s: State)
    requires Swept(s) && s.n == |s.entries| > 0 && Enabled(s, Load)
    ensures Swept(Do(s, Load))
  {
    var s' := Do(s, Load);
    assert forall q: nat :: Unanswered(s', q) == Unanswered(s, q);
  }

  lemma {:induction false} OtherKept(s: State, a: Step)
    requires Inv(s) && HeadInv(s) && Swept(s) && Enabled(s, a) && !a.Visit? && !a.Load?
    ensures Swept(Do(s, a))
  {
    FrontierBelow(s);
    OtherForm(s, a);
    SameKept(s, Do(s, a));
  }

  /** Either there are never more than two calls, or the ring has only two slots. */
  ghost predicate Narrow(s: State, c: nat) {
    if c <= 2 then PairInv(s) else s.n == 2
  }

  lemma {:induction false} NarrowStep(s: State, a: Step, c: nat)
    requires Inv(s) && Narrow(s, c) && Enabled(s, a) && Allowed(AtMost(c), s, a)
    ensures Narrow(Do(s, a), c)
  {
    if c <= 2 { PairStep(s, a, c); } else { StepInv(s, a); }
  }

  lemma {:induction false} SweptStep(s: State, a: Step, c: nat)
    requires Inv(s) && HeadInv(s) && Passed(s) && Narrow(s, c) && Swept(s) && Enabled(s, a)
    ensures Swept(Do(s, a))
  {
    match a
    case Visit => VisitKeeps(s);
    case Load => LoadKept(s);
    case _ => OtherKept(s, a);
  }

  lemma {:induction false} KeptRun(c: nat, n: nat, run: seq<Step>, s: State)
    requires RingSize(n) && (c <= 2 || n == 2) && Reaches(AtMost(c), n, run, s)
    ensures Inv(s) && HeadInv(s) && Passed(s) && s.n == n && Narrow(s, c) && Swept(s)
    decreases |run|
  {
    if run == [] {
      InitInv(n);
      InitHead(n);
    } else {
      var r := LastStep(AtMost(c), Init(n), run, s);
      KeptRun(c, n, run[..|run| - 1], r);
      StepInv(r, run[|run| - 1]);
      StepHead(r, run[|run| - 1]);
      PassedStep(r, run[|run| - 1]);
      NarrowStep(r, run[|run| - 1], c);
      SweptStep(r, run[|run| - 1], c);
    }
  }

  /** Every CQE still waited for is in its slot. */
  ghost predicate AllIntact(s: State) {
    |s.entries| == s.n > 0
    && forall p: nat :: Unanswered(s, p) ==> |s.posted| <= p + s.n && s.entries[p % s.n] == s.posted[p]
  }

  /** So with at most two calls under way, or on two slots, no completion is overwritten before it is answered. */
  lemma {:induction false} NothingLost(c: nat, n: nat, run: seq<Step>, s: State)
    requires RingSize(n) && (c <= 2 || n == 2) && Reaches(AtMost(c), n, run, s)
    ensures AllIntact(s)
  {
    KeptRun(c, n, run, s);
    forall p: nat | Unanswered(s, p) ensures |s.posted| <= p + s.n && s.entries[p % s.n] == s.posted[p] {
      assert s.head <= p;
      ImageWindow(s.entries, s.posted, p);
      SlotIsMod(p, s.n);
    }
  }
}
