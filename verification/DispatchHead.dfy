/** Where the head of a ring used by blocking operations can be, in every run. */
module DispatchHead {
  import opened Words
  import opened Window
  import opened Scan
  import opened DispatchProtocol

  /** The CQE at position `p` carries the id of a call under way. */
  predicate Unanswered(s: State, p: nat) {
    p < |s.posted| && s.posted[p].userData in s.callers && !s.callers[s.posted[p].userData].Answered?
  }

  predicate InScan(s: State) {
    s.pc.First? || s.pc.Second?
  }

  /** Where the head will be when the scan under way stores it, as far as the scan has got. */
  function Frontier(s: State): nat {
    s.head + if InScan(s) then s.pc.seenIdx else 0
  }

  /** The position whose slot the scan looks at next. */
  function Position(s: State): int
    requires s.n > 0 && InScan(s)
  {
    s.head + s.pc.i - Slot(s.head, s.n) + if s.pc.Second? then s.n else 0
  }

  ghost predicate HeadOk(s: State) {
    RingSize(s.n) && s.headWord == Wrap(s.head) && s.head <= |s.posted| <= s.head + s.n
  }

  /** The scan under way stays between the head and the tail it loaded, and counts no further than it has looked. */
  ghost predicate ScanOk(s: State) {
    s.n > 0 && (InScan(s) ==>
                  && s.pc.tail == Wrap(s.loaded) && s.loaded <= |s.posted|
                  && Frontier(s) <= Position(s) <= s.loaded
                  && (s.pc.First? ==> FirstOk(s)) && (s.pc.Second? ==> s.loaded < s.head + s.n))
  }

  ghost predicate FirstOk(s: State)
    requires s.n > 0 && s.pc.First?
  {
    && Slot(s.head, s.n) <= s.pc.i <= s.n && (s.pc.seen ==> Frontier(s) == Position(s))
    && s.loaded <= s.head + s.n && (s.loaded == s.head + s.n ==> s.pc.i == Slot(s.head, s.n))
  }

  /** If the head, moved to `h`, has an unanswered CQE behind it, then it also has an answered one in front of it,
      below `bound`. No scan gets past that one except by counting a later one in its place. */
  ghost predicate Guarded(s: State, h: nat, bound: nat) {
    (exists q: nat :: q < h && Unanswered(s, q)) ==> exists d: nat :: h <= d < bound && !Unanswered(s, d)
  }

  function Bound(s: State): nat {
    if InScan(s) then s.loaded else |s.posted|
  }

  ghost predicate HeadInv(s: State) {
    HeadOk(s) && ScanOk(s) && Guarded(s, Frontier(s), Bound(s))
  }

  lemma InitHead(n: nat)
    requires RingSize(n)
    ensures HeadInv(Init(n))
  {
  }

  // ---------- What the scan looks at ----------

  lemma PositionSlot(s: State)
    requires HeadOk(s) && ScanOk(s) && InScan(s) && s.pc.i < s.n
    requires s.pc.Second? ==> Position(s) < s.loaded
    ensures Slot(Position(s), s.n) == s.pc.i
  {
    SlotWalk(s.head, Position(s) - s.head, s.n);
  }

  /** The first loop ends on the slot of the tail, or at once when the window is full. */
  lemma {:induction false} FirstEnds(s: State)
    requires HeadOk(s) && ScanOk(s) && s.pc.First? && s.pc.i < s.n
    ensures s.pc.i == And(s.pc.tail, s.n - 1) <==> Position(s) == s.loaded || s.loaded == s.head + s.n
  {
    WordSlot(s.loaded, s.n);
    PositionSlot(s);
    var p := Position(s);
    if p < s.loaded < p + s.n { SlotsDistinct(p, s.loaded, s.n); }
  }

  /** The second loop ends on the slot of the tail. */
  lemma {:induction false} SecondEnds(s: State)
    requires HeadOk(s) && ScanOk(s) && s.pc.Second?
    ensures Position(s) == s.loaded <==> s.pc.i >= And(s.pc.tail, s.n - 1)
    ensures s.pc.i <= And(s.pc.tail, s.n - 1) < s.n
  {
    WordSlot(s.loaded, s.n);
    SlotWalk(s.head, s.loaded - s.head, s.n);
  }

  /** Below the loaded tail the scan sees the CQE of its position. */
  lemma {:induction false} SeesPosition(s: State)
    requires Shape(s) && HeadOk(s) && ScanOk(s) && InScan(s) && s.pc.i < s.n && Position(s) < |s.posted|
    requires s.pc.Second? ==> Position(s) < s.loaded
    ensures s.entries[s.pc.i] == s.posted[Position(s)]
  {
    PositionSlot(s);
    ImageWindow(s.entries, s.posted, Position(s));
  }

  /** On the slot of a tail nothing has been posted to, it sees a CQE from behind the head, or a zero entry. */
  lemma {:induction false} SeesStale(s: State)
    requires Shape(s) && HeadOk(s) && ScanOk(s) && s.pc.First? && s.pc.i < s.n && Position(s) == |s.posted|
    requires |s.posted| < s.head + s.n
    ensures s.entries[s.pc.i] == ZERO
            || exists q: nat :: q < s.head && q < |s.posted| && s.entries[s.pc.i] == s.posted[q]
  {
    PositionSlot(s);
    var q := Occupant(|s.posted|, s.n, s.pc.i);
    assert s.entries[s.pc.i] == Content(s.posted, s.n, s.pc.i);
    if q >= s.head { SlotsDistinct(q, |s.posted|, s.n); }
  }

  // ---------- The guard ----------

  lemma GuardKept(s: State, s': State, h: nat, bound: nat, bound': nat)
    requires Guarded(s, h, bound) && bound <= bound' && s.posted <= s'.posted && h <= |s.posted| && bound <= |s.posted|
    requires forall p: nat :: p < |s.posted| && Unanswered(s', p) ==> Unanswered(s, p)
    ensures Guarded(s', h, bound')
  {
    if q: nat :| q < h && Unanswered(s', q) {
      assert Unanswered(s, q);
      var d: nat :| h <= d < bound && !Unanswered(s, d);
      assert !Unanswered(s', d);
    }
  }

  /** Counting the CQE at `p`, just answered, keeps the guard: either it is the next one, or it now is the guard. */
  lemma GuardCounted(s: State, s': State, h: nat, p: nat, bound: nat)
    requires Guarded(s, h, bound) && h <= p < bound <= |s.posted| && s'.posted == s.posted
    requires forall q: nat :: Unanswered(s', q) ==> Unanswered(s, q)
    requires Unanswered(s, p) && !Unanswered(s', p)
    ensures Guarded(s', h + 1, bound)
  {
    if q: nat :| q < h + 1 && Unanswered(s', q) {
      if p == h {
        assert q < h && Unanswered(s, q);
        var d: nat :| h <= d < bound && !Unanswered(s, d);
        assert h + 1 <= d && !Unanswered(s', d);
      }
    }
  }

  /** Handing an entry over only ever answers calls. */
  lemma OfferAnswers(s: State, c: Cqe, q: nat)
    ensures Unanswered(Offer(s, c), q) ==> Unanswered(s, q)
  {
  }

  // ---------- The steps ----------

  /** No call that was not under way before is now, apart from new ones. */
  ghost predicate NobodyNew(s: State, s': State) {
    forall i :: i in s'.callers && i <= s.lastId && !s'.callers[i].Answered? ==>
      i in s.callers && !s.callers[i].Answered?
  }

  lemma FrontierBelow(s: State)
    requires HeadOk(s) && ScanOk(s)
    ensures Frontier(s) <= |s.posted| && Bound(s) <= |s.posted|
  {
  }

  /** Steps that touch neither the ring nor the scan. */
  lemma {:induction false} QuietHead(s: State, s': State)
    requires Ids(s) && HeadInv(s)
    requires s'.n == s.n && s'.posted == s.posted && s'.headWord == s.headWord && s'.head == s.head
    requires s'.loaded == s.loaded && (InScan(s) ==> s'.pc == s.pc) && (!InScan(s) ==> !InScan(s'))
    requires NobodyNew(s, s')
    ensures HeadInv(s')
  {
    FrontierBelow(s);
    GuardKept(s, s', Frontier(s), Bound(s), Bound(s));
  }

  lemma {:induction false} LoadHead(s: State)
    requires Inv(s) && HeadInv(s) && Enabled(s, Load)
    ensures HeadInv(Do(s, Load))
  {
    WordSlot(s.head, s.n);
    GuardSame(s, Do(s, Load), s.head, |s.posted|);
  }

  lemma {:induction false} PostHead(s: State, c: Cqe)
    requires Inv(s) && HeadInv(s) && Enabled(s, Post(c))
    ensures HeadInv(Do(s, Post(c))) && |s.posted| < s.head + s.n
  {
    var s' := Do(s, Post(c));
    WrapMinus(|s.posted|, s.head);
    FrontierBelow(s);
    GuardKept(s, s', Frontier(s), Bound(s), Bound(s'));
  }

  /** What one look at entry `i` counts. */
  function Counted(s: State): nat
    requires s.n == |s.entries| && InScan(s) && s.pc.i < s.n
  {
    if s.pc.seen && s.entries[s.pc.i].userData in s.inflight then 1 else 0
  }

  /** The first loop on the slot of the loaded tail: it counts no CQE that has not been posted. */
  lemma {:induction false} TailSlotCounts(s: State)
    requires Inv(s) && HeadInv(s) && s.pc.First? && s.pc.i < s.n
    requires Position(s) == s.loaded && s.loaded < s.head + s.n && Counted(s) == 1
    ensures s.loaded < |s.posted|
  {
    if s.loaded == |s.posted| {
      SeesStale(s);
      assert !(s.entries[s.pc.i] == ZERO);
      var q: nat :| q < s.head && q < |s.posted| && s.entries[s.pc.i] == s.posted[q];
      assert Unanswered(s, q);
      assert false;
    }
  }

  /** The guard after one look, below the tail the scan loaded. */
  lemma {:induction false} LookGuard(s: State)
    requires Inv(s) && HeadInv(s) && InScan(s) && s.pc.i < s.n && Position(s) < s.loaded
    ensures Guarded(Offer(s, s.entries[s.pc.i]), Frontier(s) + Counted(s), s.loaded)
    ensures Frontier(s) + Counted(s) <= Position(s) + 1
  {
    OfferGuard(s, s.loaded);
    if Counted(s) == 1 { SeesPosition(s); }
  }

  /** The guard after a look at the slot of the tail. */
  lemma {:induction false} TailGuard(s: State)
    requires Inv(s) && HeadInv(s) && s.pc.First? && s.pc.i < s.n && Position(s) == s.loaded
    ensures Guarded(Offer(s, s.entries[s.pc.i]), Frontier(s) + Counted(s), |s.posted|)
    ensures Frontier(s) + Counted(s) <= |s.posted|
  {
    GuardKept(s, s, Frontier(s), s.loaded, |s.posted|);
    OfferGuard(s, |s.posted|);
    if Counted(s) == 1 {
      FirstNotFull(s);
      TailSlotCounts(s);
      SeesPosition(s);
    }
  }

  lemma {:induction false} OfferGuard(s: State, bound: nat)
    requires Inv(s) && InScan(s) && s.pc.i < s.n && Guarded(s, Frontier(s), bound)
    requires Frontier(s) <= Position(s) && Frontier(s) <= |s.posted| && bound <= |s.posted|
    ensures var s1 := Offer(s, s.entries[s.pc.i]);
            && (Counted(s) == 0 ==> Guarded(s1, Frontier(s), bound))
            && (Counted(s) == 1 && Position(s) < bound && s.entries[s.pc.i] == s.posted[Position(s)] ==>
                  Guarded(s1, Frontier(s) + 1, bound))
  {
    var s1 := Offer(s, s.entries[s.pc.i]);
    forall q: nat ensures Unanswered(s1, q) ==> Unanswered(s, q) {
      OfferAnswers(s, s.entries[s.pc.i], q);
    }
    GuardKept(s, s1, Frontier(s), bound, bound);
    if Counted(s) == 1 && Position(s) < bound && s.entries[s.pc.i] == s.posted[Position(s)] {
      GuardCounted(s, s1, Frontier(s), Position(s), bound);
    }
  }

  lemma FirstNotFull(s: State)
    requires HeadOk(s) && ScanOk(s) && s.pc.First? && Position(s) == s.loaded && s.pc.i < s.n
    ensures s.loaded < s.head + s.n
  {
  }

  /** What one look comes to when the scan goes on, and when it ends. */
  lemma LookForm(s: State)
    requires s.n == |s.entries| > 0 && InScan(s) && s.pc.i < s.n
    requires s.pc.Second? ==> s.pc.i < And(s.pc.tail, s.n - 1)
    ensures var s', s1 := Do(s, Visit), Offer(s, s.entries[s.pc.i]);
            var seenIdx := s.pc.seenIdx + Counted(s);
            if s.pc.Second? then
              s' == s1.(pc := Second(s.pc.i + 1, s.pc.tail, seenIdx, Counted(s) == 1))
            else if s.pc.i == And(s.pc.tail, s.n - 1) then
              s' == s1.(pc := Finish, head := s.head + seenIdx, headWord := AddWord(s.headWord, seenIdx))
            else
              s' == s1.(pc := First(s.pc.i + 1, s.pc.tail, seenIdx, Counted(s) == 1))
  {
  }

  lemma GuardSame(s: State, s': State, h: nat, bound: nat)
    requires Guarded(s, h, bound) && s'.posted == s.posted && s'.callers == s.callers
    ensures Guarded(s', h, bound)
  {
    assert forall q: nat :: Unanswered(s', q) == Unanswered(s, q);
  }

  /** A look that does not end the scan keeps its bounds. */
  lemma {:induction false} LookBounds(s: State, s': State)
    requires HeadOk(s) && ScanOk(s) && InScan(s) && s.pc.i < s.n && Position(s) < s.loaded
    requires s.loaded == s.head + s.n ==> s.pc.Second?
    requires s'.n == s.n && s'.head == s.head && s'.headWord == s.headWord
    requires s'.posted == s.posted && s'.loaded == s.loaded
    requires s'.pc.First? == s.pc.First? && s'.pc.Second? == s.pc.Second?
    requires s'.pc.i == s.pc.i + 1 && s'.pc.tail == s.pc.tail
    requires Frontier(s') <= Position(s) + 1
    requires s'.pc.seen ==> s.pc.seen && s'.pc.seenIdx == s.pc.seenIdx + 1
    ensures HeadOk(s') && ScanOk(s')
  {
    assert Position(s') == Position(s) + 1;
  }

  /** A look that does not end the scan. */
  lemma {:induction false} LookGoesOn(s: State)
    requires Inv(s) && HeadInv(s) && InScan(s) && s.pc.i < s.n
    requires s.pc.First? ==> s.pc.i != And(s.pc.tail, s.n - 1)
    requires s.pc.Second? ==> s.pc.i < And(s.pc.tail, s.n - 1)
    ensures HeadInv(Do(s, Visit))
  {
    var s' := Do(s, Visit);
    assert Position(s) < s.loaded && (s.loaded == s.head + s.n ==> s.pc.Second?) by {
      if s.pc.First? { FirstEnds(s); } else { SecondEnds(s); }
    }
    LookForm(s);
    LookGuard(s);
    LookBounds(s, s');
    GuardSame(Offer(s, s.entries[s.pc.i]), s', Frontier(s'), s.loaded);
  }

  /** Storing the head keeps the invariant when it goes no further than the tail and keeps a guard. */
  lemma {:induction false} Stores(s: State, h: nat, s': State)
    requires RingSize(s.n) && s.headWord == Wrap(s.head) && s.head <= h <= |s.posted| <= s.head + s.n
    requires Guarded(s, h, |s.posted|)
    requires s' == s.(pc := Finish, head := h, headWord := AddWord(s.headWord, h - s.head))
    ensures HeadInv(s')
  {
    WrapPlus(s.head, h - s.head);
    GuardSame(s, s', h, |s.posted|);
  }

  /** The guard after the look that ends the first loop. */
  lemma {:induction false} LastGuard(s: State)
    requires Inv(s) && HeadInv(s) && s.pc.First? && s.pc.i < s.n && s.pc.i == And(s.pc.tail, s.n - 1)
    ensures Guarded(Offer(s, s.entries[s.pc.i]), Frontier(s) + Counted(s), |s.posted|)
    ensures Frontier(s) + Counted(s) <= |s.posted|
  {
    var s1, h := Offer(s, s.entries[s.pc.i]), Frontier(s) + Counted(s);
    FirstEnds(s);
    if Position(s) < s.loaded {
      LookGuard(s);
      GuardKept(s1, s1, h, s.loaded, |s.posted|);
    } else {
      TailGuard(s);
    }
  }

  /** The step that ends the second loop. */
  lemma SecondForm(s: State)
    requires s.n == |s.entries| > 0 && s.pc.Second? && s.pc.i >= And(s.pc.tail, s.n - 1)
    ensures Do(s, Visit) == s.(pc := Finish, head := Frontier(s), headWord := AddWord(s.headWord, s.pc.seenIdx))
  {
  }

  /** The look that ends the first loop. */
  lemma LastForm(s: State)
    requires s.n == |s.entries| > 0 && s.pc.First? && s.pc.i < s.n && s.pc.i == And(s.pc.tail, s.n - 1)
    ensures var s1, h := Offer(s, s.entries[s.pc.i]), Frontier(s) + Counted(s);
            && Do(s, Visit) == s1.(pc := Finish, head := h, headWord := AddWord(s1.headWord, h - s1.head))
            && s1.n == s.n && s1.posted == s.posted && s1.head == s.head && s1.headWord == s.headWord
  {
    LookForm(s);
  }

  /** The look that ends the first loop stores the head. */
  lemma {:induction false} LookStores(s: State)
    requires Inv(s) && HeadInv(s) && s.pc.First? && s.pc.i < s.n && s.pc.i == And(s.pc.tail, s.n - 1)
    ensures HeadInv(Do(s, Visit))
  {
    LastGuard(s);
    LastForm(s);
    Stores(Offer(s, s.entries[s.pc.i]), Frontier(s) + Counted(s), Do(s, Visit));
  }

  /** From the first loop to the second. */
  lemma {:induction false} FirstRunsOut(s: State)
    requires Inv(s) && HeadInv(s) && s.pc.First? && s.pc.i >= s.n
    ensures HeadInv(Do(s, Visit))
  {
    GuardSame(s, Do(s, Visit), Frontier(s), s.loaded);
  }

  /** The end of the second loop. */
  lemma {:induction false} SecondStores(s: State)
    requires Inv(s) && HeadInv(s) && s.pc.Second? && s.pc.i >= And(s.pc.tail, s.n - 1)
    ensures HeadInv(Do(s, Visit))
  {
    SecondForm(s);
    GuardKept(s, s, Frontier(s), s.loaded, |s.posted|);
    Stores(s, Frontier(s), Do(s, Visit));
  }

  lemma {:induction false} VisitHead(s: State)
    requires Inv(s) && HeadInv(s) && InScan(s)
    ensures HeadInv(Do(s, Visit))
  {
    if s.pc.First? && s.pc.i >= s.n {
      FirstRunsOut(s);
    } else if s.pc.Second? && s.pc.i >= And(s.pc.tail, s.n - 1) {
      SecondStores(s);
    } else if s.pc.First? && s.pc.i == And(s.pc.tail, s.n - 1) {
      LookStores(s);
    } else {
      if s.pc.Second? { SecondEnds(s); }
      LookGoesOn(s);
    }
  }

  /** What the steps outside a scan leave alone. */
  lemma OtherForm(s: State, a: Step)
    requires s.n == |s.entries| > 0 && Enabled(s, a) && !a.Visit? && !a.Load?
    ensures var s' := Do(s, a);
            && s'.n == s.n && s'.headWord == s.headWord && s'.head == s.head && s'.loaded == s.loaded
            && s.posted <= s'.posted && (!a.Post? ==> s'.posted == s.posted)
            && (if InScan(s) then s'.pc == s.pc && s'.inflight == s.inflight else !InScan(s'))
            && NobodyNew(s, s')
  {
    NobodyComes(s, a);
  }

  lemma NobodyComes(s: State, a: Step)
    requires s.n == |s.entries| > 0 && Enabled(s, a) && !a.Visit?
    ensures NobodyNew(s, Do(s, a))
  {
    match a
    case Send(id) => assert id in s.callers && !s.callers[id].Answered?;
    case _ =>
  }

  lemma {:induction false} OtherHead(s: State, a: Step)
    requires Inv(s) && HeadInv(s) && Enabled(s, a) && !a.Visit? && !a.Post? && !a.Load?
    ensures HeadInv(Do(s, a))
  {
    OtherForm(s, a);
    QuietHead(s, Do(s, a));
  }

  lemma {:induction false} StepHead(s: State, a: Step)
    requires Inv(s) && HeadInv(s) && Enabled(s, a)
    ensures HeadInv(Do(s, a))
  {
    match a
    case Visit => VisitHead(s);
    case Post(c) => PostHead(s, c);
    case Load => LoadHead(s);
    case _ => OtherHead(s, a);
  }

  lemma {:induction false} ContinuesHead(m: Mode, s: State, run: seq<Step>, s': State)
    requires Inv(s) && HeadInv(s) && Continues(m, s, run, s')
    ensures Inv(s') && HeadInv(s') && s'.n == s.n
    decreases |run|
  {
    if run != [] {
      var r := LastStep(m, s, run, s');
      ContinuesHead(m, s, run[..|run| - 1], r);
      StepInv(r, run[|run| - 1]);
      StepHead(r, run[|run| - 1]);
    }
  }

  /** However many calls there are and however their completions interleave with the scans, the head never passes
      the tail and the kernel never gets more than one lap ahead of it. So every CQE the head has
      not passed is intact. */
  lemma {:induction false} HeadBelowTail(m: Mode, n: nat, run: seq<Step>, s: State)
    requires RingSize(n) && Reaches(m, n, run, s)
    ensures s.headWord == Wrap(s.head) && s.tailWord == Wrap(|s.posted|)
    ensures s.head <= |s.posted| <= s.head + n
    ensures |s.entries| == n && forall p :: s.head <= p < |s.posted| ==> s.entries[p % n] == s.posted[p]
  {
    InitInv(n);
    InitHead(n);
    ContinuesHead(m, Init(n), run, s);
    forall p | s.head <= p < |s.posted| ensures s.entries[p % n] == s.posted[p] {
      ImageWindow(s.entries, s.posted, p);
      SlotIsMod(p, n);
    }
  }
}
