/** What a scan has dealt with by the time it stores the head, in every run. */
module DispatchPass {
  import opened Words
  import opened DispatchProtocol
  import opened DispatchHead

  /** No request in flight has its CQE between the head and the position the scan has got to. */
  ghost predicate Passed(s: State) {
    && s.n > 0
    && (InScan(s) ==>
          forall q: nat :: s.head <= q < Position(s) && q < |s.posted| ==> s.posted[q].userData !in s.inflight)
  }

  /** What is counted, or lies below the tail that was loaded, is the CQE of the scan's position. */
  lemma {:induction false} LooksAtPosition(s: State)
    requires Inv(s) && HeadInv(s) && InScan(s) && s.pc.i < s.n && (s.pc.Second? ==> Position(s) < s.loaded)
    requires Counted(s) == 1 || Position(s) < s.loaded
    ensures Position(s) < |s.posted| && s.entries[s.pc.i] == s.posted[Position(s)]
  {
    if Position(s) == s.loaded {
      FirstNotFull(s);
      TailSlotCounts(s);
    }
    SeesPosition(s);
  }

  /** After a look, the position looked at is dealt with too. */
  lemma {:induction false} LookPasses(s: State)
    requires Inv(s) && HeadInv(s) && Passed(s) && InScan(s) && s.pc.i < s.n && Position(s) < s.loaded
    ensures var s1 := Offer(s, s.entries[s.pc.i]);
            forall q: nat :: s.head <= q <= Position(s) && q < |s.posted| ==> s.posted[q].userData !in s1.inflight
  {
    LooksAtPosition(s);
  }

  lemma {:induction false} LookPassed(s: State)
    requires Inv(s) && HeadInv(s) && Passed(s) && InScan(s) && s.pc.i < s.n
    requires s.pc.Second? ==> s.pc.i < And(s.pc.tail, s.n - 1)
    ensures Passed(Do(s, Visit))
  {
    var s' := Do(s, Visit);
    LookForm(s);
    if InScan(s') {
      assert Position(s) < s.loaded by {
        if s.pc.First? { FirstEnds(s); } else { SecondEnds(s); }
      }
      LookPasses(s);
      assert Position(s') == Position(s) + 1;
    }
  }

  lemma {:induction false} VisitPassed(s: State)
    requires Inv(s) && HeadInv(s) && Passed(s) && InScan(s)
    ensures Passed(Do(s, Visit))
  {
    if s.pc.Second? { SecondEnds(s); }
    if s.pc.i < s.n && !(s.pc.Second? && s.pc.i >= And(s.pc.tail, s.n - 1)) { LookPassed(s); }
  }

  lemma LoadPassed(s: State)
    requires HeadOk(s) && s.n == |s.entries| && Enabled(s, Load)
    ensures Passed(Do(s, Load))
  {
    WordSlot(s.head, s.n);
  }

  lemma {:induction false} OtherPassed(s: State, s': State)
    requires HeadOk(s) && ScanOk(s) && Passed(s) && s'.n == s.n && s'.head == s.head && s.posted <= s'.posted
    requires if InScan(s) then s'.pc == s.pc && s'.inflight == s.inflight else !InScan(s')
    ensures Passed(s')
  {
  }

  lemma {:induction false} PassedStep(s: State, a: Step)
    requires Inv(s) && HeadInv(s) && Passed(s) && Enabled(s, a)
    ensures Passed(Do(s, a))
  {
    match a
    case Visit => VisitPassed(s);
    case Load => LoadPassed(s);
    case _ =>
      OtherForm(s, a);
      OtherPassed(s, Do(s, a));
  }

  lemma {:induction false} PassedRun(m: Mode, n: nat, run: seq<Step>, s: State)
    requires RingSize(n) && Reaches(m, n, run, s)
    ensures Inv(s) && HeadInv(s) && Passed(s) && s.n == n
    decreases |run|
  {
    if run == [] {
      InitInv(n);
      InitHead(n);
    } else {
      var r := LastStep(m, Init(n), run, s);
      PassedRun(m, n, run[..|run| - 1], r);
      StepInv(r, run[|run| - 1]);
      StepHead(r, run[|run| - 1]);
      PassedStep(r, run[|run| - 1]);
    }
  }

  lemma {:induction false} LastLook(s: State)
    requires Inv(s) && HeadInv(s) && Passed(s) && s.pc.First? && s.pc.i < s.n && s.pc.i == And(s.pc.tail, s.n - 1)
    ensures var s' := Do(s, Visit);
            if s.loaded < s.head + s.n then
              forall p: nat :: s.head <= p < s.loaded ==> s.posted[p].userData !in s'.inflight
            else s.head < |s.posted| && s'.inflight == s.inflight - {s.posted[s.head].userData}
  {
    LastForm(s);
    FirstEnds(s);
    if s.loaded == s.head + s.n { LooksAtPosition(s); }
  }

  /** Whatever else runs at the same time: when onEntry stores the head, none of the requests still in flight has a CQE
      between the head and the tail that onEntry loaded, if that window was not full. If it was, the scan has
      looked at the CQE at the head and at nothing else. */
  lemma {:induction false} ScanDelivers(m: Mode, n: nat, run: seq<Step>, s: State)
    requires RingSize(n) && Reaches(m, n, run, s) && InScan(s)
    ensures s.n == |s.entries| == n && s.head <= s.loaded <= |s.posted|
    ensures var s' := Do(s, Visit);
            s'.pc.Finish? ==>
              if s.loaded < s.head + n then
                forall p: nat :: s.head <= p < s.loaded ==> s.posted[p].userData !in s'.inflight
              else s'.inflight == s.inflight - {s.posted[s.head].userData}
  {
    PassedRun(m, n, run, s);
    if s.pc.Second? {
      SecondEnds(s);
      if s.pc.i < And(s.pc.tail, s.n - 1) { LookForm(s); }
    } else if s.pc.i < s.n {
      if s.pc.i == And(s.pc.tail, s.n - 1) { LastLook(s); } else { LookForm(s); }
    }
  }
}
