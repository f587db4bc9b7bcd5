/** Blocking operations one at a time: every interleaving of the one call with Ring.run and the kernel. */
module DispatchSerial {
  import opened Words
  import opened Window
  import opened DispatchProtocol
  import opened DispatchHead

  /** At most one call under way. */
  predicate Single(m: Mode) {
    m.Serial? || (m.AtMost? && m.c <= 1)
  }

  ghost predicate OneCall(s: State) {
    forall i, j :: i in Pending(s) && j in Pending(s) ==> i == j
  }

  /** Tokens and requests in flight agree. */
  ghost predicate Paired(s: State) {
    OneCall(s) && s.tokens == if s.pc.Select? && s.inflight != {} then 1 else 0
  }

  lemma NobodyElse(m: Mode, s: State)
    requires Single(m) && Allowed(m, s, Prepare)
    ensures Pending(s) == {}
  {
  }

  lemma SmallInflight(s: State)
    requires Requests(s) && OneCall(s)
    ensures |s.inflight| <= 1 && s.inflight <= Pending(s)
    ensures s.completions != [] ==> s.inflight == {}
  {
    if s.inflight != {} {
      var i :| i in s.inflight;
      assert forall j :: j in s.inflight ==> j in Pending(s);
      assert s.inflight == {i};
    }
    if s.completions != [] {
      assert s.completions[0] in s.completions && s.completions[0] in Pending(s);
    }
  }

  /** Only Prepare adds to the calls under way. */
  lemma PendingStep(s: State, a: Step, i: nat)
    requires s.n == |s.entries| > 0 && Enabled(s, a) && i in Pending(Do(s, a))
    ensures i in Pending(s) || (a.Prepare? && i == s.lastId + 1)
  {
    if a.Visit? { VisitForm(s); }
  }

  lemma {:induction false} OneCallStep(s: State, a: Step)
    requires s.n == |s.entries| > 0 && OneCall(s) && Enabled(s, a) && (a.Prepare? ==> Pending(s) == {})
    ensures OneCall(Do(s, a))
  {
    forall i, j | i in Pending(Do(s, a)) && j in Pending(Do(s, a)) ensures i == j {
      PendingStep(s, a, i);
      PendingStep(s, a, j);
    }
  }

  lemma TokenStep(s: State, a: Step)
    requires s.n == |s.entries| > 0 && Enabled(s, a)
    requires s.tokens == if s.pc.Select? && s.inflight != {} then 1 else 0
    requires s.completions != [] ==> s.inflight == {}
    ensures Do(s, a).tokens == if Do(s, a).pc.Select? && Do(s, a).inflight != {} then 1 else 0
  {
    if a.Visit? { VisitForm(s); }
  }

  lemma {:induction false} PairedStep(m: Mode, s: State, a: Step)
    requires Single(m) && Inv(s) && Paired(s) && Enabled(s, a) && Allowed(m, s, a)
    ensures Paired(Do(s, a))
  {
    if a.Prepare? { NobodyElse(m, s); }
    SmallInflight(s);
    OneCallStep(s, a);
    TokenStep(s, a);
  }

  lemma {:induction false} PairedRun(m: Mode, n: nat, run: seq<Step>, s: State)
    requires Single(m) && RingSize(n) && Reaches(m, n, run, s)
    ensures Inv(s) && Paired(s)
    decreases |run|
  {
    if run == [] {
      InitInv(n);
    } else {
      var r := LastStep(m, Init(n), run, s);
      PairedRun(m, n, run[..|run| - 1], r);
      StepInv(r, run[|run| - 1]);
      PairedStep(m, r, run[|run| - 1]);
    }
  }

  /** One call at a time: at the select the tokens equal the requests in flight, at most one, and Ring.run never
      blocks on its own channel. */
  lemma {:induction false} SerialNeverBlocks(m: Mode, n: nat, run: seq<Step>, s: State)
    requires Single(m) && RingSize(n) && Reaches(m, n, run, s)
    ensures |s.inflight| <= 1 && (s.pc.Select? ==> s.tokens == |s.inflight|)
    ensures s.pc.Finish? ==> Enabled(s, Return)
  {
    PairedRun(m, n, run, s);
    SmallInflight(s);
  }

  // ---------- The head follows the tail ----------

  /** How many calls have been answered, ids being given out in order. */
  function AnswerCount(s: State): int {
    if Pending(s) == {} then s.lastId else s.lastId - 1
  }

  /** Where the entry of the call under way is: in the submission ring, with the kernel, or completed. */
  ghost predicate Stage(s: State) {
    if Pending(s) == {} then s.sq == {} && s.kernel == multiset{} && |s.posted| == s.lastId
    else
      && Pending(s) == {s.lastId} && s.lastId > 0
      && (s.lastId !in s.inflight ==> s.sq == {s.lastId})
      && ((s.sq == {s.lastId} && s.kernel == multiset{} && |s.posted| == s.lastId - 1)
          || (s.sq == {} && s.kernel == multiset{s.lastId} && |s.posted| == s.lastId - 1)
          || (s.sq == {} && s.kernel == multiset{} && |s.posted| == s.lastId))
  }

  /** Completions come in the order of the calls. */
  ghost predicate InOrder(posted: seq<Cqe>) {
    forall k :: 0 <= k < |posted| ==> posted[k].userData == k + 1
  }

  /** The head keeps up with the answers, and a scan that still has a request to look for is at its first entry. */
  ghost predicate KeepsUp(s: State) {
    && s.n > 0 && Frontier(s) == AnswerCount(s)
    && (InScan(s) && s.inflight != {} ==>
          s.pc.First? && s.pc.i == Slot(s.head, s.n) && s.pc.seen && s.pc.seenIdx == 0)
    && (InScan(s) ==> s.pc.seenIdx <= 1)
  }

  ghost predicate InTurn(s: State) {
    InOrder(s.posted) && Stage(s) && KeepsUp(s)
  }

  ghost predicate Solid(s: State) {
    Inv(s) && HeadInv(s) && Paired(s) && InTurn(s)
  }

  lemma InitSolid(n: nat)
    requires RingSize(n)
    ensures Solid(Init(n))
  {
    InitInv(n);
    InitHead(n);
    assert Pending(Init(n)) == {};
  }

  /** The request in flight, if any, is that of the last call. */
  lemma InflightIsLast(s: State)
    requires Requests(s) && Stage(s)
    ensures s.inflight <= {s.lastId} && (s.inflight != {} ==> s.inflight == {s.lastId} == Pending(s))
  {
    assert forall i :: i in s.inflight ==> i in Pending(s);
  }

  lemma {:induction false} PrepareTurn(s: State)
    requires Solid(s) && Pending(s) == {}
    ensures InTurn(Do(s, Prepare))
  {
    var s' := Do(s, Prepare);
    InflightIsLast(s);
    forall i ensures i in Pending(s') <==> i == s'.lastId {
      assert i !in Pending(s);
    }
    assert Pending(s') == {s'.lastId};
    assert s'.sq == {s'.lastId};
  }

  /** Steps that answer nobody and start no call. */
  lemma SamePending(s: State, a: Step)
    requires s.n == |s.entries| > 0 && Enabled(s, a) && !a.Prepare? && !a.Visit?
    ensures Pending(Do(s, a)) == Pending(s)
  {
    forall i ensures i in Pending(Do(s, a)) <==> i in Pending(s) {
    }
  }

  lemma {:induction false} PostTurn(s: State, c: Cqe)
    requires Solid(s) && Enabled(s, Post(c))
    ensures InTurn(Do(s, Post(c)))
  {
    SamePending(s, Post(c));
    assert s.kernel == multiset{s.lastId};
    assert s.kernel - multiset{c.userData} == multiset{};
  }

  lemma {:induction false} EnterTurn(s: State, taken: multiset<nat>)
    requires Solid(s) && Enabled(s, Enter(taken)) && taken <= multiset(s.sq)
    ensures InTurn(Do(s, Enter(taken)))
  {
    SamePending(s, Enter(taken));
    if taken == multiset{} {
      EnterNothing(s);
    } else {
      TakesLast(s, taken);
      EnterLast(s);
    }
  }

  lemma EnterNothing(s: State)
    requires InTurn(s) && s.n == |s.entries| && s.pc.Entering? && Pending(Do(s, Enter(multiset{}))) == Pending(s)
    ensures InTurn(Do(s, Enter(multiset{})))
  {
    var s' := Do(s, Enter(multiset{}));
    assert s'.sq == s.sq && s'.kernel == s.kernel;
  }

  lemma EnterLast(s: State)
    requires InTurn(s) && Requests(s) && s.n == |s.entries| && s.inflight != {} && s.sq == {s.lastId}
    requires Enabled(s, Enter(multiset{s.lastId})) && Pending(Do(s, Enter(multiset{s.lastId}))) == Pending(s)
    ensures InTurn(Do(s, Enter(multiset{s.lastId})))
  {
    var s' := Do(s, Enter(multiset{s.lastId}));
    InflightIsLast(s);
    assert s'.sq == {} && s'.kernel == multiset{s.lastId};
  }

  lemma TakesLast(s: State, taken: multiset<nat>)
    requires Stage(s) && taken <= multiset(s.sq) && taken != multiset{} && |taken| <= |s.inflight|
    ensures taken == multiset{s.lastId} && s.inflight != {}
  {
    var i :| i in taken;
    assert i in s.sq;
    assert taken[s.lastId] <= multiset(s.sq)[s.lastId];
    forall j ensures taken[j] == multiset{s.lastId}[j] {
      assert taken[j] <= multiset(s.sq)[j];
    }
  }

  /** A scan looking for the last call's completion meets it if it has been posted. */
  lemma {:induction false} LookFinds(s: State)
    requires Solid(s) && InScan(s) && s.inflight != {} && |s.posted| == s.lastId
    ensures s.pc.First? && s.pc.i < s.n && s.entries[s.pc.i] == s.posted[s.lastId - 1]
    ensures s.posted[s.lastId - 1].userData == s.lastId && s.inflight == {s.lastId}
  {
    InflightIsLast(s);
    SeesPosition(s);
  }

  /** Otherwise it meets nothing and ends at once. */
  lemma {:induction false} LookMisses(s: State)
    requires Solid(s) && InScan(s) && s.inflight != {} && |s.posted| == s.lastId - 1
    ensures s.pc.First? && s.pc.i < s.n && s.pc.i == And(s.pc.tail, s.n - 1)
    ensures s.entries[s.pc.i].userData !in s.inflight
  {
    InflightIsLast(s);
    FirstEnds(s);
    SeesStale(s);
  }

  /** A step of a scan that answers nobody. */
  lemma {:induction false} SameTurn(s: State, s': State)
    requires InTurn(s) && Pending(s') == Pending(s) && s'.n == s.n && s'.lastId == s.lastId && s'.posted == s.posted
    requires s'.sq == s.sq && s'.kernel == s.kernel && s'.inflight == s.inflight && Frontier(s') == Frontier(s)
    requires InScan(s') ==> s'.inflight == {} && s'.pc.seenIdx <= 1
    ensures InTurn(s')
  {
  }

  lemma {:induction false} MissForm(s: State)
    requires s.n == |s.entries| > 0 && InScan(s) && (s.pc.i < s.n ==> s.entries[s.pc.i].userData !in s.inflight)
    ensures var s' := Do(s, Visit);
            && s' == s.(pc := s'.pc, head := s'.head, headWord := s'.headWord)
            && Frontier(s') == Frontier(s) && (InScan(s') ==> s'.pc.seenIdx == s.pc.seenIdx)
            && (s.pc.First? && s.pc.i < s.n && s.pc.i == And(s.pc.tail, s.n - 1) ==> !InScan(s'))
  {
  }

  /** A look that answers nobody leaves everything as it is. */
  lemma {:induction false} MissTurn(s: State)
    requires InTurn(s) && s.n == |s.entries| && InScan(s)
    requires s.inflight == {} || (s.pc.First? && s.pc.i < s.n && s.pc.i == And(s.pc.tail, s.n - 1)
                                  && s.entries[s.pc.i].userData !in s.inflight)
    ensures InTurn(Do(s, Visit))
  {
    MissForm(s);
    SameTurn(s, Do(s, Visit));
  }

  /** The look that answers the call. */
  lemma {:induction false} HitTurn(s: State)
    requires Solid(s) && InScan(s) && s.inflight != {} && |s.posted| == s.lastId
    ensures InTurn(Do(s, Visit)) && Pending(Do(s, Visit)) == {}
  {
    var s' := Do(s, Visit);
    LookFinds(s);
    LookForm(s);
    InflightIsLast(s);
    assert s'.inflight == {};
    forall i ensures i !in Pending(s') {
      assert i in Pending(s') ==> i in Pending(s);
    }
    assert Pending(s') == {};
    assert Counted(s) == 1;
  }

  lemma {:induction false} VisitTurn(s: State)
    requires Solid(s) && InScan(s)
    ensures InTurn(Do(s, Visit))
  {
    if s.inflight == {} {
      MissTurn(s);
    } else {
      InflightIsLast(s);
      if |s.posted| == s.lastId {
        HitTurn(s);
      } else {
        LookMisses(s);
        MissTurn(s);
      }
    }
  }

  ghost predicate Quiet(s: State, s': State) {
    && s'.n == s.n && s'.lastId == s.lastId && s'.posted == s.posted && s'.sq == s.sq && s'.kernel == s.kernel
    && s'.head == s.head && s.inflight <= s'.inflight
    && if InScan(s) then s'.pc == s.pc && s'.inflight == s.inflight else !InScan(s')
  }

  lemma QuietForm(s: State, a: Step)
    requires s.n == |s.entries| > 0 && Enabled(s, a)
    requires !a.Prepare? && !a.Visit? && !a.Post? && !a.Enter? && !a.Load?
    ensures Quiet(s, Do(s, a))
  {
  }

  /** Steps that touch neither ring nor scan. */
  lemma {:induction false} QuietTurn(s: State, s': State)
    requires InTurn(s) && Pending(s') == Pending(s) && Quiet(s, s')
    ensures InTurn(s')
  {
  }

  lemma {:induction false} LoadTurn(s: State)
    requires Solid(s) && Enabled(s, Load)
    ensures InTurn(Do(s, Load))
  {
    SamePending(s, Load);
    WordSlot(s.head, s.n);
  }

  lemma {:induction false} OtherTurn(s: State, a: Step)
    requires InTurn(s) && s.n == |s.entries| && Enabled(s, a)
    requires !a.Prepare? && !a.Visit? && !a.Post? && !a.Enter? && !a.Load?
    ensures InTurn(Do(s, a))
  {
    SamePending(s, a);
    QuietForm(s, a);
    QuietTurn(s, Do(s, a));
  }

  lemma {:induction false} SolidStep(s: State, a: Step)
    requires Solid(s) && Enabled(s, a) && Allowed(Serial, s, a)
    ensures Solid(Do(s, a)) && Do(s, a).n == s.n
  {
    StepInv(s, a);
    StepHead(s, a);
    PairedStep(Serial, s, a);
    match a
    case Prepare => PrepareTurn(s);
    case Post(c) => PostTurn(s, c);
    case Enter(taken) => EnterTurn(s, taken);
    case Visit => VisitTurn(s);
    case Load => LoadTurn(s);
    case _ => OtherTurn(s, a);
  }

  lemma {:induction false} SolidMakes(s: State, a: Step, s': State)
    requires Solid(s) && Makes(Serial, s, a, s')
    ensures Solid(s') && s'.n == s.n
  {
    SolidStep(s, a);
  }

  lemma {:induction false} ContinuesSolid(s: State, run: seq<Step>, s': State)
    requires Solid(s) && Continues(Serial, s, run, s')
    ensures Solid(s') && s'.n == s.n
    decreases |run|
  {
    if run != [] {
      var r := LastStep(Serial, s, run, s');
      ContinuesSolid(s, run[..|run| - 1], r);
      SolidMakes(r, run[|run| - 1], s');
    }
  }

  /** The call `i`, answered, has the result of the `i`-th completion. */
  ghost predicate AnsweredInTurn(s: State, i: nat) {
    i in s.callers && s.callers[i].Answered? ==>
      0 < i <= |s.posted| && s.posted[i - 1] == Cqe(i, s.callers[i].res, s.callers[i].flags)
  }

  lemma {:induction false} AnswerTurn(s: State, i: nat)
    requires Answers(s) && InOrder(s.posted)
    ensures AnsweredInTurn(s, i)
  {
    if i in s.callers && s.callers[i].Answered? {
      var c := Cqe(i, s.callers[i].res, s.callers[i].flags);
      assert c in s.posted;
      var k :| 0 <= k < |s.posted| && s.posted[k] == c;
    }
  }

  lemma {:induction false} HeadTurn(s: State)
    requires Requests(s) && InTurn(s) && HeadOk(s)
    ensures |s.posted| - 1 <= s.head <= |s.posted|
    ensures s.pc.Select? && s.inflight == {} ==> s.head == |s.posted|
  {
    InflightIsLast(s);
  }

  /** One call at a time, in every interleaving with the kernel, which may well post while a scan is under way: the
      `k`-th completion is that of the `k`-th call, each answered call has that completion's result, and whenever
      Ring.run is back at its select with nothing in flight the head has caught up with the tail. */
  lemma {:induction false} SerialHeadMeetsTail(n: nat, run: seq<Step>, s: State)
    requires RingSize(n) && Reaches(Serial, n, run, s)
    ensures forall k :: 0 <= k < |s.posted| ==> s.posted[k].userData == k + 1
    ensures forall i :: AnsweredInTurn(s, i)
    ensures s.pc.Select? && s.inflight == {} ==> s.headWord == s.tailWord
    ensures |s.posted| - 1 <= s.head <= |s.posted|
  {
    InitSolid(n);
    ContinuesSolid(Init(n), run, s);
    forall i ensures AnsweredInTurn(s, i) {
      AnswerTurn(s, i);
    }
    HeadTurn(s);
  }
}
