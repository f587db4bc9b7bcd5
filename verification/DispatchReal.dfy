/** Runs in which Enter takes what the real submission ring yields. With one call at a time, and whatever its size, that
    is the entry just committed or nothing. */
module DispatchReal {
  import opened Words
  import opened DispatchProtocol
  import opened DispatchSerial

  /** Every entry was committed with nothing else outstanding, and Ring.run enters the kernel only for a new one. */
  ghost predicate Tidy(s: State) {
    && |s.heads| == s.lastId && (forall k :: 0 <= k < |s.heads| ==> s.heads[k] == k)
    && s.takes + |s.sq| == s.lastId && (s.pc.Entering? ==> s.sq == {s.lastId})
  }

  lemma {:induction false} PrepareTidy(s: State)
    requires Stage(s) && Tidy(s) && s.n == |s.entries| > 0 && Pending(s) == {}
    ensures Tidy(Do(s, Prepare))
  {
    assert s.sq + {s.lastId + 1} == {s.lastId + 1};
  }

  lemma {:induction false} EnterTidy(s: State, taken: multiset<nat>)
    requires Stage(s) && Tidy(s) && s.n == |s.entries| > 0 && Enabled(s, Enter(taken)) && taken <= multiset(s.sq)
    ensures Tidy(Do(s, Enter(taken)))
  {
    var s' := Do(s, Enter(taken));
    if taken == multiset{} {
      assert s'.sq == s.sq;
    } else {
      TakesLast(s, taken);
      assert s'.sq == {} && |taken| == 1;
    }
  }

  lemma {:induction false} AdmitTidy(s: State)
    requires Stage(s) && Requests(s) && OneCall(s) && Tidy(s) && s.completions != []
    ensures Tidy(Admit(s))
  {
    SmallInflight(s);
    assert s.completions[0] in s.completions && s.completions[0] in Pending(s);
  }

  lemma {:induction false} OtherTidy(s: State, a: Step)
    requires Tidy(s) && s.n == |s.entries| > 0 && Enabled(s, a) && !a.Prepare? && !a.Enter? && !a.Receive?
    requires a.Poll? ==> s.completions == []
    ensures Tidy(Do(s, a))
  {
    if a.Visit? { VisitForm(s); }
  }

  lemma {:induction false} TidyStep(s: State, a: Step)
    requires Solid(s) && Tidy(s) && Enabled(s, a) && Allowed(Serial, s, a)
    ensures Tidy(Do(s, a))
  {
    match a
    case Prepare => PrepareTidy(s);
    case Enter(taken) => EnterTidy(s, taken);
    case Receive => AdmitTidy(s);
    case Poll => if s.completions != [] { AdmitTidy(s); } else { OtherTidy(s, a); }
    case _ => OtherTidy(s, a);
  }

  /** So what the submission ring yields is the entry just committed, or nothing. */
  lemma {:induction false} YieldsSerial(z: nat, s: State, taken: multiset<nat>)
    requires RingSize(z) && Solid(s) && Tidy(s) && Enabled(s, Enter(taken))
    ensures Yields(z, s, taken) <==> taken <= multiset(s.sq)
  {
    var x := s.takes + 1;
    assert |s.inflight| <= 1 by { SmallInflight(s); }
    assert multiset(s.sq) == multiset{x} && |s.heads| == x by { EnteringHasOne(s); }
    OneAtMost(taken, x);
    YieldsOne(z, s, taken);
  }

  lemma OneAtMost(taken: multiset<nat>, x: nat)
    requires |taken| <= 1
    ensures taken <= multiset{x} <==> taken == multiset{} || taken == multiset{x}
    ensures |taken| == 0 ==> taken == multiset{}
  {
    if x in taken { assert taken == multiset{x} + (taken - multiset{x}); }
    if i :| i in taken && i != x { assert taken[i] > multiset{x}[i]; }
  }

  lemma {:induction false} YieldsOne(z: nat, s: State, taken: multiset<nat>)
    requires RingSize(z) && |s.heads| == s.takes + 1 && s.heads[s.takes] == s.takes
    requires |taken| <= |s.inflight| <= 1
    ensures Yields(z, s, taken) <==> taken == multiset{} || taken == multiset{s.takes + 1}
  {
    OneAtMost(taken, s.takes + 1);
    if |taken| == 0 { YieldsNothing(z, s); } else { YieldsNext(z, s); }
  }

  lemma EnteringHasOne(s: State)
    requires Ids(s) && Tidy(s) && s.pc.Entering?
    ensures s.sq == {s.lastId} && s.lastId > 0
  {
    assert s.lastId in s.sq;
  }

  lemma {:induction false} AllowedSame(z: nat, s: State, a: Step)
    requires RingSize(z) && Solid(s) && Tidy(s) && Enabled(s, a)
    ensures Allowed(Serial, s, a) <==> Allowed(Real(1, z), s, a)
  {
    if a.Enter? { YieldsSerial(z, s, a.taken); }
  }

  lemma {:induction false} TidyRun(m: Mode, z: nat, n: nat, run: seq<Step>, s: State)
    requires RingSize(z) && RingSize(n) && (m == Serial || m == Real(1, z)) && Reaches(m, n, run, s)
    ensures Solid(s) && Tidy(s) && Reaches(Serial, n, run, s) && Reaches(Real(1, z), n, run, s)
    decreases |run|
  {
    if run == [] {
      InitSolid(n);
      EmptyRun(Serial, s);
      EmptyRun(Real(1, z), s);
    } else {
      var a := run[|run| - 1];
      var r := LastStep(m, Init(n), run, s);
      TidyRun(m, z, n, run[..|run| - 1], r);
      AllowedSame(z, r, a);
      SolidStep(r, a);
      TidyStep(r, a);
      OneMore(Serial, Init(n), run, r, s);
      OneMore(Real(1, z), Init(n), run, r, s);
    }
  }

  lemma EmptyRun(m: Mode, s: State)
    ensures Continues(m, s, [], s)
  {
    assert Path(m, [s], []);
  }

  lemma OneMore(m: Mode, s0: State, run: seq<Step>, r: State, s: State)
    requires run != [] && Continues(m, s0, run[..|run| - 1], r) && Makes(m, r, run[|run| - 1], s)
    ensures Continues(m, s0, run, s)
  {
    var last := |run| - 1;
    var states :| Path(m, states, run[..last]) && states[0] == s0 && states[|run[..last]|] == r;
    assert run[..last] + [run[last]] == run;
    assert Path(m, states + [s], run);
  }

  /** Whatever the size `z` of the submission ring, the runs with one call at a time in which each Enter takes what that
      ring yields are the runs in which each Enter takes the entry just committed or nothing. */
  lemma {:induction false} SerialIsReal(z: nat, n: nat, run: seq<Step>, s: State)
    requires RingSize(z) && RingSize(n)
    ensures Reaches(Serial, n, run, s) <==> Reaches(Real(1, z), n, run, s)
  {
    if Reaches(Serial, n, run, s) { TidyRun(Serial, z, n, run, s); }
    if Reaches(Real(1, z), n, run, s) { TidyRun(Real(1, z), z, n, run, s); }
  }
}
