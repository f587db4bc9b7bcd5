/** A blocking call on its own: exactly when it can still be answered. */
module DispatchAnswer {
  import opened Words
  import opened Window
  import opened DispatchProtocol
  import opened DispatchSafety
  import opened DispatchHead
  import opened DispatchSerial

  predicate IsAnswered(s: State, id: nat) {
    id in s.callers && s.callers[id].Answered?
  }

  // ---------- A call arrives ----------

  /** Ring.run is at its select and every call has been answered. */
  ghost predicate AtRest(s: State) {
    Solid(s) && s.pc.Select? && Pending(s) == {}
  }

  lemma NoRequests(s: State)
    requires Requests(s) && Pending(s) == {}
    ensures s.completions == []
  {
    assert s.completions != [] ==> s.completions[0] in s.completions;
    assert forall i :: i in s.completions ==> i in Pending(s);
  }

  /** From the arrival of a new call to its receipt. */
  lemma {:induction false} Arrives(s0: State, s: State) returns (t: State)
    requires Leads(Serial, s0, s) && AtRest(s)
    ensures Leads(Serial, s0, t) && Solid(t) && t.pc.Entering? && t.lastId == s.lastId + 1
    ensures t.inflight == {t.lastId} && t.sq == {t.lastId}
  {
    var id := s.lastId + 1;
    var s1 := Do(s, Prepare);
    SolidStep(s, Prepare);
    Go(Serial, s0, s, Prepare, s1);
    NoRequests(s);
    var s2 := Do(s1, Send(id));
    SolidStep(s1, Send(id));
    Go(Serial, s0, s1, Send(id), s2);
    t := Do(s2, Receive);
    SolidStep(s2, Receive);
    Go(Serial, s0, s2, Receive, t);
    InflightIsLast(t);
  }

  // ---------- A completed call gets its answer ----------

  /** What Ring.run does next when no request arrives. */
  function NextStep(pc: Pc): Step {
    match pc
    case Select => Retry
    case Inner => Poll
    case Entering => Enter(multiset{})
    case Scanning => Load
    case Finish => Return
    case _ => Visit
  }

  /** How many such steps there are to the first look of a scan. */
  function Distance(pc: Pc): nat {
    match pc
    case Finish => 5
    case Select => 4
    case Inner => 3
    case Entering => 2
    case Scanning => 1
    case _ => 0
  }

  lemma {:induction false} NextIsEnabled(s: State)
    requires Inv(s) && Paired(s) && s.inflight != {} && !InScan(s)
    ensures var a := NextStep(s.pc); Enabled(s, a) && Allowed(Serial, s, a) && !a.Prepare?
    ensures var s' := Do(s, NextStep(s.pc));
            && Distance(s'.pc) < Distance(s.pc) && s'.inflight == s.inflight
            && s'.posted == s.posted && s'.lastId == s.lastId
  {
    SmallInflight(s);
  }

  /** Ring.run, left alone, gets to the completion of the call in flight and answers it. */
  lemma {:induction false} Deliver(s0: State, s: State) returns (t: State)
    requires Leads(Serial, s0, s) && Solid(s) && s.inflight != {} && |s.posted| == s.lastId
    ensures Leads(Serial, s0, t) && Solid(t) && Pending(t) == {} && t.lastId == s.lastId
    ensures InScan(t) || t.pc.Finish?
    decreases Distance(s.pc)
  {
    var a := NextStep(s.pc);
    if InScan(s) {
      t := Do(s, Visit);
      SolidStep(s, Visit);
      HitTurn(s);
      VisitForm(s);
      Go(Serial, s0, s, Visit, t);
    } else {
      NextIsEnabled(s);
      SolidStep(s, a);
      Go(Serial, s0, s, a, Do(s, a));
      t := Deliver(s0, Do(s, a));
    }
  }

  /** The kernel has room for the completion of the call in flight. */
  lemma {:induction false} Complete(s0: State, s: State) returns (t: State)
    requires Leads(Serial, s0, s) && Solid(s) && s.inflight != {} && s.sq == {}
    ensures Leads(Serial, s0, t) && Solid(t) && t.pc == s.pc && t.lastId == s.lastId
    ensures t.inflight == s.inflight && |t.posted| == t.lastId
  {
    t := s;
    InflightIsLast(s);
    if |s.posted| != s.lastId {
      var c := Cqe(s.lastId, 0, 0);
      WrapMinus(|s.posted|, s.head);
      SolidStep(s, Post(c));
      t := Do(s, Post(c));
      Go(Serial, s0, s, Post(c), t);
    }
  }

  lemma {:induction false} AnswerTaken(s0: State, s: State)
    requires Leads(Serial, s0, s) && Solid(s) && s.inflight != {} && s.sq == {}
    ensures exists s' :: Leads(Serial, s0, s') && IsAnswered(s', s.lastId)
  {
    var t := Complete(s0, s);
    InflightIsLast(t);
    t := Deliver(s0, t);
    assert t.lastId in t.callers && t.lastId !in Pending(t);
  }

  // ---------- A call whose entry was left behind ----------

  /** The call under way has been received, but its entry is still in the submission ring and nothing is about
      to enter the kernel. */
  ghost predicate LeftBehind(s: State, id: nat) {
    Solid(s) && id in s.sq && id in s.inflight && !s.pc.Entering?
  }

  lemma {:induction false} LeftBehindStep(s: State, a: Step, id: nat)
    requires LeftBehind(s, id) && Enabled(s, a) && Allowed(Serial, s, a)
    ensures LeftBehind(Do(s, a), id)
  {
    SolidStep(s, a);
    InflightIsLast(s);
    SmallInflight(s);
    if a.Visit? {
      LookMisses(s);
      LookForm(s);
    }
  }

  /** The retry path enters the kernel only when another request arrives (ring.go:146-158). So if the Enter after
      its receipt took nothing, a call on its own is never answered, however long Ring.run goes on retrying. */
  lemma {:induction false} LeftBehindForever(s: State, run: seq<Step>, s': State, id: nat)
    requires LeftBehind(s, id) && Continues(Serial, s, run, s')
    ensures LeftBehind(s', id) && !IsAnswered(s', id)
    decreases |run|
  {
    if run != [] {
      var r := LastStep(Serial, s, run, s');
      LeftBehindForever(s, run[..|run| - 1], r, id);
      LeftBehindStep(r, run[|run| - 1], id);
    }
  }

  /** A call on its own, received by Ring.run, is answered in some continuation if and only if its entry has been
      taken from the submission ring, or Ring.run is still about to enter the kernel. */
  lemma {:induction false} AnswerableExactly(n: nat, run: seq<Step>, s: State, id: nat)
    requires RingSize(n) && Reaches(Serial, n, run, s) && id in s.inflight
    ensures (exists s' :: Leads(Serial, s, s') && IsAnswered(s', id)) <==> id !in s.sq || s.pc.Entering?
  {
    InitSolid(n);
    ContinuesSolid(Init(n), run, s);
    InflightIsLast(s);
    Start(Serial, s);
    if id !in s.sq {
      AnswerTaken(s, s);
    } else if s.pc.Entering? {
      var a := Enter(multiset{id});
      SolidStep(s, a);
      Go(Serial, s, s, a, Do(s, a));
      AnswerTaken(s, Do(s, a));
    } else if exists s' :: Leads(Serial, s, s') && IsAnswered(s', id) {
      var s' :| Leads(Serial, s, s') && IsAnswered(s', id);
      var more :| Continues(Serial, s, more, s');
      LeftBehindForever(s, more, s', id);
    }
  }

  /** Such a call exists on every ring: the first one, when the Enter that follows its receipt fails. */
  lemma {:induction false} LeftBehindHappens(n: nat)
    requires RingSize(n)
    ensures exists s :: Leads(Serial, Init(n), s) && LeftBehind(s, 1)
  {
    var s0 := Init(n);
    InitSolid(n);
    Start(Serial, s0);
    assert Pending(s0) == {};
    var s := Arrives(s0, s0);
    var t := Do(s, Enter(multiset{}));
    SolidStep(s, Enter(multiset{}));
    Go(Serial, s0, s, Enter(multiset{}), t);
    assert LeftBehind(t, 1);
  }

  // ---------- Serving one call after another ----------

  /** A scan with nobody left to answer comes to its end. */
  lemma {:induction false} FinishScan(s0: State, s: State) returns (t: State)
    requires Leads(Serial, s0, s) && Solid(s) && Pending(s) == {} && (InScan(s) || s.pc.Finish?)
    ensures Leads(Serial, s0, t) && Solid(t) && t.pc.Finish? && Pending(t) == {} && t.lastId == s.lastId
    decreases Rank(s.n, s.pc)
  {
    if s.pc.Finish? {
      t := s;
    } else {
      t := Do(s, Visit);
      SolidStep(s, Visit);
      VisitForm(s);
      RankFalls(s);
      forall i ensures i !in Pending(t) {
        if i in Pending(t) { PendingStep(s, Visit, i); }
      }
      Go(Serial, s0, s, Visit, t);
      t := FinishScan(s0, t);
    }
  }

  lemma RankFalls(s: State)
    requires s.n == |s.entries| > 0 && InScan(s)
    ensures Rank(Do(s, Visit).n, Do(s, Visit).pc) < Rank(s.n, s.pc)
  {
  }

  /** One more call, from its start to its answer. */
  lemma {:induction false} Serve(s0: State, s: State) returns (t: State)
    requires Leads(Serial, s0, s) && AtRest(s)
    ensures Leads(Serial, s0, t) && AtRest(t) && t.lastId == s.lastId + 1
  {
    var s1 := Arrives(s0, s);
    var a := Enter(multiset{s1.lastId});
    SolidStep(s1, a);
    var s2 := Do(s1, a);
    Go(Serial, s0, s1, a, s2);
    var s3 := Complete(s0, s2);
    InflightIsLast(s3);
    var s4 := Deliver(s0, s3);
    var s5 := FinishScan(s0, s4);
    InflightIsLast(s5);
    t := Do(s5, Return);
    SolidStep(s5, Return);
    SamePending(s5, Return);
    Go(Serial, s0, s5, Return, t);
  }

  /** Any number of calls can be served one after another, and leave head and tail together. */
  lemma {:induction false} ServeMany(n: nat, k: nat) returns (t: State)
    requires RingSize(n)
    ensures Leads(Serial, Init(n), t) && AtRest(t) && t.lastId == k && t.n == n
    ensures t.head == |t.posted| == k && t.inflight == {} && t.tokens == 0 && t.completions == []
    ensures t.sq == {} && t.kernel == multiset{}
  {
    if k == 0 {
      t := Init(n);
      InitSolid(n);
      Start(Serial, t);
    } else {
      t := ServeMany(n, k - 1);
      t := Serve(Init(n), t);
    }
    var run :| Continues(Serial, Init(n), run, t);
    InitSolid(n);
    ContinuesSolid(Init(n), run, t);
    InflightIsLast(t);
    NoRequests(t);
  }
}
