/** Blocking operations as a transition system: any number of goroutines in Ring.complete, the goroutine of
    Ring.run with the small steps of onEntry, and the kernel. Signalling a caller and deleting its request is
    one step. */
module DispatchProtocol {
  import opened Words
  import opened Window
  import opened Naming

  /** How far one blocking call has got. */
  datatype Caller =
    | Prepared                          // entry committed, request not sent
    | Sent                              // request sent, waiting on done
    | Answered(res: int, flags: nat)    // signalled, with the fields of the request

  /** Program counter and locals of Ring.run. */
  datatype Pc =
    | Select                            // the outer select
    | Inner                             // a retry token taken, the inner select
    | Entering                          // about to call Enter
    | Scanning                          // about to load head and tail in onEntry
    | First(i: nat, tail: u32, seenIdx: nat, seen: bool)
    | Second(i: nat, tail: u32, seenIdx: nat, seen: bool)
    | Finish                            // onEntry returned; push a token if requests remain

  /** The last six fields are history. */
  datatype State = State(
    n: nat,
    headWord: u32,
    tailWord: u32,
    entries: seq<Cqe>,
    lastId: nat,
    sq: set<nat>,               // committed, not yet taken by the kernel
    kernel: multiset<nat>,      // taken and not yet completed, once for each time it was taken
    callers: map<nat, Caller>,
    completions: seq<nat>,      // the channel of requests
    inflight: set<nat>,
    tokens: nat,                // in the retry channel
    pc: Pc,
    posted: seq<Cqe>,
    received: set<nat>,
    head: nat,                  // the head without wrap-around
    loaded: nat,                // how many CQEs were posted when onEntry last loaded the tail
    heads: seq<nat>,            // how many entries had been taken when each entry was committed, in order
    takes: nat                  // how many entries the kernel has taken
  )

  datatype Step =
    | Prepare                   // a goroutine takes an id and commits an entry
    | Send(id: nat)             // complete: send the request
    | Post(c: Cqe)              // the kernel completes an entry it has taken
    | Receive                   // outer select: a request
    | Retry                     // outer select: a token
    | Poll                      // inner select
    | Enter(taken: multiset<nat>)   // the kernel takes entries, none if the call fails
    | Load                      // onEntry: load head and tail
    | Visit                     // onEntry: one turn of a loop
    | Return                    // after onEntry

  /** Capacity of the retry channel. */
  const TOKENS: nat := 2

  function Init(n: nat): State {
    State(n, 0, 0, seq(n, _ => ZERO), 0, {}, multiset{}, map[], [], {}, 0, Select, [], {}, 0, 0, [], 0)
  }

  /** Enter may take an entry again, or one whose id is not filled in yet (see Submission.BatchOfTwo and
      Submission.StaleRetake), so `taken` holds any ids given out so far, or 0, and any of them more than once. */
  predicate Enabled(s: State, a: Step) {
    match a
    case Prepare => true
    case Send(id) => id in s.callers && s.callers[id].Prepared? && |s.completions| < s.n
    case Post(c) => c.userData in s.kernel && SubWord(s.tailWord, s.headWord) < s.n
    case Receive => s.pc.Select? && s.completions != []
    case Retry => s.pc.Select? && s.tokens > 0
    case Poll => s.pc.Inner?
    case Enter(taken) => s.pc.Entering? && |taken| <= |s.inflight| && forall i :: i in taken ==> i <= s.lastId
    case Load => s.pc.Scanning?
    case Visit => s.pc.First? || s.pc.Second?
    case Return => s.pc.Finish? && (s.inflight != {} ==> s.tokens < TOKENS)
  }

  /** Take the next request off the channel. */
  function Admit(s: State): State
    requires s.completions != []
  {
    s.(inflight := s.inflight + {s.completions[0]}, completions := s.completions[1..], pc := Entering,
       received := s.received + {s.completions[0]})
  }

  /** Hand entry `c` to the request waiting for it, if any. */
  function Offer(s: State, c: Cqe): State {
    if c.userData in s.inflight then
      s.(inflight := s.inflight - {c.userData}, callers := s.callers[c.userData := Answered(c.res, c.flags)])
    else s
  }

  function StoreHead(s: State, seenIdx: nat): State {
    s.(headWord := AddWord(s.headWord, seenIdx), pc := Finish, head := s.head + seenIdx)
  }

  function DoVisit(s: State): State
    requires s.n == |s.entries| > 0 && (s.pc.First? || s.pc.Second?)
  {
    var i, end := s.pc.i, And(s.pc.tail, s.n - 1);
    if s.pc.First? && i >= s.n then s.(pc := Second(0, s.pc.tail, s.pc.seenIdx, true))
    else if s.pc.Second? && (i >= end || i >= s.n) then StoreHead(s, s.pc.seenIdx)
    else
      var hit := s.entries[i].userData in s.inflight;
      var seen := s.pc.seen && hit;
      var seenIdx := if seen then s.pc.seenIdx + 1 else s.pc.seenIdx;
      var s' := Offer(s, s.entries[i]);
      if s.pc.First? && i == end then StoreHead(s', seenIdx)
      else if s.pc.First? then s'.(pc := First(i + 1, s.pc.tail, seenIdx, seen))
      else s'.(pc := Second(i + 1, s.pc.tail, seenIdx, seen))
  }

  function Do(s: State, a: Step): State
    requires s.n == |s.entries| > 0 && Enabled(s, a)
  {
    match a
    case Prepare =>
      var id := s.lastId + 1;
      s.(lastId := id, sq := s.sq + {id}, callers := s.callers[id := Prepared], heads := s.heads + [s.takes])
    case Send(id) => s.(callers := s.callers[id := Sent], completions := s.completions + [id])
    case Post(c) =>
      s.(entries := s.entries[And(s.tailWord, s.n - 1) := c], tailWord := AddWord(s.tailWord, 1),
         kernel := s.kernel - multiset{c.userData}, posted := s.posted + [c])
    case Receive => Admit(s)
    case Retry => s.(tokens := s.tokens - 1, pc := Inner)
    case Poll => if s.completions != [] then Admit(s) else s.(pc := Scanning)
    case Enter(taken) =>
      s.(sq := (set i | i in s.sq && i !in taken), kernel := s.kernel + taken, pc := Scanning,
         takes := s.takes + |taken|)
    case Load => s.(pc := First(And(s.headWord, s.n - 1), s.tailWord, 0, true), loaded := |s.posted|)
    case Visit => DoVisit(s)
    case Return => if s.inflight != {} then s.(tokens := s.tokens + 1, pc := Select) else s.(pc := Select)
  }

  // ---------- Runs ----------

  /** The calls under way. */
  function Pending(s: State): set<nat> {
    set i | i in s.callers && !s.callers[i].Answered?
  }

  /** `taken` is what an Enter for `|s.inflight|` entries can take from a submission ring of `z` entries on which each
      goroutine has committed its entry right after claiming it: see Submission.TakenIsYield. */
  predicate Yields(z: nat, s: State, taken: multiset<nat>) {
    && RingSize(z) && |taken| <= Takes(z, |s.heads|, s.takes, |s.inflight|)
    && taken == Yield(z, s.heads, s.takes, |taken|)
  }

  lemma YieldsNothing(z: nat, s: State)
    requires RingSize(z)
    ensures Yields(z, s, multiset{})
  {
    assert Yield(z, s.heads, s.takes, 0) == multiset{};
  }

  /** An entry committed when the kernel had taken all others is what the ring yields next. */
  lemma {:induction false} YieldsNext(z: nat, s: State)
    requires RingSize(z) && |s.heads| == s.takes + 1 && s.heads[s.takes] == s.takes && s.inflight != {}
    ensures Yields(z, s, multiset{s.takes + 1})
    ensures Yield(z, s.heads, s.takes, 1) == multiset{s.takes + 1}
  {
    NamesItself(z, s.heads, s.takes);
    SomethingAvailable(z, s.takes);
    assert Yield(z, s.heads, s.takes, 0) == multiset{};
    assert multiset{} + multiset{s.takes + 1} == multiset{s.takes + 1};
  }

  /** Which runs are meant: all of them; those with at most `c` calls under way; those in which moreover each Enter
      takes what the submission ring yields; or those with one call at a time, in which only the entry just committed is
      taken. DispatchReal.SerialIsReal shows that the last are exactly the runs of Real(1, z). */
  datatype Mode = Any | AtMost(c: nat) | Real(c: nat, z: nat) | Serial

  predicate Allowed(m: Mode, s: State, a: Step) {
    match m
    case Any => true
    case AtMost(c) => a.Prepare? ==> |Pending(s)| < c
    case Real(c, z) => (a.Prepare? ==> |Pending(s)| < c) && (a.Enter? ==> Yields(z, s, a.taken))
    case Serial => (a.Prepare? ==> Pending(s) == {}) && (a.Enter? ==> a.taken <= multiset(s.sq))
  }

  /** Step `a` is taken in `s` and leads to `s'`. */
  ghost predicate Makes(m: Mode, s: State, a: Step, s': State) {
    s.n == |s.entries| && s.n > 0 && Enabled(s, a) && Allowed(m, s, a) && s' == Do(s, a)
  }

  /** Each step of `run` leads from one of the states to the next. */
  ghost predicate Path(m: Mode, states: seq<State>, run: seq<Step>) {
    |states| == |run| + 1 && forall i :: 0 <= i < |run| ==> Makes(m, states[i], run[i], states[i + 1])
  }

  /** `s'` follows from `s` by the steps of `run`, in order. */
  ghost predicate Continues(m: Mode, s: State, run: seq<Step>, s': State) {
    exists states :: Path(m, states, run) && states[0] == s && states[|run|] == s'
  }

  lemma LastStep(m: Mode, s: State, run: seq<Step>, s': State) returns (r: State)
    requires run != [] && Continues(m, s, run, s')
    ensures Continues(m, s, run[..|run| - 1], r) && Makes(m, r, run[|run| - 1], s')
  {
    var states :| Path(m, states, run) && states[0] == s && states[|run|] == s';
    var last := |run| - 1;
    r := states[last];
    assert Makes(m, states[last], run[last], states[last + 1]);
    assert Path(m, states[..|run|], run[..last]);
  }

  /** `s` is reached from the empty ring of `n` slots by the steps of `run`. */
  ghost predicate Reaches(m: Mode, n: nat, run: seq<Step>, s: State) {
    n > 0 && Continues(m, Init(n), run, s)
  }

  /** Some run leads from `s` to `s'`. */
  ghost predicate Leads(m: Mode, s: State, s': State) {
    exists run :: Continues(m, s, run, s')
  }

  lemma Start(m: Mode, s: State)
    ensures Leads(m, s, s)
  {
    assert Path(m, [s], []);
    assert Continues(m, s, [], s);
  }

  lemma Go(m: Mode, s0: State, s: State, a: Step, s': State)
    requires Leads(m, s0, s) && Makes(m, s, a, s')
    ensures Leads(m, s0, s')
  {
    var run :| Continues(m, s0, run, s);
    var states :| Path(m, states, run) && states[0] == s0 && states[|run|] == s;
    assert Path(m, states + [s'], run + [a]);
    assert Continues(m, s0, run + [a], s');
  }

  /** What holds of the runs with at most `c` calls holds of those among them that are real. */
  lemma {:induction false} RealIsBounded(c: nat, z: nat, s: State, run: seq<Step>, s': State)
    requires Continues(Real(c, z), s, run, s')
    ensures Continues(AtMost(c), s, run, s')
  {
    var states :| Path(Real(c, z), states, run) && states[0] == s && states[|run|] == s';
    forall i | 0 <= i < |run| ensures Makes(AtMost(c), states[i], run[i], states[i + 1]) {
      assert Makes(Real(c, z), states[i], run[i], states[i + 1]);
    }
    assert Path(AtMost(c), states, run);
  }

  // ---------- The invariant ----------

  ghost predicate Shape(s: State) {
    RingSize(s.n) && |s.entries| == s.n && s.tailWord == Wrap(|s.posted|) && Image(s.entries, s.posted)
  }

  /** An id still in the submission ring has not been completed. */
  ghost predicate Ids(s: State) {
    && (forall p :: 0 <= p < |s.posted| ==> s.posted[p].userData <= s.lastId && s.posted[p].userData !in s.sq)
    && (forall i :: i in s.kernel ==> i <= s.lastId && i !in s.sq)
    && (forall i :: i in s.sq ==> 0 < i <= s.lastId)
    && (forall i :: i in s.callers <==> 0 < i <= s.lastId)
  }

  /** Where each call's request is. */
  ghost predicate Requests(s: State) {
    && |s.completions| <= s.n
    && (forall i :: i in s.completions ==> i in s.callers && s.callers[i].Sent? && i !in s.received)
    && (forall i, j :: 0 <= i < j < |s.completions| ==> s.completions[i] != s.completions[j])
    && (forall i :: i in s.callers && s.callers[i].Sent? ==> i in s.completions || i in s.inflight)
    && (forall i :: i in s.inflight <==> i in s.received && i in s.callers && s.callers[i].Sent?)
    && (forall i :: i in s.received ==> i in s.callers && !s.callers[i].Prepared?)
  }

  ghost predicate Answers(s: State) {
    forall i :: i in s.callers && s.callers[i].Answered? ==>
      Cqe(i, s.callers[i].res, s.callers[i].flags) in s.posted && i in s.received
  }

  ghost predicate Tokens(s: State) {
    s.tokens <= TOKENS && (s.pc.Select? && s.inflight != {} ==> s.tokens > 0)
  }

  ghost predicate Inv(s: State) {
    Shape(s) && Ids(s) && Requests(s) && Answers(s) && Tokens(s)
  }

  lemma InitInv(n: nat)
    requires RingSize(n)
    ensures Inv(Init(n))
  {
  }

  lemma PrepareInv(s: State)
    requires Inv(s)
    ensures Inv(Do(s, Prepare))
  {
  }

  lemma SendInv(s: State, id: nat)
    requires Inv(s) && Enabled(s, Send(id))
    ensures Inv(Do(s, Send(id)))
  {
    assert id !in s.completions;
  }

  lemma PostInv(s: State, c: Cqe)
    requires Inv(s) && Enabled(s, Post(c))
    ensures Inv(Do(s, Post(c)))
  {
    WordSlot(|s.posted|, s.n);
    WrapPlus(|s.posted|, 1);
    ImagePost(s.entries, s.posted, c);
  }

  lemma AdmitInv(s: State)
    requires Inv(s) && s.completions != [] && !s.pc.Finish?
    ensures Inv(Admit(s))
  {
    var s' := Admit(s);
    assert s.completions == [s.completions[0]] + s'.completions;
    assert s.completions[0] in s.completions;
  }

  lemma OfferInv(s: State, i: nat)
    requires Shape(s) && Requests(s) && Answers(s) && Ids(s) && i < s.n
    ensures Requests(Offer(s, s.entries[i])) && Answers(Offer(s, s.entries[i])) && Ids(Offer(s, s.entries[i]))
  {
    var c := s.entries[i];
    assert c == Content(s.posted, s.n, i);
    if c.userData in s.inflight {
      assert c in s.posted by {
        var p := Occupant(|s.posted|, s.n, i);
        assert p >= 0 ==> s.posted[p] == c;
      }
      assert Cqe(c.userData, c.res, c.flags) == c;
    }
  }

  /** At most Ring.run's own place, its head and its tokens differ. */
  ghost predicate Moved(s: State, s': State) {
    s' == s.(pc := s'.pc, headWord := s'.headWord, tokens := s'.tokens, head := s'.head, loaded := s'.loaded)
  }

  /** Everything but the tokens is indifferent to where Ring.run stands. */
  lemma Repositioned(s: State, s': State)
    requires Shape(s) && Ids(s) && Requests(s) && Answers(s) && s.tokens <= TOKENS
    requires Moved(s, s') && s'.tokens <= TOKENS
    requires s'.pc.Select? && s.inflight != {} ==> s'.tokens > 0
    ensures Inv(s')
  {
  }

  /** One turn of a scan offers one entry, or none, and moves on. */
  lemma VisitForm(s: State)
    requires s.n == |s.entries| > 0 && Enabled(s, Visit)
    ensures var s' := Do(s, Visit);
            && !s'.pc.Select? && !s'.pc.Inner? && !s'.pc.Entering?
            && s'.tokens == s.tokens
            && (Moved(s, s') || (s.pc.i < s.n && Moved(Offer(s, s.entries[s.pc.i]), s')))
  {
  }

  lemma {:induction false} VisitInv(s: State)
    requires Inv(s) && Enabled(s, Visit)
    ensures Inv(Do(s, Visit))
  {
    VisitForm(s);
    var s' := Do(s, Visit);
    if Moved(s, s') {
      Repositioned(s, s');
    } else {
      OfferInv(s, s.pc.i);
      Repositioned(Offer(s, s.entries[s.pc.i]), s');
    }
  }

  lemma EnterInv(s: State, taken: multiset<nat>)
    requires Inv(s) && Enabled(s, Enter(taken))
    ensures Inv(Do(s, Enter(taken)))
  {
  }

  lemma {:induction false} StepInv(s: State, a: Step)
    requires Inv(s) && Enabled(s, a)
    ensures Inv(Do(s, a)) && Do(s, a).n == s.n
  {
    match a
    case Prepare => PrepareInv(s);
    case Send(id) => SendInv(s, id);
    case Post(c) => PostInv(s, c);
    case Receive => AdmitInv(s);
    case Poll => if s.completions != [] { AdmitInv(s); } else { Repositioned(s, Do(s, Poll)); }
    case Enter(taken) => EnterInv(s, taken);
    case Visit => VisitInv(s);
    case _ => Repositioned(s, Do(s, a));
  }

  lemma {:induction false} ContinuesInv(m: Mode, s: State, run: seq<Step>, s': State)
    requires Inv(s) && Continues(m, s, run, s')
    ensures Inv(s') && s'.n == s.n
    decreases |run|
  {
    if run != [] {
      var r := LastStep(m, s, run, s');
      ContinuesInv(m, s, run[..|run| - 1], r);
      StepInv(r, run[|run| - 1]);
    }
  }

  lemma RunInv(m: Mode, n: nat, run: seq<Step>, s: State)
    requires RingSize(n) && Reaches(m, n, run, s)
    ensures Inv(s) && s.n == n
  {
    InitInv(n);
    ContinuesInv(m, Init(n), run, s);
  }
}
