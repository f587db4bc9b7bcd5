/** Whole turns of a ring used by blocking operations: a call arrives, the kernel takes and completes entries, a scan
    runs from its start to its end. */
module DispatchTurns {
  import opened Words
  import opened Window
  import opened Dispatch
  import opened DispatchProtocol
  import opened DispatchSafety
  import opened DispatchHead
  import opened DispatchSerial
  import opened DispatchReal
  import opened DispatchAnswer

  ghost predicate Reached(m: Mode, n: nat, s: State) {
    n > 0 && Leads(m, Init(n), s)
  }

  lemma {:induction false} ReachedSound(m: Mode, n: nat, s: State)
    requires RingSize(n) && Reached(m, n, s)
    ensures Inv(s) && HeadInv(s) && s.n == n
  {
    InitInv(n);
    InitHead(n);
    var run :| Continues(m, Init(n), run, s);
    ContinuesHead(m, Init(n), run, s);
  }

  lemma Advance(m: Mode, n: nat, s: State, a: Step)
    requires Reached(m, n, s) && s.n == |s.entries| > 0 && Enabled(s, a) && Allowed(m, s, a)
    ensures Reached(m, n, Do(s, a))
  {
    Go(m, Init(n), s, a, Do(s, a));
  }

  /** Everything a scan leaves alone. */
  ghost predicate SameRing(s: State, t: State) {
    && t.n == s.n && t.entries == s.entries && t.posted == s.posted && t.lastId == s.lastId && t.sq == s.sq
    && t.kernel == s.kernel && t.completions == s.completions && t.tokens == s.tokens && t.received == s.received
    && t.heads == s.heads && t.takes == s.takes
  }

  lemma {:induction false} ScanRunsOut(m: Mode, n: nat, s: State)
    requires Reached(m, n, s) && s.n == |s.entries| > 0 && (InScan(s) || s.pc.Finish?)
    ensures Reached(m, n, Alone(s)) && Alone(s).pc.Finish? && SameRing(s, Alone(s))
    decreases Rank(s.n, s.pc)
  {
    if InScan(s) {
      Advance(m, n, s, Visit);
      VisitForm(s);
      RankFalls(s);
      ScanRunsOut(m, n, Do(s, Visit));
    }
  }

  /** A whole call of onEntry. */
  lemma {:induction false} Scans(m: Mode, n: nat, s: State) returns (t: State)
    requires RingSize(n) && Reached(m, n, s) && s.pc.Scanning? && s.n == n == |s.entries|
    ensures Reached(m, n, t) && t.pc.Finish? && SameRing(s, t)
    ensures var r := Entry(s.entries, Slot(s.head, n), Slot(|s.posted|, n), s.inflight);
            t.inflight == r.waiting && t.head == s.head + r.run
  {
    assert And(s.headWord, n - 1) == Slot(s.head, n) && And(s.tailWord, n - 1) == Slot(|s.posted|, n) by {
      ReachedSound(m, n, s);
      WordSlot(s.head, n);
      WordSlot(|s.posted|, n);
    }
    Advance(m, n, s, Load);
    ScanRunsOut(m, n, Do(s, Load));
    ScanIsEntry(s);
    t := Alone(Do(s, Load));
  }

  lemma PrepareAdds(s: State)
    requires Inv(s)
    ensures Pending(Do(s, Prepare)) == Pending(s) + {s.lastId + 1}
  {
    var s' := Do(s, Prepare);
    forall i ensures i in Pending(s') <==> i in Pending(s) || i == s.lastId + 1 {
    }
  }

  /** No CQE has been posted with this id. */
  ghost predicate Absent(s: State, id: nat) {
    forall p :: 0 <= p < |s.posted| ==> s.posted[p].userData != id
  }

  /** A call commits its entry. */
  lemma {:induction false} Starts(m: Mode, n: nat, s: State) returns (t: State)
    requires RingSize(n) && Reached(m, n, s) && Allowed(m, s, Prepare)
    ensures Reached(m, n, t) && Pending(t) == Pending(s) + {t.lastId} && Absent(t, t.lastId)
    ensures t == s.(lastId := s.lastId + 1, sq := t.sq, callers := t.callers, heads := s.heads + [s.takes])
    ensures t.lastId in t.callers && t.callers[t.lastId].Prepared?
  {
    ReachedSound(m, n, s);
    Advance(m, n, s, Prepare);
    PrepareAdds(s);
    t := Do(s, Prepare);
  }

  /** The call just started sends its request. */
  lemma {:induction false} Sends(m: Mode, n: nat, s: State) returns (t: State)
    requires Reached(m, n, s) && s.n == n == |s.entries| && s.completions == []
    requires s.lastId in s.callers && s.callers[s.lastId].Prepared?
    ensures Reached(m, n, t) && Pending(t) == Pending(s)
    ensures t == s.(callers := t.callers, completions := [s.lastId])
  {
    Advance(m, n, s, Send(s.lastId));
    SamePending(s, Send(s.lastId));
    t := Do(s, Send(s.lastId));
  }

  /** Ring.run receives the request: at the outer select, or at the inner one with a token. */
  lemma {:induction false} Joins(m: Mode, n: nat, s: State, inner: bool) returns (t: State)
    requires Reached(m, n, s) && s.n == n == |s.entries| && s.pc.Select? && s.completions == [s.lastId]
    requires inner ==> s.tokens > 0
    ensures Reached(m, n, t) && Pending(t) == Pending(s)
    ensures t == s.(inflight := s.inflight + {s.lastId}, tokens := s.tokens - (if inner then 1 else 0), pc := Entering,
                    completions := [], received := t.received)
  {
    if inner {
      Advance(m, n, s, Retry);
      var s1 := Do(s, Retry);
      Advance(m, n, s1, Poll);
      SamePending(s, Retry);
      SamePending(s1, Poll);
      t := Do(s1, Poll);
    } else {
      Advance(m, n, s, Receive);
      SamePending(s, Receive);
      t := Do(s, Receive);
    }
  }

  /** A call starts and is received. */
  lemma {:induction false} Calls(m: Mode, n: nat, s: State, inner: bool) returns (t: State)
    requires RingSize(n) && Reached(m, n, s) && Allowed(m, s, Prepare) && s.n == n == |s.entries| && s.pc.Select?
    requires s.completions == [] && (inner ==> s.tokens > 0)
    ensures Reached(m, n, t) && Pending(t) == Pending(s) + {s.lastId + 1} && Absent(t, s.lastId + 1)
    ensures t == s.(lastId := s.lastId + 1, sq := t.sq, inflight := s.inflight + {s.lastId + 1},
                    tokens := s.tokens - (if inner then 1 else 0), pc := Entering, callers := t.callers,
                    received := t.received, heads := s.heads + [s.takes])
  {
    var s1 := Starts(m, n, s);
    var s2 := Sends(m, n, s1);
    t := Joins(m, n, s2, inner);
  }

  /** The kernel takes entries. */
  lemma {:induction false} Enters(m: Mode, n: nat, s: State, taken: multiset<nat>) returns (t: State)
    requires Reached(m, n, s) && s.n == n == |s.entries| && Enabled(s, Enter(taken)) && Allowed(m, s, Enter(taken))
    ensures Reached(m, n, t) && Pending(t) == Pending(s)
    ensures t == s.(sq := t.sq, kernel := s.kernel + taken, pc := Scanning, takes := s.takes + |taken|)
  {
    Advance(m, n, s, Enter(taken));
    SamePending(s, Enter(taken));
    t := Do(s, Enter(taken));
  }

  /** The completion of request `id`. */
  function Done(id: nat): Cqe {
    Cqe(id, 0, 0)
  }

  /** One CQE is posted. */
  lemma {:induction false} Posts(m: Mode, n: nat, s: State, id: nat) returns (t: State)
    requires RingSize(n) && Reached(m, n, s) && id in s.kernel && |s.posted| < s.head + n
    ensures Reached(m, n, t) && Pending(t) == Pending(s) && |t.entries| == n
    ensures t == s.(posted := s.posted + [Done(id)], kernel := s.kernel - multiset{id}, entries := t.entries,
                    tailWord := t.tailWord)
  {
    ReachedSound(m, n, s);
    WrapMinus(|s.posted|, s.head);
    Advance(m, n, s, Post(Done(id)));
    SamePending(s, Post(Done(id)));
    t := Do(s, Post(Done(id)));
  }

  /** Ring.run goes back to its select with a request in flight. */
  lemma {:induction false} Returns(m: Mode, n: nat, s: State) returns (t: State)
    requires Reached(m, n, s) && s.n == n == |s.entries| && s.pc.Finish? && s.inflight != {} && s.tokens < TOKENS
    ensures Reached(m, n, t) && Pending(t) == Pending(s)
    ensures t == s.(tokens := s.tokens + 1, pc := Select)
  {
    Advance(m, n, s, Return);
    SamePending(s, Return);
    t := Do(s, Return);
  }

  /** A scan answers the requests it takes off the map, and nobody else. */
  lemma {:induction false} ScanPending(m: Mode, n: nat, s: State, t: State, gone: set<nat>)
    requires RingSize(n) && Reached(m, n, s) && Reached(m, n, t) && SameRing(s, t)
    requires t.inflight == s.inflight - gone && gone <= s.inflight
    ensures Pending(t) == Pending(s) - gone
  {
    ReachedSound(m, n, s);
    ReachedSound(m, n, t);
    forall i ensures i in Pending(t) <==> i in Pending(s) && i !in gone {
      assert i in t.callers <==> i in s.callers;
    }
  }

  /** No slot carries an id that has not been posted. */
  lemma NotInRing(s: State, id: nat, x: nat)
    requires Shape(s) && Absent(s, id) && id > 0 && x < s.n
    ensures s.entries[x].userData != id
  {
    assert s.entries[x] == Content(s.posted, s.n, x);
  }

  // ---------- Small sets ----------

  lemma One(a: nat)
    ensures {} + {a} == {a} && |{a}| == 1 && multiset{} + multiset{a} == multiset{a}
  {
  }

  lemma Pair(a: nat, b: nat)
    requires a != b
    ensures {a} + {b} == {a, b} && |{a, b}| == 2 && {a, b} - {a} == {b} && {a, b} - {b} == {a}
  {
  }

  lemma Triple(a: nat, b: nat, d: nat)
    ensures {a, b} + {d} == {a, b, d}
    ensures d != a && d != b ==> {a, b, d} - {d} == {a, b}
    ensures a != b && a != d ==> {a, b, d} - {a} == {b, d}
    ensures b != a && b != d ==> {a, b, d} - {b} == {a, d}
  {
  }

  // ---------- A slow request ----------

  /** A run with one call at a time is a run with at most `c`. */
  lemma {:induction false} MoreCalls(c: nat, z: nat, s: State, run: seq<Step>, s': State)
    requires c > 0 && Continues(Real(1, z), s, run, s')
    ensures Continues(Real(c, z), s, run, s')
  {
    var states :| Path(Real(1, z), states, run) && states[0] == s && states[|run|] == s';
    forall i | 0 <= i < |run| ensures Makes(Real(c, z), states[i], run[i], states[i + 1]) {
      assert Makes(Real(1, z), states[i], run[i], states[i + 1]);
    }
    assert Path(Real(c, z), states, run);
  }

  /** `k` calls have been served one by one: each found nothing outstanding. */
  lemma {:induction false} Served(c: nat, z: nat, n: nat, k: nat) returns (t: State)
    requires RingSize(n) && RingSize(z) && c > 0
    ensures Reached(Real(c, z), n, t) && t.n == n == |t.entries| && t.pc.Select? && t.tokens == 0
    ensures t.lastId == t.head == |t.posted| == k && t.completions == [] && t.kernel == multiset{}
    ensures t.inflight == {} && Pending(t) == {} && t.heads == seq(k, i => i) && t.takes == k
  {
    t := ServeMany(n, k);
    var run :| Continues(Serial, Init(n), run, t);
    TidyRun(Serial, z, n, run, t);
    MoreCalls(c, z, Init(n), run, t);
  }

  /** Call `id` is received, after all before it have been served. */
  lemma {:induction false} SlowCalls(c: nat, z: nat, n: nat, id: nat) returns (t: State)
    requires RingSize(n) && RingSize(z) && c > 0 && id > 0
    ensures Reached(Real(c, z), n, t) && t.n == n == |t.entries| && t.pc.Entering? && t.tokens == 0
    ensures t.lastId == id && t.head == |t.posted| == id - 1 && t.completions == [] && t.kernel == multiset{}
    ensures t.inflight == {id} && Pending(t) == {id} && Absent(t, id)
    ensures t.heads == seq(id, i => i) && t.takes == id - 1
  {
    One(id);
    var s := Served(c, z, n, id - 1);
    t := Calls(Real(c, z), n, s, false);
  }

  /** Its entry is taken. */
  lemma {:induction false} SlowTaken(c: nat, z: nat, n: nat, id: nat) returns (t: State)
    requires RingSize(n) && RingSize(z) && c > 0 && id > 0
    ensures Reached(Real(c, z), n, t) && t.n == n == |t.entries| && t.pc.Scanning? && t.tokens == 0
    ensures t.lastId == id && t.head == |t.posted| == id - 1 && t.completions == [] && t.kernel == multiset{id}
    ensures t.inflight == {id} && Pending(t) == {id} && Absent(t, id)
    ensures t.heads == seq(id, i => i) && t.takes == id
  {
    One(id);
    var s := SlowCalls(c, z, n, id);
    YieldsNext(z, s);
    t := Enters(Real(c, z), n, s, multiset{id});
  }

  /** A scan of an empty window for requests that have not been completed finds nothing. */
  lemma {:induction false} NothingThere(m: Mode, n: nat, s: State)
    requires RingSize(n) && Reached(m, n, s) && s.head == |s.posted|
    requires forall i :: i in s.inflight ==> i > 0 && Absent(s, i)
    ensures s.n == n == |s.entries|
    ensures var x := Slot(s.head, n); Entry(s.entries, x, x, s.inflight) == Swept(s.inflight, [], 0)
  {
    ReachedSound(m, n, s);
    var x := Slot(s.head, n);
    forall i | i in s.inflight ensures s.entries[x].userData != i {
      NotInRing(s, i, x);
    }
    assert Sweep(s.entries, x + 1, x + 1, s.inflight) == Swept(s.inflight, [], 0);
  }

  /** Ring.run looks for its completion in vain, and leaves itself a token. */
  lemma {:induction false} SlowWaits(c: nat, z: nat, n: nat, id: nat) returns (t: State)
    requires RingSize(n) && RingSize(z) && c > 0 && id > 0
    ensures Reached(Real(c, z), n, t) && t.n == n == |t.entries| && t.pc.Select? && t.tokens == 1
    ensures t.lastId == id && t.head == |t.posted| == id - 1 && t.completions == [] && t.kernel == multiset{id}
    ensures t.inflight == {id} && Pending(t) == {id} && Absent(t, id)
    ensures t.heads == seq(id, i => i) && t.takes == id
  {
    var m := Real(c, z);
    var s := SlowTaken(c, z, n, id);
    NothingThere(m, n, s);
    var s1 := Scans(m, n, s);
    ScanPending(m, n, s, s1, {});
    t := Returns(m, n, s1);
  }

  // ---------- The channel of requests ----------

  /** `k` calls have sent their requests, and none has been received: the channel takes as many as the ring has
      slots. */
  lemma {:induction false} RequestsQueue(n: nat, k: nat) returns (t: State)
    requires RingSize(n) && k <= n
    ensures Reached(Any, n, t) && |t.completions| == t.lastId == k && t.n == n == |t.entries|
    ensures forall i :: i in t.callers ==> i <= k
  {
    if k == 0 {
      t := Init(n);
      Start(Any, t);
    } else {
      var s := RequestsQueue(n, k - 1);
      Advance(Any, n, s, Prepare);
      var s1 := Do(s, Prepare);
      Advance(Any, n, s1, Send(k));
      t := Do(s1, Send(k));
    }
  }
}
