/** What holds in every run of blocking operations. */
module DispatchSafety {
  import opened Words
  import opened Window
  import opened Dispatch
  import opened DispatchProtocol

  /** Each call is answered with the result and flags of a CQE that carries its id: the only such CQE, when ids are
      not posted twice. */
  lemma {:induction false} OwnAnswer(m: Mode, n: nat, run: seq<Step>, s: State, id: nat)
    requires RingSize(n) && Reaches(m, n, run, s)
    requires id in s.callers && s.callers[id].Answered?
    ensures Cqe(id, s.callers[id].res, s.callers[id].flags) in s.posted
    ensures UniqueIds(s.posted) ==>
              forall c :: c in s.posted && c.userData == id ==> c == Cqe(id, s.callers[id].res, s.callers[id].flags)
  {
    RunInv(m, n, run, s);
  }

  /** An answer is given once: no later step changes it. */
  lemma {:induction false} AnsweredOnce(m: Mode, n: nat, run: seq<Step>, s: State, a: Step, id: nat)
    requires RingSize(n) && Reaches(m, n, run, s) && s.n == |s.entries| > 0 && Enabled(s, a)
    requires id in s.callers && s.callers[id].Answered?
    ensures id in Do(s, a).callers && Do(s, a).callers[id] == s.callers[id]
  {
    RunInv(m, n, run, s);
    if a.Visit? { VisitForm(s); }
  }

  /** Ring.run forgets no request: the map holds exactly the requests received and not answered, every request
      sent is in the channel or was received, and at the select a non-empty map has a retry token pending. Neither
      channel is ever longer than its capacity. */
  lemma {:induction false} NothingForgotten(m: Mode, n: nat, run: seq<Step>, s: State)
    requires RingSize(n) && Reaches(m, n, run, s)
    ensures forall i :: i in s.inflight <==> i in s.received && i in s.callers && !s.callers[i].Answered?
    ensures forall i :: i in s.callers && !s.callers[i].Prepared? ==> i in s.completions || i in s.received
    ensures s.pc.Select? && s.inflight != {} ==> s.tokens > 0
    ensures |s.completions| <= n && s.tokens <= 2
  {
    RunInv(m, n, run, s);
  }

  /** The requests of a run, in the order they were sent. */
  function Sends(run: seq<Step>): seq<nat> {
    if run == [] then []
    else
      var a := run[|run| - 1];
      Sends(run[..|run| - 1]) + if a.Send? then [a.id] else []
  }

  /** The first `k` requests sent have been received, and the others are in the channel, in order. */
  ghost predicate InOrder(s: State, sent: seq<nat>, k: nat) {
    k <= |sent| && s.completions == sent[k..] && forall i :: i in s.received <==> i in sent[..k]
  }

  lemma {:induction false} AdmitInOrder(s: State, sent: seq<nat>, k: nat)
    requires InOrder(s, sent, k) && s.completions != []
    ensures InOrder(Admit(s), sent, k + 1)
  {
    assert sent[..k + 1] == sent[..k] + [sent[k]];
    assert sent[k..][1..] == sent[k + 1..];
  }

  lemma {:induction false} SendInOrder(s: State, s': State, sent: seq<nat>, k: nat, id: nat)
    requires InOrder(s, sent, k) && s'.completions == s.completions + [id] && s'.received == s.received
    ensures InOrder(s', sent + [id], k)
  {
    assert (sent + [id])[..k] == sent[..k] && (sent + [id])[k..] == sent[k..] + [id];
  }

  /** The other steps leave the channel alone. */
  lemma ChannelKept(s: State, a: Step)
    requires s.n == |s.entries| > 0 && Enabled(s, a) && !a.Send? && !a.Receive? && !(a.Poll? && s.completions != [])
    ensures Do(s, a).completions == s.completions && Do(s, a).received == s.received
  {
    if a.Visit? { VisitForm(s); }
  }

  lemma {:induction false} OrderStep(s: State, a: Step, sent: seq<nat>, k: nat) returns (k': nat)
    requires s.n == |s.entries| > 0 && Enabled(s, a) && InOrder(s, sent, k)
    ensures InOrder(Do(s, a), sent + (if a.Send? then [a.id] else []), k')
  {
    k' := k;
    assert sent + [] == sent;
    if a.Send? {
      SendInOrder(s, Do(s, a), sent, k, a.id);
    } else if a.Receive? || (a.Poll? && s.completions != []) {
      AdmitInOrder(s, sent, k);
      k' := k + 1;
    } else {
      ChannelKept(s, a);
    }
  }

  /** Ring.run receives the requests in the order they were sent. */
  lemma {:induction false} ReceivedInOrder(m: Mode, n: nat, run: seq<Step>, s: State) returns (k: nat)
    requires Reaches(m, n, run, s)
    ensures InOrder(s, Sends(run), k)
    decreases |run|
  {
    if run == [] {
      k := 0;
    } else {
      var r := LastStep(m, Init(n), run, s);
      k := ReceivedInOrder(m, n, run[..|run| - 1], r);
      k := OrderStep(r, run[|run| - 1], Sends(run[..|run| - 1]), k);
    }
  }

  // ---------- An undisturbed scan is onEntry ----------

  function Rank(n: nat, pc: Pc): nat {
    match pc
    case First(i, _, _, _) => if i < n then 2 * n + 2 - i else n + 2
    case Second(i, _, _, _) => if i < n then n + 1 - i else 1
    case _ => 0
  }

  /** The scan carried to its end with nobody else moving. */
  function Alone(s: State): State
    requires s.n == |s.entries| > 0
    decreases Rank(s.n, s.pc)
  {
    if s.pc.First? || s.pc.Second? then Alone(DoVisit(s)) else s
  }

  /** The callers after the deliveries `out`. */
  function Told(callers: map<nat, Caller>, out: seq<Delivery>): map<nat, Caller>
    decreases |out|
  {
    if out == [] then callers else Told(callers[out[0].id := Answered(out[0].res, out[0].flags)], out[1..])
  }

  /** What a scan will leave waiting, whom it will answer, and how far it will move the head in all, by the
      specification of onEntry. */
  function Expected(s: State, end: nat): Swept
    requires s.n == |s.entries| && end < s.n
    requires (s.pc.First? && s.pc.i <= s.n) || (s.pc.Second? && s.pc.i <= end)
  {
    if s.pc.Second? then
      var r := Sweep(s.entries, s.pc.i, end, s.inflight);
      Swept(r.waiting, r.out, s.pc.seenIdx + if s.pc.seen then r.run else 0)
    else if s.pc.i <= end then
      var r := Sweep(s.entries, s.pc.i, end + 1, s.inflight);
      Swept(r.waiting, r.out, s.pc.seenIdx + if s.pc.seen then r.run else 0)
    else
      var r := Sweep(s.entries, s.pc.i, s.n, s.inflight);
      var q := Sweep(s.entries, 0, end, r.waiting);
      Swept(q.waiting, r.out + q.out, s.pc.seenIdx + (if s.pc.seen then r.run else 0) + q.run)
  }

  /** `t` is what remains to be done of `r` after the callers have become `callers'`. */
  ghost predicate SameEnd(callers: map<nat, Caller>, r: Swept, callers': map<nat, Caller>, t: Swept) {
    t.waiting == r.waiting && t.run == r.run && Told(callers', t.out) == Told(callers, r.out)
  }

  /** The first look of a sweep. */
  lemma SweepHead(entries: seq<Cqe>, lo: nat, hi: nat, waiting: set<nat>)
    requires lo < hi <= |entries|
    ensures var r := Sweep(entries, lo, hi, waiting); var c := entries[lo];
            var t := Sweep(entries, lo + 1, hi, waiting - {c.userData});
            && r.waiting == t.waiting
            && r.out == (if c.userData in waiting then [Delivery(c.userData, c.res, c.flags)] else []) + t.out
            && r.run == if c.userData in waiting then 1 + t.run else 0
  {
    if entries[lo].userData !in waiting { assert waiting - {entries[lo].userData} == waiting; }
  }

  lemma ToldFirst(callers: map<nat, Caller>, d: Delivery, rest: seq<Delivery>)
    ensures Told(callers, [d] + rest) == Told(callers[d.id := Answered(d.res, d.flags)], rest)
  {
    assert ([d] + rest)[1..] == rest;
  }

  /** The callers and the waiting ids after one look at `c`, if the deliveries that follow are `rest`. */
  lemma OfferTold(s: State, c: Cqe, rest: seq<Delivery>)
    ensures Offer(s, c).inflight == s.inflight - {c.userData}
    ensures Told(Offer(s, c).callers, rest)
            == Told(s.callers, (if c.userData in s.inflight then [Delivery(c.userData, c.res, c.flags)] else []) + rest)
  {
    if c.userData in s.inflight {
      ToldFirst(s.callers, Delivery(c.userData, c.res, c.flags), rest);
    } else {
      assert [] + rest == rest;
      assert s.inflight - {c.userData} == s.inflight;
    }
  }

  /** One look at an entry and the rest of a stretch up to `stop`, with `more` to be delivered after it. */
  lemma {:induction false} LookTold(s: State, i: nat, stop: nat, more: seq<Delivery>)
    requires i < stop <= |s.entries|
    ensures var s1, r := Offer(s, s.entries[i]), Sweep(s.entries, i, stop, s.inflight);
            var t := Sweep(s.entries, i + 1, stop, s1.inflight);
            && r.waiting == t.waiting && Told(s1.callers, t.out + more) == Told(s.callers, r.out + more)
            && r.run == if s.entries[i].userData in s.inflight then 1 + t.run else 0
  {
    var c := s.entries[i];
    var d := if c.userData in s.inflight then [Delivery(c.userData, c.res, c.flags)] else [];
    SweepHead(s.entries, i, stop, s.inflight);
    var t := Sweep(s.entries, i + 1, stop, s.inflight - {c.userData});
    OfferTold(s, c, t.out + more);
    assert d + t.out + more == d + (t.out + more);
  }

  /** Where one look that does not end the scan leads. */
  lemma TurnForm(s: State, end: nat)
    requires s.n == |s.entries| && end < s.n && (s.pc.First? || s.pc.Second?) && end == And(s.pc.tail, s.n - 1)
    requires s.pc.i < s.n && ((s.pc.First? && s.pc.i != end) || (s.pc.Second? && s.pc.i < end))
    ensures var c := s.entries[s.pc.i]; var hit := c.userData in s.inflight;
            var seen, seenIdx := s.pc.seen && hit, s.pc.seenIdx + if s.pc.seen && hit then 1 else 0;
            DoVisit(s) == Offer(s, c).(pc := if s.pc.First? then First(s.pc.i + 1, s.pc.tail, seenIdx, seen)
                                             else Second(s.pc.i + 1, s.pc.tail, seenIdx, seen))
  {
  }

  /** One look that does not end the scan. */
  lemma {:induction false} TurnKeeps(s: State, end: nat)
    requires s.n == |s.entries| && end < s.n && (s.pc.First? || s.pc.Second?) && end == And(s.pc.tail, s.n - 1)
    requires s.pc.i < s.n && ((s.pc.First? && s.pc.i != end) || (s.pc.Second? && s.pc.i < end))
    ensures var s' := DoVisit(s);
            && s'.n == |s'.entries| == s.n && s'.headWord == s.headWord && s'.head == s.head && s'.pc.tail == s.pc.tail
            && ((s'.pc.First? && s'.pc.i <= s.n) || (s'.pc.Second? && s'.pc.i <= end))
            && SameEnd(s.callers, Expected(s, end), s'.callers, Expected(s', end))
  {
    TurnForm(s, end);
    if s.pc.First? && end < s.pc.i {
      var w := Sweep(s.entries, s.pc.i, s.n, s.inflight).waiting;
      LookTold(s, s.pc.i, s.n, Sweep(s.entries, 0, end, w).out);
    } else {
      var stop := if s.pc.Second? then end else end + 1;
      LookTold(s, s.pc.i, stop, []);
      NothingMore(Sweep(s.entries, s.pc.i, stop, s.inflight).out);
      NothingMore(Sweep(s.entries, s.pc.i + 1, stop, DoVisit(s).inflight).out);
    }
  }

  lemma NothingMore(out: seq<Delivery>)
    ensures out + [] == out
  {
  }

  /** The step from the first loop to the second. */
  lemma TurnOver(s: State, end: nat)
    requires s.n == |s.entries| && end < s.n && s.pc.First? && end == And(s.pc.tail, s.n - 1) && s.pc.i == s.n
    ensures var s' := DoVisit(s);
            && s' == s.(pc := Second(0, s.pc.tail, s.pc.seenIdx, true))
            && Expected(s', end) == Expected(s, end)
  {
    assert Sweep(s.entries, s.n, s.n, s.inflight) == Swept(s.inflight, [], 0);
    assert [] + Expected(DoVisit(s), end).out == Expected(DoVisit(s), end).out;
  }

  /** The turn that ends a scan. */
  lemma {:induction false} TurnEnds(s: State, end: nat)
    requires s.n == |s.entries| && end < s.n && (s.pc.First? || s.pc.Second?) && end == And(s.pc.tail, s.n - 1)
    requires s.pc.i == end
    ensures DoVisit(s).pc.Finish?
    ensures DoVisit(s).inflight == Expected(s, end).waiting
    ensures DoVisit(s).headWord == AddWord(s.headWord, Expected(s, end).run)
    ensures DoVisit(s).callers == Told(s.callers, Expected(s, end).out)
    ensures DoVisit(s).head == s.head + Expected(s, end).run
  {
    if s.pc.First? {
      var w := s.inflight - {s.entries[end].userData};
      assert Sweep(s.entries, end + 1, end + 1, w) == Swept(w, [], 0);
      SweepHead(s.entries, end, end + 1, s.inflight);
      OfferTold(s, s.entries[end], []);
    }
  }

  lemma {:induction false} AloneIsExpected(s: State, end: nat)
    requires s.n == |s.entries| && end < s.n && (s.pc.First? || s.pc.Second?) && end == And(s.pc.tail, s.n - 1)
    requires (s.pc.First? && s.pc.i <= s.n) || (s.pc.Second? && s.pc.i <= end)
    ensures Alone(s).inflight == Expected(s, end).waiting
    ensures Alone(s).headWord == AddWord(s.headWord, Expected(s, end).run)
    ensures Alone(s).callers == Told(s.callers, Expected(s, end).out)
    ensures Alone(s).head == s.head + Expected(s, end).run
    decreases Rank(s.n, s.pc)
  {
    if s.pc.First? && s.pc.i == s.n {
      TurnOver(s, end);
      AloneIsExpected(DoVisit(s), end);
    } else if s.pc.i != end {
      TurnKeeps(s, end);
      AloneIsExpected(DoVisit(s), end);
    } else {
      TurnEnds(s, end);
    }
  }

  /** At the start of a scan, what is expected of it is what onEntry does. */
  lemma ExpectedIsEntry(s: State, end: nat)
    requires RingSize(s.n) && s.n == |s.entries| && s.pc.Scanning? && end < s.n
    ensures Expected(Do(s, Load), end) == Entry(s.entries, And(s.headWord, s.n - 1), end, s.inflight)
  {
  }

  /** The small steps of a scan nobody disturbs do what the onEntry method does: the same requests are left
      waiting, the same callers are told the same results, and the head moves as far. */
  lemma ScanIsEntry(s: State)
    requires RingSize(s.n) && s.n == |s.entries| && s.pc.Scanning?
    ensures var r := Entry(s.entries, And(s.headWord, s.n - 1), And(s.tailWord, s.n - 1), s.inflight);
            var s' := Alone(Do(s, Load));
            && s'.inflight == r.waiting && s'.callers == Told(s.callers, r.out)
            && s'.headWord == AddWord(s.headWord, r.run) && s'.head == s.head + r.run
  {
    ExpectedIsEntry(s, And(s.tailWord, s.n - 1));
    AloneIsExpected(Do(s, Load), And(s.tailWord, s.n - 1));
  }

  // ---------- Blocked ----------

  /** Ring.run is sending into its own full channel. */
  ghost predicate Blocked(s: State) {
    s.n == |s.entries| && s.n > 0 && s.pc.Finish? && s.inflight != {} && s.tokens == TOKENS
  }

  lemma BlockedStep(s: State, a: Step)
    requires Blocked(s) && Enabled(s, a)
    ensures Blocked(Do(s, a)) && Do(s, a).headWord == s.headWord
    ensures forall i :: i in s.callers && !s.callers[i].Answered? && i <= s.lastId ==>
              i in Do(s, a).callers && !Do(s, a).callers[i].Answered?
  {
  }

  /** Once blocked, Ring.run never moves again and no call still waiting is ever answered. */
  lemma {:induction false} BlockedForever(s: State, run: seq<Step>, s': State)
    requires Blocked(s) && Continues(Any, s, run, s')
    requires forall i :: i in s.callers ==> i <= s.lastId
    ensures Blocked(s') && s'.headWord == s.headWord && s.lastId <= s'.lastId
    ensures forall i :: i in s.callers && !s.callers[i].Answered? ==> i in s'.callers && !s'.callers[i].Answered?
    decreases |run|
  {
    if run != [] {
      var r := LastStep(Any, s, run, s');
      BlockedForever(s, run[..|run| - 1], r);
      BlockedStep(r, run[|run| - 1]);
    }
  }
}
