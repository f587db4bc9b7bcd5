/** The whole chain of one blocking operation: PrepareNop, Ring.complete, Ring.run, Enter, onEntry. */
module Blocking {
  import opened Words
  import opened Window
  import opened Naming
  import opened Submission
  import opened Dispatch

  /** What the kernel answers to the k-th entry it takes. */
  type Answers = nat -> (int, nat)

  /** The CQE for the k-th request: ids start at one. */
  function AnswerCqe(answers: Answers, k: nat): Cqe {
    Cqe(k + 1, answers(k).0, answers(k).1)
  }

  /** The completions of the first `k` requests. */
  function Answered(answers: Answers, k: nat): (cs: seq<Cqe>)
    ensures |cs| == k && forall i :: 0 <= i < k ==> cs[i] == AnswerCqe(answers, i)
  {
    seq(k, i requires 0 <= i => AnswerCqe(answers, i))
  }

  /** A call of onEntry on an empty window: the only slot it looks at holds an old id or none. */
  lemma EmptyEntry(entries: seq<Cqe>, x: nat, waiting: set<nat>)
    requires x < |entries| && entries[x].userData !in waiting
    ensures Entry(entries, x, x, waiting) == Swept(waiting, [], 0)
  {
    assert Sweep(entries, x + 1, x + 1, waiting) == Swept(waiting, [], 0);
  }

  lemma {:induction false} SweepNobody(entries: seq<Cqe>, lo: nat, hi: nat)
    requires lo <= hi <= |entries|
    ensures Sweep(entries, lo, hi, {}) == Swept({}, [], 0)
    decreases hi - lo
  {
    if lo < hi { SweepNobody(entries, lo + 1, hi); }
  }

  /** A call of onEntry with the one waiting id at the head. */
  lemma SingleEntry(entries: seq<Cqe>, h: nat, e: nat)
    requires h < |entries| && e < |entries| && h != e
    ensures var c := entries[h];
            Entry(entries, h, e, {c.userData}) == Swept({}, [Delivery(c.userData, c.res, c.flags)], 1)
  {
    var c := entries[h];
    assert {c.userData} - {c.userData} == {};
    if h <= e {
      SweepNobody(entries, h + 1, e + 1);
    } else {
      SweepNobody(entries, h + 1, |entries|);
      SweepNobody(entries, 0, e);
    }
  }

  /** No slot holds an id that has not been given out. */
  lemma NoFutureId(entries: seq<Cqe>, answers: Answers, k: nat, x: nat)
    requires Image(entries, Answered(answers, k)) && x < |entries|
    ensures entries[x].userData <= k
  {
    assert entries[x] == Content(Answered(answers, k), |entries|, x);
  }

  lemma AnswerNext(entries: seq<Cqe>, answers: Answers, k: nat)
    requires Image(entries, Answered(answers, k))
    ensures Image(entries[Slot(k, |entries|) := AnswerCqe(answers, k)], Answered(answers, k + 1))
  {
    ImagePost(entries, Answered(answers, k), AnswerCqe(answers, k));
    assert Answered(answers, k + 1) == Answered(answers, k) + [AnswerCqe(answers, k)];
  }

  lemma {:induction false} PostNext(entries: seq<Cqe>, answers: Answers, k: nat, tail: u32)
    requires RingSize(|entries|) && Image(entries, Answered(answers, k)) && tail == Wrap(k)
    ensures AddWord(tail, 1) == Wrap(k + 1)
    ensures Image(entries[And(tail, |entries| - 1) := AnswerCqe(answers, k)], Answered(answers, k + 1))
  {
    WrapPlus(k, 1);
    WordSlot(k, |entries|);
    AnswerNext(entries, answers, k);
  }

  lemma ScanEmpty(entries: seq<Cqe>, answers: Answers, k: nat)
    requires Image(entries, Answered(answers, k))
    ensures var x := Slot(k, |entries|); Entry(entries, x, x, {k + 1}) == Swept({k + 1}, [], 0)
  {
    NoFutureId(entries, answers, k, Slot(k, |entries|));
    EmptyEntry(entries, Slot(k, |entries|), {k + 1});
  }

  lemma ScanOwn(entries: seq<Cqe>, answers: Answers, k: nat)
    requires Image(entries, Answered(answers, k + 1)) && |entries| >= 2
    ensures Entry(entries, Slot(k, |entries|), Slot(k + 1, |entries|), {k + 1})
            == Swept({}, [Delivery(k + 1, answers(k).0, answers(k).1)], 1)
  {
    SlotNext(k, |entries|);
    ImageWindow(entries, Answered(answers, k + 1), k);
    SingleEntry(entries, Slot(k, |entries|), Slot(k + 1, |entries|));
  }

  /** onEntry on the two windows a single caller can present, request number `k` waiting: empty, or its own
      completion. */
  lemma {:induction false} ScanSpec(entries: seq<Cqe>, answers: Answers, k: nat, posted: nat, head: u32, tail: u32)
    requires RingSize(|entries|) && Image(entries, Answered(answers, posted)) && head == Wrap(k) && tail == Wrap(posted)
    ensures var r := Entry(entries, And(head, |entries| - 1), And(tail, |entries| - 1), {k + 1});
            && (posted == k ==> r == Swept({k + 1}, [], 0))
            && (posted == k + 1 ==> r == Swept({}, [Delivery(k + 1, answers(k).0, answers(k).1)], 1))
  {
    assert And(head, |entries| - 1) == Slot(k, |entries|) by { WordSlot(k, |entries|); }
    assert And(tail, |entries| - 1) == Slot(posted, |entries|) by { WordSlot(posted, |entries|); }
    if posted == k {
      ScanEmpty(entries, answers, k);
    } else if posted == k + 1 {
      ScanOwn(entries, answers, k);
    }
  }

  class Ring {
    const sq: SubmitQueue
    const cq: Dispatcher
    const answers: Answers
    var idx: nat                // the last id given out
    var tokens: nat             // retry tokens
    var posted: nat             // the kernel's count of completions

    ghost predicate Valid()
      reads this, sq, sq.table, cq, cq.entries
    {
      && sq.Valid() && cq.Valid()
      && cq.tail == Wrap(posted) && Image(cq.entries[..], Answered(answers, posted))
    }

    /** Between calls: as many requests made as answered, nothing in flight, the completion ring empty. */
    ghost predicate Quiet()
      reads this, sq, cq
    {
      && sq.Drained() && sq.claims == idx == posted
      && cq.inflight == map[] && tokens == 0 && cq.head == cq.tail
    }

    constructor (n: nat, m: nat, answers: Answers)
      requires RingSize(n) && RingSize(m)
      ensures Valid() && Quiet() && idx == 0 && cq.signalled == []
      ensures this.answers == answers && fresh(sq) && fresh(sq.table) && fresh(sq.entries)
      ensures fresh(cq) && fresh(cq.entries)
    {
      var s := new SubmitQueue(n);
      var c := new Dispatcher(m);
      sq, cq := s, c;
      this.answers := answers;
      idx, tokens, posted := 0, 0, 0;
    }

    /** Commit a nop entry under a fresh id. */
    method PrepareNop() returns (id: nat)
      requires Valid() && sq.Drained()
      modifies this`idx, sq, sq.table, sq.entries
      ensures Valid() && id == idx == old(idx) + 1
      ensures sq.claims == old(sq.claims) + 1 && sq.taken == old(sq.taken) && sq.writes == 0
      ensures sq.table[Slot(old(sq.claims), sq.n)] == Slot(old(sq.claims), sq.n)
      ensures sq.entries[Slot(old(sq.claims), sq.n)] == Sqe(Opcode.Nop, -1, 0, 0, null, id)
    {
      MaskedCounters(sq.n, sq.claims, sq.taken);
      var slot, ready := sq.SubmitEntry();
      idx := idx + 1;
      sq.entries[slot] := Sqe(Opcode.Nop, -1, 0, 0, null, idx);
      sq.Commit(ready);
      assert sq.table[..][slot] == slot;
      id := idx;
    }

    /** The kernel completes the request it took, number `posted`. */
    method Complete(sqe: Sqe)
      requires Valid() && sqe.userData == posted + 1
      modifies this`posted, cq`tail, cq.entries
      ensures Valid() && posted == old(posted) + 1
    {
      PostNext(cq.entries[..], answers, posted, cq.tail);
      var c := Cqe(sqe.userData, answers(posted).0, answers(posted).1);
      assert c == AnswerCqe(answers, posted);
      cq.Store(c);
      assert sq.Valid();
      posted := posted + 1;
    }

    /** Request number `k` is being waited for and has been answered or not. */
    ghost predicate Waiting(k: nat, log: seq<Delivery>)
      reads this, sq, cq
    {
      && sq.Drained() && sq.claims == idx == k + 1
      && tokens == |cq.inflight| && (posted == k || posted == k + 1)
      && (posted == k ==> cq.inflight == map[k + 1 := k + 1] && cq.head == Wrap(k) && cq.signalled == log)
      && (posted == k + 1 ==> cq.inflight == map[] && cq.head == cq.tail
                              && cq.signalled == log + [Delivery(k + 1, answers(k).0, answers(k).1)])
    }

    /** PrepareNop, the request reaching Ring.run, and Enter. */
    method Submit() returns (taken: seq<Sqe>)
      requires Valid() && Quiet()
      modifies this`idx, sq, sq.table, sq.entries, cq`inflight
      ensures Valid() && sq.Drained() && sq.claims == idx == old(idx) + 1
      ensures cq.inflight == map[idx := idx]
      ensures taken == [Sqe(Opcode.Nop, -1, 0, 0, null, idx)]
    {
      SomethingAvailable(sq.n, sq.claims);
      var id := PrepareNop();
      cq.inflight := map[id := id];
      taken := sq.Enter(|cq.inflight|, 1);
      assert |taken| == 1 && taken[0] == Sqe(Opcode.Nop, -1, 0, 0, null, id);
    }

    /** onEntry, with request number `k` in flight. */
    method CallOnEntry(ghost k: nat)
      requires Valid() && (posted == k || posted == k + 1)
      requires cq.inflight.Keys == {k + 1} && cq.head == Wrap(k)
      modifies cq`head, cq`inflight, cq`signalled
      ensures Valid()
      ensures posted == k ==> cq.inflight.Keys == {k + 1} && cq.head == Wrap(k)
      ensures posted == k ==> cq.signalled == old(cq.signalled) + []
      ensures posted == k + 1 ==> cq.inflight.Keys == {} && cq.head == cq.tail
      ensures posted == k + 1 ==> cq.signalled == old(cq.signalled) + [Delivery(k + 1, answers(k).0, answers(k).1)]
    {
      ScanSpec(cq.entries[..], answers, k, posted, cq.head, cq.tail);
      WrapPlus(k, 1);
      WrapPlus(k, 0);
      cq.OnEntry();
    }

    /** onEntry, and the token pushed after it when the request is still waiting. */
    method Scan(ghost k: nat, ghost log: seq<Delivery>)
      requires Valid() && sq.Drained() && sq.claims == idx == k + 1 && (posted == k || posted == k + 1)
      requires tokens == 0 && cq.inflight == map[k + 1 := k + 1] && cq.head == Wrap(k) && cq.signalled == log
      modifies this`tokens, cq`head, cq`inflight, cq`signalled
      ensures Valid() && Waiting(k, log)
    {
      CallOnEntry(k);
      assert posted == k ==> cq.inflight == map[k + 1 := k + 1];
      assert posted == k + 1 ==> cq.inflight == map[];
      if |cq.inflight| > 0 { tokens := tokens + 1; }
    }

    /** Scans until the request has been answered, the kernel completing it before the last of them. */
    method Await(sqe: Sqe, delay: nat, ghost k: nat, ghost log: seq<Delivery>)
      requires Valid() && sq.Drained() && sq.claims == idx == k + 1 && posted == k && sqe.userData == k + 1
      requires tokens == 0 && cq.inflight == map[k + 1 := k + 1] && cq.head == Wrap(k) && cq.signalled == log
      modifies this`tokens, this`posted, cq, cq.entries
      ensures Valid() && Waiting(k, log) && posted == k + 1
    {
      var left := delay;
      if left == 0 { Complete(sqe); }
      Scan(k, log);
      while tokens > 0
        invariant Valid() && Waiting(k, log) && (left == 0 <==> posted == k + 1)
        decreases left
      {
        tokens := tokens - 1;
        left := left - 1;
        if left == 0 { Complete(sqe); }
        Scan(k, log);
      }
    }

    /** Nop, with the kernel completing the request after `delay` scans of the ring. The caller gets the answer to its
        own request, and the ring is quiet again: the chain is one atomic request and answer. (A completion that comes
        in the middle of a scan is the subject of DispatchSerial.) */
    method Nop(delay: nat) returns (res: int, flags: nat)
      requires Valid() && Quiet()
      modifies this, sq, sq.table, sq.entries, cq, cq.entries
      ensures Valid() && Quiet() && idx == old(idx) + 1
      ensures (res, flags) == answers(old(idx))
      ensures cq.signalled == old(cq.signalled) + [Delivery(idx, res, flags)]
    {
      ghost var k, log := idx, cq.signalled;
      var taken := Submit();
      Await(taken[0], delay, k, log);
      var last := cq.signalled[|cq.signalled| - 1];
      res, flags := last.res, last.flags;
    }

    /** Any number of calls, for any delays and past any number of laps: the k-th gets the k-th answer. */
    method NopMany(delays: seq<nat>) returns (results: seq<(int, nat)>)
      requires Valid() && Quiet()
      modifies this, sq, sq.table, sq.entries, cq, cq.entries
      ensures Valid() && Quiet() && idx == old(idx) + |delays| == old(idx) + |results|
      ensures forall k :: 0 <= k < |results| ==> results[k] == answers(old(idx) + k)
    {
      results := [];
      while |results| < |delays|
        invariant Valid() && Quiet() && idx == old(idx) + |results| && |results| <= |delays|
        invariant forall k :: 0 <= k < |results| ==> results[k] == answers(old(idx) + k)
      {
        var res, flags := Nop(delays[|results|]);
        results := results + [(res, flags)];
      }
    }
  }
}
