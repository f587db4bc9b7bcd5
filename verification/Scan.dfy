/** One pass of the two-segment search that ringFIO.getCqe and Ring.getCqe make over the
    completion ring, and what it finds. */
module Scan {
  import opened Words
  import opened Window

  /** The first slot in `lo..hi` whose entry carries `id`, or -1. */
  function Hit(entries: seq<Cqe>, lo: nat, hi: nat, id: nat): (x: int)
    requires lo <= hi <= |entries|
    ensures x == -1 || (lo <= x < hi && entries[x].userData == id)
    decreases hi - lo
  {
    if lo == hi then -1
    else if entries[lo].userData == id then lo
    else Hit(entries, lo + 1, hi, id)
  }

  /** The slot one pass settles on, or -1 when it starts over: slots from `from` through `end`,
      or, when `end` is behind, to the ring end and then the slots before `end2`. */
  function PassHit(entries: seq<Cqe>, from: nat, end: nat, end2: nat, id: nat): (x: int)
    requires from < |entries| && end < |entries| && end2 <= |entries|
  {
    if from <= end then Hit(entries, from, end + 1, id)
    else
      var x := Hit(entries, from, |entries|, id);
      if x >= 0 then x else Hit(entries, 0, end2, id)
  }

  /** One pass, as both loops run it. `tail2` is the second load of the tail. */
  method Pass(entries: array<Cqe>, head: u32, tail: u32, tail2: u32, id: nat) returns (found: int)
    requires RingSize(entries.Length)
    ensures found == PassHit(entries[..], And(head, entries.Length - 1), And(tail, entries.Length - 1),
                             And(tail2, entries.Length - 1), id)
  {
    var mask := entries.Length - 1;
    var start, end := And(head, mask), And(tail, mask);
    var x := start;
    while x < entries.Length
      invariant start <= x <= entries.Length
      invariant end < start || x <= end + 1
      invariant start <= end ==> x <= end && Hit(entries[..], start, end + 1, id) == Hit(entries[..], x, end + 1, id)
      invariant end < start ==>
        Hit(entries[..], start, entries.Length, id) == Hit(entries[..], x, entries.Length, id)
    {
      if entries[x].userData == id { return x; }
      if x == end { return -1; }
      x := x + 1;
    }
    end := And(tail2, mask);
    x := 0;
    while x < end
      invariant 0 <= x <= end
      invariant Hit(entries[..], 0, end, id) == Hit(entries[..], x, end, id)
    {
      if entries[x].userData == id { return x; }
      x := x + 1;
    }
    return -1;
  }

  lemma {:induction false} HitUnique(entries: seq<Cqe>, lo: nat, hi: nat, id: nat, y: nat)
    requires lo <= hi <= |entries| && y < |entries|
    requires forall x :: 0 <= x < |entries| ==> (entries[x].userData == id <==> x == y)
    ensures Hit(entries, lo, hi, id) == if lo <= y < hi then y else -1
    decreases hi - lo
  {
    if lo < hi && lo != y { HitUnique(entries, lo + 1, hi, id, y); }
  }

  lemma {:induction false} HitNone(entries: seq<Cqe>, lo: nat, hi: nat, id: nat)
    requires lo <= hi <= |entries|
    ensures Hit(entries, lo, hi, id) == -1 <==> forall x :: lo <= x < hi ==> entries[x].userData != id
    decreases hi - lo
  {
    if lo < hi { HitNone(entries, lo + 1, hi, id); }
  }

  /** The slot `k` positions on, for less than a lap. */
  lemma SlotWalk(p: nat, k: nat, n: nat)
    requires n > 0 && k < n
    ensures Slot(p + k, n) == if Slot(p, n) + k < n then Slot(p, n) + k else Slot(p, n) + k - n
  {
    if Slot(p, n) + k < n {
      SlotPlus(p, k, n);
    } else {
      var j := n - Slot(p, n);
      SlotPlus(p, j, n);
      SlotPlus(p + j, k - j, n);
    }
  }

  /** In a ring whose posts carry distinct non-zero ids, a posted id still in memory sits in one slot only. */
  lemma OneSlotPerId(entries: seq<Cqe>, posted: seq<Cqe>, p: nat)
    requires Image(entries, posted) && UniqueIds(posted)
    requires p < |posted| <= p + |entries| && posted[p].userData > 0
    ensures forall x :: 0 <= x < |entries| ==>
              (entries[x].userData == posted[p].userData <==> x == Slot(p, |entries|))
  {
    ImageWindow(entries, posted, p);
    forall x | 0 <= x < |entries| && entries[x].userData == posted[p].userData
      ensures x == Slot(p, |entries|)
    {
      assert entries[x] == Content(posted, |entries|, x);
    }
  }

  /** The slots one pass looks at from the masked head `h`, when the masked tail was `e` at its first load and `e2` at
      its second. */
  predicate Visited(n: nat, h: nat, e: nat, e2: nat, x: nat) {
    x < n && if h <= e then h <= x <= e else h <= x || x < e2
  }

  lemma PassUnique(entries: seq<Cqe>, h: nat, e: nat, e2: nat, id: nat, y: nat)
    requires h < |entries| && e < |entries| && e2 <= |entries| && y < |entries|
    requires forall x :: 0 <= x < |entries| ==> (entries[x].userData == id <==> x == y)
    ensures PassHit(entries, h, e, e2, id) == if Visited(|entries|, h, e, e2, y) then y else -1
  {
    HitUnique(entries, h, |entries|, id, y);
    HitUnique(entries, 0, e2, id, y);
    if h <= e { HitUnique(entries, h, e + 1, id, y); }
  }

  /** A pass settles on a slot exactly when some slot it looks at carries the id. */
  lemma PassHits(entries: seq<Cqe>, h: nat, e: nat, e2: nat, id: nat)
    requires h < |entries| && e < |entries| && e2 <= |entries|
    ensures PassHit(entries, h, e, e2, id) >= 0
            <==> exists x: nat :: Visited(|entries|, h, e, e2, x) && entries[x].userData == id
  {
    var n := |entries|;
    HitNone(entries, h, n, id);
    HitNone(entries, 0, e2, id);
    if h <= e { HitNone(entries, h, e + 1, id); }
    var x := PassHit(entries, h, e, e2, id);
    assert x >= 0 ==> Visited(n, h, e, e2, x) && entries[x].userData == id;
  }

  lemma {:induction false} HitFirst(entries: seq<Cqe>, lo: nat, hi: nat, id: nat, y: nat)
    requires lo <= hi <= |entries| && lo <= y < Hit(entries, lo, hi, id)
    ensures entries[y].userData != id
    decreases hi - lo
  {
    if lo < y { HitFirst(entries, lo + 1, hi, id, y); }
  }

  /** It is the first such slot in the order of the two loops. */
  lemma {:induction false} PassFirst(entries: seq<Cqe>, h: nat, e: nat, e2: nat, id: nat, y: nat)
    requires h < |entries| && e < |entries| && e2 <= |entries| && Visited(|entries|, h, e, e2, y)
    requires var x := PassHit(entries, h, e, e2, id); 0 <= x && if h <= x then h <= y < x else h <= y || y < x
    ensures entries[y].userData != id
  {
    var x, n := PassHit(entries, h, e, e2, id), |entries|;
    HitNone(entries, h, n, id);
    if h <= e {
      HitFirst(entries, h, e + 1, id, y);
    } else if h <= x && Hit(entries, h, n, id) >= 0 {
      HitFirst(entries, h, n, id, y);
    } else if y < h {
      HitFirst(entries, 0, e2, id, y);
    }
  }

  /** The positions one pass looks at when `t` CQEs had been posted at its first load of the tail and `t2` at its
      second: everything posted before the second load if the first tail lies in the next lap; up to and including the
      first tail if it does not; only the head if the window was full. */
  predicate LooksAt(n: nat, head: nat, t: nat, t2: nat, q: nat)
    requires n > 0
  {
    && head <= q < t2
    && (Slot(t, n) < Slot(head, n) || q == head || (t < head + n && q <= t))
  }

  /** Which slots of the window `head..t2` a pass visits. */
  lemma {:induction false} WindowSlots(n: nat, head: nat, t: nat, t2: nat, q: nat)
    requires n > 0 && head <= t <= t2 <= head + n && head <= q < t2
    ensures Visited(n, Slot(head, n), Slot(t, n), Slot(t2, n), Slot(q, n)) <==> LooksAt(n, head, t, t2, q)
  {
    SlotWalk(head, q - head, n);
    assert Slot(head + n, n) == Slot(head, n);
    if t < head + n { SlotWalk(head, t - head, n); }
    if t2 < head + n { SlotWalk(head, t2 - head, n); }
  }

  /** A slot visited belongs to a position of the window, or is that of a tail nothing has been posted to. */
  lemma {:induction false} VisitedInWindow(n: nat, head: nat, t: nat, t2: nat, x: nat)
    requires n > 0 && head <= t <= t2 <= head + n
    requires Visited(n, Slot(head, n), Slot(t, n), Slot(t2, n), x)
    ensures var q := head + if Slot(head, n) <= x then x - Slot(head, n) else x + n - Slot(head, n);
            && Slot(q, n) == x
            && (q < t2 || (t == t2 == q && t < head + n && Slot(head, n) <= x))
  {
    var k := if Slot(head, n) <= x then x - Slot(head, n) else x + n - Slot(head, n);
    SlotWalk(head, k, n);
    assert Slot(head + n, n) == Slot(head, n);
    if t < head + n { SlotWalk(head, t - head, n); }
    if t2 < head + n { SlotWalk(head, t2 - head, n); }
  }

  /** The slot of the tail is looked at before anything has been posted to it, and still holds the id from a lap ago. */
  predicate Stale(entries: seq<Cqe>, head: nat, t: nat, t2: nat, id: nat)
    requires |entries| > 0
  {
    var n := |entries|;
    t == t2 < head + n && Slot(head, n) <= Slot(t, n) && entries[Slot(t, n)].userData == id
  }

  /** Some position the pass looks at carries the id. */
  ghost predicate Carried(n: nat, posted: seq<Cqe>, head: nat, t: nat, id: nat)
    requires n > 0
  {
    exists q: nat :: LooksAt(n, head, t, |posted|, q) && posted[q].userData == id
  }

  /** A pass that loaded the tail when `t` CQEs had been posted, and again when `posted` had: it settles on a slot if
      and only if a position it looks at carries the id, or the slot of the tail does from a lap ago. */
  lemma {:induction false} PassExactly(entries: seq<Cqe>, posted: seq<Cqe>, head: nat, t: nat, id: nat)
    requires RingSize(|entries|) && Image(entries, posted) && head <= t <= |posted| <= head + |entries|
    ensures var mask := |entries| - 1;
            PassHit(entries, And(Wrap(head), mask), And(Wrap(t), mask), And(Wrap(|posted|), mask), id) >= 0
            <==> Carried(|entries|, posted, head, t, id) || Stale(entries, head, t, |posted|, id)
  {
    var n, t2 := |entries|, |posted|;
    assert And(Wrap(head), n - 1) == Slot(head, n) by { WordSlot(head, n); }
    assert And(Wrap(t), n - 1) == Slot(t, n) by { WordSlot(t, n); }
    assert And(Wrap(t2), n - 1) == Slot(t2, n) by { WordSlot(t2, n); }
    PassHits(entries, Slot(head, n), Slot(t, n), Slot(t2, n), id);
    if x: nat :| Visited(n, Slot(head, n), Slot(t, n), Slot(t2, n), x) && entries[x].userData == id {
      VisitedCarries(entries, posted, head, t, id, x);
    }
    if Carried(n, posted, head, t, id) || Stale(entries, head, t, t2, id) {
      var x := CarriedVisited(entries, posted, head, t, id);
      assert Visited(n, Slot(head, n), Slot(t, n), Slot(t2, n), x) && entries[x].userData == id;
    }
  }

  lemma {:induction false} CarriedVisited(entries: seq<Cqe>, posted: seq<Cqe>, head: nat, t: nat, id: nat)
    returns (x: nat)
    requires |entries| > 0 && Image(entries, posted) && head <= t <= |posted| <= head + |entries|
    requires Carried(|entries|, posted, head, t, id) || Stale(entries, head, t, |posted|, id)
    ensures var n := |entries|; Visited(n, Slot(head, n), Slot(t, n), Slot(|posted|, n), x)
    ensures entries[x].userData == id
  {
    var n, t2 := |entries|, |posted|;
    if Carried(n, posted, head, t, id) {
      var q: nat :| LooksAt(n, head, t, t2, q) && posted[q].userData == id;
      WindowSlots(n, head, t, t2, q);
      ImageWindow(entries, posted, q);
      x := Slot(q, n);
    } else {
      x := Slot(t, n);
    }
  }

  lemma {:induction false} VisitedCarries(entries: seq<Cqe>, posted: seq<Cqe>, head: nat, t: nat, id: nat, x: nat)
    requires |entries| > 0 && Image(entries, posted) && head <= t <= |posted| <= head + |entries|
    requires var n := |entries|; Visited(n, Slot(head, n), Slot(t, n), Slot(|posted|, n), x)
    requires entries[x].userData == id
    ensures Carried(|entries|, posted, head, t, id) || Stale(entries, head, t, |posted|, id)
  {
    var n, t2 := |entries|, |posted|;
    VisitedInWindow(n, head, t, t2, x);
    var q := head + if Slot(head, n) <= x then x - Slot(head, n) else x + n - Slot(head, n);
    if q < t2 {
      WindowSlots(n, head, t, t2, q);
      ImageWindow(entries, posted, q);
      assert LooksAt(n, head, t, t2, q) && posted[q].userData == id;
    }
  }

  /** Even when an id has been posted more than once: with the tail unchanged, a pass for the id of a CQE in the window
      starts over exactly when the window is full and its head carries another id. */
  lemma {:induction false} PassFindsId(entries: seq<Cqe>, posted: seq<Cqe>, head: nat, p: nat)
    requires RingSize(|entries|) && Image(entries, posted)
    requires head <= p < |posted| <= head + |entries|
    ensures var mask := |entries| - 1; var end := And(Wrap(|posted|), mask);
            PassHit(entries, And(Wrap(head), mask), end, end, posted[p].userData) >= 0
            <==> (|posted| - head < |entries| || posted[head].userData == posted[p].userData)
  {
    var n, t, id := |entries|, |posted|, posted[p].userData;
    PassExactly(entries, posted, head, t, id);
    assert t == head + n ==> Slot(t, n) == Slot(head, n);
    assert LooksAt(n, head, t, t, head);
    assert t < head + n ==> LooksAt(n, head, t, t, p);
  }

  /** The circular scan against linear search over the window, for ids posted once: a pass that loaded the tail when `t`
      CQEs had been posted, and again when `posted` had, settles on the slot of the CQE at `p` if and only if it looks
      at that position. */
  lemma {:induction false} PassSettles(entries: seq<Cqe>, posted: seq<Cqe>, head: nat, t: nat, p: nat)
    requires RingSize(|entries|) && Image(entries, posted) && UniqueIds(posted)
    requires head <= t <= |posted| <= head + |entries| && head <= p < |posted| && posted[p].userData > 0
    ensures var mask := |entries| - 1;
            PassHit(entries, And(Wrap(head), mask), And(Wrap(t), mask), And(Wrap(|posted|), mask), posted[p].userData)
            == if LooksAt(|entries|, head, t, |posted|, p) then Slot(p, |entries|) else -1
  {
    var n, t2, id := |entries|, |posted|, posted[p].userData;
    WordSlot(head, n);
    WordSlot(t, n);
    WordSlot(t2, n);
    OneSlotPerId(entries, posted, p);
    PassUnique(entries, Slot(head, n), Slot(t, n), Slot(t2, n), id, Slot(p, n));
    WindowSlots(n, head, t, t2, p);
  }

  /** With the tail unchanged it finds the CQE at `p` exactly when the window is not full or `p` is the head itself. On
      a full window `head & mask == tail & mask`, so the first loop looks at one slot and starts over. */
  lemma {:induction false} PassFinds(entries: seq<Cqe>, posted: seq<Cqe>, head: nat, p: nat)
    requires RingSize(|entries|) && Image(entries, posted) && UniqueIds(posted)
    requires head <= p < |posted| <= head + |entries| && posted[p].userData > 0
    ensures var mask := |entries| - 1; var end := And(Wrap(|posted|), mask);
            PassHit(entries, And(Wrap(head), mask), end, end, posted[p].userData)
            == if |posted| - head < |entries| || p == head then Slot(p, |entries|) else -1
  {
    var n, t := |entries|, |posted|;
    PassSettles(entries, posted, head, t, p);
    assert t == head + n ==> Slot(t, n) == Slot(head, n);
  }

  /** Ids outside the window are not found on a non-full window, not even through the extra slot
      at `tail & mask`, unless that slot still holds them from a lap ago. */
  lemma {:induction false} PassMisses(entries: seq<Cqe>, posted: seq<Cqe>, head: nat, id: nat)
    requires RingSize(|entries|) && Image(entries, posted)
    requires head <= |posted| < head + |entries| && id > 0
    requires forall p :: head <= p < |posted| ==> posted[p].userData != id
    ensures var mask := |entries| - 1; var end := And(Wrap(|posted|), mask);
            PassHit(entries, And(Wrap(head), mask), end, end, id)
            == if And(Wrap(head), mask) <= end && entries[end].userData == id then end else -1
  {
    var n, t := |entries|, |posted|;
    var h, e := Slot(head, n), Slot(t, n);
    assert And(Wrap(head), n - 1) == h by { WordSlot(head, n); }
    assert And(Wrap(t), n - 1) == e by { WordSlot(t, n); }
    forall x: nat | Visited(n, h, e, e, x) && x != e ensures entries[x].userData != id {
      VisitedInWindow(n, head, t, t, x);
      ImageWindow(entries, posted, head + (if h <= x then x - h else x + n - h));
    }
    PassTailOnly(entries, h, e, id);
  }

  /** A pass that meets the id nowhere before the tail slot. */
  lemma {:induction false} PassTailOnly(entries: seq<Cqe>, h: nat, e: nat, id: nat)
    requires h < |entries| && e < |entries|
    requires forall x: nat :: Visited(|entries|, h, e, e, x) && x != e ==> entries[x].userData != id
    ensures PassHit(entries, h, e, e, id) == if h <= e && entries[e].userData == id then e else -1
  {
    var n := |entries|;
    if h <= e {
      assert forall x :: h <= x < e ==> Visited(n, h, e, e, x);
      HitNone(entries, h, e, id);
      HitSplit(entries, h, e, id);
    } else {
      assert forall x :: h <= x < n || 0 <= x < e ==> Visited(n, h, e, e, x);
      HitNone(entries, h, n, id);
      HitNone(entries, 0, e, id);
    }
  }

  lemma {:induction false} HitSplit(entries: seq<Cqe>, lo: nat, hi: nat, id: nat)
    requires lo <= hi < |entries|
    ensures Hit(entries, lo, hi, id) == -1 ==>
              Hit(entries, lo, hi + 1, id) == if entries[hi].userData == id then hi else -1
    decreases hi - lo
  {
    if lo < hi && entries[lo].userData != id { HitSplit(entries, lo + 1, hi, id); }
  }
}
