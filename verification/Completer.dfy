/** completer.run: acknowledged slots arrive in any order, the head moves over contiguous runs. */
module Completer {
  import opened Words

  /** How many consecutive slots from `x` on are in the map. */
  function RunLength(unacked: set<nat>, x: nat): (k: nat)
    decreases |unacked|
  {
    if x in unacked then 1 + RunLength(unacked - {x}, x + 1) else 0
  }

  /** The map after the inner loop has deleted that run. */
  function Rest(unacked: set<nat>, x: nat): (r: set<nat>)
    decreases |unacked|
  {
    if x in unacked then Rest(unacked - {x}, x + 1) else unacked
  }

  /** The run is the longest one, and exactly the run is deleted. */
  lemma {:induction false} RunIsLongest(unacked: set<nat>, x: nat)
    ensures var k := RunLength(unacked, x);
            && (forall y :: x <= y < x + k ==> y in unacked) && x + k !in unacked
            && (forall y :: y in Rest(unacked, x) <==> y in unacked && !(x <= y < x + k))
            && |Rest(unacked, x)| + k == |unacked|
    decreases |unacked|
  {
    if x in unacked {
      RunIsLongest(unacked - {x}, x + 1);
      var k := RunLength(unacked, x);
      forall y | x <= y < x + k ensures y in unacked {
        assert y == x || y in unacked - {x};
      }
    }
  }

  /** A run is determined by where it stops. */
  lemma {:induction false} RunUnique(unacked: set<nat>, x: nat, k: nat)
    requires (forall y :: x <= y < x + k ==> y in unacked) && x + k !in unacked
    ensures RunLength(unacked, x) == k
  {
    RunIsLongest(unacked, x);
    assert x + RunLength(unacked, x) !in unacked;
  }

  lemma RunExactly(unacked: set<nat>, x: nat, k: nat)
    requires (forall y :: x <= y < x + k ==> y in unacked) && x + k !in unacked
    ensures RunLength(unacked, x) == k
    ensures forall y :: y in Rest(unacked, x) <==> y in unacked && !(x <= y < x + k)
  {
    RunUnique(unacked, x, k);
    RunIsLongest(unacked, x);
  }

  /** Head and map, with the head as a logical position. */
  datatype Acks = Acks(head: nat, unacked: set<nat>)

  /** What one ack for slot `x` does. */
  function AckSlot(n: nat, a: Acks, x: nat): Acks
    requires n > 0
  {
    var u, cur := a.unacked + {x}, Slot(a.head, n);
    Acks(a.head + RunLength(u, cur), Rest(u, cur))
  }

  /** The goroutine's map and the head word it shares with the kernel. `position` is the head without
      wrap-around. */
  class AckTracker {
    const n: nat
    var unacked: set<nat>
    var head: u32
    ghost var position: nat

    ghost predicate Valid()
      reads this
    {
      RingSize(n) && head == Wrap(position)
    }

    constructor (n: nat)
      requires RingSize(n)
      ensures Valid() && this.n == n && position == 0 && unacked == {}
    {
      this.n := n;
      head := 0;
      unacked := {};
      position := 0;
    }

    /** One turn of the select loop, for slot `id`. */
    method Handle(id: nat)
      requires Valid()
      modifies this
      ensures Valid()
      ensures Acks(position, unacked) == AckSlot(n, Acks(old(position), old(unacked)), id)
    {
      if id !in unacked { unacked := unacked + {id}; }
      ghost var all := unacked;
      assert all == old(unacked) + {id};
      var curHead, seen := And(head, n - 1), 0;
      while curHead + seen in unacked
        invariant RunLength(all, curHead) == seen + RunLength(unacked, curHead + seen)
        invariant Rest(all, curHead) == Rest(unacked, curHead + seen)
        invariant head == old(head) && position == old(position)
        decreases |unacked|
      {
        unacked := unacked - {curHead + seen};
        seen := seen + 1;
      }
      WordSlot(position, n);
      WrapPlus(position, seen);
      head := AddWord(head, seen);
      position := position + seen;
    }
  }

  // ---------- Any order of arrival ----------

  /** The acks of `order`, one after the other, on a ring whose head is at `head` with nothing pending. */
  function Arrive(n: nat, head: nat, order: seq<nat>): Acks
    requires n > 0
  {
    if order == [] then Acks(head, {})
    else AckSlot(n, Arrive(n, head, order[..|order| - 1]), Slot(order[|order| - 1], n))
  }

  /** The first position from `p` on, up to `t`, that has not arrived. */
  function FirstMissing(order: seq<nat>, p: nat, t: nat): (f: nat)
    requires p <= t
    ensures p <= f <= t
    ensures forall q :: p <= q < f ==> q in order
    ensures f < t ==> f !in order
    decreases t - p
  {
    if p < t && p in order then FirstMissing(order, p + 1, t) else p
  }

  /** The first lap boundary after `head`. */
  function Boundary(n: nat, head: nat): (b: nat)
    requires n > 0
    ensures head < b <= head + n
  {
    head + n - Slot(head, n)
  }

  ghost predicate Distinct(order: seq<nat>) {
    forall i, j :: 0 <= i < j < |order| ==> order[i] != order[j]
  }

  /** Distinct positions of the window `head..t`, which is at most a lap. */
  ghost predicate Window(n: nat, head: nat, t: nat, order: seq<nat>) {
    n > 0 && head <= t <= head + n && Distinct(order) && forall p :: p in order ==> head <= p < t
  }

  /** Where the head stands: at the first missing position, except that it stops at the lap
      boundary when the ack just handled lies before that boundary. */
  function RestingHead(n: nat, head: nat, t: nat, order: seq<nat>): nat
    requires n > 0 && head <= t
  {
    var f, b := FirstMissing(order, head, t), Boundary(n, head);
    if order != [] && order[|order| - 1] >= b then f else if f < b then f else b
  }

  /** Position `p` has arrived, is at or past `head`, and puts slot `x` in the map. */
  predicate Fills(n: nat, t: nat, head: nat, order: seq<nat>, x: nat, p: nat) {
    n > 0 && p in order && head <= p < t && Slot(p, n) == x
  }

  /** The slots of the arrived positions at or past the resting head. */
  ghost predicate Holds(n: nat, t: nat, head: nat, order: seq<nat>, u: set<nat>)
    requires n > 0
  {
    && (forall p :: p in order && p >= head ==> Slot(p, n) in u)
    && (forall x :: x in u ==> exists p: nat :: Fills(n, t, head, order, x, p))
  }

  /** Slots of the first lap of the window, and of the lap after the boundary. */
  lemma LapSlot(n: nat, head: nat, h: nat)
    requires n > 0 && head <= h <= head + n
    ensures h < Boundary(n, head) ==> Slot(h, n) == n - (Boundary(n, head) - h)
    ensures Boundary(n, head) <= h < Boundary(n, head) + n ==> Slot(h, n) == h - Boundary(n, head)
  {
    var b := Boundary(n, head);
    if h < b {
      SlotPlus(head, h - head, n);
    } else {
      SlotPlus(head, b - head, n);
      if h < b + n { SlotPlus(b, h - b, n); }
    }
  }

  lemma LastIsNew(o: seq<nat>, p: nat)
    requires Distinct(o + [p])
    ensures p !in o && Distinct(o)
  {
    var order := o + [p];
    assert order[|o|] == p;
    assert forall i :: 0 <= i < |o| ==> order[i] == o[i];
  }

  /** One more ack moves the resting head over arrived positions only, without crossing a boundary,
      and leaves it before a position that has not arrived unless it stops at the boundary. */
  lemma RestingStep(n: nat, head: nat, t: nat, o: seq<nat>, p: nat)
    requires Window(n, head, t, o + [p])
    ensures var h0, h1 := RestingHead(n, head, t, o), RestingHead(n, head, t, o + [p]);
            && head <= h0 <= h1 <= t && Slot(h0, n) + (h1 - h0) <= n
            && (forall q :: h0 <= q < h1 ==> q in o + [p])
            && (Slot(h0, n) + (h1 - h0) < n ==> h1 !in o + [p])
            && h0 <= p
  {
    var order := o + [p];
    LastIsNew(o, p);
    assert forall q :: q in o ==> q in order;
    assert forall q :: q in order ==> q in o || q == p;
    var b, f0, f1 := Boundary(n, head), FirstMissing(o, head, t), FirstMissing(order, head, t);
    assert o != [] ==> o[|o| - 1] in o;
    var h0, h1 := RestingHead(n, head, t, o), RestingHead(n, head, t, order);
    assert p in order;
    assert f0 <= f1 && f0 <= p;
    LapSlot(n, head, h0);
  }

  lemma HoldsStep(n: nat, head: nat, t: nat, o: seq<nat>, p: nat, h0: nat, h1: nat, u0: set<nat>)
    requires Window(n, head, t, o + [p]) && Holds(n, t, h0, o, u0)
    requires head <= h0 <= h1 <= t && Slot(h0, n) + (h1 - h0) <= n && h0 <= p
    requires forall q :: h0 <= q < h1 ==> q in o + [p]
    requires Slot(h0, n) + (h1 - h0) < n ==> h1 !in o + [p]
    ensures var u := u0 + {Slot(p, n)};
            RunLength(u, Slot(h0, n)) == h1 - h0 && Holds(n, t, h1, o + [p], Rest(u, Slot(h0, n)))
  {
    var order, x, k := o + [p], Slot(h0, n), h1 - h0;
    var u := u0 + {Slot(p, n)};
    assert Holds(n, t, h0, order, u) by {
      assert p in order && forall q :: q in order <==> q in o || q == p;
      assert Fills(n, t, h0, order, Slot(p, n), p);
      forall y | y in u0 ensures exists q: nat :: Fills(n, t, h0, order, y, q) {
        var q: nat :| Fills(n, t, h0, o, y, q);
        assert Fills(n, t, h0, order, y, q);
      }
    }
    RunInWindow(n, head, t, order, h0, h1, u);
  }

  /** The slot after the run is not in the map: within a lap only the position `h1` itself could put it there. */
  lemma RunStops(n: nat, t: nat, order: seq<nat>, h0: nat, h1: nat, u: set<nat>)
    requires n > 0 && h0 <= h1 <= t && Slot(h0, n) + (h1 - h0) <= n && Holds(n, t, h0, order, u)
    requires t <= h0 + n
    requires Slot(h0, n) + (h1 - h0) < n ==> h1 !in order
    ensures Slot(h0, n) + (h1 - h0) !in u
  {
    var y := Slot(h0, n) + (h1 - h0);
    if y in u {
      var q: nat :| Fills(n, t, h0, order, y, q);
      StopSlot(n, h0, h1, q);
    }
  }

  /** A position less than a lap past `h0` in the slot where the run stops is the one after the run. */
  lemma StopSlot(n: nat, h0: nat, h1: nat, q: nat)
    requires n > 0 && h0 <= h1 <= q + n && h0 <= q < h0 + n && Slot(h0, n) + (h1 - h0) <= n
    ensures Slot(q, n) == Slot(h0, n) + (h1 - h0) ==> q == h1 && Slot(h0, n) + (h1 - h0) < n
  {
    SlotPlus(h0, h1 - h0, n);
    if h1 < q + n && q < h1 + n { NearSlots(q, h1, n); }
  }

  lemma NearSlots(p: nat, q: nat, n: nat)
    requires n > 0 && p < q + n && q < p + n
    ensures Slot(p, n) == Slot(q, n) <==> p == q
  {
    if p < q {
      SlotsDistinct(p, q, n);
    } else if q < p {
      SlotsDistinct(q, p, n);
    }
  }

  lemma RunPresent(n: nat, t: nat, order: seq<nat>, h0: nat, h1: nat, u: set<nat>)
    requires n > 0 && h0 <= h1 && Slot(h0, n) + (h1 - h0) <= n && Holds(n, t, h0, order, u)
    requires forall q :: h0 <= q < h1 ==> q in order
    ensures forall y :: Slot(h0, n) <= y < Slot(h0, n) + (h1 - h0) ==> y in u
  {
    var x := Slot(h0, n);
    forall y | x <= y < x + (h1 - h0) ensures y in u {
      SlotPlus(h0, y - x, n);
      assert h0 + (y - x) in order;
    }
  }

  /** A position past the run keeps its slot. */
  lemma PastRun(n: nat, h0: nat, h1: nat, q: nat)
    requires n > 0 && h0 <= h1 <= q < h0 + n && Slot(h0, n) + (h1 - h0) <= n
    ensures !(Slot(h0, n) <= Slot(q, n) < Slot(h0, n) + (h1 - h0))
  {
    var j := Slot(q, n) - Slot(h0, n);
    if 0 <= j < h1 - h0 {
      SlotPlus(h0, j, n);
      SlotsDistinct(h0 + j, q, n);
    }
  }

  lemma RunInWindow(n: nat, head: nat, t: nat, order: seq<nat>, h0: nat, h1: nat, u: set<nat>)
    requires Window(n, head, t, order) && Holds(n, t, h0, order, u)
    requires head <= h0 <= h1 <= t && Slot(h0, n) + (h1 - h0) <= n
    requires forall q :: h0 <= q < h1 ==> q in order
    requires Slot(h0, n) + (h1 - h0) < n ==> h1 !in order
    ensures RunLength(u, Slot(h0, n)) == h1 - h0
    ensures Holds(n, t, h1, order, Rest(u, Slot(h0, n)))
  {
    var x, k := Slot(h0, n), h1 - h0;
    RunPresent(n, t, order, h0, h1, u);
    RunStops(n, t, order, h0, h1, u);
    RunExactly(u, x, k);
    RestHolds(n, t, order, h0, h1, u, Rest(u, x));
  }

  /** A position past `h0` whose slot is not in the run is past the run. */
  lemma OutOfRun(n: nat, h0: nat, h1: nat, q: nat)
    requires n > 0 && h0 <= h1 && h0 <= q && Slot(h0, n) + (h1 - h0) <= n
    requires !(Slot(h0, n) <= Slot(q, n) < Slot(h0, n) + (h1 - h0))
    ensures h1 <= q
  {
    if q < h1 { SlotPlus(h0, q - h0, n); }
  }

  lemma RestHolds(n: nat, t: nat, order: seq<nat>, h0: nat, h1: nat, u: set<nat>, v: set<nat>)
    requires n > 0 && h0 <= h1 <= t <= h0 + n && Slot(h0, n) + (h1 - h0) <= n && Holds(n, t, h0, order, u)
    requires forall p :: p in order ==> p < t
    requires forall y :: y in v <==> y in u && !(Slot(h0, n) <= y < Slot(h0, n) + (h1 - h0))
    ensures Holds(n, t, h1, order, v)
  {
    forall q | q in order && q >= h1 ensures Slot(q, n) in v {
      PastRun(n, h0, h1, q);
    }
    forall y | y in v ensures exists q: nat :: Fills(n, t, h1, order, y, q) {
      var q: nat :| Fills(n, t, h0, order, y, q);
      OutOfRun(n, h0, h1, q);
      assert Fills(n, t, h1, order, y, q);
    }
  }

  /** Any order of arrival, in closed form: head and map depend only on which positions have
      arrived and on whether the last one lies before the lap boundary. */
  lemma {:induction false} ArrivalOrder(n: nat, head: nat, t: nat, order: seq<nat>)
    requires Window(n, head, t, order)
    ensures Arrive(n, head, order).head == RestingHead(n, head, t, order)
    ensures Holds(n, t, RestingHead(n, head, t, order), order, Arrive(n, head, order).unacked)
  {
    if order != [] {
      var o, p := order[..|order| - 1], order[|order| - 1];
      assert order == o + [p];
      assert forall q :: q in o ==> q in order;
      ArrivalOrder(n, head, t, o);
      RestingStep(n, head, t, o, p);
      var h0, h1 := RestingHead(n, head, t, o), RestingHead(n, head, t, order);
      LastIsNew(o, p);
      HoldsStep(n, head, t, o, p, h0, h1, Arrive(n, head, o).unacked);
    }
  }

  /** Once every position of the window has arrived, the head has reached the tail if and only if the
      window ends by the lap boundary or the last ack to arrive was for the new lap. */
  lemma HeadCatchesUp(n: nat, head: nat, t: nat, order: seq<nat>)
    requires Window(n, head, t, order) && head < t && order != []
    requires forall p :: head <= p < t ==> p in order
    ensures Arrive(n, head, order).head == t
            <==> t <= Boundary(n, head) || order[|order| - 1] >= Boundary(n, head)
    ensures Arrive(n, head, order).head == t || Arrive(n, head, order).head == Boundary(n, head)
  {
    ArrivalOrder(n, head, t, order);
    assert FirstMissing(order, head, t) == t;
    assert head in order;
  }

  /** For a window that ends by the lap boundary, the same acks in any two orders end in
      the same head and the same pending slots. */
  lemma OrderIndependence(n: nat, head: nat, t: nat, a: seq<nat>, b: seq<nat>)
    requires Window(n, head, t, a) && Window(n, head, t, b) && t <= Boundary(n, head)
    requires forall p :: p in a <==> p in b
    ensures Arrive(n, head, a) == Arrive(n, head, b)
  {
    ArrivalOrder(n, head, t, a);
    ArrivalOrder(n, head, t, b);
    SameHolds(n, head, t, a, b);
  }

  lemma SameHolds(n: nat, head: nat, t: nat, a: seq<nat>, b: seq<nat>)
    requires Window(n, head, t, a) && Window(n, head, t, b) && t <= Boundary(n, head)
    requires forall p :: p in a <==> p in b
    ensures RestingHead(n, head, t, a) == RestingHead(n, head, t, b)
    ensures forall h, u, v :: Holds(n, t, h, a, u) && Holds(n, t, h, b, v) ==> u == v
  {
    var f, g := FirstMissing(a, head, t), FirstMissing(b, head, t);
    assert f == g by {
      assert f < g ==> f in b;
      assert g < f ==> g in a;
    }
    assert a != [] ==> a[|a| - 1] in a;
    assert b != [] ==> b[|b| - 1] in b;
    forall h, u, v | Holds(n, t, h, a, u) && Holds(n, t, h, b, v) ensures u == v {
      assert forall x :: x in u <==> x in v;
    }
  }

  /** Across a lap boundary the order matters, on every ring: the last position of a lap and the first of the
      next leave the head one apart. */
  lemma OrderMatters(n: nat)
    requires n >= 2
    ensures Arrive(n, n - 1, [n - 1, n]).head == n + 1
    ensures Arrive(n, n - 1, [n, n - 1]).head == n
  {
    HeadCatchesUp(n, n - 1, n + 1, [n - 1, n]);
    HeadCatchesUp(n, n - 1, n + 1, [n, n - 1]);
  }
}
