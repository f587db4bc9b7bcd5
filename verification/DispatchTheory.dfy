/** What one onEntry call delivers, and how far it moves the head. */
module DispatchTheory {
  import opened Words
  import opened Window
  import opened Scan
  import opened Completer
  import opened Dispatch

  // ---------- Stretches ----------

  /** A sweep takes exactly the waiting ids it comes across. */
  lemma {:induction false} SweepWaiting(entries: seq<Cqe>, lo: nat, hi: nat, waiting: set<nat>)
    requires lo <= hi <= |entries|
    ensures forall id :: id in Sweep(entries, lo, hi, waiting).waiting
              <==> id in waiting && forall i :: lo <= i < hi ==> entries[i].userData != id
    decreases hi - lo
  {
    if lo < hi { SweepWaiting(entries, lo + 1, hi, waiting - {entries[lo].userData}); }
    if lo < hi && entries[lo].userData !in waiting { assert waiting - {entries[lo].userData} == waiting; }
  }

  /** Some entry of the ring has this id, result and flags. */
  ghost predicate Sent(entries: seq<Cqe>, d: Delivery) {
    Cqe(d.id, d.res, d.flags) in entries
  }

  ghost predicate DeliveredTo(out: seq<Delivery>, id: nat) {
    exists k :: 0 <= k < |out| && out[k].id == id
  }

  /** Every delivery carries the result and flags of an entry with its id, no id gets two, and the ids that
      get one are exactly those taken off the waiting set. */
  lemma {:induction false} SweepOut(entries: seq<Cqe>, lo: nat, hi: nat, waiting: set<nat>)
    requires lo <= hi <= |entries|
    ensures var r := Sweep(entries, lo, hi, waiting);
            && r.waiting <= waiting
            && (forall k :: 0 <= k < |r.out| ==> Sent(entries, r.out[k]))
            && (forall j, k :: 0 <= j < k < |r.out| ==> r.out[j].id != r.out[k].id)
            && (forall id :: DeliveredTo(r.out, id) <==> id in waiting && id !in r.waiting)
    decreases hi - lo
  {
    if lo < hi {
      var c := entries[lo];
      var w := waiting - {c.userData};
      SweepOut(entries, lo + 1, hi, w);
      var r' := Sweep(entries, lo + 1, hi, w);
      if c.userData in waiting {
        var d := Delivery(c.userData, c.res, c.flags);
        assert c == Cqe(d.id, d.res, d.flags);
        DeliveredFirst(d, r'.out);
        assert forall k :: 0 <= k < |r'.out| ==> DeliveredTo(r'.out, r'.out[k].id);
      } else {
        assert w == waiting;
      }
    }
  }

  lemma DeliveredFirst(d: Delivery, out: seq<Delivery>)
    ensures forall id :: DeliveredTo([d] + out, id) <==> id == d.id || DeliveredTo(out, id)
  {
    var all := [d] + out;
    assert all[0] == d;
    assert forall k :: 0 <= k < |out| ==> all[k + 1] == out[k];
    assert forall k :: 0 < k < |all| ==> all[k] == out[k - 1];
  }

  /** The ids in a stretch are distinct, apart from the zeros of slots never posted. */
  ghost predicate DistinctIds(entries: seq<Cqe>, lo: nat, hi: nat) {
    hi <= |entries| && forall i, j :: lo <= i < j < hi && entries[i].userData == entries[j].userData ==>
                         entries[i].userData == 0
  }

  /** The run of a sweep is the longest run of waiting ids at its start. */
  lemma {:induction false} SweepRun(entries: seq<Cqe>, lo: nat, hi: nat, waiting: set<nat>)
    requires lo <= hi && DistinctIds(entries, lo, hi) && 0 !in waiting
    ensures var k := Sweep(entries, lo, hi, waiting).run;
            && lo + k <= hi && (forall i :: lo <= i < lo + k ==> entries[i].userData in waiting)
            && (lo + k < hi ==> entries[lo + k].userData !in waiting)
    decreases hi - lo
  {
    if lo < hi && entries[lo].userData in waiting {
      SweepRun(entries, lo + 1, hi, waiting - {entries[lo].userData});
    }
  }

  // ---------- The window ----------

  lemma RingIsDistinct(entries: seq<Cqe>, posted: seq<Cqe>, lo: nat, hi: nat)
    requires Image(entries, posted) && UniqueIds(posted) && hi <= |entries|
    ensures DistinctIds(entries, lo, hi)
  {
    forall i, j | lo <= i < j < hi && entries[i].userData == entries[j].userData ensures entries[i].userData == 0 {
      assert entries[i] == Content(posted, |entries|, i) && entries[j] == Content(posted, |entries|, j);
    }
  }

  /** The ids an onEntry call leaves waiting: those of no slot it visits. */
  lemma EntryWaiting(entries: seq<Cqe>, h: nat, e: nat, waiting: set<nat>)
    requires h < |entries| && e < |entries|
    ensures forall id :: id in Entry(entries, h, e, waiting).waiting <==>
              && id in waiting
              && forall x: nat :: Visited(|entries|, h, e, e, x) ==> entries[x].userData != id
  {
    if h <= e {
      SweepWaiting(entries, h, e + 1, waiting);
    } else {
      SweepWaiting(entries, h, |entries|, waiting);
      SweepWaiting(entries, 0, e, Sweep(entries, h, |entries|, waiting).waiting);
    }
  }

  /** A waiting id with a CQE in the window is delivered by the call if and only if the window is not full or the CQE at
      its head carries that id, even when ids have been posted more than once. */
  lemma {:induction false} EntryDelivers(entries: seq<Cqe>, posted: seq<Cqe>, head: nat, p: nat, waiting: set<nat>)
    requires RingSize(|entries|) && Image(entries, posted)
    requires head <= p < |posted| <= head + |entries| && posted[p].userData in waiting
    ensures var mask := |entries| - 1;
            posted[p].userData !in Entry(entries, And(Wrap(head), mask), And(Wrap(|posted|), mask), waiting).waiting
            <==> |posted| - head < |entries| || posted[head].userData == posted[p].userData
  {
    var n, t := |entries|, |posted|;
    WordSlot(head, n);
    WordSlot(t, n);
    EntryWaiting(entries, Slot(head, n), Slot(t, n), waiting);
    WindowSlots(n, head, t, t, p);
    ImageWindow(entries, posted, p);
    ImageWindow(entries, posted, head);
    assert t == head + n ==> Slot(t, n) == Slot(head, n);
    assert Visited(n, Slot(head, n), Slot(t, n), Slot(t, n), Slot(head, n));
  }

  /** Every delivery of a call carries the result and flags of the CQE with that id, and no id gets two. */
  lemma EntryOut(entries: seq<Cqe>, h: nat, e: nat, waiting: set<nat>)
    requires h < |entries| && e < |entries|
    ensures var r := Entry(entries, h, e, waiting);
            && r.waiting <= waiting
            && (forall k :: 0 <= k < |r.out| ==> Sent(entries, r.out[k]))
            && (forall j, k :: 0 <= j < k < |r.out| ==> r.out[j].id != r.out[k].id)
            && (forall id :: DeliveredTo(r.out, id) <==> id in waiting && id !in r.waiting)
  {
    if h <= e {
      SweepOut(entries, h, e + 1, waiting);
    } else {
      var a := Sweep(entries, h, |entries|, waiting);
      SweepOut(entries, h, |entries|, waiting);
      SweepOut(entries, 0, e, a.waiting);
      JoinOut(a.out, Sweep(entries, 0, e, a.waiting).out);
    }
  }

  lemma JoinOut(a: seq<Delivery>, b: seq<Delivery>)
    ensures forall id :: DeliveredTo(a + b, id) <==> DeliveredTo(a, id) || DeliveredTo(b, id)
    ensures forall k :: 0 <= k < |a| ==> DeliveredTo(a, a[k].id)
    ensures forall k :: 0 <= k < |b| ==> DeliveredTo(b, b[k].id)
  {
    var all := a + b;
    assert forall k :: 0 <= k < |a| ==> all[k] == a[k];
    assert forall k :: 0 <= k < |b| ==> all[|a| + k] == b[k];
    assert forall k :: |a| <= k < |all| ==> all[k] == b[k - |a|];
  }

  // ---------- The head ----------

  /** The length of the longest run of waiting ids at positions from `p` on, below `t`. */
  function WaitingRun(posted: seq<Cqe>, p: nat, t: nat, waiting: set<nat>): (k: nat)
    requires p <= t <= |posted|
    ensures p + k <= t && (forall q :: p <= q < p + k ==> posted[q].userData in waiting)
    ensures p + k < t ==> posted[p + k].userData !in waiting
    decreases t - p
  {
    if p < t && posted[p].userData in waiting then 1 + WaitingRun(posted, p + 1, t, waiting) else 0
  }

  /** A sweep over slots that hold the positions `p`, `p + 1`, ... runs as far as the waiting ids do. */
  lemma SweepIsRun(entries: seq<Cqe>, posted: seq<Cqe>, p: nat, lo: nat, hi: nat, waiting: set<nat>)
    requires lo <= hi && DistinctIds(entries, lo, hi) && 0 !in waiting && p + (hi - lo) <= |posted|
    requires entries[lo..hi] == posted[p..p + (hi - lo)]
    ensures Sweep(entries, lo, hi, waiting).run == WaitingRun(posted, p, p + (hi - lo), waiting)
  {
    SweepRun(entries, lo, hi, waiting);
    var j, k := Sweep(entries, lo, hi, waiting).run, WaitingRun(posted, p, p + (hi - lo), waiting);
    if j < hi - lo { assert entries[lo..hi][j] == posted[p..p + (hi - lo)][j]; }
    if k < hi - lo { assert entries[lo..hi][k] == posted[p..p + (hi - lo)][k]; }
  }

  /** The slots `lo..hi` hold the posts from position `p` on, as far as they lie within the lap and the window. */
  lemma WindowSlice(entries: seq<Cqe>, posted: seq<Cqe>, p: nat, lo: nat, hi: nat)
    requires Image(entries, posted) && lo <= hi <= |entries| && lo == Slot(p, |entries|)
    requires p + (hi - lo) <= |posted| <= p + |entries|
    ensures entries[lo..hi] == posted[p..p + (hi - lo)]
  {
    var n := |entries|;
    var a, b := entries[lo..hi], posted[p..p + (hi - lo)];
    forall k | 0 <= k < hi - lo ensures a[k] == b[k] {
      SlotPlus(p, k, n);
      ImageWindow(entries, posted, p + k);
    }
  }

  lemma SweepTailSlot(entries: seq<Cqe>, lo: nat, hi: nat, waiting: set<nat>)
    requires lo <= hi < |entries| && DistinctIds(entries, lo, hi + 1)
    requires 0 !in waiting && entries[hi].userData !in waiting
    ensures Sweep(entries, lo, hi + 1, waiting).run == Sweep(entries, lo, hi, waiting).run
  {
    SweepRun(entries, lo, hi, waiting);
    SweepRun(entries, lo, hi + 1, waiting);
  }

  lemma {:induction false} SameRun(posted: seq<Cqe>, p: nat, t: nat, w: set<nat>, w': set<nat>)
    requires p <= t <= |posted| && forall q :: p <= q < t ==> (posted[q].userData in w <==> posted[q].userData in w')
    ensures WaitingRun(posted, p, t, w) == WaitingRun(posted, p, t, w')
    decreases t - p
  {
    if p < t { SameRun(posted, p + 1, t, w, w'); }
  }

  lemma SlotsOfLap(entries: seq<Cqe>, posted: seq<Cqe>, p: nat, lo: nat, hi: nat, q: nat)
    requires UniqueIds(posted) && lo <= hi <= |entries| && p + (hi - lo) <= q < |posted|
    requires entries[lo..hi] == posted[p..p + (hi - lo)]
    ensures forall i :: lo <= i < hi ==> entries[i].userData != posted[q].userData
  {
    forall i | lo <= i < hi ensures entries[i].userData != posted[q].userData {
      assert entries[lo..hi][i - lo] == posted[p..p + (hi - lo)][i - lo];
    }
  }

  /** The first loop takes no id of the new lap. */
  lemma StillWaiting(entries: seq<Cqe>, posted: seq<Cqe>, head: nat, waiting: set<nat>)
    requires Image(entries, posted) && UniqueIds(posted)
    requires head <= Boundary(|entries|, head) <= |posted| <= head + |entries|
    ensures var n, t, b := |entries|, |posted|, Boundary(|entries|, head);
            WaitingRun(posted, b, t, Sweep(entries, Slot(head, n), n, waiting).waiting)
            == WaitingRun(posted, b, t, waiting)
  {
    var n, t, b := |entries|, |posted|, Boundary(|entries|, head);
    var h := Slot(head, n);
    var w := Sweep(entries, h, n, waiting).waiting;
    SweepWaiting(entries, h, n, waiting);
    WindowSlice(entries, posted, head, h, n);
    forall q | b <= q < t ensures posted[q].userData in waiting <==> posted[q].userData in w {
      SlotsOfLap(entries, posted, head, h, n, q);
    }
    SameRun(posted, b, t, w, waiting);
  }

  /** The window ends before the lap boundary: one loop, which also looks at the tail slot. */
  lemma {:induction false} EntryRunShort(entries: seq<Cqe>, posted: seq<Cqe>, head: nat, waiting: set<nat>)
    requires Image(entries, posted) && UniqueIds(posted) && 0 !in waiting
    requires head <= |posted| < Boundary(|entries|, head)
    requires entries[Slot(|posted|, |entries|)].userData !in waiting
    ensures var n, t := |entries|, |posted|;
            Entry(entries, Slot(head, n), Slot(t, n), waiting).run == WaitingRun(posted, head, t, waiting)
  {
    var n, t := |entries|, |posted|;
    SlotPlus(head, t - head, n);
    ShortRun(entries, posted, head, Slot(head, n), Slot(t, n), waiting);
  }

  lemma {:induction false} ShortRun(entries: seq<Cqe>, posted: seq<Cqe>, head: nat, h: nat, e: nat, waiting: set<nat>)
    requires Image(entries, posted) && UniqueIds(posted) && 0 !in waiting
    requires h <= e < |entries| && h == Slot(head, |entries|) && |posted| == head + (e - h)
    requires entries[e].userData !in waiting
    ensures Entry(entries, h, e, waiting).run == WaitingRun(posted, head, |posted|, waiting)
  {
    StretchRun(entries, posted, head, h, e, waiting);
    RingIsDistinct(entries, posted, h, e + 1);
    SweepTailSlot(entries, h, e, waiting);
  }

  /** The window reaches the lap boundary: the first run stops there, and the second starts afresh. */
  lemma {:induction false} EntryRunLong(entries: seq<Cqe>, posted: seq<Cqe>, head: nat, waiting: set<nat>)
    requires Image(entries, posted) && UniqueIds(posted) && 0 !in waiting
    requires Boundary(|entries|, head) <= |posted| < head + |entries|
    ensures var n, t, b := |entries|, |posted|, Boundary(|entries|, head);
            Entry(entries, Slot(head, n), Slot(t, n), waiting).run
            == WaitingRun(posted, head, b, waiting) + WaitingRun(posted, b, t, waiting)
  {
    var n, t, b := |entries|, |posted|, Boundary(|entries|, head);
    var h, e := Slot(head, n), Slot(t, n);
    LapSlot(n, head, b);
    LapSlot(n, head, t);
    LongRun(entries, posted, head, b, h, e, waiting);
    StillWaiting(entries, posted, head, waiting);
  }

  lemma {:induction false} LongRun(entries: seq<Cqe>, posted: seq<Cqe>, head: nat, b: nat, h: nat, e: nat,
                                   waiting: set<nat>)
    requires Image(entries, posted) && UniqueIds(posted) && 0 !in waiting
    requires e < h < |entries| && h == Slot(head, |entries|) && Slot(b, |entries|) == 0
    requires b == head + (|entries| - h) && |posted| == b + e
    ensures Entry(entries, h, e, waiting).run
            == WaitingRun(posted, head, b, waiting)
               + WaitingRun(posted, b, |posted|, Sweep(entries, h, |entries|, waiting).waiting)
  {
    StretchRun(entries, posted, head, h, |entries|, waiting);
    var a := Sweep(entries, h, |entries|, waiting);
    assert 0 !in a.waiting by { SweepOut(entries, h, |entries|, waiting); }
    StretchRun(entries, posted, b, 0, e, a.waiting);
  }

  lemma StretchRun(entries: seq<Cqe>, posted: seq<Cqe>, p: nat, lo: nat, hi: nat, waiting: set<nat>)
    requires Image(entries, posted) && UniqueIds(posted) && 0 !in waiting
    requires lo <= hi <= |entries| && lo == Slot(p, |entries|) && p + (hi - lo) <= |posted| <= p + |entries|
    ensures Sweep(entries, lo, hi, waiting).run == WaitingRun(posted, p, p + (hi - lo), waiting)
  {
    RingIsDistinct(entries, posted, lo, hi);
    WindowSlice(entries, posted, p, lo, hi);
    SweepIsRun(entries, posted, p, lo, hi, waiting);
  }

  lemma {:induction false} RunAcross(posted: seq<Cqe>, p: nat, b: nat, t: nat, waiting: set<nat>)
    requires p <= b <= t <= |posted|
    ensures WaitingRun(posted, p, t, waiting) ==
            if WaitingRun(posted, p, b, waiting) == b - p then b - p + WaitingRun(posted, b, t, waiting)
            else WaitingRun(posted, p, b, waiting)
    decreases b - p
  {
    if p < b && posted[p].userData in waiting { RunAcross(posted, p + 1, b, t, waiting); }
  }

  /** Head movement, on a window that is not full and whose tail slot no request waits for. The head never passes the
      tail. It advances by exactly the longest run of waiting ids at the start of the window if and only if the window
      ends by the lap boundary, or everything before the boundary is waiting, or the CQE at the boundary is not;
      otherwise `seen` being reset at the wrap (ring.go:206) takes it past a CQE that nobody was waiting for. */
  lemma HeadMovement(entries: seq<Cqe>, posted: seq<Cqe>, head: nat, waiting: set<nat>)
    requires RingSize(|entries|) && Image(entries, posted) && UniqueIds(posted) && 0 !in waiting
    requires head <= |posted| < head + |entries|
    requires entries[And(Wrap(|posted|), |entries| - 1)].userData !in waiting
    ensures var n, t, b := |entries|, |posted|, Boundary(|entries|, head);
            var k := Entry(entries, And(Wrap(head), n - 1), And(Wrap(t), n - 1), waiting).run;
            var run := WaitingRun(posted, head, t, waiting);
            && run <= k <= t - head
            && (k == run <==> t <= b || head + run >= b || posted[b].userData !in waiting)
            && (k > run ==> head + run < head + k && posted[head + run].userData !in waiting)
  {
    var n, t, b := |entries|, |posted|, Boundary(|entries|, head);
    WordSlot(head, n);
    WordSlot(t, n);
    if t < b {
      EntryRunShort(entries, posted, head, waiting);
    } else {
      EntryRunLong(entries, posted, head, waiting);
      RunAcross(posted, head, b, t, waiting);
    }
  }

  /** A CQE at the head that nobody waits for, such as one delivered before those in front of it, pins the head for as
      long as the wrap does not carry it over. */
  lemma GapPinsHead(entries: seq<Cqe>, posted: seq<Cqe>, head: nat, waiting: set<nat>)
    requires RingSize(|entries|) && Image(entries, posted) && UniqueIds(posted) && 0 !in waiting
    requires head < |posted| < head + |entries| && posted[head].userData !in waiting
    requires entries[And(Wrap(|posted|), |entries| - 1)].userData !in waiting
    ensures var n, t, b := |entries|, |posted|, Boundary(|entries|, head);
            Entry(entries, And(Wrap(head), n - 1), And(Wrap(t), n - 1), waiting).run == 0
            <==> t <= b || posted[b].userData !in waiting
  {
    HeadMovement(entries, posted, head, waiting);
    assert WaitingRun(posted, head, |posted|, waiting) == 0;
  }

  /** A CQE is skipped on a ring of any size: the last position of a lap belongs to a request that has not been
      received yet, the first of the next lap to one that has; one call moves the head past the former. DispatchLoss
      shows how such a state comes about and what becomes of the CQE. */
  lemma SkippedCompletion(n: nat, posted: seq<Cqe>, entries: seq<Cqe>)
    requires RingSize(n) && n > 2 && |entries| == n && |posted| == n + 1 && Image(entries, posted) && UniqueIds(posted)
    requires forall p :: 0 <= p < |posted| ==> posted[p].userData > 0
    ensures var waiting := {posted[n].userData};
            && posted[n - 1].userData !in waiting
            && Entry(entries, And(Wrap(n - 1), n - 1), And(Wrap(n + 1), n - 1), waiting).run == 1
  {
    var waiting := {posted[n].userData};
    WordSlot(n + 1, n);
    assert Slot(n + 1, n) == 1 && Slot(n - 1, n) == n - 1;
    ImageOldest(entries, posted, 1);
    HeadMovement(entries, posted, n - 1, waiting);
    assert WaitingRun(posted, n - 1, n + 1, waiting) == 0;
  }

  lemma ImageOldest(entries: seq<Cqe>, posted: seq<Cqe>, x: nat)
    requires Image(entries, posted) && |posted| == |entries| + 1 && 0 < x < |entries|
    ensures entries[x] == posted[x]
  {
    assert Slot(x, |entries|) == x;
    OccupantInWindow(|posted|, |entries|, x);
  }
}
