/** The completion ring as a picture of the history of posts. */
module Window {
  import opened Words

  /** A CompletionEntry. A never-posted slot is all zero, and request ids start at one. */
  datatype Cqe = Cqe(userData: nat, res: int, flags: nat)

  const ZERO: Cqe := Cqe(0, 0, 0)

  /** The last position below `t` that lives in slot `x`, or -1. */
  function Occupant(t: nat, n: nat, x: nat): (p: int)
    requires n > 0
    ensures -1 <= p < t
    ensures p >= 0 ==> Slot(p, n) == x
  {
    if t == 0 then -1 else if Slot(t - 1, n) == x then t - 1 else Occupant(t - 1, n, x)
  }

  /** What slot `x` of an `n`-slot ring holds after the posts `posted`. */
  function Content(posted: seq<Cqe>, n: nat, x: nat): (c: Cqe)
    requires n > 0
  {
    var p := Occupant(|posted|, n, x);
    if p < 0 then ZERO else posted[p]
  }

  /** `entries` is the ring memory after exactly the posts `posted`. */
  ghost predicate Image(entries: seq<Cqe>, posted: seq<Cqe>) {
    |entries| > 0 && forall x :: 0 <= x < |entries| ==> entries[x] == Content(posted, |entries|, x)
  }

  /** The slots of a window of at most one lap belong to that window. */
  lemma {:induction false} OccupantInWindow(t: nat, n: nat, p: nat)
    requires n > 0 && p < t <= p + n
    ensures Occupant(t, n, Slot(p, n)) == p
  {
    if p < t - 1 {
      SlotsDistinct(p, t - 1, n);
      OccupantInWindow(t - 1, n, p);
    }
  }

  /** No slot is older than one lap. */
  lemma {:induction false} OccupantRecent(t: nat, n: nat, x: nat)
    requires n > 0 && x < n
    ensures Occupant(t, n, x) < 0 ==> t <= x
    ensures Occupant(t, n, x) >= 0 ==> t <= Occupant(t, n, x) + n
  {
    if t > 0 && Slot(t - 1, n) != x {
      OccupantRecent(t - 1, n, x);
      var p := Occupant(t - 1, n, x);
      assert p >= 0 ==> Slot(p + n, n) == Slot(p, n);
    }
  }

  /** Storing the next CQE at its slot keeps the picture. */
  lemma ImagePost(entries: seq<Cqe>, posted: seq<Cqe>, c: Cqe)
    requires Image(entries, posted)
    ensures Image(entries[Slot(|posted|, |entries|) := c], posted + [c])
  {
    var n, t := |entries|, |posted|;
    var after := entries[Slot(t, n) := c];
    forall x | 0 <= x < n ensures after[x] == Content(posted + [c], n, x) {
      assert Occupant(t + 1, n, x) == if Slot(t, n) == x then t else Occupant(t, n, x);
    }
  }

  /** Every post of the last lap is still in memory, in its own slot. */
  lemma ImageWindow(entries: seq<Cqe>, posted: seq<Cqe>, p: nat)
    requires Image(entries, posted)
    requires p < |posted| <= p + |entries|
    ensures entries[Slot(p, |entries|)] == posted[p]
  {
    OccupantInWindow(|posted|, |entries|, p);
  }

  /** Each request id is posted at most once. */
  ghost predicate UniqueIds(posted: seq<Cqe>) {
    forall p, q :: 0 <= p < q < |posted| ==> posted[p].userData != posted[q].userData
  }
}
