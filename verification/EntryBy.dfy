/** CompletionQueue.EntryBy: find a completion by id, mark it seen, and store as head the slot after the
    run of seen entries at the start of the scanned stretch. */
module EntryBy {
  import opened Words
  import opened Window
  import opened Scan

  /** CqSeenFlag is the lowest bit. */
  predicate IsSeen(c: Cqe) {
    c.flags % 2 == 1 || c == ZERO
  }

  /** `c` with the lowest bit of its flags set. */
  function MarkSeen(c: Cqe): (d: Cqe)
    ensures d.userData == c.userData && d.res == c.res && IsSeen(d)
    ensures d.flags % 2 == 1 && d.flags / 2 == c.flags / 2
  {
    if c.flags % 2 == 1 then c else c.(flags := c.flags + 1)
  }

  /** `c` is the entry `before`, marked: same id and result, the lowest bit of the flags set and no other changed. */
  ghost predicate Marked(before: Cqe, c: Cqe) {
    && c.userData == before.userData && c.res == before.res
    && c.flags % 2 == 1 && c.flags / 2 == before.flags / 2
  }

  /** Only entry `x` has changed, and only by being marked. */
  ghost predicate OnlyMarked(before: seq<Cqe>, after: seq<Cqe>, x: nat) {
    && |after| == |before| && x < |before| && Marked(before[x], after[x])
    && forall i :: 0 <= i < |before| && i != x ==> after[i] == before[i]
  }

  /** How many entries from `lo` on, below `hi`, are seen without a gap. */
  function SeenRun(entries: seq<Cqe>, lo: nat, hi: nat): (k: nat)
    requires lo <= hi <= |entries|
    ensures lo + k <= hi && (forall i :: lo <= i < lo + k ==> IsSeen(entries[i]))
    ensures lo + k < hi ==> !IsSeen(entries[lo + k])
    decreases hi - lo
  {
    if lo < hi && IsSeen(entries[lo]) then 1 + SeenRun(entries, lo + 1, hi) else 0
  }

  lemma {:induction false} SeenRunNext(entries: seq<Cqe>, lo: nat, hi: nat)
    requires lo <= hi < |entries|
    ensures SeenRun(entries, lo, hi + 1)
            == if SeenRun(entries, lo, hi) == hi - lo && IsSeen(entries[hi]) then hi + 1 - lo
               else SeenRun(entries, lo, hi)
    decreases hi - lo
  {
    if lo < hi { SeenRunNext(entries, lo + 1, hi); }
  }

  lemma {:induction false} HitNext(entries: seq<Cqe>, lo: nat, mid: nat, hi: nat, id: nat)
    requires lo <= mid <= hi <= |entries| && forall i :: lo <= i < mid ==> entries[i].userData != id
    ensures Hit(entries, lo, hi, id) == Hit(entries, mid, hi, id)
    decreases mid - lo
  {
    if lo < mid { HitNext(entries, lo + 1, mid, hi, id); }
  }

  lemma {:induction false} SeenRunSame(a: seq<Cqe>, b: seq<Cqe>, lo: nat, hi: nat)
    requires lo <= hi <= |a| && hi <= |b| && forall i :: lo <= i < hi ==> a[i] == b[i]
    ensures SeenRun(a, lo, hi) == SeenRun(b, lo, hi)
    decreases hi - lo
  {
    if lo < hi { SeenRunSame(a, b, lo + 1, hi); }
  }

  /** Entries nothing has been posted to count as seen. */
  lemma {:induction false} BlankRun(entries: seq<Cqe>, lo: nat, hi: nat)
    requires lo <= hi <= |entries| && forall i :: lo <= i < hi ==> entries[i] == ZERO
    ensures SeenRun(entries, lo, hi) == hi - lo
    decreases hi - lo
  {
    if lo < hi { BlankRun(entries, lo + 1, hi); }
  }

  /** The run ends at an entry that has been posted and not been marked. */
  lemma UnseenStops(entries: seq<Cqe>, lo: nat, x: nat, hi: nat)
    requires lo <= x < hi <= |entries| && entries[x] != ZERO && entries[x].flags % 2 == 0
    ensures lo + SeenRun(entries, lo, hi) <= x
  {
    assert !IsSeen(entries[x]);
  }

  /** A find of `f` from `h` on, which stores `h1`, and then one of an entry `g` behind it in the same stretch: the
      second stores a head past `f` if and only if everything between `h` and `f` had been seen, and then goes on over
      what was seen behind `f`. */
  lemma {:induction false} LaterFindCounts(before: seq<Cqe>, after: seq<Cqe>, h: nat, f: nat, g: nat)
    requires h <= f < g < |before| && OnlyMarked(before, after, f)
    ensures var h1 := h + SeenRun(before, h, f + 1);
            && h1 <= f + 1
            && (h1 + SeenRun(after, h1, g + 1) > f <==> forall i :: h <= i < f ==> IsSeen(before[i]))
            && (h1 + SeenRun(after, h1, g + 1) > f ==>
                  h1 + SeenRun(after, h1, g + 1) == f + 1 + SeenRun(before, f + 1, g + 1))
  {
    var h1 := h + SeenRun(before, h, f + 1);
    SeenRunNext(before, h, f);
    if h1 < f {
      UnseenKept(before, after, h1, f, g);
    } else {
      MarkedRun(before, after, h1, f, g);
    }
  }

  lemma UnseenKept(before: seq<Cqe>, after: seq<Cqe>, h1: nat, f: nat, g: nat)
    requires h1 < f < g < |before| && OnlyMarked(before, after, f) && !IsSeen(before[h1])
    ensures SeenRun(after, h1, g + 1) == 0
  {
  }

  lemma MarkedRun(before: seq<Cqe>, after: seq<Cqe>, h1: nat, f: nat, g: nat)
    requires f <= h1 <= f + 1 <= g < |before| && OnlyMarked(before, after, f)
    ensures h1 + SeenRun(after, h1, g + 1) == f + 1 + SeenRun(before, f + 1, g + 1)
  {
    SeenRunSame(before, after, f + 1, g + 1);
    assert IsSeen(after[f]);
  }

  class CompletionQueue {
    const n: nat
    const size: nat               // bytes of the mapping, more than the number of entries
    const entries: array<Cqe>
    var head: u32
    var tail: u32

    ghost predicate Valid()
      reads this
    {
      RingSize(n) && entries.Length == n && n < size
    }

    constructor (n: nat, size: nat)
      requires RingSize(n) && n < size
      ensures Valid() && this.n == n && fresh(entries)
    {
      this.n := n;
      this.size := size;
      entries := new Cqe[n](_ => ZERO);
      head, tail := 0, 0;
    }

    /** Both loops of EntryBy, over slots `lo..hi`. */
    method Seek(lo: nat, hi: nat, userData: nat) returns (found: int)
      requires Valid() && lo <= hi <= n
      modifies this`head, entries
      ensures found == Hit(old(entries[..]), lo, hi, userData)
      ensures found < 0 ==> head == old(head) && entries[..] == old(entries[..])
      ensures found >= 0 ==> OnlyMarked(old(entries[..]), entries[..], found)
      ensures found >= 0 ==> head == lo + SeenRun(old(entries[..]), lo, found + 1)
    {
      ghost var es := entries[..];
      var seenIdx, seen, seenEnd := lo, false, false;
      var i := lo;
      while i < hi
        invariant lo <= i <= hi && entries[..] == es && head == old(head)
        invariant forall j :: lo <= j < i ==> es[j].userData != userData
        invariant seenIdx == lo + SeenRun(es, lo, i)
        invariant seenEnd <==> SeenRun(es, lo, i) < i - lo
      {
        SeenRunNext(es, lo, i);
        HitNext(es, lo, i, hi, userData);
        var cqe := entries[i];
        if IsSeen(cqe) {
          seen := true;
        } else if !seenEnd {
          seen := false;
          seenEnd := true;
        }
        if seen && !seenEnd { seenIdx := i + 1; }
        if cqe.userData == userData {
          entries[i] := MarkSeen(cqe);
          assert entries[..] == es[i := MarkSeen(cqe)];
          if seenIdx == size { seenIdx := 0; }
          head := seenIdx;
          return i;
        }
        i := i + 1;
      }
      HitNext(es, lo, hi, hi, userData);
      return -1;
    }

    /** The completion with this id, or -1. It is found if it is in the first loop's stretch, from the head slot to the
        ring end, or else in the second one's, through the tail slot. Only the found entry changes: it is marked. The
        head is stored as a slot: the start of the stretch plus the run of entries seen before. `tail2` is the second
        load of the tail. */
    method Find(userData: nat, tail2: u32) returns (found: int)
      requires Valid()
      modifies this`head, entries
      ensures var es, h, t := old(entries[..]), And(old(head), n - 1), And(tail2, n - 1);
              if h == And(tail, n - 1) then found == -1 && head == old(head) && entries[..] == es
              else if Hit(es, h, n, userData) >= 0 then
                && found == Hit(es, h, n, userData) && OnlyMarked(es, entries[..], found)
                && head == h + SeenRun(es, h, found + 1)
              else if Hit(es, 0, t + 1, userData) >= 0 then
                && found == Hit(es, 0, t + 1, userData) && OnlyMarked(es, entries[..], found)
                && head == SeenRun(es, 0, found + 1)
              else found == -1 && head == old(head) && entries[..] == es
    {
      var h := And(head, n - 1);
      if h == And(tail, n - 1) { return -1; }
      found := Seek(h, n, userData);
      if found < 0 { found := Seek(0, And(tail2, n - 1) + 1, userData); }
    }
  }

  /** Adding to a slot and adding to the counter it came from agree only in the first lap. */
  lemma LapShift(head: u32, h: nat, n: nat, k: nat)
    requires 0 < n && h < n && k <= n && n <= 0x8000_0000 && (head < n ==> h == head) && (n <= head ==> h + n <= head)
    ensures h + k == AddWord(head, k) <==> head < n
  {
  }

  /** The head EntryBy stores when it finds the id before the ring end is the old head moved over the run of seen
      entries if and only if the old head is still in its first lap: later laps are dropped, and the kernel sees its
      head go back. */
  lemma {:induction false} HeadKeepsLap(entries: seq<Cqe>, head: u32, found: nat)
    requires RingSize(|entries|) && And(head, |entries| - 1) <= found < |entries|
    ensures var h := And(head, |entries| - 1);
            h + SeenRun(entries, h, found + 1) == AddWord(head, SeenRun(entries, h, found + 1)) <==> head < |entries|
  {
    var n := |entries|;
    var h := And(head, n - 1);
    assert h == Slot(head, n) by { MaskIsSlot(head, n); }
    SlotBelow(head, n);
    LapShift(head, h, n, SeenRun(entries, h, found + 1));
  }
}
