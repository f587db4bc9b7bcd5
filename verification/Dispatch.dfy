/** Ring.onEntry: hand the completions in the ring to the requests waiting for them. */
module Dispatch {
  import opened Words
  import opened Window

  /** What a waiting caller is told: the fields of its completionRequest when it is signalled. */
  datatype Delivery = Delivery(id: nat, res: int, flags: nat)

  /** What scanning a stretch of slots does: the ids still waiting, the deliveries in order, and how many entries at the
      start of the stretch were delivered without a gap. */
  datatype Swept = Swept(waiting: set<nat>, out: seq<Delivery>, run: nat)

  function Sweep(entries: seq<Cqe>, lo: nat, hi: nat, waiting: set<nat>): (r: Swept)
    requires lo <= hi <= |entries|
    decreases hi - lo
  {
    if lo == hi then Swept(waiting, [], 0)
    else
      var c := entries[lo];
      if c.userData in waiting then
        var r := Sweep(entries, lo + 1, hi, waiting - {c.userData});
        Swept(r.waiting, [Delivery(c.userData, c.res, c.flags)] + r.out, 1 + r.run)
      else
        var r := Sweep(entries, lo + 1, hi, waiting);
        Swept(r.waiting, r.out, 0)
  }

  /** A sweep added to what has been signalled before. */
  function After(signalled: seq<Delivery>, r: Swept): Swept {
    Swept(r.waiting, signalled + r.out, r.run)
  }

  /** What a sweep comes to in all, when `seenIdx`, `seen` and `signalled` are where its first part stands
      and `r` is the rest. */
  function Rest(seenIdx: nat, seen: bool, signalled: seq<Delivery>, r: Swept): Swept {
    Swept(r.waiting, signalled + r.out, seenIdx + if seen then r.run else 0)
  }

  lemma SweepStep(entries: seq<Cqe>, i: nat, stop: nat, waiting: set<nat>, seenIdx: nat, seen: bool,
                  signalled: seq<Delivery>)
    requires i < stop <= |entries|
    ensures var c := entries[i]; var hit := c.userData in waiting;
            Rest(seenIdx, seen, signalled, Sweep(entries, i, stop, waiting))
            == Rest(if seen && hit then seenIdx + 1 else seenIdx, seen && hit,
                    signalled + (if hit then [Delivery(c.userData, c.res, c.flags)] else []),
                    Sweep(entries, i + 1, stop, waiting - {c.userData}))
  {
    var c := entries[i];
    if c.userData in waiting {
      var r := Sweep(entries, i + 1, stop, waiting - {c.userData});
      var d := Delivery(c.userData, c.res, c.flags);
      assert signalled + ([d] + r.out) == signalled + [d] + r.out;
    } else {
      assert waiting - {c.userData} == waiting;
    }
  }

  /** Both loops of onEntry, from slot `from` to the tail slot `end`. */
  function Entry(entries: seq<Cqe>, from: nat, end: nat, waiting: set<nat>): (r: Swept)
    requires from < |entries| && end < |entries|
  {
    if from <= end then Sweep(entries, from, end + 1, waiting)
    else
      var a := Sweep(entries, from, |entries|, waiting);
      var b := Sweep(entries, 0, end, a.waiting);
      Swept(b.waiting, a.out + b.out, a.run + b.run)
  }

  /** The state Ring.run and the kernel share, and the map Ring.run keeps. */
  class Dispatcher {
    const n: nat
    const entries: array<Cqe>
    var head: u32
    var tail: u32
    var inflight: map<nat, nat>       // id to the id stored in the request
    var signalled: seq<Delivery>

    ghost predicate Valid()
      reads this
    {
      RingSize(n) && entries.Length == n && forall k :: k in inflight ==> inflight[k] == k
    }

    constructor (n: nat)
      requires RingSize(n)
      ensures Valid() && this.n == n && head == 0 && tail == 0 && inflight == map[] && signalled == []
      ensures fresh(entries) && forall i :: 0 <= i < n ==> entries[i] == ZERO
    {
      this.n := n;
      entries := new Cqe[n](_ => ZERO);
      head, tail := 0, 0;
      inflight, signalled := map[], [];
    }

    /** The kernel stores a CQE in the slot of the tail and moves the tail. */
    method Store(c: Cqe)
      requires Valid()
      modifies this`tail, entries
      ensures Valid() && tail == AddWord(old(tail), 1)
      ensures And(old(tail), n - 1) < n && entries[..] == old(entries[..])[And(old(tail), n - 1) := c]
    {
      entries[And(tail, n - 1)] := c;
      tail := AddWord(tail, 1);
    }

    /** Give entry `i` to its request, if one is waiting. */
    method Offer(i: nat) returns (hit: bool)
      requires Valid() && i < n
      modifies this`inflight, this`signalled
      ensures Valid() && hit == (entries[i].userData in old(inflight))
      ensures inflight.Keys == old(inflight.Keys) - {entries[i].userData}
      ensures !hit ==> inflight == old(inflight)
      ensures signalled == old(signalled) +
                if hit then [Delivery(entries[i].userData, entries[i].res, entries[i].flags)] else []
    {
      var cqe := entries[i];
      hit := cqe.userData in inflight;
      if hit {
        var id := inflight[cqe.userData];
        signalled := signalled + [Delivery(id, cqe.res, cqe.flags)];
        inflight := inflight - {id};
      }
      assert inflight.Keys == old(inflight.Keys) - {cqe.userData};
    }

    /** The loop from slot `start` on, which stops after the tail slot `end` if it meets it. */
    method FirstLoop(start: nat, end: nat) returns (seenIdx: nat, met: bool)
      requires Valid() && start < n && end < n
      modifies this`inflight, this`signalled
      ensures Valid() && met == (start <= end)
      ensures Swept(inflight.Keys, signalled, seenIdx)
              == After(old(signalled), Sweep(entries[..], start, if met then end + 1 else n, old(inflight.Keys)))
    {
      ghost var es, stop := entries[..], if start <= end then end + 1 else n;
      ghost var goal := After(signalled, Sweep(es, start, stop, inflight.Keys));
      var seen, i := true, start;
      seenIdx := 0;
      while i < n
        invariant start <= i <= stop && (start <= end ==> i <= end)
        invariant Valid() && entries[..] == es
        invariant goal == Rest(seenIdx, seen, signalled, Sweep(es, i, stop, inflight.Keys))
      {
        SweepStep(es, i, stop, inflight.Keys, seenIdx, seen, signalled);
        var hit := Offer(i);
        if hit {
          if seen { seenIdx := seenIdx + 1; }
        } else {
          seen := false;
        }
        if i == end { return seenIdx, true; }
        i := i + 1;
      }
      met := false;
    }

    /** The loop over the slots before the tail slot `end`. */
    method SecondLoop(end: nat, seenBefore: nat) returns (seenIdx: nat)
      requires Valid() && end < n
      modifies this`inflight, this`signalled
      ensures Valid() && seenIdx >= seenBefore
      ensures Swept(inflight.Keys, signalled, seenIdx - seenBefore)
              == After(old(signalled), Sweep(entries[..], 0, end, old(inflight.Keys)))
    {
      ghost var es := entries[..];
      ghost var goal := After(signalled, Sweep(es, 0, end, inflight.Keys));
      var seen, i := true, 0;
      seenIdx := seenBefore;
      while i < end
        invariant 0 <= i <= end && seenIdx >= seenBefore
        invariant Valid() && entries[..] == es
        invariant goal == Rest(seenIdx - seenBefore, seen, signalled, Sweep(es, i, end, inflight.Keys))
      {
        SweepStep(es, i, end, inflight.Keys, seenIdx - seenBefore, seen, signalled);
        var hit := Offer(i);
        if hit {
          if seen { seenIdx := seenIdx + 1; }
        } else {
          seen := false;
        }
        i := i + 1;
      }
    }

    method OnEntry()
      requires Valid()
      modifies this`head, this`inflight, this`signalled
      ensures Valid()
      ensures var r := Entry(entries[..], And(old(head), n - 1), And(tail, n - 1), old(inflight.Keys));
              && inflight.Keys == r.waiting && signalled == old(signalled) + r.out
              && head == AddWord(old(head), r.run)
    {
      var start, end := And(head, n - 1), And(tail, n - 1);
      var seenIdx, met := FirstLoop(start, end);
      if !met {
        seenIdx := SecondLoop(end, seenIdx);
      }
      head := AddWord(head, seenIdx);
    }
  }
}
