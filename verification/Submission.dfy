/** The submission ring as one goroutine drives it: claim an entry, fill it, commit it, enter the kernel. */
module Submission {
  import opened Words
  import opened Window
  import opened Naming

  type byte = b: int | 0 <= b < 256

  datatype Opcode = Nop | Read | Write

  /** A SubmitEntry. `buf` stands for Addr. */
  datatype Sqe = Sqe(opcode: Opcode, fd: int, offset: int, len: nat, buf: array?<byte>, userData: nat)

  const RESET: Sqe := Sqe(Nop, -1, 0, 0, null, 0)

  /** What the callback returned by SubmitEntry has captured. */
  datatype Callback = Callback(next: nat, head: u32)

  /** Slot `x` of Entries when the `k`-th claim has been filled with `filled[k]`. */
  function EntryAt(n: nat, filled: seq<Sqe>, x: nat): Sqe
    requires n > 0
  {
    var k := Occupant(|filled|, n, x);
    if k < 0 then RESET else filled[k]
  }

  /** The entry the kernel gets at position `j` of its head. */
  function TakenAt(n: nat, heads: seq<nat>, filled: seq<Sqe>, j: nat): Sqe
    requires n > 0 && |heads| == |filled|
  {
    var k := Named(n, heads, j);
    if k < 0 then RESET else filled[k]
  }

  /** Array and Entries are what the claims make of them. */
  ghost predicate Tables(n: nat, heads: seq<nat>, filled: seq<Sqe>, table: seq<nat>, entries: seq<Sqe>) {
    && n > 0 && |table| == n && |entries| == n && |heads| == |filled|
    && (forall x :: 0 <= x < n ==> table[x] == ArrayAt(n, heads, x))
    && (forall x :: 0 <= x < n ==> entries[x] == EntryAt(n, filled, x))
  }

  /** One more claim, made when the kernel's head stood at `h` and filled with `sqe`. */
  lemma TablesNext(n: nat, heads: seq<nat>, filled: seq<Sqe>, table: seq<nat>, entries: seq<Sqe>, h: nat, sqe: Sqe)
    requires Tables(n, heads, filled, table, entries)
    ensures var slot := Slot(|heads|, n);
            Tables(n, heads + [h], filled + [sqe], table[slot := Slot(h, n)], entries[slot := sqe])
  {
    var slot := Slot(|heads|, n);
    forall x | 0 <= x < n ensures table[slot := Slot(h, n)][x] == ArrayAt(n, heads + [h], x) {
      ArrayNext(n, heads, h, x);
    }
    forall x | 0 <= x < n ensures entries[slot := sqe][x] == EntryAt(n, filled + [sqe], x) {
      EntryNext(n, filled, sqe, x);
    }
  }

  lemma ArrayNext(n: nat, heads: seq<nat>, h: nat, x: nat)
    requires n > 0
    ensures ArrayAt(n, heads + [h], x) == if x == Slot(|heads|, n) then Slot(h, n) else ArrayAt(n, heads, x)
  {
  }

  lemma EntryNext(n: nat, filled: seq<Sqe>, sqe: Sqe, x: nat)
    requires n > 0
    ensures EntryAt(n, filled + [sqe], x) == if x == Slot(|filled|, n) then sqe else EntryAt(n, filled, x)
  {
  }

  /** Where a position leads to its own claim, the kernel takes what that claim was filled with. */
  lemma OwnTaken(n: nat, heads: seq<nat>, filled: seq<Sqe>, j: nat)
    requires n > 0 && |heads| == |filled| && CapturedOwn(n, heads, j)
    ensures TakenAt(n, heads, filled, j) == filled[j]
  {
    NamesItself(n, heads, j);
  }

  function UserData(sqes: seq<Sqe>): seq<nat> {
    seq(|sqes|, i requires 0 <= i < |sqes| => sqes[i].userData)
  }

  lemma YieldLast(z: nat, heads: seq<nat>, j: nat, ids: seq<nat>)
    requires z > 0 && ids != [] && ids[|ids| - 1] == Named(z, heads, j + |ids| - 1) + 1
    requires multiset(ids[..|ids| - 1]) == Yield(z, heads, j, |ids| - 1)
    ensures multiset(ids) == Yield(z, heads, j, |ids|)
  {
    assert ids == ids[..|ids| - 1] + [ids[|ids| - 1]];
  }

  lemma {:induction false} YieldIds(z: nat, heads: seq<nat>, j: nat, ids: seq<nat>)
    requires z > 0 && forall i :: 0 <= i < |ids| ==> ids[i] == Named(z, heads, j + i) + 1
    ensures multiset(ids) == Yield(z, heads, j, |ids|)
    decreases |ids|
  {
    if ids != [] {
      assert ids[|ids| - 1] == Named(z, heads, j + (|ids| - 1)) + 1;
      YieldIds(z, heads, j, ids[..|ids| - 1]);
      YieldLast(z, heads, j, ids);
    }
  }

  lemma TakenId(z: nat, heads: seq<nat>, filled: seq<Sqe>, j: nat)
    requires z > 0 && |heads| == |filled| && forall k :: 0 <= k < |filled| ==> filled[k].userData == k + 1
    ensures TakenAt(z, heads, filled, j).userData == Named(z, heads, j) + 1
  {
  }

  /** What the ring yields is what Take hands to the kernel when the `k`-th entry put into the queue carries
      the id `k + 1`. */
  lemma {:induction false} TakenIsYield(z: nat, heads: seq<nat>, filled: seq<Sqe>, j: nat, sqes: seq<Sqe>)
    requires z > 0 && |heads| == |filled| && forall k :: 0 <= k < |filled| ==> filled[k].userData == k + 1
    requires forall i :: 0 <= i < |sqes| ==> sqes[i] == TakenAt(z, heads, filled, j + i)
    ensures multiset(UserData(sqes)) == Yield(z, heads, j, |sqes|)
  {
    var ids := UserData(sqes);
    forall i | 0 <= i < |ids| ensures ids[i] == Named(z, heads, j + i) + 1 {
      assert sqes[i] == TakenAt(z, heads, filled, j + i);
      TakenId(z, heads, filled, j + i);
    }
    YieldIds(z, heads, j, ids);
  }

  class SubmitQueue {
    const n: nat
    const table: array<nat>       // Array
    const entries: array<Sqe>     // Entries
    var head: u32
    var tail: u32
    var entered: u32
    var writes: u32
    ghost var claims: nat         // successful claims so far
    ghost var taken: nat          // entries the kernel has taken so far
    ghost var heads: seq<nat>     // where the kernel's head was at each claim
    ghost var filled: seq<Sqe>    // what Put has filled in

    ghost predicate Valid()
      reads this, table
    {
      && RingSize(n) && table.Length == n && entries.Length == n
      && head == Wrap(taken) && tail == TailAfter(n, claims) && entered == 0 && |heads| == claims
      && forall i :: 0 <= i < n ==> table[i] < n
    }

    /** Nothing claimed is left for the kernel to take. */
    ghost predicate Drained()
      reads this
    {
      claims == taken && writes == 0
    }

    /** Every claim so far was made by Put: Array and Entries are what the claims make of them. */
    ghost predicate Tabled()
      reads this, table, entries
    {
      writes == 0 && Tables(n, heads, filled, table[..], entries[..])
    }

    constructor (n: nat)
      requires RingSize(n)
      ensures Valid() && Drained() && this.n == n && claims == 0 && fresh(table) && fresh(entries)
      ensures Tabled() && heads == [] && filled == []
    {
      this.n := n;
      table := new nat[n](_ => 0);
      entries := new Sqe[n](_ => RESET);
      head, tail, entered, writes := 0, 0, 0, 0;
      claims, taken, heads, filled := 0, 0, [], [];
    }

    method SubmitEntry() returns (slot: nat, ready: Callback)
      requires Valid() && writes + 1 < WORD
      modifies this`tail, this`writes, this`claims, this`heads, entries
      ensures Valid() && claims == old(claims) + 1 && writes == old(writes) + 1 && heads == old(heads) + [taken]
      ensures slot == Slot(old(claims), n) && ready == Callback(slot + 1, head)
      ensures slot < n && entries[..] == old(entries[..])[slot := Sqe(Opcode.Nop, -1, 0, 0, null, 0)]
    {
      TailSlot(n, claims);
      var next := And(tail, n - 1) + 1;
      assert next <= n;                     // so the branch that restarts the tail at 0 is never taken
      slot := And(tail, n - 1);
      tail := next;
      writes := writes + 1;
      claims := claims + 1;
      heads := heads + [taken];
      entries[slot] := RESET;
      ready := Callback(next, head);
    }

    /** The callback. */
    method Commit(ready: Callback)
      requires Valid() && writes > 0 && 0 < ready.next <= n
      modifies this`writes, table
      ensures Valid() && writes == old(writes) - 1
      ensures table[..] == old(table[..])[ready.next - 1 := And(ready.head, n - 1)]
    {
      writes := writes - 1;
      table[ready.next - 1] := And(ready.head, n - 1);
    }

    /** io_uring_enter: the kernel takes up to `toSubmit` entries, never more than the counters show, each through
        Array at its own head. It may stop early, at `willing`; a call that fails takes none. */
    method Enter(toSubmit: nat, willing: nat) returns (sqes: seq<Sqe>)
      requires Valid()
      modifies this`head, this`taken
      ensures Valid() && taken == old(taken) + |sqes|
      ensures var most := Takes(n, claims, old(taken), toSubmit); |sqes| == if willing < most then willing else most
      ensures forall i :: 0 <= i < |sqes| ==> sqes[i] == entries[table[Slot(old(taken) + i, n)]]
    {
      var available := SubWord(tail, head);
      var count := if toSubmit < available then toSubmit else available;
      if willing < count { count := willing; }
      sqes := [];
      while |sqes| < count
        invariant |sqes| <= count && taken == old(taken) + |sqes| && head == Wrap(taken)
        invariant forall i :: 0 <= i < |sqes| ==> sqes[i] == entries[table[Slot(old(taken) + i, n)]]
      {
        WordSlot(taken, n);
        WrapPlus(taken, 1);
        sqes := sqes + [entries[table[And(head, n - 1)]]];
        head := AddWord(head, 1);
        taken := taken + 1;
      }
    }

    /** Claim an entry, fill it and commit it. */
    method Put(sqe: Sqe)
      requires Valid() && Tabled()
      modifies this`tail, this`writes, this`claims, this`heads, this`filled, table, entries
      ensures Valid() && Tabled() && claims == old(claims) + 1
      ensures heads == old(heads) + [taken] && filled == old(filled) + [sqe]
    {
      TablesNext(n, heads, filled, table[..], entries[..], taken, sqe);
      assert And(head, n - 1) == Slot(taken, n) by { MaskedCounters(n, claims, taken); }
      ghost var entries0 := entries[..];
      var slot, ready := SubmitEntry();
      entries[slot] := sqe;
      assert entries[..] == entries0[slot := sqe];
      Commit(ready);
      filled := filled + [sqe];
    }

    /** Enter, when every claim was made by Put: which entries the kernel gets, through Array. */
    method Take(toSubmit: nat, willing: nat) returns (sqes: seq<Sqe>)
      requires Valid() && Tabled()
      modifies this`head, this`taken
      ensures Valid() && Tabled() && taken == old(taken) + |sqes|
      ensures var most := Takes(n, claims, old(taken), toSubmit); |sqes| == if willing < most then willing else most
      ensures forall i :: 0 <= i < |sqes| ==> sqes[i] == TakenAt(n, heads, filled, old(taken) + i)
    {
      sqes := Enter(toSubmit, willing);
    }

    /** One round with one entry, when the kernel takes something: it is exactly the entry just written. */
    method SubmitOne(sqe: Sqe) returns (sqes: seq<Sqe>)
      requires Valid() && Drained()
      modifies this, table, entries
      ensures Valid() && Drained() && claims == old(claims) + 1
      ensures sqes == [sqe]
      ensures var slot := Slot(old(claims), n);
              table[..] == old(table[..])[slot := slot] && entries[..] == old(entries[..])[slot := sqe]
    {
      SomethingAvailable(n, claims);
      MaskedCounters(n, claims, taken);
      var slot, ready := SubmitEntry();
      entries[slot] := sqe;
      Commit(ready);
      assert table[..][slot] == slot;
      sqes := Enter(1, 1);
      assert |sqes| == 1 && sqes[0] == sqe;
    }

    /** Any number of rounds: the kernel takes exactly the entries written, each once, in order, past ring
        laps and past the wrap of its head at 2^32. */
    method SubmitAll(todo: seq<Sqe>) returns (done: seq<Sqe>)
      requires Valid() && Drained()
      modifies this, table, entries
      ensures Valid() && Drained() && claims == old(claims) + |todo|
      ensures done == todo
    {
      done := [];
      while |done| < |todo|
        invariant Valid() && Drained() && claims == old(claims) + |done|
        invariant |done| <= |todo| && done == todo[..|done|]
      {
        var sqes := SubmitOne(todo[|done|]);
        done := done + sqes;
      }
    }
  }

  /** Two entries committed before entering: on a new ring the kernel takes the first one twice and never sees
      the second. */
  method BatchOfTwo(q: SubmitQueue, a: Sqe, b: Sqe) returns (sqes: seq<Sqe>)
    requires q.Valid() && q.Drained() && q.claims == 0
    modifies q, q.table, q.entries
    ensures sqes == [a, a]
  {
    var slot, ready := q.SubmitEntry();
    q.entries[slot] := a;
    var slot', ready' := q.SubmitEntry();
    q.entries[slot'] := b;
    q.Commit(ready);
    q.Commit(ready');
    sqes := q.Enter(2, 2);
  }

  /** One lap of entries, submitted one by one. */
  method FillLap(todo: seq<Sqe>) returns (q: SubmitQueue)
    requires RingSize(|todo|)
    ensures fresh(q) && fresh(q.table) && fresh(q.entries)
    ensures q.Valid() && q.Drained() && q.n == q.claims == |todo|
    ensures forall j :: 0 <= j < q.n ==> q.table[j] == j && q.entries[j] == todo[j]
  {
    q := new SubmitQueue(|todo|);
    var k := 0;
    while k < |todo|
      invariant 0 <= k <= |todo| == q.n && fresh(q) && fresh(q.table) && fresh(q.entries)
      invariant q.Valid() && q.Drained() && q.claims == k
      invariant forall j :: 0 <= j < k ==> q.table[j] == j && q.entries[j] == todo[j]
    {
      var one := q.SubmitOne(todo[k]);
      assert forall j :: 0 <= j < q.n ==> q.table[j] == q.table[..][j] && q.entries[j] == q.entries[..][j];
      k := k + 1;
    }
  }

  lemma LapSlots(n: nat)
    requires RingSize(n)
    ensures Slot(n, n) == 0 && Slot(n + 1, n) == 1 && And(Wrap(n), n - 1) == 0 && Takes(n, n + 1, n, 2) == 2
  {
    MaskedCounters(n, n, n);
    SlotNext(n, n);
  }

  /** One lap of entries and then one more, with an Enter that asks for two as Ring.run does when two requests are in
      flight: the kernel takes the new entry and, once again, the second of the first lap. */
  method StaleRetake(todo: seq<Sqe>, a: Sqe) returns (sqes: seq<Sqe>)
    requires RingSize(|todo|)
    ensures sqes == [a, todo[1]]
  {
    var q := FillLap(todo);
    LapSlots(|todo|);
    var slot, ready := q.SubmitEntry();
    q.entries[slot] := a;
    q.Commit(ready);
    assert q.table[..][0] == 0 && q.table[..][1] == 1;
    sqes := q.Enter(2, 2);
  }
}
