/** File I/O through a ring, as one goroutine runs it beside the completer: submit one entry, enter the kernel,
    search for the completion, acknowledge it unless it is a failure. The completer may lag behind by any number of
    acks. */
module FileRing {
  import opened Words
  import opened Window
  import opened Scan
  import opened Completer
  import opened Submission

  type Files = map<int, seq<byte>>

  // ---------- What the kernel does to files ----------

  function Zeros(k: nat): (z: seq<byte>)
    ensures |z| == k
  {
    seq(k, _ => 0)
  }

  /** `f` with `d` written at `off`; a gap reads as zeros. */
  function Splice(f: seq<byte>, off: nat, d: seq<byte>): (g: seq<byte>)
    ensures off == |f| ==> g == f + d
  {
    (if off <= |f| then f[..off] else f + Zeros(off - |f|)) + d + (if off + |d| < |f| then f[off + |d|..] else [])
  }

  /** Byte by byte: the data where it was written, zeros in a gap, and everything else as before. So reading back where
      one has written gives what was written. */
  lemma SpliceBytes(f: seq<byte>, off: nat, d: seq<byte>, i: nat)
    requires i < |Splice(f, off, d)|
    ensures |Splice(f, off, d)| == if off + |d| < |f| then |f| else off + |d|
    ensures Splice(f, off, d)[i]
            == if off <= i < off + |d| then d[i - off] else if i < |f| then f[i] else 0
    ensures Splice(f, off, d)[off..off + |d|] == d
  {
  }

  /** A positioned read into a buffer: as many bytes as the kernel likes, but none only at the end of the file. */
  ghost predicate DidRead(f: seq<byte>, off: int, len: nat, before: seq<byte>, after: seq<byte>, res: int) {
    && 0 <= off && 0 <= res <= len <= |before|
    && (res == 0 <==> len == 0 || off >= |f|)
    && (res > 0 ==> off + res <= |f| && after == f[off..off + res] + before[res..])
    && (res == 0 ==> after == before)
  }

  /** A positioned write of a prefix of the buffer. */
  ghost predicate DidWrite(f: seq<byte>, off: int, len: nat, buf: seq<byte>, g: seq<byte>, res: int) {
    && 0 <= off && 0 <= res <= len <= |buf| && (res == 0 <==> len == 0)
    && g == Splice(f, off, buf[..res])
  }

  /** The effect of one entry on the files and on its buffer, and its result. */
  ghost predicate Performed(sqe: Sqe, files: Files, files': Files, before: seq<byte>, after: seq<byte>, res: int) {
    if res < 0 then files' == files && after == before
    else
      && sqe.fd in files
      && (sqe.opcode.Read? ==> files' == files && DidRead(files[sqe.fd], sqe.offset, sqe.len, before, after, res))
      && (sqe.opcode.Write? ==>
            && files'.Keys == files.Keys && files' == files[sqe.fd := files'[sqe.fd]] && after == before
            && DidWrite(files[sqe.fd], sqe.offset, sqe.len, before, files'[sqe.fd], res))
  }

  /** The ring memory after the posts `posted`, for distinct ids given out so far. */
  ghost predicate Records(entries: seq<Cqe>, posted: seq<Cqe>, idx: nat) {
    && Image(entries, posted) && UniqueIds(posted)
    && forall p :: 0 <= p < |posted| ==> 0 < posted[p].userData <= idx
  }

  lemma RecordsPost(entries: seq<Cqe>, posted: seq<Cqe>, idx: nat, c: Cqe)
    requires Records(entries, posted, idx) && 0 < c.userData <= idx
    requires forall p :: 0 <= p < |posted| ==> posted[p].userData != c.userData
    ensures Records(entries[Slot(|posted|, |entries|) := c], posted + [c], idx)
  {
    ImagePost(entries, posted, c);
  }

  // ---------- What has been acknowledged ----------

  /** The first position with a failure, or the number of posts if there is none. */
  ghost function FirstFailed(posted: seq<Cqe>): (f: nat)
    ensures f <= |posted|
  {
    if posted == [] then 0
    else
      var last := |posted| - 1;
      var before := FirstFailed(posted[..last]);
      if before < last || posted[last].res < 0 then before else |posted|
  }

  lemma {:induction false} FirstFailedIsFirst(posted: seq<Cqe>)
    ensures FirstFailed(posted) < |posted| ==> posted[FirstFailed(posted)].res < 0
    ensures forall p :: 0 <= p < FirstFailed(posted) ==> posted[p].res >= 0
  {
    if posted != [] { FirstFailedIsFirst(posted[..|posted| - 1]); }
  }

  /** The positions acknowledged when everything in `posted` has been returned: all but the failures, in order. */
  ghost function Sent(posted: seq<Cqe>): (g: seq<nat>) {
    if posted == [] then []
    else
      var last := |posted| - 1;
      Sent(posted[..last]) + if posted[last].res >= 0 then [last] else []
  }

  /** Below the first failure `f` every position is acknowledged; after it come only later positions. */
  ghost predicate SentForm(g: seq<nat>, f: nat, t: nat) {
    && f <= |g| && (f == t ==> |g| == t)
    && (forall i :: 0 <= i < f ==> g[i] == i)
    && (forall i :: f <= i < |g| ==> f < g[i] < t)
  }

  lemma {:induction false} SentIs(posted: seq<Cqe>)
    ensures SentForm(Sent(posted), FirstFailed(posted), |posted|)
  {
    if posted != [] {
      var last := |posted| - 1;
      SentIs(posted[..last]);
      SentGrows(Sent(posted[..last]), FirstFailed(posted[..last]), last, posted[last].res >= 0);
    }
  }

  lemma SentGrows(g: seq<nat>, f: nat, t: nat, ok: bool)
    requires SentForm(g, f, t) && f <= t
    ensures SentForm(g + (if ok then [t] else []), (if f < t || !ok then f else t + 1), t + 1)
  {
  }

  lemma ReturnedNext(posted: seq<Cqe>, c: Cqe)
    ensures Sent(posted + [c]) == Sent(posted) + (if c.res >= 0 then [|posted|] else [])
    ensures FirstFailed(posted + [c])
            == (if FirstFailed(posted) < |posted| || c.res < 0 then FirstFailed(posted) else |posted| + 1)
  {
    assert (posted + [c])[..|posted|] == posted;
  }

  /** A completion stalls the ring exactly when it fills it behind an earlier failure. */
  lemma FilledStalls(posted: seq<Cqe>, c: Cqe, n: nat)
    requires n > 1
    ensures var f, f' := FirstFailed(posted), FirstFailed(posted + [c]);
            && (|posted| + 1 == f' + n <==> f < |posted| && |posted| + 1 == f + n)
            && (f' == |posted| + 1 <==> f == |posted| && c.res >= 0)
            && (f < |posted| && |posted| < f + n && |posted| + 1 != f' + n ==> |posted| + 1 < f' + n)
            && (f == |posted| && f' <= |posted| ==> |posted| + 1 < f' + n)
  {
    ReturnedNext(posted, c);
  }

  function Min(a: nat, b: nat): nat {
    if a < b then a else b
  }

  /** The slots in the completer's map once the first `k` of the acks `g` have been handled and the head rests on
      `f`. */
  ghost function Held(g: seq<nat>, f: nat, k: nat, n: nat): set<nat>
    requires n > 0 && k <= |g|
  {
    set i | f <= i < k :: Slot(g[i], n)
  }

  /** Up to the first failure, acks take the head forward one by one. */
  lemma AckInOrder(n: nat, head: nat)
    requires n > 0
    ensures AckSlot(n, Acks(head, {}), Slot(head, n)) == Acks(head + 1, {})
  {
    var x := Slot(head, n);
    assert {} + {x} == {x};
    assert {x} - {x} == {};
    assert RunLength({x}, x) == 1 + RunLength({}, x + 1);
    assert Rest({x}, x) == Rest({}, x + 1);
  }

  /** From there on they are only stored. */
  lemma AckStored(n: nat, head: nat, unacked: set<nat>, x: nat)
    requires n > 0 && Slot(head, n) !in unacked && Slot(head, n) != x
    ensures AckSlot(n, Acks(head, unacked), x) == Acks(head, unacked + {x})
  {
  }

  lemma HeldNext(g: seq<nat>, f: nat, k: nat, n: nat)
    requires n > 0 && f <= k < |g|
    ensures Held(g, f, k + 1, n) == Held(g, f, k, n) + {Slot(g[k], n)}
  {
  }

  lemma HeldSame(g: seq<nat>, f: nat, g': seq<nat>, f': nat, k: nat, n: nat)
    requires n > 0 && k <= |g| <= |g'| && g == g'[..|g|] && (f' == f || (k <= f && k <= f'))
    ensures Held(g', f', k, n) == Held(g, f, k, n)
  {
    assert forall i :: 0 <= i < k ==> g'[i] == g[i];
  }

  /** The effect of the next ack, whether it is before or after the first failure. */
  lemma {:induction false} AckNext(n: nat, g: seq<nat>, f: nat, t: nat, k: nat)
    requires n > 0 && SentForm(g, f, t) && k < |g| && t <= Min(k, f) + n
    ensures AckSlot(n, Acks(Min(k, f), Held(g, f, k, n)), Slot(g[k], n)) == Acks(Min(k + 1, f), Held(g, f, k + 1, n))
  {
    if k < f {
      assert Held(g, f, k, n) == {} && Held(g, f, k + 1, n) == {};
      AckInOrder(n, k);
    } else {
      forall i | f <= i <= k ensures Slot(g[i], n) != Slot(f, n) {
        SlotsDistinct(f, g[i], n);
      }
      AckStored(n, f, Held(g, f, k, n), Slot(g[k], n));
      HeldNext(g, f, k, n);
    }
  }

  /** `queue` holds the slots of the acks `g` from the `k`-th on. */
  ghost predicate Queued(queue: seq<nat>, g: seq<nat>, k: nat, n: nat) {
    n > 0 && k + |queue| == |g| && forall i :: 0 <= i < |queue| ==> queue[i] == Slot(g[k + i], n)
  }

  lemma QueuedNext(queue: seq<nat>, g: seq<nat>, k: nat, n: nat)
    requires Queued(queue, g, k, n) && queue != []
    ensures k < |g| && queue[0] == Slot(g[k], n) && Queued(queue[1..], g, k + 1, n)
  {
    var rest := queue[1..];
    assert queue[0] == Slot(g[k + 0], n);
    forall i | 0 <= i < |rest| ensures rest[i] == Slot(g[k + 1 + i], n) {
      assert queue[i + 1] == Slot(g[k + (i + 1)], n);
    }
  }

  /** Where head, map and channel are when the completions `returned` have been returned and the completer has handled
      the first `k` acks for them: the head is on the first failure, if the acks have got that far, with the
      later ones stored in the map. */
  ghost predicate AckState(n: nat, returned: seq<Cqe>, k: nat, position: nat, unacked: set<nat>, queue: seq<nat>) {
    && n > 0 && k <= |Sent(returned)|
    && position == Min(k, FirstFailed(returned))
    && unacked == Held(Sent(returned), FirstFailed(returned), k, n)
    && Queued(queue, Sent(returned), k, n)
  }

  /** The next ack. */
  lemma {:induction false} AckHandled(n: nat, returned: seq<Cqe>, k: nat, a: Acks, queue: seq<nat>)
    requires AckState(n, returned, k, a.head, a.unacked, queue) && queue != [] && |returned| <= a.head + n
    ensures var a' := AckSlot(n, a, queue[0]);
            AckState(n, returned, k + 1, a'.head, a'.unacked, queue[1..]) && a'.head >= a.head
  {
    SentIs(returned);
    QueuedNext(queue, Sent(returned), k, n);
    AckNext(n, Sent(returned), FirstFailed(returned), |returned|, k);
  }

  /** One more completion is returned: a success is put in the channel, and nothing else changes. */
  lemma {:induction false} AckReturned(n: nat, returned: seq<Cqe>, c: Cqe, k: nat, a: Acks, queue: seq<nat>)
    requires AckState(n, returned, k, a.head, a.unacked, queue)
    ensures c.res < 0 ==> AckState(n, returned + [c], k, a.head, a.unacked, queue)
    ensures c.res >= 0 ==> AckState(n, returned + [c], k, a.head, a.unacked, queue + [Slot(|returned|, n)])
  {
    SentIs(returned);
    ReturnedNext(returned, c);
    var g, g', f, f' := Sent(returned), Sent(returned + [c]), FirstFailed(returned), FirstFailed(returned + [c]);
    HeldSame(g, f, g', f', k, n);
  }

  lemma LastReturned(posted: seq<Cqe>)
    requires |posted| > 0
    ensures posted[..|posted| - 1] + [posted[|posted| - 1]] == posted[..|posted| - 0]
  {
  }

  /** The head never passes the first failure, and has got there, or to the end, once the channel is empty. */
  lemma {:induction false} AckPosition(n: nat, returned: seq<Cqe>, k: nat, a: Acks, queue: seq<nat>)
    requires AckState(n, returned, k, a.head, a.unacked, queue)
    ensures a.head <= FirstFailed(returned) && (queue == [] ==> a.head == FirstFailed(returned))
  {
    SentIs(returned);
  }

  /** A search that ends when the completion behind `returned` is visible or the channel is empty: it ends without
      success exactly when that completion has filled the ring behind a failure. */
  lemma {:induction false} SearchVerdict(n: nat, returned: seq<Cqe>, k: nat, a: Acks, queue: seq<nat>)
    requires AckState(n, returned, k, a.head, a.unacked, queue) && n > 1 && |returned| < a.head + n
    requires |returned| + 1 - a.head < n || |returned| == a.head || queue == []
    ensures !(|returned| + 1 - a.head < n || |returned| == a.head)
            <==> FirstFailed(returned) < |returned| && |returned| + 1 == FirstFailed(returned) + n
  {
    AckPosition(n, returned, k, a, queue);
  }

  /** What a request comes to: a result, or a search that never ends. */
  datatype Reply = Result(res: int) | Never

  datatype Request = Request(opcode: Opcode, fd: int, offset: int, len: nat)

  /** The entry `sqe` asks for `q` into or from `buf`, under the given id. */
  ghost predicate Asks(sqe: Sqe, q: Request, buf: array<byte>, id: nat) {
    && sqe.opcode == q.opcode && sqe.fd == q.fd && sqe.offset == q.offset && sqe.len == q.len
    && sqe.buf == buf && sqe.userData == id
  }

  /** The entries of `submitted` after the first `from` ask for the requests of `todo`, in order, under ids from `id`
      on. */
  ghost predicate AskInOrder(submitted: seq<Sqe>, from: nat, todo: seq<Request>, buf: array<byte>, id: nat) {
    && from <= |submitted| <= from + |todo|
    && forall i :: 0 <= i < |submitted| - from ==> Asks(submitted[from + i], todo[i], buf, id + i)
  }

  lemma AskNext(submitted: seq<Sqe>, from: nat, todo: seq<Request>, buf: array<byte>, id: nat, sqe: Sqe)
    requires AskInOrder(submitted, from, todo, buf, id) && |submitted| < from + |todo|
    requires Asks(sqe, todo[|submitted| - from], buf, id + |submitted| - from)
    ensures AskInOrder(submitted + [sqe], from, todo, buf, id)
  {
  }

  class IoRing {
    const sq: SubmitQueue
    const n: nat
    const entries: array<Cqe>
    const acks: AckTracker        // the completer and the head
    var tail: u32
    var queue: seq<nat>           // the completer's channel
    var idx: nat
    var files: Files
    ghost var posted: seq<Cqe>
    ghost var submitted: seq<Sqe> // the entry the kernel took for each of `posted`
    ghost var handled: nat        // acks the completer has handled

    ghost function Repr(): set<object>
    {
      {this, sq, sq.table, sq.entries, entries, acks}
    }

    ghost predicate Posted()
      reads this`tail, this`posted, this`idx, entries
    {
      entries.Length == n && RingSize(n) && tail == Wrap(|posted|) && Records(entries[..], posted, idx)
    }

    /** The completions returned so far, when the last `extra` have not been. */
    ghost function Returned(extra: nat): seq<Cqe>
      reads this`posted
      requires extra <= |posted|
    {
      posted[..|posted| - extra]
    }

    /** Every completion but the last `extra` has been returned, and acknowledged unless it is a failure. */
    ghost predicate Acknowledged(extra: nat)
      reads this`posted, this`handled, this`queue, acks
    {
      && acks.n == n && acks.Valid() && extra <= |posted| <= acks.position + n
      && AckState(n, Returned(extra), handled, acks.position, acks.unacked, queue)
    }

    /** No request has failed. */
    ghost predicate Clean()
      reads this`posted
    {
      FirstFailed(posted) == |posted|
    }

    /** The next completion will fill the ring behind a failure. */
    ghost predicate NextFills()
      reads this`posted
    {
      !Clean() && |posted| + 1 == FirstFailed(posted) + n
    }

    /** The ring is full of completions from the first failure on: the request that filled it never ends. */
    ghost predicate Stalled()
      reads this`posted
    {
      |posted| == FirstFailed(posted) + n
    }

    /** Between requests. */
    ghost predicate Valid()
      reads Repr()
    {
      && sq.Valid() && sq.Drained() && Posted() && Acknowledged(0)
      && (!Clean() ==> |posted| < FirstFailed(posted) + n) && |submitted| == |posted|
    }

    constructor (n: nat, m: nat, files: Files)
      requires RingSize(n) && RingSize(m)
      ensures Valid() && Clean() && fresh(Repr()) && this.files == files
    {
      var s := new SubmitQueue(n);
      var a := new AckTracker(m);
      sq, acks := s, a;
      this.n := m;
      entries := new Cqe[m](_ => ZERO);
      tail, queue, idx, posted, submitted, handled := 0, [], 0, [], [], 0;
      this.files := files;
    }

    /** The completer handles the next ack. */
    method HandleNext(ghost extra: nat)
      requires RingSize(n) && Acknowledged(extra) && queue != []
      modifies this`queue, this`handled, acks
      ensures Acknowledged(extra) && queue == old(queue)[1..] && handled == old(handled) + 1
      ensures acks.position >= old(acks.position)
    {
      AckHandled(n, Returned(extra), handled, Acks(acks.position, acks.unacked), queue);
      acks.Handle(queue[0]);
      queue := queue[1..];
      handled := handled + 1;
    }

    /** The completer handles the next `k` acks. */
    method RunCompleter(k: nat, ghost extra: nat)
      requires RingSize(n) && Acknowledged(extra) && k <= |queue|
      modifies this`queue, this`handled, acks
      ensures Acknowledged(extra) && queue == old(queue)[k..] && handled == old(handled) + k
      ensures acks.position >= old(acks.position)
    {
      var i := 0;
      while i < k
        invariant 0 <= i <= k && Acknowledged(extra) && queue == old(queue)[i..] && handled == old(handled) + i
        invariant acks.position >= old(acks.position)
      {
        HandleNext(extra);
        i := i + 1;
      }
    }

    /** The kernel waits for room in the completion ring; meanwhile the completer has handled any number of acks. */
    method MakeRoom()
      requires Posted() && Acknowledged(0) && (!Clean() ==> |posted| < FirstFailed(posted) + n)
      modifies this`queue, this`handled, acks
      ensures Acknowledged(0) && |posted| < acks.position + n
    {
      assert posted[..|posted|] == posted;
      var k: nat :| k <= |queue|;
      RunCompleter(k, 0);
      WrapMinus(|posted|, acks.position);
      while SubWord(tail, acks.head) >= n
        invariant Acknowledged(0) && SubWord(tail, acks.head) == |posted| - acks.position
        decreases |queue|
      {
        AckPosition(n, posted, handled, Acks(acks.position, acks.unacked), queue);
        RunCompleter(1, 0);
        WrapMinus(|posted|, acks.position);
      }
    }

    /** The kernel carries out an entry, or fails. */
    method Execute(sqe: Sqe) returns (res: int)
      requires sqe.buf != null && sqe.buf !in Repr() && sqe.len <= sqe.buf.Length
      modifies this`files, sqe.buf
      ensures Performed(sqe, old(files), files, old(sqe.buf[..]), sqe.buf[..], res)
    {
      var fail: bool := *;
      if fail || sqe.fd !in files || sqe.offset < 0 || sqe.opcode.Nop? { return -5; }
      var f, off := files[sqe.fd], sqe.offset;
      if sqe.opcode.Read? {
        if sqe.len == 0 || off >= |f| { return 0; }
        res :| 0 < res <= sqe.len && off + res <= |f|;
        ghost var before := sqe.buf[..];
        forall i | 0 <= i < res { sqe.buf[i] := f[off + i]; }
        assert sqe.buf[..] == f[off..off + res] + before[res..];
      } else {
        res :| 0 <= res <= sqe.len && (res == 0 <==> sqe.len == 0);
        files := files[sqe.fd := Splice(f, off, sqe.buf[..res])];
      }
    }

    /** The kernel stores a completion and moves the tail. */
    method Store(c: Cqe)
      requires Posted() && 0 < c.userData <= idx
      requires forall p :: 0 <= p < |posted| ==> posted[p].userData != c.userData
      modifies this`tail, this`posted, entries
      ensures Posted() && posted == old(posted) + [c]
    {
      ghost var before := entries[..];
      var slot := And(tail, n - 1);
      assert slot == Slot(|posted|, n) by { WordSlot(|posted|, n); }
      assert Records(before[slot := c], posted + [c], idx) by { RecordsPost(before, posted, idx, c); }
      assert Wrap(|posted| + 1) == AddWord(tail, 1) by { WrapPlus(|posted|, 1); }
      entries[slot] := c;
      assert entries[..] == before[slot := c];
      tail := AddWord(tail, 1);
      posted := posted + [c];
    }

    /** The kernel posts the completion. */
    method Post(c: Cqe)
      requires Posted() && Acknowledged(0) && |posted| < acks.position + n
      requires 0 < c.userData <= idx && forall p :: 0 <= p < |posted| ==> posted[p].userData != c.userData
      modifies this`tail, this`posted, entries
      ensures Posted() && Acknowledged(1) && posted == old(posted) + [c]
    {
      assert Returned(0) == posted;
      Store(c);
      assert Returned(1) == old(posted);
    }

    /** One pass over the ring for the last completion posted. */
    method Search(id: nat) returns (found: int)
      requires Posted() && |posted| > 0 && Acknowledged(1) && posted[|posted| - 1].userData == id
      ensures found == if Visible() then Slot(|posted| - 1, n) else -1
    {
      PassFinds(entries[..], posted, acks.position, |posted| - 1);
      found := Pass(entries, acks.head, tail, tail, id);
    }

    /** A pass for the last completion posted would find it. */
    ghost predicate Visible()
      reads this`posted, acks
    {
      |posted| - acks.position < n || |posted| - 1 == acks.position
    }

    /** Pass after pass, while the completer handles acks. Only when its channel is empty and the last pass has found
        nothing is there no end to it. */
    method SearchOn(id: nat) returns (found: int)
      requires Posted() && |posted| > 0 && Acknowledged(1) && posted[|posted| - 1].userData == id
      modifies this`queue, this`handled, acks
      ensures Acknowledged(1) && found == if Visible() then Slot(|posted| - 1, n) else -1
      ensures Visible() || queue == []
    {
      found := Search(id);
      while found < 0 && queue != []
        invariant Acknowledged(1) && found == if Visible() then Slot(|posted| - 1, n) else -1
        decreases |queue|
      {
        var k: nat :| 1 <= k <= |queue|;
        RunCompleter(k, 1);
        found := Search(id);
      }
    }

    /** The last completion posted has filled the ring behind a failure. */
    ghost predicate Filled()
      reads this`posted
    {
      |posted| > 0 && FirstFailed(Returned(1)) < |posted| - 1 && |posted| == FirstFailed(Returned(1)) + n
    }

    /** The search for the last completion ends with success, unless that has filled the ring behind a failure. */
    method Settle(id: nat) returns (found: int)
      requires Posted() && |posted| > 0 && Acknowledged(1) && posted[|posted| - 1].userData == id
      modifies this`queue, this`handled, acks
      ensures Acknowledged(1) && found == if Filled() then -1 else Slot(|posted| - 1, n)
    {
      found := SearchOn(id);
      SearchVerdict(n, Returned(1), handled, Acks(acks.position, acks.unacked), queue);
    }

    /** completer.complete, unless the result is a failure. */
    method Acknowledge(found: nat, res: int)
      requires |posted| > 0 && Acknowledged(1)
      requires found == Slot(|posted| - 1, n) && res == posted[|posted| - 1].res
      modifies this`queue
      ensures Acknowledged(0)
    {
      ghost var returned, last := Returned(1), posted[|posted| - 1];
      AckReturned(n, returned, last, handled, Acks(acks.position, acks.unacked), queue);
      LastReturned(posted);
      if res >= 0 { queue := queue + [found]; }
    }

    /** getCqe after Enter: search until the completion is found, then acknowledge it unless it is a failure. The search
        never ends exactly when this completion has filled the ring behind a failure. */
    method GetCqe(id: nat) returns (reply: Reply)
      requires Posted() && |posted| > 0 && Acknowledged(1) && posted[|posted| - 1].userData == id
      modifies this`queue, this`handled, acks
      ensures reply == if Filled() then Never else Result(posted[|posted| - 1].res)
      ensures reply.Result? ==> Acknowledged(0)
    {
      var found := Settle(id);
      if found < 0 {
        reply := Never;
      } else {
        assert entries[found] == posted[|posted| - 1] by { ImageWindow(entries[..], posted, |posted| - 1); }
        reply := Result(entries[found].res);
        Acknowledge(found, reply.res);
      }
    }

    /** The kernel carries the entry out and posts its completion, once there is room for it. */
    method Carry(sqe: Sqe) returns (res: int)
      requires Posted() && Acknowledged(0) && (!Clean() ==> |posted| < FirstFailed(posted) + n)
      requires sqe.buf != null && sqe.buf !in Repr() && sqe.len <= sqe.buf.Length && 0 < sqe.userData <= idx
      requires forall p :: 0 <= p < |posted| ==> posted[p].userData != sqe.userData
      modifies this`queue, this`handled, this`files, this`tail, this`posted, acks, entries, sqe.buf
      ensures Posted() && Acknowledged(1) && posted == old(posted) + [Cqe(sqe.userData, res, 0)]
      ensures Performed(sqe, old(files), files, old(sqe.buf[..]), sqe.buf[..], res)
    {
      MakeRoom();
      res := Execute(sqe);
      Post(Cqe(sqe.userData, res, 0));
    }

    /** SubmitEntry, ready and Enter(1, 1): the kernel takes the entry, carries it out and posts its completion. */
    method Submit(opcode: Opcode, fd: int, offset: int, len: nat, buf: array<byte>) returns (ghost res: int)
      requires Valid() && buf !in Repr() && len <= buf.Length
      modifies Repr(), buf
      ensures sq.Valid() && sq.Drained() && Posted() && Acknowledged(1)
      ensures posted == old(posted) + [Cqe(idx, res, 0)] && idx == old(idx) + 1
      ensures submitted == old(submitted) + [Sqe(opcode, fd, offset, len, buf, idx)]
      ensures Performed(Sqe(opcode, fd, offset, len, buf, idx), old(files), files, old(buf[..]), buf[..], res)
    {
      idx := idx + 1;
      var taken := sq.SubmitOne(Sqe(opcode, fd, offset, len, buf, idx));
      submitted := submitted + taken;
      res := Carry(taken[0]);
    }

    /** The completion just posted is found and returned, unless it has filled the ring behind a failure. */
    method Reap() returns (reply: Reply)
      requires Posted() && Acknowledged(1) && |posted| > 0 && posted[|posted| - 1].userData == idx
      modifies this`queue, this`handled, acks
      ensures reply == if Stalled() then Never else Result(posted[|posted| - 1].res)
      ensures reply.Result? ==> Acknowledged(0)
    {
      assert Filled() <==> Stalled() by {
        ghost var before, last := Returned(1), posted[|posted| - 1];
        assert posted == before + [last];
        FilledStalls(before, last, n);
      }
      reply := GetCqe(idx);
    }

    /** The same, when the ring was between requests before that completion: it is again, unless it is stalled now. */
    method Finish(ghost before: seq<Cqe>) returns (reply: Reply)
      requires sq.Valid() && sq.Drained() && Posted() && Acknowledged(1) && |submitted| == |posted|
      requires |posted| > 0 && before == Returned(1) && posted[|posted| - 1].userData == idx
      requires FirstFailed(before) < |before| ==> |before| < FirstFailed(before) + n
      modifies this`queue, this`handled, acks
      ensures var f, c := FirstFailed(before), posted[|posted| - 1];
              && reply == (if f < |before| && |posted| == f + n then Never else Result(c.res))
              && (Clean() <==> f == |before| && c.res >= 0)
      ensures (reply.Never? <==> Stalled()) && (reply.Result? ==> Valid())
    {
      assert posted == before + [posted[|posted| - 1]];
      FilledStalls(before, posted[|posted| - 1], n);
      reply := Reap();
      assert sq.Valid() && sq.Drained();
    }

    /** One request from submission to result: the caller gets the result of its own request, also after failures, until
        the request that fills the ring behind the first failure: that one never returns. */
    method Perform(opcode: Opcode, fd: int, offset: int, len: nat, buf: array<byte>)
      returns (reply: Reply, ghost res: int)
      requires Valid() && buf !in Repr() && len <= buf.Length
      modifies Repr(), buf
      ensures reply == if old(NextFills()) then Never else Result(res)
      ensures (reply.Never? <==> Stalled()) && (reply.Result? ==> Valid())
      ensures posted == old(posted) + [Cqe(idx, res, 0)] && (Clean() <==> old(Clean()) && res >= 0)
      ensures submitted == old(submitted) + [Sqe(opcode, fd, offset, len, buf, idx)] && idx == old(idx) + 1
      ensures Performed(Sqe(opcode, fd, offset, len, buf, idx), old(files), files, old(buf[..]), buf[..], res)
    {
      ghost var before := posted;
      res := Submit(opcode, fd, offset, len, buf);
      ghost var after := buf[..];
      reply := Finish(before);
      assert buf[..] == after;
    }

    /** Any number of requests, one after another, failures included. If none fails, all are served. Otherwise, with the
        first failure at position `f`, requests are served up to position `f + n - 2`, and the one after that
        never returns. What the kernel takes is the requests, in order. */
    method PerformAll(todo: seq<Request>, buf: array<byte>) returns (served: nat)
      requires Valid() && buf !in Repr() && forall i :: 0 <= i < |todo| ==> todo[i].len <= buf.Length
      modifies Repr(), buf
      ensures old(posted) <= posted
      ensures var f := FirstFailed(posted);
              served == if f < |posted| && f + n <= |old(posted)| + |todo| then f + n - 1 - |old(posted)| else |todo|
      ensures |posted| == |old(posted)| + served + if served < |todo| then 1 else 0
      ensures |submitted| == |posted| && old(submitted) <= submitted
      ensures AskInOrder(submitted, |old(submitted)|, todo, buf, old(idx) + 1)
    {
      served := 0;
      var stuck := false;
      while served < |todo| && !stuck
        invariant served + (if stuck then 1 else 0) <= |todo| && old(posted) <= posted
        invariant |submitted| == |posted| == |old(posted)| + served + if stuck then 1 else 0
        invariant if stuck then Stalled() else Valid() && idx == old(idx) + served
        invariant old(submitted) <= submitted && AskInOrder(submitted, |old(submitted)|, todo, buf, old(idx) + 1)
        decreases |todo| - served, !stuck
      {
        ghost var taken := submitted;
        var q := todo[served];
        var reply, res := Perform(q.opcode, q.fd, q.offset, q.len, buf);
        AskNext(taken, |old(submitted)|, todo, buf, old(idx) + 1, submitted[|taken|]);
        stuck := reply.Never?;
        if !stuck { served := served + 1; }
      }
    }
  }
}
