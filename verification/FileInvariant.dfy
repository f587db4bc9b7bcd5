/** What every step of the file-handle protocol keeps. */
module FileInvariant {
  import opened Words
  import opened Window
  import opened FileProtocol

  /** How far the completer has got, counting what its inner loop has taken but not yet stored. */
  function Frontier(s: State): nat {
    s.head + if s.mover.Moving? then s.mover.seen else 0
  }

  ghost predicate Shape(s: State) {
    && RingSize(s.n) && |s.entries| == s.n
    && s.headWord == Wrap(s.head) && s.tailWord == Wrap(|s.posted|)
    && Frontier(s) <= |s.posted| <= s.head + s.n
    && Image(s.entries, s.posted)
    && (s.mover.Moving? ==> s.mover.cur == Slot(s.head, s.n) && s.mover.cur + s.mover.seen <= s.n)
  }

  ghost predicate Ids(s: State) {
    && (forall p :: 0 <= p < |s.posted| ==> s.posted[p].userData <= s.lastId)
    && (forall i :: i in s.readers <==> 0 < i <= s.lastId)
  }

  /** The reader of position `p` has returned successfully, and so has sent its ack. */
  predicate Accepted(s: State, p: nat) {
    && p < |s.posted|
    && s.posted[p].userData in s.readers
    && s.readers[s.posted[p].userData] == Done(s.posted[p].res, p)
    && s.posted[p].res >= 0
  }

  ghost predicate ReaderOk(s: State, id: nat, r: Reader)
    requires s.n > 0
  {
    match r
    case Acking(x, res, pos) =>
      && pos < |s.posted| && Slot(pos, s.n) == x
      && s.posted[pos].userData == id && s.posted[pos].res == res >= 0
    case Done(res, pos) =>
      && pos < |s.posted| && s.posted[pos].userData == id && s.posted[pos].res == res
      && (res >= 0 ==> pos in s.acked || pos in s.queued)
    case _ => true
  }

  ghost predicate Readers(s: State) {
    s.n > 0 && forall id :: id in s.readers ==> ReaderOk(s, id, s.readers[id])
  }

  ghost predicate Channel(s: State) {
    && s.n > 0
    && |s.queue| == |s.queued| <= CHANNEL
    && (forall i :: 0 <= i < |s.queue| ==> s.queue[i] == Slot(s.queued[i], s.n))
    && (forall p :: p in s.queued ==> Accepted(s, p) && p !in s.acked)
    && (forall i, j :: 0 <= i < j < |s.queued| ==> s.queued[i] != s.queued[j])
  }

  /** The completer's map holds exactly the slots of the processed acks at or past the frontier `f`,
      when `t` CQEs have been posted. */
  ghost predicate PendingSlots(t: nat, n: nat, f: nat, acked: set<nat>, unacked: set<nat>) {
    n > 0 && forall x :: x in unacked <==> 0 <= x < n && Occupant(t, n, x) >= f && Occupant(t, n, x) in acked
  }

  ghost predicate Pending(s: State) {
    PendingSlots(|s.posted|, s.n, Frontier(s), s.acked, s.unacked)
  }

  /** Everything below the frontier `f` has a processed ack, and every processed ack is either below
      the frontier or pending in the map: head movement counts deletions. */
  ghost predicate Counted(f: nat, acked: set<nat>, unacked: set<nat>) {
    (forall p :: 0 <= p < f ==> p in acked) && |acked| == f + |unacked|
  }

  ghost predicate Processed(s: State) {
    Counted(Frontier(s), s.acked, s.unacked) && forall p :: p in s.acked ==> Accepted(s, p)
  }

  /** Between acks the head rests at the first position without a processed ack, or at a lap boundary. */
  ghost predicate Settled(s: State) {
    s.n > 0 && (s.mover.Idle? ==> s.head !in s.acked || Slot(s.head, s.n) == 0)
  }

  ghost predicate Inv(s: State) {
    Shape(s) && Ids(s) && Readers(s) && Channel(s) && Pending(s) && Processed(s) && Settled(s)
  }

  lemma InitInv(n: nat)
    requires RingSize(n)
    ensures Inv(Init(n))
  {
  }

  /** A position not yet processed is at or past the frontier, so its CQE is in memory and its slot is its own. */
  lemma UnprocessedInWindow(s: State, p: nat)
    requires Shape(s) && Processed(s) && p < |s.posted| && p !in s.acked
    ensures Frontier(s) <= p && |s.posted| <= p + s.n
    ensures Occupant(|s.posted|, s.n, Slot(p, s.n)) == p
    ensures s.entries[Slot(p, s.n)] == s.posted[p]
  {
    OccupantInWindow(|s.posted|, s.n, p);
  }

  /** Steps that change no reader, only extend the history of posts, and lose no ack, keep every reader's claim. */
  lemma ReadersKept(s: State, s': State)
    requires Readers(s)
    requires s'.n == s.n && s'.readers == s.readers && s.posted <= s'.posted
    requires forall p :: p in s.acked || p in s.queued ==> p in s'.acked || p in s'.queued
    ensures Readers(s')
  {
    forall id | id in s'.readers ensures ReaderOk(s', id, s'.readers[id]) {
      assert ReaderOk(s, id, s.readers[id]);
    }
  }

  lemma SubmitInv(s: State)
    requires Inv(s)
    ensures Inv(Do(s, Submit))
  {
  }

  lemma {:induction false} PostShape(s: State, c: Cqe)
    requires Shape(s) && Enabled(s, Post(c))
    ensures Shape(Do(s, Post(c)))
    ensures |s.posted| < s.head + s.n
  {
    WordSlot(|s.posted|, s.n);
    WrapPlus(|s.posted|, 1);
    WrapMinus(|s.posted|, s.head);
    ImagePost(s.entries, s.posted, c);
  }

  /** The slot about to be overwritten belongs to a position the head has passed. */
  lemma PostOverwritesPassed(s: State)
    requires Shape(s) && |s.posted| < s.head + s.n
    ensures Occupant(|s.posted|, s.n, Slot(|s.posted|, s.n)) < s.head
  {
    var t := |s.posted|;
    var p := Occupant(t, s.n, Slot(t, s.n));
    if p >= s.head { SlotsDistinct(p, t, s.n); }
  }

  lemma PendingPost(t: nat, n: nat, f: nat, acked: set<nat>, unacked: set<nat>)
    requires PendingSlots(t, n, f, acked, unacked)
    requires Occupant(t, n, Slot(t, n)) < f && t !in acked
    ensures PendingSlots(t + 1, n, f, acked, unacked)
  {
    assert forall x :: 0 <= x < n ==> Occupant(t + 1, n, x) == if x == Slot(t, n) then t else Occupant(t, n, x);
  }

  lemma PendingReceive(t: nat, n: nat, f: nat, acked: set<nat>, unacked: set<nat>, p: nat)
    requires PendingSlots(t, n, f, acked, unacked)
    requires f <= p && Occupant(t, n, Slot(p, n)) == p
    ensures PendingSlots(t, n, f, acked + {p}, unacked + {Slot(p, n)})
  {
  }

  lemma PendingDelete(t: nat, n: nat, f: nat, acked: set<nat>, unacked: set<nat>)
    requires PendingSlots(t, n, f, acked, unacked)
    requires Occupant(t, n, Slot(f, n)) == f
    ensures PendingSlots(t, n, f + 1, acked, unacked - {Slot(f, n)})
  {
  }

  lemma CountedDelete(f: nat, acked: set<nat>, unacked: set<nat>, x: nat)
    requires Counted(f, acked, unacked) && f in acked && x in unacked
    ensures Counted(f + 1, acked, unacked - {x})
  {
  }

  lemma PostIds(s: State, c: Cqe)
    requires Ids(s) && s.n == |s.entries| > 0 && Enabled(s, Post(c))
    ensures Ids(Do(s, Post(c)))
  {
  }

  lemma PostInv(s: State, c: Cqe)
    requires Inv(s) && Enabled(s, Post(c))
    ensures Inv(Do(s, Post(c)))
  {
    var s' := Do(s, Post(c));
    PostShape(s, c);
    PostIds(s, c);
    PostOverwritesPassed(s);
    PendingPost(|s.posted|, s.n, Frontier(s), s.acked, s.unacked);
    ReadersKept(s, s');
    AcksKept(s, s');
  }

  /** A match is the reader's own CQE, whatever snapshot led the scan to slot `x`. */
  lemma MatchIsOwn(s: State, id: nat, x: nat)
    requires Shape(s) && Ids(s) && Channel(s) && Processed(s) && id in s.readers && !s.readers[id].Done?
    requires x < s.n && s.entries[x].userData == id
    ensures var p := Occupant(|s.posted|, s.n, x);
            0 <= p && s.posted[p] == s.entries[x] && p !in s.acked && p !in s.queued
  {
    var p := Occupant(|s.posted|, s.n, x);
    assert s.entries[x] == Content(s.posted, s.n, x);
    assert p in s.acked || p in s.queued ==> Accepted(s, p);
  }

  /** A reader step touches only its own entry, and leaves every sent ack alone. */
  lemma ReadKeeps(s: State, id: nat)
    requires Inv(s) && Enabled(s, Read(id))
    ensures var s' := Do(s, Read(id));
            && Shape(s') && Ids(s') && Pending(s') && Settled(s')
            && (forall p :: p in s.acked || p in s.queued ==> Accepted(s', p))
            && (forall i :: i in s.readers && i != id ==> ReaderOk(s', i, s'.readers[i]))
  {
    var s' := Do(s, Read(id));
    forall p | p in s.acked || p in s.queued ensures Accepted(s', p) {
      assert Accepted(s, p);
    }
    forall i | i in s.readers && i != id ensures ReaderOk(s', i, s'.readers[i]) {
      assert ReaderOk(s, i, s.readers[i]);
    }
  }

  lemma ReadOwn(s: State, id: nat)
    requires Inv(s) && Enabled(s, Read(id))
    ensures ReaderOk(Do(s, Read(id)), id, Do(s, Read(id)).readers[id])
  {
    var r := s.readers[id];
    assert ReaderOk(s, id, r);
    if (r.First? || r.Second?) && r.x < s.n && s.entries[r.x].userData == id {
      MatchIsOwn(s, id, r.x);
    }
  }

  lemma ReadChannel(s: State, id: nat)
    requires Channel(s) && Processed(s) && Readers(s) && s.n == |s.entries| && Enabled(s, Read(id))
    requires forall p :: p in s.acked || p in s.queued ==> Accepted(Do(s, Read(id)), p)
    ensures Channel(Do(s, Read(id)))
  {
    var r := s.readers[id];
    assert ReaderOk(s, id, r);
    if r.Acking? {
      assert r.pos in s.acked || r.pos in s.queued ==> Accepted(s, r.pos);
      assert Accepted(Do(s, Read(id)), r.pos);
    }
  }

  lemma ReadInv(s: State, id: nat)
    requires Inv(s) && Enabled(s, Read(id))
    ensures Inv(Do(s, Read(id)))
  {
    ReadKeeps(s, id);
    ReadOwn(s, id);
    ReadChannel(s, id);
  }

  /** The TODO of completer.run: a slot never arrives while it is already in the map. */
  lemma NeverSeenTwice(s: State)
    requires Shape(s) && Channel(s) && Processed(s) && Pending(s) && s.queue != []
    ensures s.queue[0] !in s.unacked
  {
    assert s.queued[0] in s.queued;
    UnprocessedInWindow(s, s.queued[0]);
  }

  lemma ReceiveChannel(s: State)
    requires Channel(s) && s.n == |s.entries| && Enabled(s, Receive)
    ensures Channel(Do(s, Receive))
    ensures s.queued != [] && Accepted(s, s.queued[0]) && s.queued[0] !in s.acked
    ensures s.queue[0] == Slot(s.queued[0], s.n)
    ensures forall p :: p in s.queued ==> p == s.queued[0] || p in Do(s, Receive).queued
  {
    var s' := Do(s, Receive);
    var p := s.queued[0];
    assert s.queued == [p] + s'.queued;
    forall q | q in s'.queued ensures Accepted(s', q) && q !in s'.acked {
      assert q in s.queued && Accepted(s, q);
    }
  }

  lemma {:induction false} ReceiveProcessed(s: State)
    requires Shape(s) && Channel(s) && Pending(s) && Processed(s) && Enabled(s, Receive)
    ensures Processed(Do(s, Receive))
  {
    var s' := Do(s, Receive);
    ReceiveChannel(s);
    NeverSeenTwice(s);
    assert forall p :: p in s'.acked ==> Accepted(s, p) && Accepted(s', p);
  }

  lemma {:induction false} ReceiveInv(s: State)
    requires Inv(s) && Enabled(s, Receive)
    ensures Inv(Do(s, Receive))
  {
    var s' := Do(s, Receive);
    ReceiveChannel(s);
    UnprocessedInWindow(s, s.queued[0]);
    PendingReceive(|s.posted|, s.n, Frontier(s), s.acked, s.unacked, s.queued[0]);
    ReceiveProcessed(s);
    ReadersKept(s, s');
  }

  lemma {:induction false} LoadInv(s: State)
    requires Inv(s) && Enabled(s, Load)
    ensures Inv(Do(s, Load))
  {
    WordSlot(s.head, s.n);
    var s' := Do(s, Load);
    ReadersKept(s, s');
    AcksKept(s, s');
  }

  /** The slot the inner loop looks up is the slot of the frontier, while it stays inside the lap. */
  lemma LoopSlot(s: State)
    requires Shape(s) && Pending(s) && Processed(s) && s.mover.Moving? && s.mover.cur + s.mover.seen < s.n
    ensures Slot(Frontier(s), s.n) == s.mover.cur + s.mover.seen
    ensures s.mover.cur + s.mover.seen in s.unacked <==> Frontier(s) in s.acked
    ensures Frontier(s) in s.acked ==> Occupant(|s.posted|, s.n, s.mover.cur + s.mover.seen) == Frontier(s)
  {
    SlotPlus(s.head, s.mover.seen, s.n);
    assert Frontier(s) in s.acked ==> Accepted(s, Frontier(s));
    FrontierSlot(|s.posted|, s.n, Frontier(s), s.acked, s.unacked);
  }

  lemma FrontierSlot(t: nat, n: nat, f: nat, acked: set<nat>, unacked: set<nat>)
    requires PendingSlots(t, n, f, acked, unacked) && f <= t <= f + n && (f in acked ==> f < t)
    ensures Slot(f, n) in unacked <==> f in acked
    ensures f in acked ==> Occupant(t, n, Slot(f, n)) == f
  {
    if f < t { OccupantInWindow(t, n, f); }
  }

  lemma DeleteShape(s: State)
    requires Shape(s) && Pending(s) && Processed(s) && Enabled(s, Delete)
    ensures Shape(Do(s, Delete)) && Frontier(s) in s.acked && s.mover.cur + s.mover.seen == Slot(Frontier(s), s.n)
    ensures Occupant(|s.posted|, s.n, Slot(Frontier(s), s.n)) == Frontier(s)
  {
    LoopSlot(s);
    assert Accepted(s, Frontier(s));
  }

  /** Steps that change neither the readers nor the acks keep everything said about acks. */
  lemma AcksKept(s: State, s': State)
    requires Channel(s) && Processed(s)
    requires s'.n == s.n && s'.readers == s.readers && s.posted <= s'.posted
    requires s'.queue == s.queue && s'.queued == s.queued && s'.acked == s.acked
    ensures Channel(s') && forall p :: p in s'.acked ==> Accepted(s', p)
  {
    assert forall p :: p in s.acked || p in s.queued ==> Accepted(s, p) && Accepted(s', p);
  }

  lemma {:induction false} DeleteAcks(s: State)
    requires s.n == |s.entries| && Pending(s) && Counted(Frontier(s), s.acked, s.unacked) && Enabled(s, Delete)
    requires Frontier(s) in s.acked && s.mover.cur + s.mover.seen == Slot(Frontier(s), s.n)
    requires Occupant(|s.posted|, s.n, Slot(Frontier(s), s.n)) == Frontier(s)
    ensures Pending(Do(s, Delete)) && Counted(Frontier(Do(s, Delete)), s.acked, Do(s, Delete).unacked)
  {
    DeleteForm(s);
    DeleteSets(|s.posted|, s.n, Frontier(s), s.acked, s.unacked);
  }

  lemma DeleteSets(t: nat, n: nat, f: nat, acked: set<nat>, unacked: set<nat>)
    requires PendingSlots(t, n, f, acked, unacked) && Counted(f, acked, unacked)
    requires f in acked && Occupant(t, n, Slot(f, n)) == f
    ensures PendingSlots(t, n, f + 1, acked, unacked - {Slot(f, n)})
    ensures Counted(f + 1, acked, unacked - {Slot(f, n)})
  {
    PendingDelete(t, n, f, acked, unacked);
    CountedDelete(f, acked, unacked, Slot(f, n));
  }

  lemma DeleteForm(s: State)
    requires s.n == |s.entries| > 0 && Enabled(s, Delete)
    ensures var s' := Do(s, Delete);
            && Frontier(s') == Frontier(s) + 1 && s'.unacked == s.unacked - {s.mover.cur + s.mover.seen}
            && s'.posted == s.posted && s'.n == s.n && s'.acked == s.acked
  {
  }

  lemma {:induction false} DeleteInv(s: State)
    requires Inv(s) && Enabled(s, Delete)
    ensures Inv(Do(s, Delete))
  {
    var s' := Do(s, Delete);
    DeleteShape(s);
    DeleteAcks(s);
    ReadersKept(s, s');
    AcksKept(s, s');
  }

  lemma StoreShape(s: State)
    requires Shape(s) && Enabled(s, Store)
    ensures Shape(Do(s, Store)) && Frontier(Do(s, Store)) == Frontier(s)
  {
    WrapPlus(s.head, s.mover.seen);
  }

  lemma StoreSettled(s: State)
    requires Shape(s) && Pending(s) && Processed(s) && Enabled(s, Store)
    ensures Settled(Do(s, Store))
  {
    if s.mover.cur + s.mover.seen < s.n { LoopSlot(s); }
    SlotPlus(s.head, s.mover.seen, s.n);
  }

  lemma {:induction false} StoreInv(s: State)
    requires Inv(s) && Enabled(s, Store)
    ensures Inv(Do(s, Store))
  {
    var s' := Do(s, Store);
    StoreShape(s);
    StoreSettled(s);
    ReadersKept(s, s');
    AcksKept(s, s');
  }

  lemma {:induction false} StepInv(s: State, a: Step)
    requires Inv(s) && Enabled(s, a)
    ensures Inv(Do(s, a))
  {
    match a
    case Submit => SubmitInv(s);
    case Post(c) => PostInv(s, c);
    case Read(id) => ReadInv(s, id);
    case Receive => ReceiveInv(s);
    case Load => LoadInv(s);
    case Delete => DeleteInv(s);
    case Store => StoreInv(s);
  }

  lemma {:induction false} ContinuesInv(s: State, run: seq<Step>, s': State)
    requires Inv(s) && Continues(s, run, s')
    ensures Inv(s') && s'.n == s.n
    decreases |run|
  {
    if run != [] {
      var r := LastStep(s, run, s');
      ContinuesInv(s, run[..|run| - 1], r);
      StepInv(r, run[|run| - 1]);
    }
  }

  lemma RunInv(n: nat, run: seq<Step>, s: State)
    requires RingSize(n) && Reaches(n, run, s)
    ensures Inv(s) && s.n == n
  {
    InitInv(n);
    ContinuesInv(Init(n), run, s);
  }
}
