/** The submission side as a transition system: any number of goroutines in SubmitEntry, in the callback
    it returns, and in Enter, interleaved at every atomic operation. */
module Claims {
  import opened Words
  import opened Naming

  /** Program counter and locals of one goroutine. `k` and `h` are history: the number of claims made before its own,
      and how far the kernel had got when it loaded the head. */
  datatype Thread =
    | GetNext                                               // label getNext
    | TailLoaded(tail: u32)
    | HeadLoaded(tail: u32, head: u32, h: nat)
    | Claimed(tail: u32, head: u32, k: nat, h: nat)         // tail advanced, entered not looked at yet
    | Unentered(tail: u32, head: u32, k: nat, h: nat)       // entered was zero
    | Writing(slot: nat, head: u32, k: nat, h: nat)         // counted; the caller fills the entry
    | Committing(slot: nat, head: u32, k: nat, h: nat)      // callback called: completeWrite
    | Decrementing(slot: nat, head: u32, writes: u32, k: nat, h: nat)
    | Storing(slot: nat, head: u32, k: nat, h: nat)         // about to store into Array
    | Ready
    | Panicked
    | Locking                                     // enterLock: about to load writes
    | WritersSeen                                 // writes was not zero, about to load entered
    | Swapping                                    // about to swap entered
    | Inside                                      // between enterLock and enterUnlock
    | Left

  datatype State = State(
    n: nat,
    tail: u32,
    head: u32,
    entered: u32,
    writes: u32,
    table: seq<nat>,          // Array
    threads: map<nat, Thread>,
    claims: seq<nat>,         // history: the slot each successful swap of the tail claimed, in order
    taken: nat,               // history: the head without wrap-around
    dropped: set<nat>,        // history: the claims given up
    committed: set<nat>       // history: the claims whose entry has been committed
  )

  datatype Step =
    | Spawn(t: nat, enters: bool)   // a goroutine calls SubmitEntry, or Enter
    | Call(t: nat)                  // the caller has filled its entry and runs the callback
    | Kernel(count: nat)            // the kernel moves the submission head
    | Run(t: nat)                   // the next atomic operation of goroutine t

  function Init(n: nat): State {
    State(n, 0, 0, 0, 0, seq(n, _ => 0), map[], [], 0, {}, {})
  }

  /** A goroutine that has finished may be followed by another in its place. */
  predicate Finished(p: Thread) {
    p.Ready? || p.Left?
  }

  predicate Enabled(s: State, a: Step) {
    match a
    case Spawn(t, _) => if t in s.threads then Finished(s.threads[t]) else |s.threads| + 1 < WORD
    case Call(t) => t in s.threads && s.threads[t].Writing?
    case Kernel(_) => true
    case Run(t) =>
      t in s.threads && !s.threads[t].Writing? && !s.threads[t].Panicked? && !Finished(s.threads[t])
  }

  function Put(s: State, t: nat, p: Thread): State {
    s.(threads := s.threads[t := p])
  }

  function RunThread(s: State, t: nat, p: Thread): State
    requires s.n > 0
  {
    match p
    case GetNext => Put(s, t, TailLoaded(s.tail))
    case TailLoaded(tail) => Put(s, t, HeadLoaded(tail, s.head, s.taken))
    case HeadLoaded(tail, head, h) =>
      var next := And(tail, s.n - 1) + 1;
      if next <= s.n then
        if s.tail == tail && next < WORD then
          Put(s, t, Claimed(tail, head, |s.claims|, h)).(tail := next, claims := s.claims + [And(tail, s.n - 1)])
        else Put(s, t, GetNext)
      else Put(s, t, GetNext).(tail := if s.tail == tail then 0 else s.tail)
    case Claimed(tail, head, k, h) =>
      if s.entered != 0 then Put(s, t, GetNext).(dropped := s.dropped + {k})
      else Put(s, t, Unentered(tail, head, k, h))
    case Unentered(tail, head, k, h) =>
      Put(s, t, Writing(And(tail, s.n - 1), head, k, h)).(writes := AddWord(s.writes, 1))
    case Committing(slot, head, k, h) =>
      Put(s, t, if s.writes == 0 then Panicked else Decrementing(slot, head, s.writes, k, h))
    case Decrementing(slot, head, w, k, h) =>
      if s.writes == w && w > 0 then Put(s, t, Storing(slot, head, k, h)).(writes := w - 1)
      else Put(s, t, Committing(slot, head, k, h))
    case Storing(slot, head, k, h) =>
      Put(s, t, Ready).(table := if slot < |s.table| then s.table[slot := And(head, s.n - 1)] else s.table,
                        committed := s.committed + {k})
    case Locking => Put(s, t, if s.writes != 0 then WritersSeen else Swapping)
    case WritersSeen => Put(s, t, if s.entered == 1 then Locking else Swapping)
    case Swapping => if s.entered == 0 then Put(s, t, Inside).(entered := 1) else Put(s, t, Locking)
    case Inside => Put(s, t, Left).(entered := 0)
    case _ => s
  }

  function Do(s: State, a: Step): State
    requires s.n > 0 && Enabled(s, a)
  {
    match a
    case Spawn(t, enters) => Put(s, t, if enters then Locking else GetNext)
    case Call(t) =>
      var p := s.threads[t];
      Put(s, t, Committing(p.slot, p.head, p.k, p.h))
    case Kernel(count) => s.(head := AddWord(s.head, count), taken := s.taken + count)
    case Run(t) => RunThread(s, t, s.threads[t])
  }

  /** Each step of `run` leads from one of the states to the next. */
  ghost predicate Path(states: seq<State>, run: seq<Step>) {
    |states| == |run| + 1 && forall i :: 0 <= i < |run| ==> Makes(states[i], run[i], states[i + 1])
  }

  ghost predicate Makes(s: State, a: Step, s': State) {
    s.n > 0 && Enabled(s, a) && s' == Do(s, a)
  }

  /** `s` is reached from the empty ring of `n` slots by the steps of `run`. */
  ghost predicate Reaches(n: nat, run: seq<Step>, s: State) {
    n > 0 && exists states :: Path(states, run) && states[0] == Init(n) && states[|run|] == s
  }

  // ---------- The tail ----------

  ghost predicate TailInv(s: State) {
    && RingSize(s.n) && |s.table| == s.n && s.head == Wrap(s.taken)
    && s.tail == TailAfter(s.n, |s.claims|)
    && forall k :: 0 <= k < |s.claims| ==> s.claims[k] == Slot(k, s.n)
  }

  // ---------- The counters ----------

  /** Claimed, counted and not yet committed. */
  predicate Outstanding(p: Thread) {
    p.Writing? || p.Committing? || p.Decrementing?
  }

  ghost function Writers(threads: map<nat, Thread>): set<nat> {
    set t | t in threads && Outstanding(threads[t])
  }

  ghost function Holders(threads: map<nat, Thread>): set<nat> {
    set t | t in threads && threads[t].Inside?
  }

  /** A claim and the head it captured. */
  ghost predicate Captured(s: State, head: u32, k: nat, h: nat) {
    k < |s.claims| && head == Wrap(h) && h <= s.taken
  }

  ghost predicate ThreadInv(s: State, p: Thread)
    requires s.n > 0
  {
    match p
    case HeadLoaded(_, head, h) => head == Wrap(h) && h <= s.taken
    case Claimed(tail, head, k, h) => Captured(s, head, k, h) && And(tail, s.n - 1) == Slot(k, s.n)
    case Unentered(tail, head, k, h) => Captured(s, head, k, h) && And(tail, s.n - 1) == Slot(k, s.n)
    case Writing(slot, head, k, h) => Captured(s, head, k, h) && slot == Slot(k, s.n)
    case Committing(slot, head, k, h) => Captured(s, head, k, h) && slot == Slot(k, s.n)
    case Decrementing(slot, head, _, k, h) => Captured(s, head, k, h) && slot == Slot(k, s.n)
    case Storing(slot, head, k, h) => Captured(s, head, k, h) && slot == Slot(k, s.n)
    case Panicked => false
    case _ => true
  }

  ghost predicate CountInv(s: State) {
    && |s.threads| < WORD
    && s.writes == |Writers(s.threads)|
    && s.entered == |Holders(s.threads)| && s.entered <= 1
  }

  ghost predicate Inv(s: State) {
    TailInv(s) && CountInv(s) && forall t :: t in s.threads ==> ThreadInv(s, s.threads[t])
  }

  lemma PutWriters(threads: map<nat, Thread>, t: nat, p: Thread)
    requires t in threads
    ensures |Writers(threads[t := p])| - |Writers(threads)|
            == (if Outstanding(p) then 1 else 0) - (if Outstanding(threads[t]) then 1 else 0)
    ensures Outstanding(threads[t]) ==> |Writers(threads)| > 0
  {
    var w := Writers(threads);
    assert Writers(threads[t := p]) == if Outstanding(p) then w + {t} else w - {t};
    assert t in w <==> Outstanding(threads[t]);
  }

  lemma PutHolders(threads: map<nat, Thread>, t: nat, p: Thread)
    requires t in threads
    ensures |Holders(threads[t := p])| - |Holders(threads)|
            == (if p.Inside? then 1 else 0) - (if threads[t].Inside? then 1 else 0)
    ensures threads[t].Inside? ==> |Holders(threads)| > 0
  {
    var h := Holders(threads);
    assert Holders(threads[t := p]) == if p.Inside? then h + {t} else h - {t};
    assert t in h <==> threads[t].Inside?;
  }

  /** Moving one goroutine changes the counts by what it stops and starts counting for. */
  lemma PutCounts(threads: map<nat, Thread>, t: nat, p: Thread)
    requires t in threads
    ensures threads[t := p].Keys == threads.Keys
    ensures |Writers(threads[t := p])| - |Writers(threads)|
            == (if Outstanding(p) then 1 else 0) - (if Outstanding(threads[t]) then 1 else 0)
    ensures |Holders(threads[t := p])| - |Holders(threads)|
            == (if p.Inside? then 1 else 0) - (if threads[t].Inside? then 1 else 0)
    ensures Outstanding(threads[t]) ==> |Writers(threads)| > 0
    ensures threads[t].Inside? ==> |Holders(threads)| > 0
  {
    PutWriters(threads, t, p);
    PutHolders(threads, t, p);
  }

  lemma SpawnCounts(threads: map<nat, Thread>, t: nat, p: Thread)
    requires (t in threads ==> Finished(threads[t])) && !Outstanding(p) && !p.Inside?
    ensures threads[t := p].Keys == threads.Keys + {t}
    ensures Writers(threads[t := p]) == Writers(threads) && Holders(threads[t := p]) == Holders(threads)
    ensures |threads[t := p]| == |threads| + if t in threads then 0 else 1
  {
    assert threads[t := p].Keys == threads.Keys + {t};
    assert |threads[t := p]| == |threads[t := p].Keys| && |threads| == |threads.Keys|;
  }

  lemma WritersBound(threads: map<nat, Thread>)
    ensures |Writers(threads)| <= |threads.Keys|
  {
    SubsetSize(Writers(threads), threads.Keys);
  }

  lemma {:induction false} SubsetSize(a: set<nat>, b: set<nat>)
    requires a <= b
    ensures |a| <= |b|
  {
    if a != {} {
      var x :| x in a;
      SubsetSize(a - {x}, b - {x});
    }
  }

  lemma RunTail(s: State, t: nat)
    requires TailInv(s) && Enabled(s, Run(t))
    ensures TailInv(Do(s, Run(t)))
  {
    if s.threads[t].HeadLoaded? {
      TailSlot(s.n, |s.claims|);
    } else {
      RunQuiet(s, t);
    }
  }

  /** Only the swap of the tail touches the tail and the claims. */
  lemma RunQuiet(s: State, t: nat)
    requires s.n > 0 && Enabled(s, Run(t)) && !s.threads[t].HeadLoaded?
    ensures var s' := Do(s, Run(t));
            s'.n == s.n && s'.tail == s.tail && s'.claims == s.claims && s'.head == s.head && s'.taken == s.taken
            && |s'.table| == |s.table|
  {
  }

  /** The swap of the tail. */
  lemma {:induction false} RunSwap(s: State, t: nat)
    requires TailInv(s) && Enabled(s, Run(t)) && s.threads[t].HeadLoaded? && ThreadInv(s, s.threads[t])
    ensures ThreadInv(Do(s, Run(t)), Do(s, Run(t)).threads[t])
  {
    TailSlot(s.n, |s.claims|);
  }

  lemma {:induction false} RunOwn(s: State, t: nat)
    requires TailInv(s) && CountInv(s) && Enabled(s, Run(t)) && ThreadInv(s, s.threads[t])
    ensures ThreadInv(Do(s, Run(t)), Do(s, Run(t)).threads[t])
  {
    if s.threads[t].HeadLoaded? {
      RunSwap(s, t);
    } else {
      assert s.threads[t].Committing? ==> s.writes > 0 by { PutWriters(s.threads, t, Ready); }
      RunOther(s, t);
    }
  }

  lemma {:induction false} RunOther(s: State, t: nat)
    requires s.n > 0 && s.head == Wrap(s.taken) && Enabled(s, Run(t)) && ThreadInv(s, s.threads[t])
    requires !s.threads[t].HeadLoaded? && (s.threads[t].Committing? ==> s.writes > 0)
    ensures ThreadInv(Do(s, Run(t)), Do(s, Run(t)).threads[t])
  {
  }

  /** The claims only grow, so what is known of the other goroutines stays true. */
  lemma OthersKept(s: State, s': State, t: nat)
    requires s.n > 0 && s'.n == s.n && |s.claims| <= |s'.claims| && s.taken <= s'.taken
    requires s'.threads.Keys == s.threads.Keys + {t}
    requires forall i :: i in s.threads && i != t ==> s'.threads[i] == s.threads[i]
    requires forall i :: i in s.threads ==> ThreadInv(s, s.threads[i])
    ensures forall i :: i in s'.threads && i != t ==> ThreadInv(s', s'.threads[i])
  {
    forall i | i in s'.threads && i != t ensures ThreadInv(s', s'.threads[i]) {
      assert ThreadInv(s, s.threads[i]);
    }
  }

  lemma RunCount(s: State, t: nat)
    requires CountInv(s) && s.n > 0 && Enabled(s, Run(t))
    ensures CountInv(Do(s, Run(t)))
  {
    var s' := Do(s, Run(t));
    RunPuts(s, t);
    PutCounts(s.threads, t, s'.threads[t]);
    WritersBound(s'.threads);
    assert |s'.threads| == |s'.threads.Keys| == |s.threads.Keys| == |s.threads|;
    PutWriters(s.threads, t, Writing(0, 0, 0, 0));
    WritersBound(s.threads[t := Writing(0, 0, 0, 0)]);
    assert s.threads[t := Writing(0, 0, 0, 0)].Keys == s.threads.Keys;
    RunCounters(s, t, |Writers(s.threads)|);
  }

  /** The words move with the goroutine: `writes` with what it counts for, `entered` with the lock it holds. */
  lemma RunCounters(s: State, t: nat, w: nat)
    requires s.n > 0 && Enabled(s, Run(t)) && s.writes == w && s.entered <= 1
    requires !Outstanding(s.threads[t]) ==> w + 1 < WORD
    requires Outstanding(s.threads[t]) ==> w > 0
    requires s.threads[t].Inside? ==> s.entered == 1
    ensures var p, s' := s.threads[t], Do(s, Run(t));
            && s'.writes == w + (if Outstanding(s'.threads[t]) then 1 else 0) - (if Outstanding(p) then 1 else 0)
            && s'.entered == s.entered + (if s'.threads[t].Inside? then 1 else 0) - (if p.Inside? then 1 else 0)
            && s'.entered <= 1
  {
  }

  lemma RunPuts(s: State, t: nat)
    requires s.n > 0 && Enabled(s, Run(t))
    ensures var s' := Do(s, Run(t));
            && t in s'.threads && s'.threads == s.threads[t := s'.threads[t]]
            && s'.n == s.n && |s.claims| <= |s'.claims| && s'.taken == s.taken
  {
  }

  lemma RunStep(s: State, t: nat)
    requires Inv(s) && Enabled(s, Run(t))
    ensures Inv(Do(s, Run(t)))
  {
    RunTail(s, t);
    RunCount(s, t);
    RunOwn(s, t);
    RunPuts(s, t);
    OthersKept(s, Do(s, Run(t)), t);
  }

  lemma SpawnStep(s: State, t: nat, enters: bool)
    requires Inv(s) && Enabled(s, Spawn(t, enters))
    ensures Inv(Do(s, Spawn(t, enters)))
  {
    var s' := Do(s, Spawn(t, enters));
    SpawnCounts(s.threads, t, s'.threads[t]);
    assert |s'.threads| == |s'.threads.Keys|;
    OthersKept(s, s', t);
  }

  lemma CallStep(s: State, t: nat)
    requires Inv(s) && Enabled(s, Call(t))
    ensures Inv(Do(s, Call(t)))
  {
    var s' := Do(s, Call(t));
    PutCounts(s.threads, t, s'.threads[t]);
    assert |s'.threads| == |s'.threads.Keys|;
    OthersKept(s, s', t);
  }

  lemma KernelStep(s: State, count: nat)
    requires Inv(s)
    ensures Inv(Do(s, Kernel(count)))
  {
    var s' := Do(s, Kernel(count));
    WrapPlus(s.taken, count);
    forall i | i in s'.threads ensures ThreadInv(s', s'.threads[i]) {
      assert ThreadInv(s, s.threads[i]);
    }
  }

  lemma StepInv(s: State, a: Step)
    requires Inv(s) && Enabled(s, a)
    ensures Inv(Do(s, a)) && Do(s, a).n == s.n
  {
    match a
    case Run(t) => RunStep(s, t);
    case Spawn(t, enters) => SpawnStep(s, t, enters);
    case Call(t) => CallStep(s, t);
    case Kernel(count) => KernelStep(s, count);
  }

  lemma InitInv(n: nat)
    requires RingSize(n)
    ensures Inv(Init(n))
  {
    assert Writers(Init(n).threads) == {} && Holders(Init(n).threads) == {};
  }

  lemma LastStep(n: nat, run: seq<Step>, s: State) returns (r: State)
    requires run != [] && Reaches(n, run, s)
    ensures Reaches(n, run[..|run| - 1], r) && Makes(r, run[|run| - 1], s)
  {
    var states :| Path(states, run) && states[0] == Init(n) && states[|run|] == s;
    var last := |run| - 1;
    r := states[last];
    assert Makes(states[last], run[last], states[last + 1]);
    assert Path(states[..|run|], run[..last]);
  }

  lemma {:induction false} RunInv(n: nat, run: seq<Step>, s: State)
    requires RingSize(n) && Reaches(n, run, s)
    ensures Inv(s) && s.n == n
    decreases |run|
  {
    if run == [] {
      InitInv(n);
    } else {
      var r := LastStep(n, run, s);
      RunInv(n, run[..|run| - 1], r);
      StepInv(r, run[|run| - 1]);
    }
  }

  // ---------- What holds in every run ----------

  /** The k-th successful swap of the tail claims slot `k mod n` and leaves the tail at `(k mod n) + 1`, whoever makes
      it and however stale the load it is based on; any `n` consecutive claims are distinct slots. */
  lemma {:induction false} ClaimsCycle(n: nat, run: seq<Step>, s: State)
    requires RingSize(n) && Reaches(n, run, s)
    ensures forall k :: 0 <= k < |s.claims| ==> s.claims[k] == k % n
    ensures s.claims != [] ==> s.tail == (|s.claims| - 1) % n + 1
    ensures forall i, j :: 0 <= i < j < |s.claims| && j < i + n ==> s.claims[i] != s.claims[j]
  {
    RunInv(n, run, s);
    forall k | 0 <= k < |s.claims| ensures s.claims[k] == k % n { SlotIsMod(k, n); }
    if s.claims != [] { SlotIsMod(|s.claims| - 1, n); }
    forall i, j | 0 <= i < j < |s.claims| && j < i + n ensures s.claims[i] != s.claims[j] { SlotsDistinct(i, j, n); }
  }

  lemma WriterSlot(n: nat, run: seq<Step>, s: State, t: nat)
    requires RingSize(n) && Reaches(n, run, s) && t in s.threads && s.threads[t].Writing?
    ensures s.threads[t].slot == Slot(s.threads[t].k, n)
  {
    RunInv(n, run, s);
    assert ThreadInv(s, s.threads[t]);
  }

  /** Two goroutines filling entries share one if and only if their claims are whole laps apart: nothing
      else stops a claim from running into an entry still being written. */
  lemma {:induction false} WritersShare(n: nat, run: seq<Step>, s: State, t: nat, t': nat)
    requires RingSize(n) && Reaches(n, run, s)
    requires t in s.threads && t' in s.threads && s.threads[t].Writing? && s.threads[t'].Writing?
    requires s.threads[t].k < s.threads[t'].k
    ensures s.threads[t].slot == s.threads[t'].slot <==> (s.threads[t'].k - s.threads[t].k) % n == 0
  {
    WriterSlot(n, run, s, t);
    WriterSlot(n, run, s, t');
    LapsApart(s.threads[t].k, s.threads[t'].k, n);
  }

  /** Whatever the interleaving, and however stale the head it loaded: a goroutine that commits the `k`-th claim stores,
      at slot `k mod n` of Array and nowhere else, the slot of the position the kernel's head was at when it was loaded.
      That names the claimed entry if and only if the two agree modulo the ring size, that is lie whole laps apart. */
  lemma {:induction false} StoresCapturedHead(n: nat, run: seq<Step>, s: State, t: nat)
    requires RingSize(n) && Reaches(n, run, s) && t in s.threads && s.threads[t].Storing?
    ensures s.n == n == |s.table|
    ensures var p := s.threads[t];
            && p.k < |s.claims| && p.h <= s.taken && s.claims[p.k] == p.k % n
            && Do(s, Run(t)).table == s.table[p.k % n := p.h % n]
            && (p.h <= p.k ==> (p.h % n == s.claims[p.k] <==> (p.k - p.h) % n == 0))
  {
    RunInv(n, run, s);
    var p := s.threads[t];
    assert ThreadInv(s, p);
    StoreForm(s, t);
    SlotIsMod(p.h, n);
    SlotIsMod(p.k, n);
    if p.h <= p.k { LapsApart(p.h, p.k, n); }
  }

  lemma StoreForm(s: State, t: nat)
    requires RingSize(s.n) && |s.table| == s.n && t in s.threads && s.threads[t].Storing?
    requires s.threads[t].head == Wrap(s.threads[t].h) && s.threads[t].slot == Slot(s.threads[t].k, s.n)
    ensures Do(s, Run(t)).table == s.table[Slot(s.threads[t].k, s.n) := Slot(s.threads[t].h, s.n)]
  {
    WordSlot(s.threads[t].h, s.n);
  }

  /** `writes` counts exactly the entries claimed, counted and not committed, so completeWrite never panics;
      and no two goroutines are between enterLock and enterUnlock. */
  lemma CountersAgree(n: nat, run: seq<Step>, s: State)
    requires RingSize(n) && Reaches(n, run, s)
    ensures s.writes == |Writers(s.threads)|
    ensures forall t :: t in s.threads ==> !s.threads[t].Panicked?
    ensures forall t :: t in s.threads && (s.threads[t].Committing? || s.threads[t].Decrementing?) ==> s.writes > 0
    ensures s.entered == 1 <==> exists t :: t in s.threads && s.threads[t].Inside?
    ensures forall t, t' :: t in s.threads && t' in s.threads && s.threads[t].Inside? && s.threads[t'].Inside? ==>
              t == t'
  {
    RunInv(n, run, s);
    forall t | t in s.threads ensures !s.threads[t].Panicked? { assert ThreadInv(s, s.threads[t]); }
    forall t | t in s.threads && Outstanding(s.threads[t]) ensures s.writes > 0 { PutCounts(s.threads, t, Ready); }
    OneHolder(s.threads);
  }

  lemma OneHolder(threads: map<nat, Thread>)
    requires |Holders(threads)| <= 1
    ensures |Holders(threads)| == 1 <==> exists t :: t in threads && threads[t].Inside?
    ensures forall t, t' :: t in threads && t' in threads && threads[t].Inside? && threads[t'].Inside? ==> t == t'
  {
    var h := Holders(threads);
    assert forall t :: t in h <==> t in threads && threads[t].Inside?;
    forall t, t' | t in h && t' in h ensures t == t' { SubsetSize({t, t'}, h); }
    if |h| == 1 {
      var t :| t in h;
    }
  }
}
