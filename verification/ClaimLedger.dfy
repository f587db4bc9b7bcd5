/** What becomes of every claim of a submission entry, and what SubmitEntry, its callback and Enter do on their own. */
module ClaimLedger {
  import opened Words
  import opened Naming
  import opened Claims

  // ---------- Every claim is accounted for ----------

  /** The claim a goroutine holds, or -1. */
  function Claim(p: Thread): int {
    match p
    case Claimed(_, _, k, _) => k
    case Unentered(_, _, k, _) => k
    case Writing(_, _, k, _) => k
    case Committing(_, _, k, _) => k
    case Decrementing(_, _, _, k, _) => k
    case Storing(_, _, k, _) => k
    case _ => -1
  }

  predicate HeldBy(s: State, t: nat, k: nat) {
    t in s.threads && Claim(s.threads[t]) == k
  }

  predicate Settled(s: State, k: nat) {
    k in s.dropped || k in s.committed
  }

  ghost predicate Ledger(s: State) {
    && (forall k: nat :: Settled(s, k) ==> k < |s.claims| && !(k in s.dropped && k in s.committed))
    && (forall t: nat, k: nat :: HeldBy(s, t, k) ==> k < |s.claims| && !Settled(s, k))
    && (forall t: nat, t': nat, k: nat :: HeldBy(s, t, k) && HeldBy(s, t', k) ==> t == t')
    && (forall k: nat :: k < |s.claims| ==> Settled(s, k) || exists t :: HeldBy(s, t, k))
  }

  /** One goroutine moves, and the claims it holds stay the same. */
  lemma {:induction false} LedgerSame(s: State, s': State, t: nat, p: Thread)
    requires Ledger(s) && s'.threads == s.threads[t := p]
    requires Claim(p) == if t in s.threads then Claim(s.threads[t]) else -1
    requires s'.claims == s.claims && s'.dropped == s.dropped && s'.committed == s.committed
    ensures Ledger(s')
  {
    forall i: nat, k: nat ensures HeldBy(s', i, k) <==> HeldBy(s, i, k) {
    }
    forall k: nat ensures Settled(s', k) <==> Settled(s, k) {
    }
  }

  /** One goroutine makes the next claim. */
  lemma {:induction false} LedgerClaim(s: State, s': State, t: nat, p: Thread)
    requires Ledger(s) && t in s.threads && Claim(s.threads[t]) == -1
    requires s'.threads == s.threads[t := p] && Claim(p) == |s.claims| && |s'.claims| == |s.claims| + 1
    requires s'.dropped == s.dropped && s'.committed == s.committed
    ensures Ledger(s')
  {
    var next := |s.claims|;
    forall i: nat, k: nat ensures HeldBy(s', i, k) <==> HeldBy(s, i, k) || (i == t && k == next) {
    }
    forall k: nat ensures Settled(s', k) <==> Settled(s, k) {
    }
    assert HeldBy(s', t, next);
  }

  /** One goroutine is done with its claim. */
  lemma {:induction false} LedgerSettles(s: State, s': State, t: nat, p: Thread, k: nat)
    requires Ledger(s) && HeldBy(s, t, k) && Claim(p) == -1
    requires s'.threads == s.threads[t := p] && s'.claims == s.claims
    requires || (s'.dropped == s.dropped + {k} && s'.committed == s.committed)
             || (s'.dropped == s.dropped && s'.committed == s.committed + {k})
    ensures Ledger(s')
  {
    forall i: nat, j: nat ensures HeldBy(s', i, j) <==> HeldBy(s, i, j) && j != k {
    }
    forall j: nat ensures Settled(s', j) <==> Settled(s, j) || j == k {
    }
  }

  /** What one operation of a goroutine does to the claims. */
  lemma RunForm(s: State, t: nat)
    requires s.n > 0 && Enabled(s, Run(t)) && (s.threads[t].Committing? ==> s.writes > 0)
    ensures var p, s' := s.threads[t], Do(s, Run(t));
            && t in s'.threads && s'.threads == s.threads[t := s'.threads[t]]
            && var p' := s'.threads[t];
               if p.HeadLoaded? && p'.Claimed? then
                 && Claim(p') == |s.claims| && |s'.claims| == |s.claims| + 1
                 && s'.dropped == s.dropped && s'.committed == s.committed
               else
                 && s'.claims == s.claims
                 && if p.Claimed? && s.entered != 0 then
                      p'.GetNext? && s'.dropped == s.dropped + {p.k} && s'.committed == s.committed
                    else if p.Storing? then
                      p'.Ready? && s'.dropped == s.dropped && s'.committed == s.committed + {p.k}
                    else Claim(p') == Claim(p) && s'.dropped == s.dropped && s'.committed == s.committed
  {
  }

  lemma {:induction false} RunLedger(s: State, t: nat)
    requires Ledger(s) && s.n > 0 && Enabled(s, Run(t)) && (s.threads[t].Committing? ==> s.writes > 0)
    ensures Ledger(Do(s, Run(t)))
  {
    var p, s' := s.threads[t], Do(s, Run(t));
    RunForm(s, t);
    var p' := s'.threads[t];
    if p.HeadLoaded? && p'.Claimed? {
      LedgerClaim(s, s', t, p');
    } else if p.Storing? || (p.Claimed? && s.entered != 0) {
      LedgerSettles(s, s', t, p', p.k);
    } else {
      LedgerSame(s, s', t, p');
    }
  }

  lemma {:induction false} StepLedger(s: State, a: Step)
    requires Inv(s) && Ledger(s) && Enabled(s, a)
    ensures Ledger(Do(s, a))
  {
    var s' := Do(s, a);
    match a
    case Run(t) =>
      assert s.threads[t].Committing? ==> s.writes > 0 by { PutWriters(s.threads, t, Ready); }
      RunLedger(s, t);
    case Spawn(t, _) => LedgerSame(s, s', t, s'.threads[t]);
    case Call(t) => LedgerSame(s, s', t, s'.threads[t]);
    case Kernel(_) =>
      assert forall i: nat, k: nat :: HeldBy(s', i, k) == HeldBy(s, i, k);
      assert forall k: nat :: Settled(s', k) == Settled(s, k);
  }

  lemma {:induction false} LedgerRun(n: nat, run: seq<Step>, s: State)
    requires RingSize(n) && Reaches(n, run, s)
    ensures Inv(s) && Ledger(s) && s.n == n
    decreases |run|
  {
    if run == [] {
      InitInv(n);
    } else {
      var r := LastStep(n, run, s);
      LedgerRun(n, run[..|run| - 1], r);
      StepInv(r, run[|run| - 1]);
      StepLedger(r, run[|run| - 1]);
    }
  }

  /** In every interleaving each claim has been committed, or given up, or is held by exactly one goroutine. */
  lemma {:induction false} ClaimAccounted(n: nat, run: seq<Step>, s: State, k: nat)
    requires RingSize(n) && Reaches(n, run, s) && k < |s.claims|
    ensures k in s.committed ==> k !in s.dropped && forall t :: !HeldBy(s, t, k)
    ensures k in s.dropped ==> k !in s.committed && forall t :: !HeldBy(s, t, k)
    ensures k !in s.committed && k !in s.dropped ==>
              exists t :: HeldBy(s, t, k) && forall t' :: HeldBy(s, t', k) ==> t' == t
  {
    LedgerRun(n, run, s);
    if !Settled(s, k) {
      var t :| HeldBy(s, t, k);
      assert forall t' :: HeldBy(s, t', k) ==> t' == t;
    }
  }

  ghost predicate SomeoneInside(s: State) {
    exists t :: t in s.threads && s.threads[t].Inside?
  }

  /** In every interleaving a claim is given up if and only if some goroutine is between enterLock and enterUnlock when
      the goroutine that made it looks at `entered`; if none is, that goroutine keeps its claim. */
  lemma {:induction false} GivenUpExactly(n: nat, run: seq<Step>, s: State, a: Step, k: nat)
    requires RingSize(n) && Reaches(n, run, s) && Enabled(s, a)
    ensures s.n == n && s.n > 0
    ensures k !in s.dropped && k in Do(s, a).dropped
            <==> a.Run? && s.threads[a.t].Claimed? && s.threads[a.t].k == k && SomeoneInside(s)
    ensures a.Run? && s.threads[a.t].Claimed? && !SomeoneInside(s) ==>
              Do(s, a).threads[a.t].Unentered? && Do(s, a).threads[a.t].k == s.threads[a.t].k
  {
    LedgerRun(n, run, s);
    OneHolder(s.threads);
    if a.Run? && s.threads[a.t].Claimed? { assert HeldBy(s, a.t, s.threads[a.t].k); }
  }

  // ---------- On their own ----------

  /** Goroutine `t` makes `i` steps from `s` to `s'`, and nobody else makes any. */
  ghost predicate Alone(s: State, t: nat, i: nat, s': State) {
    exists states: seq<State> :: AlonePath(states, t, i) && states[0] == s && states[i] == s'
  }

  ghost predicate AlonePath(states: seq<State>, t: nat, i: nat) {
    |states| == i + 1 && forall j :: 0 <= j < i ==> Makes(states[j], Run(t), states[j + 1])
  }

  lemma NoStep(s: State, t: nat)
    ensures Alone(s, t, 0, s)
  {
    assert AlonePath([s], t, 0);
  }

  lemma StepLast(s: State, t: nat, i: nat, s1: State, s2: State)
    requires Alone(s, t, i, s1) && Makes(s1, Run(t), s2)
    ensures Alone(s, t, i + 1, s2)
  {
    var states: seq<State> :| AlonePath(states, t, i) && states[0] == s && states[i] == s1;
    assert AlonePath(states + [s2], t, i + 1);
  }

  lemma One(s: State, t: nat, s1: State)
    requires Makes(s, Run(t), s1)
    ensures Alone(s, t, 1, s1)
  {
    NoStep(s, t);
    StepLast(s, t, 0, s, s1);
  }

  lemma Two(s: State, t: nat, s1: State, s2: State)
    requires Makes(s, Run(t), s1) && Makes(s1, Run(t), s2)
    ensures Alone(s, t, 2, s2)
  {
    One(s, t, s1);
    StepLast(s, t, 1, s1, s2);
  }

  lemma Three(s: State, t: nat, s1: State, s2: State, s3: State)
    requires Makes(s, Run(t), s1) && Makes(s1, Run(t), s2) && Makes(s2, Run(t), s3)
    ensures Alone(s, t, 3, s3)
  {
    Two(s, t, s1, s2);
    StepLast(s, t, 2, s2, s3);
  }

  lemma PutTwice(s: State, t: nat, p: Thread, p': Thread)
    ensures Put(Put(s, t, p), t, p') == Put(s, t, p')
  {
    assert s.threads[t := p][t := p'] == s.threads[t := p'];
  }

  /** There is room for one more writer. */
  lemma RoomForWriter(s: State, t: nat)
    requires CountInv(s) && t in s.threads && !Outstanding(s.threads[t])
    ensures s.writes + 1 < WORD
  {
    PutWriters(s.threads, t, Writing(0, 0, 0, 0));
    WritersBound(s.threads[t := Writing(0, 0, 0, 0)]);
    assert s.threads[t := Writing(0, 0, 0, 0)].Keys == s.threads.Keys;
    assert |s.threads| == |s.threads.Keys|;
  }

  // The five operations of SubmitEntry, after each of them.

  function LoadedTail(s: State, t: nat): State {
    Put(s, t, TailLoaded(s.tail))
  }

  function LoadedHead(s: State, t: nat): State {
    Put(s, t, HeadLoaded(s.tail, s.head, s.taken))
  }

  function Swapped(s: State, t: nat, slot: nat): State
    requires slot + 1 < WORD
  {
    Put(s, t, Claimed(s.tail, s.head, |s.claims|, s.taken)).(tail := slot + 1, claims := s.claims + [slot])
  }

  function SeenUnentered(s: State, t: nat, slot: nat): State
    requires slot + 1 < WORD
  {
    Put(s, t, Unentered(s.tail, s.head, |s.claims|, s.taken)).(tail := slot + 1, claims := s.claims + [slot])
  }

  function Given(s: State, t: nat, slot: nat): State
    requires slot + 1 < WORD && s.writes + 1 < WORD
  {
    Put(s, t, Writing(slot, s.head, |s.claims|, s.taken))
    .(tail := slot + 1, claims := s.claims + [slot], writes := s.writes + 1)
  }

  lemma Loads(s: State, t: nat)
    requires s.n > 0 && t in s.threads && s.threads[t].GetNext?
    ensures Makes(s, Run(t), LoadedTail(s, t)) && Makes(LoadedTail(s, t), Run(t), LoadedHead(s, t))
  {
    PutTwice(s, t, TailLoaded(s.tail), HeadLoaded(s.tail, s.head, s.taken));
  }

  lemma Swaps(s: State, t: nat, slot: nat)
    requires s.n > 0 && And(s.tail, s.n - 1) == slot && slot + 1 <= s.n && slot + 1 < WORD
    ensures Makes(LoadedHead(s, t), Run(t), Swapped(s, t, slot))
  {
    PutTwice(s, t, HeadLoaded(s.tail, s.head, s.taken), Claimed(s.tail, s.head, |s.claims|, s.taken));
  }

  lemma Looks(s: State, t: nat, slot: nat)
    requires s.n > 0 && slot + 1 < WORD && s.entered == 0
    ensures Makes(Swapped(s, t, slot), Run(t), SeenUnentered(s, t, slot))
  {
    PutTwice(s, t, Claimed(s.tail, s.head, |s.claims|, s.taken), Unentered(s.tail, s.head, |s.claims|, s.taken));
  }

  lemma Counts(s: State, t: nat, slot: nat)
    requires s.n > 0 && And(s.tail, s.n - 1) == slot && slot + 1 < WORD && s.writes + 1 < WORD
    ensures Makes(SeenUnentered(s, t, slot), Run(t), Given(s, t, slot))
  {
    PutTwice(s, t, Unentered(s.tail, s.head, |s.claims|, s.taken), Writing(slot, s.head, |s.claims|, s.taken));
  }

  lemma {:induction false} ClaimsAlone(s: State, t: nat, slot: nat)
    requires TailInv(s) && t in s.threads && s.threads[t].GetNext? && s.entered == 0 && s.writes + 1 < WORD
    requires slot == Slot(|s.claims|, s.n)
    ensures slot + 1 < WORD && Alone(s, t, 5, Given(s, t, slot))
  {
    assert And(s.tail, s.n - 1) == slot < s.n by { TailSlot(s.n, |s.claims|); }
    Loads(s, t);
    Swaps(s, t, slot);
    Three(s, t, LoadedTail(s, t), LoadedHead(s, t), Swapped(s, t, slot));
    Looks(s, t, slot);
    StepLast(s, t, 3, Swapped(s, t, slot), SeenUnentered(s, t, slot));
    Counts(s, t, slot);
    StepLast(s, t, 4, SeenUnentered(s, t, slot), Given(s, t, slot));
  }

  /** SubmitEntry, called when nobody is in Enter and left alone, returns after five operations with the next entry of
      the cycle, one more claim and one more writer, and changes nothing else. */
  lemma {:induction false} SubmitEntryAlone(n: nat, run: seq<Step>, s: State, t: nat)
    requires RingSize(n) && Reaches(n, run, s) && t in s.threads && s.threads[t].GetNext? && s.entered == 0
    ensures var k := |s.claims|;
            && s.writes + 1 < WORD
            && Alone(s, t, 5, s.(tail := k % n + 1, claims := s.claims + [k % n], writes := s.writes + 1,
                                 threads := s.threads[t := Writing(k % n, s.head, k, s.taken)]))
  {
    RunInv(n, run, s);
    RoomForWriter(s, t);
    ClaimsAlone(s, t, Slot(|s.claims|, n));
    SlotIsMod(|s.claims|, n);
  }

  // The three operations of the callback, after the first two.

  function LoadedWrites(s: State, t: nat, p: Thread): State
    requires p.Writing?
  {
    Put(s, t, Decrementing(p.slot, p.head, s.writes, p.k, p.h))
  }

  function Uncounted(s: State, t: nat, p: Thread): State
    requires p.Writing? && s.writes > 0
  {
    Put(s, t, Storing(p.slot, p.head, p.k, p.h)).(writes := s.writes - 1)
  }

  lemma {:induction false} CommitSteps(s: State, t: nat, p: Thread)
    requires s.n > 0 && p.Writing? && s.writes > 0
    ensures Makes(Put(s, t, Committing(p.slot, p.head, p.k, p.h)), Run(t), LoadedWrites(s, t, p))
    ensures Makes(LoadedWrites(s, t, p), Run(t), Uncounted(s, t, p))
  {
    var d := Decrementing(p.slot, p.head, s.writes, p.k, p.h);
    PutTwice(s, t, Committing(p.slot, p.head, p.k, p.h), d);
    PutTwice(s, t, d, Storing(p.slot, p.head, p.k, p.h));
  }

  lemma {:induction false} StoreStep(s: State, t: nat, p: Thread)
    requires s.n > 0 && p.Writing? && s.writes > 0 && p.slot < |s.table|
    ensures Makes(Uncounted(s, t, p), Run(t),
                  Put(s, t, Ready).(writes := s.writes - 1, table := s.table[p.slot := And(p.head, s.n - 1)],
                                    committed := s.committed + {p.k}))
  {
    PutTwice(s, t, Storing(p.slot, p.head, p.k, p.h), Ready);
  }

  lemma {:induction false} CommitsAlone(s: State, t: nat, p: Thread)
    requires s.n > 0 && p.Writing? && s.writes > 0 && p.slot < |s.table|
    ensures Alone(Put(s, t, Committing(p.slot, p.head, p.k, p.h)), t, 3,
                  Put(s, t, Ready).(writes := s.writes - 1, table := s.table[p.slot := And(p.head, s.n - 1)],
                                    committed := s.committed + {p.k}))
  {
    CommitSteps(s, t, p);
    StoreStep(s, t, p);
    Three(Put(s, t, Committing(p.slot, p.head, p.k, p.h)), t, LoadedWrites(s, t, p), Uncounted(s, t, p),
          Put(s, t, Ready).(writes := s.writes - 1, table := s.table[p.slot := And(p.head, s.n - 1)],
                            committed := s.committed + {p.k}));
  }

  /** The callback, left alone, uncounts the writer and stores the captured head, masked, at the claimed slot. */
  lemma {:induction false} CallbackAlone(n: nat, run: seq<Step>, s: State, t: nat)
    requires RingSize(n) && Reaches(n, run, s) && t in s.threads && s.threads[t].Writing?
    ensures var p := s.threads[t];
            && s.n == n && s.writes > 0 && p.slot < |s.table|
            && Alone(Do(s, Call(t)), t, 3,
                     s.(writes := s.writes - 1, table := s.table[p.slot := And(p.head, n - 1)],
                        threads := s.threads[t := Ready], committed := s.committed + {p.k}))
  {
    RunInv(n, run, s);
    var p := s.threads[t];
    assert ThreadInv(s, p);
    PutWriters(s.threads, t, Ready);
    CommitsAlone(s, t, p);
  }

  // enterLock.

  lemma {:induction false} LockSteps(s: State, t: nat)
    requires s.n > 0 && t in s.threads && s.threads[t].Locking? && s.entered <= 1
    ensures s.entered == 0 ==>
              Alone(s, t, if s.writes == 0 then 2 else 3, s.(entered := 1, threads := s.threads[t := Inside]))
    ensures s.entered == 1 ==> Alone(s, t, 2, s)
  {
    var s1, s2 := Put(s, t, WritersSeen), Put(s, t, Swapping);
    var s3 := if s.entered == 0 then Put(s, t, Inside).(entered := 1) else s;
    if s.writes == 0 {
      SwapEntered(s, t);
      Two(s, t, s2, s3);
    } else {
      SeeWriters(s, t);
      if s.entered == 0 {
        SwapEntered(s, t);
        Three(s, t, s1, s2, s3);
      } else {
        Two(s, t, s1, s);
      }
    }
  }

  lemma SwapEntered(s: State, t: nat)
    requires s.n > 0 && t in s.threads && s.threads[t].Locking? && s.entered <= 1
    ensures Makes(Put(s, t, Swapping), Run(t), if s.entered == 0 then Put(s, t, Inside).(entered := 1) else s)
  {
    PutTwice(s, t, Swapping, Locking);
    PutTwice(s, t, Swapping, Inside);
    assert s.threads[t := Locking] == s.threads;
  }

  lemma SeeWriters(s: State, t: nat)
    requires s.n > 0 && t in s.threads && s.threads[t].Locking? && s.entered <= 1
    ensures Makes(Put(s, t, WritersSeen), Run(t), if s.entered == 1 then s else Put(s, t, Swapping))
  {
    PutTwice(s, t, WritersSeen, Swapping);
    PutTwice(s, t, WritersSeen, Locking);
    assert s.threads[t := Locking] == s.threads;
  }

  /** enterLock, left alone, gets in if and only if nobody is in; otherwise it is back at its start after two
      operations. It does not wait for writers. enterUnlock lets the next one in. */
  lemma {:induction false} EnterAlone(n: nat, run: seq<Step>, s: State, t: nat)
    requires RingSize(n) && Reaches(n, run, s) && t in s.threads
    ensures s.threads[t].Locking? && !SomeoneInside(s) ==>
              Alone(s, t, if s.writes == 0 then 2 else 3, s.(entered := 1, threads := s.threads[t := Inside]))
    ensures s.threads[t].Locking? && SomeoneInside(s) ==> Alone(s, t, 2, s)
    ensures s.threads[t].Inside? ==> Alone(s, t, 1, s.(entered := 0, threads := s.threads[t := Left]))
  {
    RunInv(n, run, s);
    OneHolder(s.threads);
    assert s.entered == if SomeoneInside(s) then 1 else 0;
    if s.threads[t].Locking? { LockSteps(s, t); }
    if s.threads[t].Inside? { One(s, t, s.(entered := 0, threads := s.threads[t := Left])); }
  }

  // ---------- From wherever they stand ----------

  lemma StepFirst(s: State, t: nat, s1: State, i: nat, s2: State)
    requires Makes(s, Run(t), s1) && Alone(s1, t, i, s2)
    ensures Alone(s, t, i + 1, s2)
  {
    var states: seq<State> :| AlonePath(states, t, i) && states[0] == s1 && states[i] == s2;
    var longer := [s] + states;
    forall j | 0 <= j < i + 1 ensures Makes(longer[j], Run(t), longer[j + 1]) {
      if j > 0 { assert Makes(states[j - 1], Run(t), states[j - 1 + 1]); }
    }
    assert AlonePath(longer, t, i + 1);
  }

  /** In SubmitEntry, before it returns. */
  predicate Claiming(p: Thread) {
    p.GetNext? || p.TailLoaded? || p.HeadLoaded? || p.Claimed? || p.Unentered?
  }

  /** In the callback. */
  predicate CallingBack(p: Thread) {
    p.Committing? || p.Decrementing? || p.Storing?
  }

  /** In enterLock. */
  predicate WaitingToEnter(p: Thread) {
    p.Locking? || p.WritersSeen? || p.Swapping?
  }

  function Stage(p: Thread): nat {
    match p
    case TailLoaded(_) => 3
    case HeadLoaded(_, _, _) => 2
    case Claimed(_, _, _, _) => 1
    case _ => 0
  }

  lemma ClaimingStep(s: State, t: nat)
    requires s.n > 0 && t in s.threads && Claiming(s.threads[t]) && s.entered == 0
    ensures Enabled(s, Run(t))
    ensures var p, s' := s.threads[t], Do(s, Run(t));
            && s'.entered == 0 && t in s'.threads
            && (p.Unentered? ==> s'.threads[t].Writing?)
            && (!p.Unentered? ==> Claiming(s'.threads[t]))
            && (!p.GetNext? && !p.Unentered? && !s'.threads[t].GetNext? && !s'.threads[t].Unentered? ==>
                  Stage(s'.threads[t]) < Stage(p))
  {
  }

  /** Wherever SubmitEntry stands, however stale what it has loaded: with nobody in Enter and left alone it returns, at
      the latest after nine operations. */
  lemma {:induction false} SubmitEntryReturns(s: State, t: nat) returns (i: nat, r: State)
    requires Inv(s) && t in s.threads && Claiming(s.threads[t]) && s.entered == 0
    ensures i <= 5 + (if s.threads[t].GetNext? then 0 else Stage(s.threads[t]) + 1)
    ensures Alone(s, t, i, r) && t in r.threads && r.threads[t].Writing?
    decreases if s.threads[t].GetNext? then 0 else Stage(s.threads[t]) + 1,
              if s.threads[t].Unentered? then 0 else 1
  {
    if s.threads[t].GetNext? {
      RoomForWriter(s, t);
      var slot := Slot(|s.claims|, s.n);
      ClaimsAlone(s, t, slot);
      i, r := 5, Given(s, t, slot);
    } else {
      var s' := Do(s, Run(t));
      ClaimingStep(s, t);
      if s.threads[t].Unentered? {
        One(s, t, s');
        i, r := 1, s';
      } else {
        StepInv(s, Run(t));
        i, r := SubmitEntryReturns(s', t);
        StepFirst(s, t, s', i, r);
        i := i + 1;
      }
    }
  }

  /** Wherever the callback stands, left alone it returns, at the latest after four operations. */
  lemma {:induction false} CallbackReturns(s: State, t: nat) returns (i: nat, r: State)
    requires s.n > 0 && t in s.threads && CallingBack(s.threads[t]) && (s.threads[t].Storing? || s.writes > 0)
    ensures i <= 4 && Alone(s, t, i, r) && t in r.threads && r.threads[t].Ready?
  {
    var p := s.threads[t];
    var s1 := Do(s, Run(t));
    if p.Storing? {
      One(s, t, s1);
      i, r := 1, s1;
    } else if p.Decrementing? && p.writes == s.writes {
      r := Do(s1, Run(t));
      Two(s, t, s1, r);
      i := 2;
    } else if p.Committing? {
      i, r := CommitReturns(s, t);
    } else {
      i, r := CommitReturns(s1, t);
      StepFirst(s, t, s1, i, r);
      i := i + 1;
    }
  }

  lemma {:induction false} CommitReturns(s: State, t: nat) returns (i: nat, r: State)
    requires s.n > 0 && t in s.threads && s.threads[t].Committing? && s.writes > 0
    ensures i == 3 && Alone(s, t, i, r) && t in r.threads && r.threads[t].Ready?
  {
    var s1 := Do(s, Run(t));
    var s2 := Do(s1, Run(t));
    r := Do(s2, Run(t));
    Three(s, t, s1, s2, r);
    i := 3;
  }

  /** Wherever enterLock stands, with nobody in and left alone it gets in, at the latest after three operations. */
  lemma {:induction false} EnterGetsIn(s: State, t: nat) returns (i: nat, r: State)
    requires s.n > 0 && t in s.threads && WaitingToEnter(s.threads[t]) && s.entered == 0
    ensures i <= 3 && Alone(s, t, i, r) && t in r.threads && r.threads[t].Inside?
  {
    var s1 := Do(s, Run(t));
    if s.threads[t].Locking? {
      LockSteps(s, t);
      i, r := if s.writes == 0 then 2 else 3, s.(entered := 1, threads := s.threads[t := Inside]);
    } else if s.threads[t].WritersSeen? {
      r := Do(s1, Run(t));
      Two(s, t, s1, r);
      i := 2;
    } else {
      One(s, t, s1);
      i, r := 1, s1;
    }
  }

  lemma StoringOrCounted(s: State, t: nat)
    requires CountInv(s) && t in s.threads && CallingBack(s.threads[t])
    ensures s.threads[t].Storing? || s.writes > 0
  {
    PutWriters(s.threads, t, Ready);
  }

  /** So in every reached state: a goroutine in SubmitEntry or enterLock, with nobody in Enter, and one in the callback,
      whatever others have done meanwhile, finishes in a few operations of its own. */
  lemma {:induction false} FinishesAlone(n: nat, run: seq<Step>, s: State, t: nat) returns (i: nat, r: State)
    requires RingSize(n) && Reaches(n, run, s) && t in s.threads
    requires CallingBack(s.threads[t])
             || ((Claiming(s.threads[t]) || WaitingToEnter(s.threads[t])) && !SomeoneInside(s))
    ensures i <= 9 && Alone(s, t, i, r) && t in r.threads
    ensures var p := s.threads[t];
            && (Claiming(p) ==> r.threads[t].Writing?) && (CallingBack(p) ==> r.threads[t].Ready?)
            && (WaitingToEnter(p) ==> r.threads[t].Inside?)
  {
    RunInv(n, run, s);
    OneHolder(s.threads);
    if CallingBack(s.threads[t]) {
      StoringOrCounted(s, t);
      i, r := CallbackReturns(s, t);
    } else if Claiming(s.threads[t]) {
      i, r := SubmitEntryReturns(s, t);
    } else {
      i, r := EnterGetsIn(s, t);
    }
  }
}
