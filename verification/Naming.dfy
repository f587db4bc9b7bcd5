/** The counters of the submission ring and Array: how many entries one Enter takes, and which. */
module Naming {
  import opened Words
  import opened Window

  // ---------- The counters ----------

  /** The tail after `k` claims: it cycles through 1..n. */
  function TailAfter(n: nat, k: nat): (w: u32)
    requires RingSize(n)
  {
    if k == 0 then 0 else Slot(k - 1, n) + 1
  }

  lemma TailSlot(n: nat, k: nat)
    requires RingSize(n)
    ensures And(TailAfter(n, k), n - 1) == Slot(k, n)
    ensures TailAfter(n, k + 1) == Slot(k, n) + 1
  {
    MaskIsSlot(TailAfter(n, k), n);
    if k > 0 { SlotNext(k - 1, n); }
  }

  lemma MaskedCounters(n: nat, claims: nat, taken: nat)
    requires RingSize(n)
    ensures And(TailAfter(n, claims), n - 1) == Slot(claims, n) && And(Wrap(taken), n - 1) == Slot(taken, n)
  {
    TailSlot(n, claims);
    WordSlot(taken, n);
  }

  lemma {:induction false} SameSlot(i: nat, d: nat, n: nat)
    requires n > 0
    ensures Slot(i + d, n) == Slot(i, n) <==> Slot(d, n) == 0
  {
    if d >= n {
      SameSlot(i, d - n, n);
    } else if d > 0 {
      SlotsDistinct(i, i + d, n);
    }
  }

  lemma {:induction false} LapsApart(i: nat, j: nat, n: nat)
    requires n > 0 && i <= j
    ensures Slot(i, n) == Slot(j, n) <==> (j - i) % n == 0
  {
    SameSlot(i, j - i, n);
    SlotIsMod(j - i, n);
  }

  /** The value the callback stores names the slot it belongs to exactly when the two masked counters agree
      at the claim, that is when the entries claimed and not yet taken fill whole laps. */
  lemma {:induction false} CallbackNamesClaim(n: nat, claims: nat, taken: nat)
    requires RingSize(n) && taken <= claims
    ensures And(Wrap(taken), n - 1) == Slot(claims, n) <==> And(TailAfter(n, claims), n - 1) == And(Wrap(taken), n - 1)
    ensures And(Wrap(taken), n - 1) == Slot(claims, n) <==> (claims - taken) % n == 0
  {
    MaskedCounters(n, claims, taken);
    LapsApart(taken, claims, n);
  }

  // ---------- How many entries Enter takes ----------

  /** How many entries Enter takes when it is asked for `m` and the kernel is willing. */
  function Takes(n: nat, claims: nat, taken: nat, m: nat): nat
    requires RingSize(n)
  {
    var available := SubWord(TailAfter(n, claims), Wrap(taken));
    if m < available then m else available
  }

  /** After a claim that finds everything else taken, the kernel sees a tail ahead of its head, although the tail
      cycles through 1..n and the head runs on through all of 2^32. */
  lemma {:induction false} SomethingAvailable(n: nat, k: nat)
    requires RingSize(n)
    ensures SubWord(TailAfter(n, k + 1), Wrap(k)) != 0
  {
    assert TailAfter(n, k + 1) != Wrap(k) by {
      MaskedCounters(n, k + 1, k);
      SlotNext(k, n);
    }
    DifferentWords(TailAfter(n, k + 1), Wrap(k));
  }

  lemma DifferentWords(a: u32, b: u32)
    requires a != b
    ensures SubWord(a, b) != 0
  {
  }

  /** The laps the tail word has dropped: claims made before the lap it is in. */
  function DroppedLaps(n: nat, claims: nat): (k: nat)
    requires RingSize(n)
  {
    TailBelow(n, claims);
    claims - TailAfter(n, claims)
  }

  lemma TailBelow(n: nat, claims: nat)
    requires RingSize(n)
    ensures TailAfter(n, claims) <= claims && (n < claims ==> n <= claims - TailAfter(n, claims))
    ensures claims <= n ==> TailAfter(n, claims) == claims
  {
    if claims > 0 { SlotBelow(claims - 1, n); }
  }

  /** The distance from `k` to `p` as the kernel computes it when the tail word has dropped `laps` from `p`. */
  lemma {:induction false} WordDistance(p: nat, laps: nat, k: nat)
    requires laps <= p && p - laps < WORD && k <= p < k + WORD
    ensures SubWord(p - laps, Wrap(k)) == p - k - Wrap(laps) + if Wrap(laps) <= p - k then 0 else WORD
  {
    var a, b := k / WORD, laps / WORD;
    assert k == a * WORD + Wrap(k) && laps == b * WORD + Wrap(laps);
    var d := p - k - Wrap(laps) + if Wrap(laps) <= p - k then 0 else WORD;
    var j := 1 + a - b - if Wrap(laps) <= p - k then 0 else 1;
    assert p - laps + WORD - Wrap(k) == d + j * WORD;
    RemainderIs(p - laps + WORD - Wrap(k), d, j);
  }

  /** Enter stays below the last claim if and only if it is asked for no more positions than are outstanding, or the
      laps the tail word has dropped are, as a word, no more than that. */
  lemma {:induction false} EnterStaysBelow(n: nat, claims: nat, taken: nat, m: nat)
    requires RingSize(n) && taken <= claims < taken + WORD
    ensures Takes(n, claims, taken, m) <= claims - taken
            <==> m <= claims - taken || Wrap(DroppedLaps(n, claims)) <= claims - taken
  {
    TailBelow(n, claims);
    WordDistance(claims, DroppedLaps(n, claims), taken);
  }

  /** With one or two positions outstanding, after the first few claims, Enter can have them all. */
  lemma {:induction false} AllAvailable(n: nat, claims: nat, taken: nat)
    requires RingSize(n) && 5 <= claims < WORD && taken <= claims <= taken + 2
    ensures SubWord(TailAfter(n, claims), Wrap(taken)) >= claims - taken
  {
    TailBelow(n, claims);
    WordDistance(claims, DroppedLaps(n, claims), taken);
  }

  // ---------- Which entries Enter takes ----------

  /** Slot `x` of Array when every claim has been committed: the masked head that the last claim of that slot captured.
      `heads[k]` is where the kernel's head stood when the `k`-th claim loaded it. */
  function ArrayAt(n: nat, heads: seq<nat>, x: nat): (y: nat)
    requires n > 0
    ensures y < n
  {
    var k := Occupant(|heads|, n, x);
    if k < 0 then 0 else Slot(heads[k], n)
  }

  /** The claim whose entry the kernel gets at position `j` of its head, or -1 if that entry was never claimed. */
  function Named(n: nat, heads: seq<nat>, j: nat): (k: int)
    requires n > 0
    ensures -1 <= k < |heads|
  {
    Occupant(|heads|, n, ArrayAt(n, heads, Slot(j, n)))
  }

  /** The `j`-th claim has been made and not been overwritten, and the head it captured lies whole laps from it. */
  predicate CapturedOwn(n: nat, heads: seq<nat>, j: nat)
    requires n > 0
  {
    j < |heads| <= j + n && Slot(heads[j], n) == Slot(j, n)
  }

  /** Exactly then position `j` leads to the entry of its own claim. */
  lemma {:induction false} NamesItself(n: nat, heads: seq<nat>, j: nat)
    requires n > 0
    ensures Named(n, heads, j) == j <==> CapturedOwn(n, heads, j)
  {
    var c, x := |heads|, ArrayAt(n, heads, Slot(j, n));
    OccupantRecent(c, n, x);
    if j < c <= j + n { OccupantInWindow(c, n, j); }
  }

  /** Enter takes exactly the entries of the next claims, each once and in order. */
  ghost predicate TakesNext(n: nat, heads: seq<nat>, taken: nat, count: nat) {
    n > 0 && forall j: nat :: taken <= j < taken + count ==> Named(n, heads, j) == j
  }

  lemma {:induction false} TakesNextForm(n: nat, heads: seq<nat>, taken: nat, count: nat)
    requires n > 0 && taken <= |heads|
    ensures TakesNext(n, heads, taken, count)
            <==> && count <= |heads| - taken
                 && forall j: nat :: taken <= j < taken + count ==> CapturedOwn(n, heads, j)
  {
    forall j: nat ensures Named(n, heads, j) == j <==> CapturedOwn(n, heads, j) {
      NamesItself(n, heads, j);
    }
    assert Named(n, heads, |heads|) != |heads|;
  }

  /** Enter takes exactly the entries claimed next, each once and in order, if and only if it stays below the last claim
      and every claim it comes to has not been overwritten and captured a head whole laps from its own position.
      (Submission.BatchOfTwo and Submission.StaleRetake break the two halves.) */
  lemma {:induction false} EnterTakesClaimed(n: nat, heads: seq<nat>, taken: nat, m: nat)
    requires RingSize(n) && taken <= |heads| < taken + WORD
    ensures var claims := |heads|; var count := Takes(n, claims, taken, m);
            TakesNext(n, heads, taken, count)
            <==> && (m <= claims - taken || Wrap(DroppedLaps(n, claims)) <= claims - taken)
                 && forall j: nat :: taken <= j < taken + count ==> CapturedOwn(n, heads, j)
  {
    EnterStaysBelow(n, |heads|, taken, m);
    TakesNextForm(n, heads, taken, Takes(n, |heads|, taken, m));
  }

  /** On the first lap Enter stays below the last claim. Later, with less than a lap outstanding and less than 2^32
      claims, it does exactly when it is not asked for more. */
  lemma {:induction false} CountPastFirstLap(n: nat, claims: nat, taken: nat, m: nat)
    requires RingSize(n) && taken <= claims < WORD
    ensures claims <= n ==> Takes(n, claims, taken, m) <= claims - taken
    ensures n < claims && claims - taken < n ==> (Takes(n, claims, taken, m) <= claims - taken <==> m <= claims - taken)
  {
    EnterStaysBelow(n, claims, taken, m);
    TailBelow(n, claims);
  }

  /** So when the claims outstanding all captured heads whole laps from their own positions: on the first lap Enter
      always takes exactly the next ones, and later exactly when it is not asked for more. */
  lemma {:induction false} EnterPastFirstLap(n: nat, heads: seq<nat>, taken: nat, m: nat)
    requires RingSize(n) && taken <= |heads| < WORD && |heads| < taken + n
    requires forall j: nat :: taken <= j < |heads| ==> CapturedOwn(n, heads, j)
    ensures TakesNext(n, heads, taken, Takes(n, |heads|, taken, m)) <==> |heads| <= n || m <= |heads| - taken
  {
    CountPastFirstLap(n, |heads|, taken, m);
    TakesNextForm(n, heads, taken, Takes(n, |heads|, taken, m));
  }

  /** The ids of the entries the kernel gets at `count` positions of its head from `j` on, through the Array of a
      submission ring of `z` entries. Ids are given out in the order of the claims, from one. */
  function Yield(z: nat, heads: seq<nat>, j: nat, count: nat): multiset<nat>
    requires z > 0
  {
    if count == 0 then multiset{}
    else Yield(z, heads, j, count - 1) + multiset{Named(z, heads, j + count - 1) + 1}
  }
}
