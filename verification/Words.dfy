/** Machine words and ring slots: the uint32 counters of a ring, the `counter & mask`
    expression that turns one into a slot, and the arithmetic of slots. */
module Words {

  const WORD: nat := 0x1_0000_0000

  /** A Go uint32. */
  type u32 = w: nat | w < 0x1_0000_0000

  /** The uint32 a free-running counter holds after `p` increments from zero. */
  function Wrap(p: nat): (w: u32) {
    p % 0x1_0000_0000
  }

  /** atomic.AddUint32. */
  function AddWord(a: u32, b: nat): (w: u32) {
    (a + b) % 0x1_0000_0000
  }

  /** uint32 subtraction: the distance from `b` up to `a`, wrapping. */
  function SubWord(a: u32, b: u32): (w: u32) {
    (a + 0x1_0000_0000 - b) % 0x1_0000_0000
  }

  /** Bitwise and, bit by bit. */
  function And(a: nat, b: nat): (r: nat)
    ensures r <= b
  {
    if a == 0 || b == 0 then 0 else (if a % 2 == 1 && b % 2 == 1 then 1 else 0) + 2 * And(a / 2, b / 2)
  }

  predicate PowerOfTwo(n: nat) {
    n == 1 || (n > 1 && n % 2 == 0 && PowerOfTwo(n / 2))
  }

  /** What io_uring_setup grants: a power of two, here at least two. */
  predicate RingSize(n: nat) {
    2 <= n <= 0x8000_0000 && PowerOfTwo(n)
  }

  /** The slot of logical position `p` in a ring of `n` slots: `p` with whole laps removed. */
  function Slot(p: nat, n: nat): (x: nat)
    requires n > 0
    ensures x < n
    ensures p < n ==> x == p
  {
    if p < n then p else Slot(p - n, n)
  }

  /** The slot is the remainder of the position by the ring size. */
  lemma {:induction false} SlotIsMod(p: nat, n: nat)
    requires n > 0
    ensures Slot(p, n) == p % n
  {
    if p >= n {
      SlotIsMod(p - n, n);
      assert (p - n) % n == p % n by { DropLap(p - n, n); }
    }
  }

  lemma {:induction false} DropLap(p: nat, n: nat)
    requires n > 0
    ensures (p + n) % n == p % n
  {
    var q := (p + n) / n - 1 - p / n;
    assert q * n == p % n - (p + n) % n;
    Squeeze(q, n);
  }

  /** A multiple of `n` strictly between `-n` and `n` is zero. */
  lemma Squeeze(q: int, n: nat)
    requires 0 < q * n + n < 2 * n
    ensures q == 0
  {
    if q > 0 {
      MulGrows(q, n);
    } else if q < 0 {
      MulGrows(-q, n);
    }
  }

  lemma {:induction false} MulGrows(q: int, n: nat)
    requires q > 0
    ensures q * n >= n
  {
    if q > 1 { MulGrows(q - 1, n); }
  }

  lemma {:induction false} SlotNext(p: nat, n: nat)
    requires n > 0
    ensures Slot(p + 1, n) == if Slot(p, n) + 1 == n then 0 else Slot(p, n) + 1
  {
    if p >= n { SlotNext(p - n, n); }
  }

  /** Moving `k` positions within one lap moves `k` slots. */
  lemma {:induction false} SlotPlus(p: nat, k: nat, n: nat)
    requires n > 0 && Slot(p, n) + k <= n
    ensures Slot(p, n) + k < n ==> Slot(p + k, n) == Slot(p, n) + k
    ensures Slot(p, n) + k == n ==> Slot(p + k, n) == 0
  {
    if p >= n { SlotPlus(p - n, k, n); }
  }

  /** Two positions less than a lap apart never share a slot. */
  lemma {:induction false} SlotsDistinct(p: nat, q: nat, n: nat)
    requires n > 0 && p < q < p + n
    ensures Slot(p, n) != Slot(q, n)
  {
    if p >= n { SlotsDistinct(p - n, q - n, n); }
  }

  /** Whole laps can be added without changing the slot. */
  lemma {:induction false} SlotBelow(p: nat, n: nat)
    requires n > 0
    ensures Slot(p, n) <= p && (n <= p ==> Slot(p, n) + n <= p)
  {
    if n <= p { SlotBelow(p - n, n); }
  }

  lemma {:induction false} SlotAddLaps(p: nat, q: nat, n: nat)
    requires n > 0 && Slot(q, n) == 0
    ensures Slot(p + q, n) == Slot(p, n)
  {
    if q >= n { SlotAddLaps(p, q - n, n); }
  }

  /** The lowest bit of a slot is the lowest bit of the position. */
  lemma {:induction false} SlotHalves(p: nat, m: nat)
    requires m > 0
    ensures Slot(p, 2 * m) == 2 * Slot(p / 2, m) + p % 2
  {
    if p >= 2 * m {
      SlotHalves(p - 2 * m, m);
      assert (p - 2 * m) / 2 == p / 2 - m;
    }
  }

  /** `x & (n - 1)` is the slot of `x` when `n` is a power of two. */
  lemma {:induction false} MaskIsSlot(x: nat, n: nat)
    requires PowerOfTwo(n)
    ensures And(x, n - 1) == Slot(x, n)
  {
    if n > 1 && x > 0 {
      MaskIsSlot(x / 2, n / 2);
      SlotHalves(x, n / 2);
      assert (n - 1) / 2 == n / 2 - 1 && (n - 1) % 2 == 1;
      if n / 2 == 1 { assert And(x / 2, 0) == 0; }
    }
  }

  /** A power of two is a whole number of laps of any smaller power of two. */
  lemma {:induction false} PowersDivide(n: nat, m: nat)
    requires PowerOfTwo(n) && PowerOfTwo(m) && n <= m
    ensures Slot(m, n) == 0
  {
    if n > 1 {
      PowersDivide(n / 2, m / 2);
      SlotHalves(m, n / 2);
    } else {
      assert Slot(m, 1) < 1;
    }
  }

  lemma {:induction false} DoublePower(n: nat)
    requires PowerOfTwo(n)
    ensures PowerOfTwo(2 * n)
  {
    assert (2 * n) / 2 == n && (2 * n) % 2 == 0;
  }

  lemma {:induction false} SixteenPower(n: nat)
    requires PowerOfTwo(n)
    ensures PowerOfTwo(16 * n)
  {
    DoublePower(n);
    DoublePower(2 * n);
    DoublePower(4 * n);
    DoublePower(8 * n);
  }

  lemma WordIsPowerOfTwo()
    ensures PowerOfTwo(0x1_0000_0000)
  {
    SixteenPower(1);
    SixteenPower(0x10);
    SixteenPower(0x100);
    SixteenPower(0x1000);
    SixteenPower(0x1_0000);
    SixteenPower(0x10_0000);
    SixteenPower(0x100_0000);
    SixteenPower(0x1000_0000);
  }

  lemma LapOfWord(p: nat, n: nat)
    requires RingSize(n)
    ensures Slot(p + WORD, n) == Slot(p, n)
    ensures Wrap(p + WORD) == Wrap(p)
  {
    WordIsPowerOfTwo();
    PowersDivide(n, WORD);
    SlotAddLaps(p, WORD, n);
  }

  lemma {:induction false} WrapKeepsSlot(p: nat, n: nat)
    requires RingSize(n)
    ensures Slot(Wrap(p), n) == Slot(p, n)
  {
    if p >= WORD {
      var q := p - WORD;
      WrapKeepsSlot(q, n);
      LapOfWord(q, n);
    }
  }

  /** Wrapping at 2^32 does not disturb slots, because the ring size divides 2^32:
      masking the machine word gives the slot of the logical position. */
  lemma WordSlot(p: nat, n: nat)
    requires RingSize(n)
    ensures And(Wrap(p), n - 1) == Slot(p, n)
  {
    MaskIsSlot(Wrap(p), n);
    WrapKeepsSlot(p, n);
  }

  lemma WrapPlus(p: nat, k: nat)
    ensures AddWord(Wrap(p), k) == Wrap(p + k)
  {
  }

  lemma RemainderIs(x: int, d: int, j: int)
    requires x == d + j * WORD && 0 <= d < WORD
    ensures x % 0x1_0000_0000 == d
  {
  }

  /** Counters less than 2^32 apart: the wrapped difference is the true one. */
  lemma {:induction false} WrapMinus(p: nat, q: nat)
    requires q <= p < q + WORD
    ensures SubWord(Wrap(p), Wrap(q)) == p - q
  {
    var i, j := p / WORD, q / WORD;
    assert p == i * WORD + Wrap(p) && q == j * WORD + Wrap(q);
    var k := 1 + j - i;
    assert Wrap(p) + WORD - Wrap(q) == p - q + k * WORD;
    RemainderIs(Wrap(p) + WORD - Wrap(q), p - q, k);
  }
}
