/**
  The wrap index of the sample ring.  The ring addresses sample position `p` at
  cell `p & (capacity - 1)`; this module defines that bit operation on natural
  numbers and proves everything the ring needs to know about it.
*/
module RingIndex {

  predicate IsPowerOfTwo(n: nat) {
    n == 1 || (n > 1 && n % 2 == 0 && IsPowerOfTwo(n / 2))
  }

  /** Bitwise conjunction, one binary digit at a time. */
  function And(a: nat, b: nat): nat {
    if a == 0 || b == 0 then 0
    else (if a % 2 == 1 && b % 2 == 1 then 1 else 0) + 2 * And(a / 2, b / 2)
  }

  /** The cell of a ring of `cap` cells that holds sample position `p`. */
  function Slot(p: nat, cap: nat): nat
    requires cap > 0
  {
    And(p, cap - 1)
  }

  lemma HalvedModulus(x: nat, c: nat)
    requires c > 0
    ensures x % (2 * c) == x % 2 + 2 * ((x / 2) % c)
  {
    var q, s := (x / 2) / c, (x / 2) % c;
    assert x == q * (2 * c) + (2 * s + x % 2);
    ModIsUnique(x, 2 * c, q, 2 * s + x % 2);
  }

  lemma MultipleAtLeast(d: nat, m: nat)
    requires d >= 1
    ensures d * m >= m
  {
    assert d * m == (d - 1) * m + m;
  }

  lemma QuotientIsUnique(q: nat, r: nat, q': nat, r': nat, m: nat)
    requires r < m && r' < m && q * m + r == q' * m + r'
    ensures q == q' && r == r'
  {
    if q > q' {
      assert (q - q') * m == q * m - q' * m;
      MultipleAtLeast(q - q', m);
    } else if q < q' {
      assert (q' - q) * m == q' * m - q * m;
      MultipleAtLeast(q' - q, m);
    }
  }

  lemma ModIsUnique(x: nat, m: nat, q: nat, r: nat)
    requires r < m && x == q * m + r
    ensures x % m == r && x / m == q
  {
    assert x == (x / m) * m + x % m;
    QuotientIsUnique(q, r, x / m, x % m, m);
  }

  /** Masking with `cap - 1` is the remainder modulo `cap`, for a power of two. */
  lemma {:induction false} MaskIsModulo(x: nat, cap: nat)
    requires IsPowerOfTwo(cap)
    ensures Slot(x, cap) == x % cap
  {
    if cap > 1 {
      MaskIsModulo(x / 2, cap / 2);
      HalvedModulus(x, cap / 2);
      assert (cap - 1) / 2 == cap / 2 - 1;
    }
  }

  lemma SlotInRange(p: nat, cap: nat)
    requires IsPowerOfTwo(cap)
    ensures Slot(p, cap) < cap
  {
    MaskIsModulo(p, cap);
  }

  /** `k` positions further is `k` cells further, wrapping at the end of the ring. */
  lemma SlotOffset(p: nat, k: nat, cap: nat)
    requires IsPowerOfTwo(cap) && k <= cap
    ensures Slot(p + k, cap) ==
            if Slot(p, cap) + k < cap then Slot(p, cap) + k else Slot(p, cap) + k - cap
  {
    MaskIsModulo(p, cap);
    MaskIsModulo(p + k, cap);
    ModuloOffset(p, k, cap);
  }

  lemma ModuloOffset(p: nat, k: nat, m: nat)
    requires 0 < m && k <= m
    ensures (p + k) % m == if p % m + k < m then p % m + k else p % m + k - m
  {
    var q, r := p / m, p % m;
    assert p == q * m + r;
    if r + k < m {
      ModIsUnique(p + k, m, q, r + k);
    } else {
      assert (q + 1) * m == q * m + m;
      ModIsUnique(p + k, m, q + 1, r + k - m);
    }
  }

  /** Positions less than `cap` apart never share a cell. */
  lemma SlotsAreDistinct(p: nat, q: nat, cap: nat)
    requires IsPowerOfTwo(cap) && p < q < p + cap
    ensures Slot(p, cap) != Slot(q, cap)
  {
    SlotOffset(p, q - p, cap);
    SlotInRange(p, cap);
  }

  /**
    `cells` holds, in every cell, the newest sample of `full` that maps to it:
    the last `cap` samples of `full` are all readable.
  */
  ghost predicate Holds<T>(cells: seq<T>, cap: nat, full: seq<T>) {
    && IsPowerOfTwo(cap)
    && |cells| == cap
    && (forall p: nat :: Slot(p, cap) < cap)
    && forall p: nat :: |full| - cap <= p < |full| ==> cells[Slot(p, cap)] == full[p]
  }

  lemma SlotsInRange(cap: nat)
    requires IsPowerOfTwo(cap)
    ensures forall p: nat :: Slot(p, cap) < cap
  {
    forall p: nat ensures Slot(p, cap) < cap { SlotInRange(p, cap); }
  }

  /** Storing the next sample in its cell extends what the ring holds by that sample. */
  lemma StoreKeepsHolds<T>(cells: seq<T>, cap: nat, full: seq<T>, x: T)
    requires Holds(cells, cap, full)
    ensures Holds(cells[Slot(|full|, cap) := x], cap, full + [x])
  {
    var cells', full' := cells[Slot(|full|, cap) := x], full + [x];
    forall p: nat | |full'| - cap <= p < |full'| ensures cells'[Slot(p, cap)] == full'[p] {
      if p < |full| {
        SlotsAreDistinct(p, |full|, cap);
      }
    }
  }

  lemma HeldSample<T>(cells: seq<T>, cap: nat, full: seq<T>, p: nat)
    requires Holds(cells, cap, full) && |full| - cap <= p < |full|
    ensures Slot(p, cap) < |cells| && cells[Slot(p, cap)] == full[p]
  {
  }
}
