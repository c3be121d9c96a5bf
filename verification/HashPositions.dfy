/** Positions in the space of hashes, as used by LRUHandleTable for its chains and by
    LRUCacheShard::ApplyToSomeEntries to go on where it stopped. */
module HashPositions {
  import opened LinearHashing

  type Hash = h: nat | h < 0x1_0000_0000

  /** A key together with its 32-bit hash; a handle is known by both. */
  datatype Tag = Tag(hash: Hash, key: string)

  const HASH_BITS: nat := 32

  /** x / d, by counting. */
  function Quotient(x: nat, d: nat): nat
    requires d > 0
    decreases x
  {
    if x < d then 0 else 1 + Quotient(x - d, d)
  }

  lemma {:induction false} QuotientIs(x: nat, d: nat)
    requires d > 0
    ensures Quotient(x, d) == x / d
    decreases x
  {
    if x < d {
      ModOf(x, d, 0, x);
    } else {
      QuotientIs(x - d, d);
      var y := x - d;
      Distribute(y / d, 1, d);
      ModOf(x, d, y / d + 1, y % d);
    }
  }

  /** hash >> (32 - bits) */
  function Bucket(hash: nat, bits: nat): nat
    requires bits <= HASH_BITS
  {
    Quotient(hash, Pow2(HASH_BITS - bits))
  }

  lemma {:induction false} Pow2Sum(a: nat, b: nat)
    ensures Pow2(a + b) == Pow2(a) * Pow2(b)
    decreases b
  {
    if b > 0 {
      Pow2Sum(a, b - 1);
    }
  }

  lemma QuotientBelow(x: nat, d: nat, q: nat)
    requires d > 0 && x < q * d
    ensures Quotient(x, d) < q
  {
    QuotientIs(x, d);
    var e := x / d - q;
    Distribute(e, q, d);
    assert e >= 0 ==> e * d >= 0 by {
      if e >= 0 { NonNegative(e, d); }
    }
  }

  lemma Widths()
    ensures Pow2(HASH_BITS) == 0x1_0000_0000 && Pow2(STATE_BITS) == 0x1_0000_0000_0000_0000
  {
    assert Pow2(8) == 256;
    Pow2Sum(8, 8);
    Pow2Sum(16, 16);
    Pow2Sum(32, 32);
  }

  lemma BucketInTable(hash: Hash, bits: nat)
    requires bits <= HASH_BITS
    ensures Bucket(hash, bits) < Pow2(bits)
  {
    Widths();
    Pow2Sum(bits, HASH_BITS - bits);
    QuotientBelow(hash, Pow2(HASH_BITS - bits), Pow2(bits));
  }

  // ---------------------------------------------------------------- a scan in steps

  /** The bits of the saved position, a size_t, and its value when the scan is over. */
  const STATE_BITS: nat := 64

  const DONE: nat := 0xffff_ffff_ffff_ffff

  /** state >> (64 - bits) */
  function Begin(state: nat, bits: nat): nat
    requires bits <= STATE_BITS
  {
    Quotient(state, Pow2(STATE_BITS - bits))
  }

  /** The position after a step over `count` chains. */
  function Advance(state: nat, bits: nat, count: nat): nat
    requires bits <= STATE_BITS
  {
    var end := Begin(state, bits) + count;
    if end >= Pow2(bits) then DONE else end * Pow2(STATE_BITS - bits)
  }

  /** The step visits the chain of the hash. */
  predicate Covered(hash: nat, state: nat, bits: nat, count: nat)
    requires bits <= HASH_BITS
  {
    Begin(state, bits) <= Bucket(hash, bits) < Begin(state, bits) + count
  }

  lemma BeginInTable(state: nat, bits: nat)
    requires bits <= STATE_BITS && state <= DONE
    ensures Begin(state, bits) < Pow2(bits)
  {
    Widths();
    Pow2Sum(bits, STATE_BITS - bits);
    QuotientBelow(state, Pow2(STATE_BITS - bits), Pow2(bits));
  }
}
