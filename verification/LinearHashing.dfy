/** Linear hashing as used by AutoHyperClockTable: how a published table length
    picks a home slot for a hash, and what growing by one slot changes. */
module LinearHashing {

  /** A hashed 128-bit cache key; the home of an entry comes from k1. */
  datatype Key = Key(k0: nat, k1: nat)

  /** 2^n. */
  function Pow2(n: nat): (r: nat)
    ensures r >= 1
  {
    if n == 0 then 1 else 2 * Pow2(n - 1)
  }

  /** a * b, by counting. */
  function Times(a: int, b: nat): nat { if a <= 0 then 0 else b + Times(a - 1, b) }

  lemma {:induction false} TimesIs(a: nat, b: nat)
    ensures Times(a, b) == a * b
  {
    if a > 0 {
      TimesIs(a - 1, b);
    }
  }

  /** BottomNBits: the low n bits of a hash. */
  function BottomBits(hash: nat, n: nat): (r: nat)
    ensures r < Pow2(n)
  {
    hash % Pow2(n)
  }

  lemma Distribute(a: int, b: int, m: int)
    ensures (a + b) * m == a * m + b * m
  {
  }

  lemma NonNegative(a: int, m: int)
    requires a >= 0 && m >= 0
    ensures a * m >= 0
  {
  }

  lemma BigMultiple(d: int, m: int)
    requires d != 0 && m >= 0
    ensures d * m >= m || d * m <= -m
  {
    if d >= 1 {
      Distribute(d - 1, 1, m);
      NonNegative(d - 1, m);
    } else {
      Distribute(d, -d, m);
      Distribute(-d - 1, 1, m);
      NonNegative(-d - 1, m);
    }
  }

  /** Quotient and remainder are unique. */
  lemma ModOf(x: int, m: int, q: int, r: int)
    requires 0 <= r < m && x == q * m + r
    ensures x % m == r && x / m == q
  {
    var q', r' := x / m, x % m;
    var d := q - q';
    assert d * m == r' - r by { assert d * m == q * m - q' * m; }
    if d != 0 {
      BigMultiple(d, m);
    }
  }

  lemma EvenMultiple(q: int, m: int)
    ensures q * (2 * m) == (2 * q) * m
    ensures (2 * q + 1) * m == (2 * q) * m + m
  {
  }

  lemma SplitModulus(x: int, m: int)
    requires m > 0
    ensures x % (2 * m) == x % m || x % (2 * m) == x % m + m
    ensures (x % (2 * m)) % m == x % m
  {
    var n := 2 * m;
    var q, r := x / n, x % n;
    EvenMultiple(q, m);
    if r < m {
      ModOf(x, m, 2 * q, r);
      ModOf(r, m, 0, r);
    } else {
      ModOf(x, m, 2 * q + 1, r - m);
      ModOf(r, m, 1, r - m);
    }
  }

  /** One more hash bit either keeps the home or moves it up by exactly 2^n. */
  lemma NextBit(hash: nat, n: nat)
    ensures BottomBits(hash, n + 1) == BottomBits(hash, n)
         || BottomBits(hash, n + 1) == BottomBits(hash, n) + Pow2(n)
    ensures BottomBits(BottomBits(hash, n + 1), n) == BottomBits(hash, n)
  {
    SplitModulus(hash, Pow2(n));
  }

  lemma {:induction false} Pow2Monotone(a: nat, b: nat)
    requires a <= b
    ensures Pow2(a) <= Pow2(b)
    decreases b
  {
    if a < b {
      Pow2Monotone(a, b - 1);
    }
  }

  lemma Doubles(a: nat, b: nat)
    ensures a < b ==> 2 * Pow2(a) <= Pow2(b)
  {
    if a < b {
      Pow2Monotone(a + 1, b);
    }
  }

  /** The position of the highest set bit. */
  function FloorLog2(n: nat): (r: nat)
    requires n >= 1
    ensures Pow2(r) <= n < 2 * Pow2(r)
  {
    if n == 1 then 0 else FloorLog2(n / 2) + 1
  }

  lemma FloorLog2Unique(n: nat, s: nat)
    requires Pow2(s) <= n < 2 * Pow2(s)
    ensures FloorLog2(n) == s
  {
    var f := FloorLog2(n);
    Doubles(f, s);
    Doubles(s, f);
  }

  // length_info_ packs (threshold << 8) | min_shift.

  function MinShift(info: nat): (r: nat) { info % 256 }

  function Threshold(info: nat): (r: nat) { info / 256 }

  function UsedLength(info: nat): (r: nat) { Pow2(MinShift(info)) + Threshold(info) }

  function ToLengthInfo(used: nat): (r: nat)
    requires used >= 2
  {
    BottomBits(used, FloorLog2(used)) * 256 + FloorLog2(used)
  }

  /** A home slot together with the number of hash bits that chose it. */
  datatype Home = Home(index: nat, shift: nat)

  /** The home of a hash in a table of 2^s + threshold slots. */
  function HomeWith(s: nat, threshold: int, hash: nat): (r: Home) {
    if BottomBits(hash, s) < threshold then Home(BottomBits(hash, s + 1), s + 1) else Home(BottomBits(hash, s), s)
  }

  /** GetHomeIndexAndShift. */
  function HomeOf(info: nat, hash: nat): (r: Home) { HomeWith(MinShift(info), Threshold(info), hash) }

  /** A length_info_ word as ToLengthInfo makes them. */
  predicate WellFormed(info: nat) { 1 <= MinShift(info) && Threshold(info) < Pow2(MinShift(info)) }

  /** The size_t range: at most 63 hash bits are ever used. */
  predicate FitsWord(used: nat) { 2 <= used < Pow2(64) }

  /** Packing a table length loses nothing, in either direction. */
  lemma LengthInfoRoundTrip(used: nat)
    requires FitsWord(used)
    ensures 1 <= MinShift(ToLengthInfo(used)) <= 63
    ensures MinShift(ToLengthInfo(used)) == FloorLog2(used)
    ensures Threshold(ToLengthInfo(used)) == used - Pow2(FloorLog2(used))
    ensures UsedLength(ToLengthInfo(used)) == used && WellFormed(ToLengthInfo(used))
  {
    var s := FloorLog2(used);
    if s >= 64 {
      Pow2Monotone(64, s);
    }
    ModOf(used, Pow2(s), 1, used - Pow2(s));
    ModOf(ToLengthInfo(used), 256, BottomBits(used, s), s);
  }

  lemma LengthInfoRoundTripBack(info: nat)
    requires WellFormed(info)
    ensures UsedLength(info) >= 2 && ToLengthInfo(UsedLength(info)) == info
  {
    var s, used := MinShift(info), UsedLength(info);
    FloorLog2Unique(used, s);
    ModOf(used, Pow2(s), 1, Threshold(info));
  }

  /** HomeOf in terms of the table length. */
  function HomeIn(used: nat, s: nat, hash: nat): (r: Home) { HomeWith(s, used - Pow2(s), hash) }

  lemma HomeAt(used: nat, s: nat, hash: nat)
    requires FitsWord(used) && Pow2(s) <= used < 2 * Pow2(s)
    ensures HomeOf(ToLengthInfo(used), hash) == HomeIn(used, s, hash)
  {
    FloorLog2Unique(used, s);
    LengthInfoRoundTrip(used);
  }

  /** Every hash has a home inside the used part of the table. */
  lemma HomeInTable(used: nat, hash: nat)
    requires FitsWord(used)
    ensures HomeOf(ToLengthInfo(used), hash).index < used
  {
    HomeAt(used, FloorLog2(used), hash);
    NextBit(hash, FloorLog2(used));
  }

  /** Every used slot is the home of some hash, namely of its own index. */
  lemma OwnHome(used: nat, slot: nat)
    requires FitsWord(used) && slot < used
    ensures HomeOf(ToLengthInfo(used), slot).index == slot
  {
    LengthInfoRoundTrip(used);
    var s := FloorLog2(used);
    if slot < Pow2(s) {
      ModOf(slot, Pow2(s), 0, slot);
      ModOf(slot, Pow2(s + 1), 0, slot);
    } else {
      ModOf(slot, Pow2(s), 1, slot - Pow2(s));
      ModOf(slot, Pow2(s + 1), 0, slot);
    }
  }

  ghost predicate SplitsOneHome(used: nat, shift: nat, oldHome: nat, high: nat, before: Home, after: Home) {
    && (before.index != oldHome ==> after == before)
    && (before.index == oldHome ==>
          before.shift == shift && after == Home(high, shift + 1) && (high == oldHome || high == used))
    && (after.index != before.index <==> before.index == oldHome && after.index == used)
    && (after.index == used <==> high == used)
  }

  lemma GrowthArithmetic(used: nat, shift: nat, p: nat, low: nat, high: nat, before: Home, after: Home)
    requires p <= used < 2 * p && low < p && (high == low || high == low + p)
    requires before == if low < used - p then Home(high, shift + 1) else Home(low, shift)
    requires after == if used + 1 == 2 * p || low < used + 1 - p then Home(high, shift + 1) else Home(low, shift)
    ensures SplitsOneHome(used, shift, used - p, high, before, after)
  {
  }

  lemma NextInfo(info: nat, info': nat)
    requires WellFormed(info) && WellFormed(info') && UsedLength(info') == UsedLength(info) + 1
    ensures if Threshold(info) + 1 == Pow2(MinShift(info))
            then MinShift(info') == MinShift(info) + 1 && Threshold(info') == 0
            else MinShift(info') == MinShift(info) && Threshold(info') == Threshold(info) + 1
  {
    var s, s' := MinShift(info), MinShift(info');
    Doubles(s, s');
    Doubles(s', s);
    Doubles(s + 1, s');
  }

  lemma GrowthOfHomes(s: nat, t: nat, s': nat, t': nat, hash: nat)
    requires t < Pow2(s)
    requires if t + 1 == Pow2(s) then s' == s + 1 && t' == 0 else s' == s && t' == t + 1
    ensures SplitsOneHome(Pow2(s) + t, s, t, BottomBits(hash, s + 1), HomeWith(s, t, hash), HomeWith(s', t', hash))
  {
    NextBit(hash, s);
    GrowthArithmetic(Pow2(s) + t, s, Pow2(s), BottomBits(hash, s), BottomBits(hash, s + 1),
                     HomeWith(s, t, hash), HomeWith(s', t', hash));
  }

  /** Grow's old_home is the threshold of the table before it grows. */
  lemma OldHomeOf(info: nat)
    requires WellFormed(info)
    ensures BottomBits(UsedLength(info), FloorLog2(UsedLength(info))) == Threshold(info)
  {
    FloorLog2Unique(UsedLength(info), MinShift(info));
    ModOf(UsedLength(info), Pow2(MinShift(info)), 1, Threshold(info));
  }

  /** Growing from one used length to the next: the chain at old_home, and no
      other, is split; its hashes take one more bit and either stay or move to
      the new slot. */
  lemma GrowthSplitsOneHome(info: nat, info': nat, hash: nat)
    requires WellFormed(info) && WellFormed(info') && UsedLength(info') == UsedLength(info) + 1
    ensures BottomBits(UsedLength(info), FloorLog2(UsedLength(info))) == Threshold(info)
    ensures SplitsOneHome(UsedLength(info), MinShift(info), Threshold(info), BottomBits(hash, MinShift(info) + 1),
                          HomeOf(info, hash), HomeOf(info', hash))
  {
    OldHomeOf(info);
    NextInfo(info, info');
    GrowthOfHomes(MinShift(info), Threshold(info), MinShift(info'), Threshold(info'), hash);
  }
}
