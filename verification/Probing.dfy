/** Double hashing in FixedHyperClockTable: the probe sequence of a key visits
    every slot of a power-of-two table exactly once. */
module Probing {
  import opened LinearHashing

  /** hashed_key[0] | 1 */
  function Increment(k: Key): (r: nat)
    ensures r % 2 == 1
  {
    if k.k0 % 2 == 1 then k.k0 else k.k0 + 1
  }

  /** The j-th slot probed for a key in a table of 2^bits slots. */
  function Probe(bits: nat, k: Key, j: nat): (r: nat)
    ensures r < Pow2(bits)
  {
    BottomBits(k.k1 + Times(j, Increment(k)), bits)
  }

  /** The sequence of slots that FindSlot visits when nothing stops it. */
  function ProbeSeq(bits: nat, k: Key): (p: seq<nat>)
    ensures |p| == Pow2(bits) && forall j :: 0 <= j < |p| ==> p[j] == Probe(bits, k, j)
  {
    seq(Pow2(bits), j requires 0 <= j => Probe(bits, k, j))
  }

  /** If 2^b divides d * m for an odd m, it divides d. */
  lemma {:induction false} OddFactor(b: nat, d: nat, m: nat)
    requires m % 2 == 1 && (d * m) % Pow2(b) == 0
    ensures d % Pow2(b) == 0
    decreases b
  {
    if b > 0 {
      var p := Pow2(b - 1);
      var q := (d * m) / (2 * p);
      assert d * m == q * (2 * p);
      EvenFactor(d, m, q * p);
      var h := d / 2;
      HalfProduct(d, m, h, q, p);
      ModOf(h * m, p, q, 0);
      OddFactor(b - 1, h, m);
      var r := h / p;
      assert h == r * p + 0;
      EvenMultiple(r, p);
      ModOf(d, 2 * p, r, 0);
    }
  }

  lemma OddProduct(d: int, m: int)
    requires d % 2 == 1 && m % 2 == 1
    ensures (d * m) % 2 == 1
  {
    var h, g := d / 2, m / 2;
    assert d * m == (2 * h + 1) * (2 * g + 1) == 2 * (2 * h * g + h + g) + 1;
  }

  lemma EvenFactor(d: nat, m: nat, x: int)
    requires m % 2 == 1 && d * m == 2 * x
    ensures d % 2 == 0
  {
    if d % 2 == 1 {
      OddProduct(d, m);
    }
  }

  lemma HalfProduct(d: int, m: int, h: int, q: int, p: int)
    requires d == 2 * h && d * m == q * (2 * p)
    ensures h * m == q * p
  {
    assert d * m == 2 * (h * m);
    assert q * (2 * p) == 2 * (q * p);
  }

  /** Each probe is one increment, modulo the table size, after the previous one. */
  lemma ProbeStep(bits: nat, k: Key, j: nat)
    ensures Probe(bits, k, j + 1) == (Probe(bits, k, j) + Increment(k)) % Pow2(bits)
  {
    var i := Increment(k);
    var x, y := k.k1 + Times(j, i), k.k1 + Times(j + 1, i);
    assert y == x + i;
    StepAt(x, y, i, bits);
  }

  lemma StepAt(x: nat, y: nat, i: nat, bits: nat)
    requires y == x + i
    ensures BottomBits(y, bits) == (BottomBits(x, bits) + i) % Pow2(bits)
  {
    AddBelow(x, i, Pow2(bits));
  }

  lemma FirstProbe(bits: nat, k: Key)
    ensures Probe(bits, k, 0) == k.k1 % Pow2(bits)
  {
  }

  lemma AddBelow(x: nat, i: nat, m: nat)
    requires m > 0
    ensures (x + i) % m == (x % m + i) % m
  {
    var q, r := x / m, x % m;
    var q', r' := (r + i) / m, (r + i) % m;
    Distribute(q, q', m);
    ModOf(x + i, m, q + q', r');
  }

  lemma SameRemainder(x: nat, y: nat, m: nat)
    requires m > 0 && x <= y && x % m == y % m
    ensures (y - x) % m == 0
  {
    var a, b := x / m, y / m;
    Distribute(b - a, a, m);
    assert y - x == (b - a) * m;
    ModOf(y - x, m, b - a, 0);
  }

  /** No slot is probed twice. */
  lemma ProbesDistinct(bits: nat, k: Key, i: nat, j: nat)
    requires i < j < Pow2(bits)
    ensures Probe(bits, k, i) != Probe(bits, k, j)
  {
    var m, inc, d := Pow2(bits), Increment(k), j - i;
    if Probe(bits, k, i) == Probe(bits, k, j) {
      TimesIs(i, inc);
      TimesIs(j, inc);
      Distribute(d, i, inc);
      NonNegative(d, inc);
      SameRemainder(k.k1 + i * inc, k.k1 + j * inc, m);
      OddFactor(bits, d, inc);
      ModOf(d, m, 0, d);
    }
  }

  /** The slots of a table of n slots. */
  ghost function Range(n: nat): (r: set<nat>)
    ensures |r| == n && forall i :: i in r <==> 0 <= i < n
  {
    if n == 0 then {} else Range(n - 1) + {n - 1}
  }

  ghost function Seen(p: seq<nat>, n: nat): set<nat>
    requires n <= |p|
  {
    set j | 0 <= j < n :: p[j]
  }

  lemma {:induction false} SeenCount(p: seq<nat>, n: nat)
    requires n <= |p| && forall i, j :: 0 <= i < j < |p| ==> p[i] != p[j]
    ensures |Seen(p, n)| == n
  {
    if n > 0 {
      SeenCount(p, n - 1);
      assert Seen(p, n) == Seen(p, n - 1) + {p[n - 1]};
    }
  }

  /** Distinct slots below the table size, as many as there are slots, are all of them. */
  lemma AllSlotsSeen(p: seq<nat>, slot: nat)
    requires slot < |p| && forall i, j :: 0 <= i < j < |p| ==> p[i] != p[j]
    requires forall i :: 0 <= i < |p| ==> p[i] < |p|
    ensures slot in p
  {
    var all := Range(|p|);
    SeenCount(p, |p|);
    if slot !in Seen(p, |p|) {
      assert Seen(p, |p|) <= all - {slot};
      SubsetSize(Seen(p, |p|), all - {slot});
    }
  }

  lemma {:induction false} SubsetSize(a: set<nat>, b: set<nat>)
    requires a <= b
    ensures |a| <= |b|
  {
    if a != {} {
      var x :| x in a;
      SubsetSize(a - {x}, b - {x});
    }
  }

  /** What FindSlot and Rollback rely on. */
  ghost predicate IsProbeSeq(size: nat, k: Key, p: seq<nat>) {
    && |p| == size && size > 0 && p[0] == k.k1 % size
    && (forall j :: 0 <= j < size ==> p[j] < size)
    && (forall j :: 0 <= j < size ==> NextProbe(size, k, p, j))
    && (forall i, j :: 0 <= i < j < size ==> p[i] != p[j])
    && (forall slot :: slot in Range(size) ==> slot in p)
  }

  ghost predicate NextProbe(size: nat, k: Key, p: seq<nat>, j: nat)
    requires |p| == size > 0 && j < size
  {
    (p[j] + Increment(k)) % size == if j + 1 < size then p[j + 1] else p[0]
  }

  lemma NextProbeHolds(bits: nat, k: Key, j: nat)
    requires j < Pow2(bits)
    ensures NextProbe(Pow2(bits), k, ProbeSeq(bits, k), j)
  {
    ProbeStep(bits, k, j);
    Wraps(bits, k);
  }

  /** An odd increment over a power-of-two table probes every slot exactly once
      and then returns to the first. */
  lemma ProbesEverySlotOnce(bits: nat, k: Key)
    ensures IsProbeSeq(Pow2(bits), k, ProbeSeq(bits, k))
  {
    var size, p := Pow2(bits), ProbeSeq(bits, k);
    FirstProbe(bits, k);
    forall j | 0 <= j < size ensures NextProbe(size, k, p, j) { NextProbeHolds(bits, k, j); }
    forall i, j | 0 <= i < j < size ensures p[i] != p[j] { ProbesDistinct(bits, k, i, j); }
    forall slot | slot in Range(size) ensures slot in p { AllSlotsSeen(p, slot); }
  }

  lemma Wraps(bits: nat, k: Key)
    ensures Probe(bits, k, Pow2(bits)) == Probe(bits, k, 0)
  {
    var m, inc := Pow2(bits), Increment(k);
    var q, r := k.k1 / m, k.k1 % m;
    TimesIs(m, inc);
    Distribute(q, inc, m);
    assert m * inc == inc * m;
    ModOf(k.k1 + m * inc, m, q + inc, r);
    FirstProbe(bits, k);
  }
}
