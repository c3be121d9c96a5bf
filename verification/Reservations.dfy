/** Memory reserved in a block cache by dummy entries (CacheReservationManagerImpl and
    ConcurrentCacheReservationManager), and how a cache with a secondary cache shares
    reservations between the two (CacheWithSecondaryAdapter). */
module Reservations {
  import opened LinearHashing

  /** kSizeDummyEntry */
  const DUMMY_SIZE: nat := 0x4_0000

  /** The least multiple of the dummy size that covers the memory. */
  ghost predicate LeastCover(cacheSize: nat, memory: nat) {
    && cacheSize % DUMMY_SIZE == 0 && cacheSize >= memory
    && forall n: nat :: n * DUMMY_SIZE >= memory ==> n * DUMMY_SIZE >= cacheSize
  }

  lemma CoverIsLeast(n: nat, memory: nat)
    requires memory <= n * DUMMY_SIZE < memory + DUMMY_SIZE
    ensures LeastCover(n * DUMMY_SIZE, memory)
  {
    forall k: nat | k * DUMMY_SIZE >= memory ensures k * DUMMY_SIZE >= n * DUMMY_SIZE {
    }
  }

  /** A reservation manager. The cache it inserts into may refuse any insertion: `accepts`
      says which attempts succeed. */
  class Manager {
    const delayedDecrease: bool
    const accepts: nat -> bool
    var attempts: nat
    var cacheSize: nat
    var memoryUsed: nat
    /** The dummy entries held, by the attempt that inserted them. */
    var dummies: seq<nat>

    ghost predicate Valid()
      reads this
    {
      cacheSize == |dummies| * DUMMY_SIZE
    }

    constructor (delayedDecrease: bool, accepts: nat -> bool)
      ensures Valid() && memoryUsed == 0 && cacheSize == 0 && dummies == []
      ensures this.delayedDecrease == delayedDecrease && this.accepts == accepts
    {
      this.delayedDecrease, this.accepts := delayedDecrease, accepts;
      attempts, cacheSize, memoryUsed, dummies := 0, 0, 0, [];
    }

    /** Adds dummy entries until they cover the memory, or one is refused. */
    method Increase(memory: nat) returns (ok: bool)
      requires Valid() && memory > cacheSize
      modifies this`attempts, this`cacheSize, this`dummies
      ensures Valid() && old(dummies) <= dummies && (ok <==> cacheSize >= memory) && cacheSize < memory + DUMMY_SIZE
      ensures !ok ==> attempts > 0 && !accepts(attempts - 1)
    {
      while memory > cacheSize
        invariant Valid() && old(dummies) <= dummies && cacheSize < memory + DUMMY_SIZE
      {
        var attempt := attempts;
        attempts := attempts + 1;
        if !accepts(attempt) {
          return false;
        }
        dummies, cacheSize := dummies + [attempt], cacheSize + DUMMY_SIZE;
      }
      ok := true;
    }

    /** Releases dummy entries, the newest first, as long as the rest covers the memory. */
    method Decrease(memory: nat)
      requires Valid() && memory < cacheSize
      modifies this`cacheSize, this`dummies
      ensures Valid() && dummies <= old(dummies) && memory <= cacheSize < memory + DUMMY_SIZE
    {
      while memory + DUMMY_SIZE <= cacheSize
        invariant Valid() && dummies <= old(dummies) && memory <= cacheSize
      {
        dummies, cacheSize := dummies[..|dummies| - 1], cacheSize - DUMMY_SIZE;
      }
    }

    /** Without delayed decrease, a successful update reserves the least multiple of the
        dummy size that covers the memory. The memory used is updated in any case. */
    method UpdateCacheReservation(memory: nat) returns (ok: bool)
      requires Valid()
      modifies this`attempts, this`cacheSize, this`memoryUsed, this`dummies
      ensures Valid() && memoryUsed == memory && (dummies <= old(dummies) || old(dummies) <= dummies)
      ensures ok <==> memory <= cacheSize
      ensures ok && !delayedDecrease ==> LeastCover(cacheSize, memory)
      ensures ok && delayedDecrease ==>
              LeastCover(cacheSize, memory) || (cacheSize == old(cacheSize) && memory >= cacheSize / 4 * 3)
      ensures !ok ==> attempts > 0 && !accepts(attempts - 1) && memory > old(cacheSize)
    {
      memoryUsed := memory;
      if memory == cacheSize {
        ok := true;
      } else if memory > cacheSize {
        ok := Increase(memory);
      } else {
        ok := true;
        if delayedDecrease && memory >= cacheSize / 4 * 3 {
          return;
        }
        Decrease(memory);
      }
      if ok {
        CoverIsLeast(|dummies|, memory);
      }
    }

    /** ConcurrentCacheReservationManager: a change of the memory used, not below zero. */
    method UpdateByDelta(delta: nat, increase: bool) returns (ok: bool)
      requires Valid()
      modifies this`attempts, this`cacheSize, this`memoryUsed, this`dummies
      ensures Valid() && memoryUsed == (if increase then old(memoryUsed) + delta
              else if old(memoryUsed) > delta then old(memoryUsed) - delta else 0)
      ensures ok <==> memoryUsed <= cacheSize
      ensures ok && !delayedDecrease ==> LeastCover(cacheSize, memoryUsed)
    {
      if increase {
        ok := UpdateCacheReservation(memoryUsed + delta);
      } else {
        ok := UpdateCacheReservation(if memoryUsed > delta then memoryUsed - delta else 0);
      }
    }
  }

  // ---------------------------------------------------------------- two tiers

  /** kReservationChunkSize */
  const CHUNK_SIZE: nat := 0x10_0000

  /** usage & ~(kReservationChunkSize - 1) */
  function Chunked(usage: nat): (r: nat)
    ensures r <= usage < r + CHUNK_SIZE && r % CHUNK_SIZE == 0
  {
    usage - usage % CHUNK_SIZE
  }

  /** The part of a reservation that the secondary cache bears: usage * ratio, rounded
      down, with the ratio of the secondary capacity to the capacity. */
  function Share(usage: nat, secondary: nat, capacity: nat): (r: nat)
    requires capacity > 0
  {
    NonNegative(usage, secondary);
    Floor(usage * secondary, capacity)
  }

  function Floor(x: nat, d: nat): nat
    requires d > 0
  {
    x / d
  }

  lemma FloorGrows(x: nat, y: nat, d: nat)
    requires d > 0 && x <= y
    ensures Floor(x, d) <= Floor(y, d)
  {
    var e := x / d - y / d;
    assert x == (x / d) * d + x % d && y == (y / d) * d + y % d;
    assert (x / d) * d - (y / d) * d == e * d;
    if e >= 1 {
      Distribute(e - 1, 1, d);
      NonNegative(e - 1, d);
    }
  }

  lemma ShareGrows(u: nat, v: nat, secondary: nat, capacity: nat)
    requires capacity > 0 && u <= v
    ensures Share(u, secondary, capacity) <= Share(v, secondary, capacity)
  {
    NonNegative(v - u, secondary);
    Distribute(v - u, u, secondary);
    FloorGrows(u * secondary, v * secondary, capacity);
  }

  lemma ShareOfAll(secondary: nat, capacity: nat)
    requires capacity > 0
    ensures Share(capacity, secondary, capacity) == secondary && Share(0, secondary, capacity) == 0
  {
    assert capacity * secondary == secondary * capacity;
    ModOf(capacity * secondary, capacity, secondary, 0);
    ModOf(0, capacity, 0, 0);
  }

  ghost function Sum(charges: seq<nat>): nat { if charges == [] then 0 else charges[0] + Sum(charges[1..]) }

  lemma {:induction false} SumWithout(charges: seq<nat>, i: nat)
    requires i < |charges|
    ensures Sum(charges) == Sum(charges[..i] + charges[i + 1..]) + charges[i]
  {
    if i == 0 {
      assert charges[..0] + charges[1..] == charges[1..];
    } else {
      SumWithout(charges[1..], i - 1);
      assert (charges[..i] + charges[i + 1..])[1..] == charges[1..][..i - 1] + charges[1..][i..];
    }
  }

  lemma {:induction false} SumWith(charges: seq<nat>, c: nat)
    ensures Sum(charges + [c]) == Sum(charges) + c
  {
    if charges == [] {
      assert charges + [c] == [c] && [c][1..] == [];
    } else {
      assert (charges + [c])[1..] == charges[1..] + [c];
      SumWith(charges[1..], c);
    }
  }

  /** The reservations of a cache with a secondary cache, at fixed capacities. */
  class Adapter {
    const capacity: nat
    const secondary: nat
    const pri: Manager
    var placeholderUsage: nat
    var reservedUsage: nat
    var secReserved: nat
    /** The charges of the placeholders that are held. */
    ghost var held: seq<nat>

    /** What is reserved in the primary for the secondary, and what the secondary has given
        up, are together the secondary's capacity. */
    ghost predicate Balanced()
      reads this, pri
    {
      && capacity > 0 && pri.Valid() && reservedUsage <= capacity && reservedUsage % CHUNK_SIZE == 0
      && secReserved == Share(reservedUsage, secondary, capacity) && pri.memoryUsed + secReserved == secondary
    }

    ghost predicate Valid()
      reads this, pri
    {
      Balanced() && placeholderUsage == Sum(held) && reservedUsage <= placeholderUsage
    }

    /** As long as the placeholders fit, no whole chunk of them is left unshared. */
    ghost predicate Shared()
      reads this
    {
      placeholderUsage <= capacity ==> placeholderUsage - reservedUsage < CHUNK_SIZE
    }

    constructor (capacity: nat, secondary: nat, accepts: nat -> bool)
      requires capacity > 0
      ensures Valid() && Shared() && held == [] && pri.memoryUsed == secondary && secReserved == 0 && fresh(pri)
      ensures this.capacity == capacity && this.secondary == secondary && placeholderUsage == 0 && reservedUsage == 0
    {
      this.capacity, this.secondary := capacity, secondary;
      pri := new Manager(false, accepts);
      placeholderUsage, reservedUsage, secReserved, held := 0, 0, 0, [];
      new;
      var _ := pri.UpdateCacheReservation(secondary);
      ShareOfAll(secondary, capacity);
    }

    /** A placeholder was inserted into the primary cache. */
    method Insert(charge: nat)
      requires Valid()
      modifies this, pri
      ensures Valid() && Shared() && held == old(held) + [charge]
      ensures placeholderUsage == old(placeholderUsage) + charge && secReserved >= old(secReserved)
      ensures reservedUsage ==
                if placeholderUsage <= capacity && placeholderUsage - old(reservedUsage) >= CHUNK_SIZE
                then Chunked(placeholderUsage) else old(reservedUsage)
    {
      SumWith(held, charge);
      held, placeholderUsage := held + [charge], placeholderUsage + charge;
      if placeholderUsage <= capacity && placeholderUsage - reservedUsage >= CHUNK_SIZE {
        Reserve(Chunked(placeholderUsage));
      }
    }

    /** Takes what the secondary bears to the share of the given usage. */
    method Reserve(usage: nat)
      requires Balanced() && usage <= capacity && usage % CHUNK_SIZE == 0
      modifies this`reservedUsage, this`secReserved, pri
      ensures Balanced() && reservedUsage == usage
      ensures usage >= old(reservedUsage) ==> secReserved >= old(secReserved)
      ensures usage <= old(reservedUsage) ==> secReserved <= old(secReserved)
    {
      var newSecReserved := Share(usage, secondary, capacity);
      ShareGrows(usage, capacity, secondary, capacity);
      ShareOfAll(secondary, capacity);
      if usage >= reservedUsage {
        ShareGrows(reservedUsage, usage, secondary, capacity);
        var secCharge := newSecReserved - secReserved;
        var _ := pri.UpdateByDelta(secCharge, false);
        secReserved := secReserved + secCharge;
      } else {
        ShareGrows(usage, reservedUsage, secondary, capacity);
        var secCharge := secReserved - newSecReserved;
        var _ := pri.UpdateByDelta(secCharge, true);
        secReserved := secReserved - secCharge;
      }
      reservedUsage := usage;
    }

    /** A held placeholder is released and erased. Whole chunks stay unshared exactly if the
        rest fits but was not shared before. */
    method Release(charge: nat, ghost i: nat)
      requires Valid() && i < |held| && held[i] == charge
      modifies this, pri
      ensures Valid() && held == old(held)[..i] + old(held)[i + 1..]
      ensures placeholderUsage == old(placeholderUsage) - charge && secReserved <= old(secReserved)
      ensures reservedUsage == if placeholderUsage < old(reservedUsage) then Chunked(placeholderUsage)
              else old(reservedUsage)
      ensures Shared() <==>
                var rest := old(placeholderUsage) - charge; rest > capacity || rest < old(reservedUsage) + CHUNK_SIZE
      ensures held == [] ==>
                placeholderUsage == 0 && reservedUsage == 0 && secReserved == 0 && pri.memoryUsed == secondary
    {
      SumWithout(held, i);
      held, placeholderUsage := held[..i] + held[i + 1..], placeholderUsage - charge;
      ShareOfAll(secondary, capacity);
      if placeholderUsage <= capacity && placeholderUsage < reservedUsage {
        Reserve(Chunked(placeholderUsage));
      }
    }
  }

  /** With a capacity of ten chunks, placeholders of 5, 20 and 4 chunks are inserted; the last
      two are over the capacity, so that nothing of them is shared. Once the second is
      released the other two fit, but four whole chunks of them stay unshared. */
  method ReleaseLeavesUnshared(secondary: nat, accepts: nat -> bool) returns (a: Adapter)
    ensures a.Valid() && a.held == [5 * CHUNK_SIZE, 4 * CHUNK_SIZE] && !a.Shared()
    ensures a.capacity == 10 * CHUNK_SIZE && a.placeholderUsage == 9 * CHUNK_SIZE && a.reservedUsage == 5 * CHUNK_SIZE
  {
    a := new Adapter(10 * CHUNK_SIZE, secondary, accepts);
    a.Insert(5 * CHUNK_SIZE);
    a.Insert(20 * CHUNK_SIZE);
    a.Insert(4 * CHUNK_SIZE);
    a.Release(20 * CHUNK_SIZE, 1);
  }
}
