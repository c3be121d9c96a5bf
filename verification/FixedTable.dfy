/** FixedHyperClockTable, run sequentially: open addressing with double hashing,
    displacement counts, clock eviction, and the usage and occupancy accounting of
    BaseClockTable::Insert. */
module FixedTable {
  import opened LinearHashing
  import opened Options
  import opened Probing
  import opened ClockEntries

  datatype Slot = Empty | Used(e: Entry)

  // ---------------------------------------------------------------- displacement counts

  /** The probe path of the entry in this slot, found at its d-th probe, passes slot i. */
  ghost predicate Passes(f: Key -> seq<nat>, x: Slot, d: nat, i: nat) {
    x.Used? && d <= |f(x.e.key)| && i in f(x.e.key)[..d]
  }

  /** How many of the entries in slots [0, n) have a probe path that passes slot i. */
  ghost function PassCount(f: Key -> seq<nat>, s: seq<Slot>, dist: seq<nat>, n: nat, i: nat): nat
    requires n <= |s| == |dist|
  {
    if n == 0 then 0 else PassCount(f, s, dist, n - 1, i) + One(Passes(f, s[n - 1], dist[n - 1], i))
  }

  lemma {:induction false} PassUpdate(f: Key -> seq<nat>, s: seq<Slot>, dist: seq<nat>, n: nat, i: nat, t: nat, x: Slot,
      d: nat)
    requires n <= |s| == |dist| && t < |s|
    ensures PassCount(f, s[t := x], dist[t := d], n, i) ==
            PassCount(f, s, dist, n, i)
            + (if t < n then One(Passes(f, x, d, i)) - One(Passes(f, s[t], dist[t], i)) else 0)
  {
    if n > 0 {
      PassUpdate(f, s, dist, n - 1, i, t, x, d);
    }
  }

  lemma {:induction false} PassPositive(f: Key -> seq<nat>, s: seq<Slot>, dist: seq<nat>, n: nat, i: nat, t: nat)
    requires t < n <= |s| == |dist| && Passes(f, s[t], dist[t], i)
    ensures PassCount(f, s, dist, n, i) > 0
  {
    if n - 1 != t {
      PassPositive(f, s, dist, n - 1, i, t);
    }
  }

  lemma {:induction false} PassEmpty(f: Key -> seq<nat>, s: seq<Slot>, dist: seq<nat>, n: nat, i: nat)
    requires n <= |s| == |dist| && forall t :: 0 <= t < n ==> s[t].Empty?
    ensures PassCount(f, s, dist, n, i) == 0
  {
    if n > 0 {
      PassEmpty(f, s, dist, n - 1, i);
    }
  }

  /** Every displacement is the number of stored entries whose probe path passes the slot. */
  ghost predicate DispOk(f: Key -> seq<nat>, s: seq<Slot>, dist: seq<nat>, disp: seq<int>, i: int) {
    0 <= i < |s| == |dist| == |disp| ==> disp[i] == PassCount(f, s, dist, |s|, i)
  }

  /** An entry sits where its probe sequence put it. */
  ghost predicate PlacedOk(f: Key -> seq<nat>, s: seq<Slot>, dist: seq<nat>, t: int) {
    0 <= t < |s| == |dist| && s[t].Used? ==> dist[t] < |f(s[t].e.key)| && f(s[t].e.key)[dist[t]] == t
  }

  ghost predicate Layout(size: nat, f: Key -> seq<nat>, s: seq<Slot>, dist: seq<nat>, disp: seq<int>) {
    && |s| == |dist| == |disp| == size > 0
    && (forall k :: IsProbeSeq(size, k, f(k)))
    && (forall t :: PlacedOk(f, s, dist, t))
    && (forall i :: DispOk(f, s, dist, disp, i))
  }

  /** disp is short of, or beyond, the right counts exactly on the first m probes of k. */
  ghost predicate Shifted(f: Key -> seq<nat>, k: Key, m: nat, delta: int, disp: seq<int>, disp0: seq<int>) {
    && |disp| == |disp0| && m <= |f(k)|
    && forall i :: 0 <= i < |disp| ==> disp[i] == disp0[i] + if i in f(k)[..m] then delta else 0
  }

  lemma ShiftOne(f: Key -> seq<nat>, size: nat, k: Key, m: nat, delta: int, disp: seq<int>, disp0: seq<int>)
    requires IsProbeSeq(size, k, f(k)) && m < size == |disp0| && Shifted(f, k, m, delta, disp, disp0)
    ensures Shifted(f, k, m + 1, delta, disp[f(k)[m] := disp[f(k)[m]] + delta], disp0)
  {
    var p := f(k);
    assert p[..m + 1] == p[..m] + [p[m]];
    assert p[m] !in p[..m];
  }

  /** Putting an entry found at its m-th probe into an empty slot explains the
      increments made on the way. */
  lemma LayoutInsert(size: nat, f: Key -> seq<nat>, s: seq<Slot>, dist: seq<nat>, disp: seq<int>, disp0: seq<int>,
      t: nat, e: Entry, m: nat)
    requires Layout(size, f, s, dist, disp0) && t < size && s[t].Empty? && m < size && f(e.key)[m] == t
    requires Shifted(f, e.key, m, 1, disp, disp0)
    ensures Layout(size, f, s[t := Used(e)], dist[t := m], disp)
  {
    var s', dist' := s[t := Used(e)], dist[t := m];
    forall u ensures PlacedOk(f, s', dist', u) { assert PlacedOk(f, s, dist, u); }
    forall i | 0 <= i < size
      ensures DispOk(f, s', dist', disp, i)
    {
      assert DispOk(f, s, dist, disp0, i);
      PassUpdate(f, s, dist, size, i, t, Used(e), m);
    }
  }

  /** Emptying a slot explains the decrements made by Rollback. */
  lemma LayoutRemove(size: nat, f: Key -> seq<nat>, s: seq<Slot>, dist: seq<nat>, disp: seq<int>, disp0: seq<int>,
      t: nat)
    requires Layout(size, f, s, dist, disp0) && t < size && s[t].Used?
    requires Shifted(f, s[t].e.key, dist[t], -1, disp, disp0)
    ensures Layout(size, f, s[t := Empty], dist, disp)
  {
    var s' := s[t := Empty];
    assert PlacedOk(f, s, dist, t);
    forall u ensures PlacedOk(f, s', dist, u) { assert PlacedOk(f, s, dist, u); }
    forall i | 0 <= i < size
      ensures DispOk(f, s', dist, disp, i)
    {
      assert DispOk(f, s, dist, disp0, i);
      PassUpdate(f, s, dist, size, i, t, Empty, dist[t]);
      assert dist[t := dist[t]] == dist;
    }
  }

  /** Changing an entry without moving it. */
  lemma LayoutModify(size: nat, f: Key -> seq<nat>, s: seq<Slot>, dist: seq<nat>, disp: seq<int>, t: nat, e: Entry)
    requires Layout(size, f, s, dist, disp) && t < size && s[t].Used? && e.key == s[t].e.key
    ensures Layout(size, f, s[t := Used(e)], dist, disp)
  {
    var s' := s[t := Used(e)];
    forall u ensures PlacedOk(f, s', dist, u) { assert PlacedOk(f, s, dist, u); }
    forall i | 0 <= i < size
      ensures DispOk(f, s', dist, disp, i)
    {
      assert DispOk(f, s, dist, disp, i);
      PassUpdate(f, s, dist, size, i, t, Used(e), dist[t]);
      assert dist[t := dist[t]] == dist;
    }
  }

  /** A probe that stops at displacement zero has passed no entry of its key. */
  lemma NothingBeyond(size: nat, f: Key -> seq<nat>, s: seq<Slot>, dist: seq<nat>, disp: seq<int>, k: Key, m: nat,
      t: nat)
    requires Layout(size, f, s, dist, disp) && m < size && disp[f(k)[m]] == 0
    requires t < size && s[t].Used? && s[t].e.key == k
    ensures dist[t] <= m
  {
    assert PlacedOk(f, s, dist, t) && DispOk(f, s, dist, disp, f(k)[m]);
    if dist[t] > m {
      assert f(k)[m] in f(k)[..dist[t]];
      PassPositive(f, s, dist, size, f(k)[m], t);
    }
  }

  /** An empty table has all displacements zero. */
  lemma EmptyTableUndisplaced(size: nat, f: Key -> seq<nat>, s: seq<Slot>, dist: seq<nat>, disp: seq<int>, i: nat)
    requires Layout(size, f, s, dist, disp) && i < size && forall t :: 0 <= t < size ==> s[t].Empty?
    ensures disp[i] == 0
  {
    assert DispOk(f, s, dist, disp, i);
    PassEmpty(f, s, dist, size, i);
  }

  // ---------------------------------------------------------------- charges

  function ChargeOf(x: Slot): nat { if x.Used? then x.e.charge else 0 }

  /** Total charge of the entries in a table. */
  ghost function Charges(s: seq<Slot>): nat {
    if s == [] then 0 else ChargeOf(s[0]) + Charges(s[1..])
  }

  /** Number of occupied slots. */
  ghost function Occupied(s: seq<Slot>): nat {
    if s == [] then 0 else One(s[0].Used?) + Occupied(s[1..])
  }

  lemma {:induction false} SumUpdate(s: seq<Slot>, t: nat, x: Slot)
    requires t < |s|
    ensures Charges(s[t := x]) == Charges(s) - ChargeOf(s[t]) + ChargeOf(x)
    ensures Occupied(s[t := x]) == Occupied(s) - One(s[t].Used?) + One(x.Used?)
    ensures Charges(s) >= ChargeOf(s[t]) && Occupied(s) >= One(s[t].Used?)
  {
    if t == 0 {
      assert s[t := x][1..] == s[1..];
    } else {
      assert s[t := x][1..] == s[1..][t - 1 := x];
      SumUpdate(s[1..], t - 1, x);
    }
  }

  // ---------------------------------------------------------------- the table

  /** Outcome of DoInsert: the slot used, the slot of a visible entry with the same
      key, or no room. */
  datatype InsertSlot = Inserted(at: nat) | Matches(at: nat) | Full

  /** A reference taken and released n times as useful: boosts the clock. */
  function Boosted(e: Entry, n: nat): Entry { e.(acquire := e.acquire + n, release := e.release + n) }

  lemma ShiftBack(f: Key -> seq<nat>, k: Key, m: nat, d0: seq<int>, d1: seq<int>, d2: seq<int>)
    requires Shifted(f, k, m, 1, d1, d0) && Shifted(f, k, m, -1, d2, d1)
    ensures d2 == d0
  {
  }

  class Table {
    const size: nat
    const occupancyLimit: nat
    const metadataCharge: nat
    ghost const probes: Key -> seq<nat>
    const slots: array<Slot>
    const displacements: array<int>
    ghost var dist: seq<nat>
    var occupancy: int
    var usage: int
    var standaloneUsage: int
    var clockPointer: nat
    var handles: map<nat, Entry>

    /** The slots and the displacement counts agree. */
    ghost predicate Placed()
      reads this, slots, displacements
    {
      Layout(size, probes, slots[..], dist, displacements[..])
    }

    /** usage_ and occupancy_ are over the stored charges and entries by the given amounts. */
    ghost predicate Accounts(charge: int, count: int)
      reads this, slots
    {
      && usage == metadataCharge + Charges(slots[..]) + HandleCharges(handles) + charge
      && occupancy == Occupied(slots[..]) + count
      && standaloneUsage == HandleCharges(handles)
    }

    /** What holds between operations. */
    ghost predicate Valid()
      reads this, slots, displacements
    {
      Placed() && Accounts(0, 0)
    }

    constructor (bits: nat, metadata: nat)
      ensures Valid() && fresh(slots) && fresh(displacements)
      ensures size == Pow2(bits) && metadataCharge == metadata && usage == metadata
      ensures occupancyLimit == Pow2(bits) * 84 / 100
      ensures forall i :: 0 <= i < size ==> slots[i].Empty?
      ensures handles == map[]
    {
      size := Pow2(bits);
      occupancyLimit := Pow2(bits) * 84 / 100;
      metadataCharge := metadata;
      probes := k => ProbeSeq(bits, k);
      slots := new Slot[Pow2(bits)](_ => Empty);
      displacements := new int[Pow2(bits)](_ => 0);
      dist := seq(Pow2(bits), _ => 0);
      occupancy, usage, standaloneUsage, clockPointer := 0, metadata, 0, 0;
      handles := map[];
      new;
      forall k ensures IsProbeSeq(size, k, probes(k)) { ProbesEverySlotOnce(bits, k); }
      forall i: nat | i < size ensures DispOk(probes, slots[..], dist, displacements[..], i) {
        PassEmpty(probes, slots[..], dist, size, i);
      }
      NoCharges(slots[..]);
    }

    /** Re-decrements the displacements on the probe path up to, not including, a slot. */
    method Rollback(key: Key, slot: nat, ghost d: nat)
      requires IsProbeSeq(size, key, probes(key)) && displacements.Length == size
      requires d < size && probes(key)[d] == slot
      modifies displacements
      ensures Shifted(probes, key, d, -1, displacements[..], old(displacements[..]))
    {
      var increment := Increment(key);
      var current := key.k1 % size;
      ghost var m := 0;
      while current != slot
        invariant m <= d && current == probes(key)[m]
        invariant Shifted(probes, key, m, -1, displacements[..], old(displacements[..]))
        decreases d - m
      {
        ShiftOne(probes, size, key, m, -1, displacements[..], old(displacements[..]));
        assert NextProbe(size, key, probes(key), m);
        displacements[current] := displacements[current] - 1;
        current := (current + increment) % size;
        m := m + 1;
      }
    }

    /** Undoes the increments made on the first d probes of a key. */
    method Restore(key: Key, slot: nat, ghost d: nat, ghost before: seq<int>)
      requires IsProbeSeq(size, key, probes(key)) && displacements.Length == size
      requires d < size && probes(key)[d] == slot && Shifted(probes, key, d, 1, displacements[..], before)
      modifies displacements
      ensures displacements[..] == before
    {
      ghost var d1 := displacements[..];
      Rollback(key, slot, d);
      ShiftBack(probes, key, d, before, d1, displacements[..]);
    }

    /** Searches the probe sequence for an empty slot or a visible entry with the
        same key, whichever comes first. */
    method DoInsert(e: Entry, countdown: nat) returns (r: InsertSlot)
      requires Placed()
      modifies slots, displacements, this`dist
      ensures Placed()
      ensures r.Inserted? ==>
                && r.at < size && old(slots[r.at]).Empty? && slots[..] == old(slots[..])[r.at := Used(e)]
                && dist[r.at] < size
                && dist[r.at] < |probes(e.key)| && probes(e.key)[dist[r.at]] == r.at
                && forall j :: 0 <= j < dist[r.at] ==> Passed(old(slots[..]), probes(e.key)[j], e.key)
      ensures r.Matches? ==>
                && IsVisible(old(slots[..]), r.at, e.key)
                && slots[..] == old(slots[..])[r.at := Used(Boosted(old(slots[r.at].e), countdown))]
      ensures r.Full? ==>
                slots[..] == old(slots[..])
                  && forall i :: 0 <= i < size ==> slots[i].Used? && !IsVisible(slots[..], i, e.key)
    {
      var key := e.key;
      var increment := Increment(key);
      ghost var p := probes(key);
      ghost var s0, d0 := slots[..], displacements[..];
      assert IsProbeSeq(size, key, p);
      var first := key.k1 % size;
      var current := first;
      ghost var m := 0;
      while slots[current].Used? && !(slots[current].e.visible && slots[current].e.key == key)
        invariant m < size && current == p[m] && slots[..] == s0 && dist == old(dist)
        invariant Shifted(probes, key, m, 1, displacements[..], d0)
        invariant forall j :: 0 <= j < m ==> Passed(s0, p[j], key)
        decreases size - m
      {
        var h := current;
        assert NextProbe(size, key, p, m);
        current := (current + increment) % size;
        if current == first {
          Restore(key, h, m, d0);
          AllProbed(size, s0, key, p);
          return Full;
        }
        ShiftOne(probes, size, key, m, 1, displacements[..], d0);
        displacements[h] := displacements[h] + 1;
        m := m + 1;
      }
      if slots[current].Empty? {
        slots[current] := Used(e);
        LayoutInsert(size, probes, s0, dist, displacements[..], d0, current, e, m);
        dist := dist[current := m];
        r := Inserted(current);
      } else {
        var x := Boosted(slots[current].e, countdown);
        slots[current] := Used(x);
        Restore(key, current, m, d0);
        LayoutModify(size, probes, s0, dist, d0, current, x);
        r := Matches(current);
      }
    }

    /** Finds a visible entry with the key and takes a reference on it. */
    method Lookup(key: Key) returns (r: Option<nat>)
      requires Placed()
      modifies slots
      ensures Placed()
      ensures r.Some? <==> exists i :: IsVisible(old(slots[..]), i, key)
      ensures r.Some? ==>
                && IsVisible(old(slots[..]), r.value, key)
                && slots[..] == old(slots[..])[r.value := Used(Referenced(old(slots[r.value].e)))]
      ensures r.None? ==> slots[..] == old(slots[..])
    {
      var increment := Increment(key);
      ghost var p := probes(key);
      ghost var s0 := slots[..];
      assert IsProbeSeq(size, key, p);
      var first := key.k1 % size;
      var current := first;
      ghost var m := 0;
      while !(slots[current].Used? && slots[current].e.visible && slots[current].e.key == key)
        invariant m < size && current == p[m]
        invariant forall j :: 0 <= j < m ==> !IsVisible(s0, p[j], key)
        decreases size - m
      {
        if displacements[current] == 0 {
          NoneVisible(size, probes, s0, dist, displacements[..], key, m);
          return None;
        }
        assert NextProbe(size, key, p, m);
        current := (current + increment) % size;
        if current == first {
          AllProbed(size, s0, key, p);
          return None;
        }
        m := m + 1;
      }
      assert IsVisible(s0, current, key);
      var x := Referenced(slots[current].e);
      LayoutModify(size, probes, s0, dist, displacements[..], current, x);
      slots[current] := Used(x);
      r := Some(current);
    }

    /** Rollback followed by marking the slot empty. */
    method RemoveAt(t: nat)
      requires Placed() && t < size && slots[t].Used?
      modifies slots, displacements
      ensures Placed() && slots[..] == old(slots[..])[t := Empty]
    {
      ghost var s0, d0 := slots[..], displacements[..];
      var key := slots[t].e.key;
      assert PlacedOk(probes, s0, dist, t) && IsProbeSeq(size, key, probes(key));
      Rollback(key, t, dist[t]);
      LayoutRemove(size, probes, s0, dist, displacements[..], d0, t);
      slots[t] := Empty;
    }

    /** Removes an entry and gives its charge and slot back (ReclaimEntryUsage). */
    method Reclaim(t: nat)
      requires Valid() && t < size && slots[t].Used?
      modifies slots, displacements, this`usage, this`occupancy
      ensures Valid() && slots[..] == old(slots[..])[t := Empty]
      ensures usage == old(usage) - old(slots[t].e.charge) && occupancy == old(occupancy) - 1
    {
      SumUpdate(slots[..], t, Empty);
      usage := usage - slots[t].e.charge;
      occupancy := occupancy - 1;
      RemoveAt(t);
    }

    /** Replaces an entry by one with the same key and charge. */
    method Modify(t: nat, e: Entry)
      requires Placed() && t < size && slots[t].Used? && e.key == slots[t].e.key
      modifies slots
      ensures Placed() && slots[..] == old(slots[..])[t := Used(e)]
    {
      LayoutModify(size, probes, slots[..], dist, displacements[..], t, e);
      slots[t] := Used(e);
    }

    /** Gives back a reference; frees the entry if it was the last one and either the
        caller asks for it or the entry is already invisible. */
    method Release(t: nat, useful: bool, eraseIfLast: bool) returns (gone: bool)
      requires Valid() && t < size && slots[t].Used? && slots[t].e.Refs() > 0
      modifies slots, displacements, this`usage, this`occupancy
      ensures Valid()
      ensures gone <==> old(slots[t].e.Refs()) == 1 && (eraseIfLast || !old(slots[t].e.visible))
      ensures slots[..] == old(slots[..])[t := if gone then Empty else Used(Released(old(slots[t].e), useful))]
    {
      var x := slots[t].e;
      var y := Released(x, useful);
      SumUpdate(slots[..], t, Used(y));
      Modify(t, y);
      gone := y.Refs() == 0 && (eraseIfLast || !x.visible);
      if gone {
        Reclaim(t);
      }
    }

    /** Makes every visible entry with the key invisible, and frees those that are unreferenced. */
    method Erase(key: Key)
      requires Valid()
      modifies slots, displacements, this`usage, this`occupancy
      ensures Valid()
      ensures forall i :: 0 <= i < size ==> slots[i] == Erased(old(slots[i]), key)
      ensures forall i :: !IsVisible(slots[..], i, key)
    {
      var increment := Increment(key);
      ghost var p := probes(key);
      ghost var s0 := slots[..];
      assert IsProbeSeq(size, key, p);
      var first := key.k1 % size;
      var current := first;
      ghost var m := 0;
      while true
        invariant m < size && current == p[m] && Valid()
        invariant ErasedSome(s0, slots[..], key, p, m)
        decreases size - m
      {
        EraseAt(current, key);
        ErasedNext(size, s0, slots[..], key, p, m);
        if displacements[current] == 0 {
          ErasedToZero(size, probes, s0, slots[..], dist, displacements[..], key, m);
          return;
        }
        assert NextProbe(size, key, p, m);
        current := (current + increment) % size;
        m := m + 1;
        if current == first {
          ErasedAll(size, s0, slots[..], key, p);
          return;
        }
      }
    }

    method EraseAt(t: nat, key: Key)
      requires Valid() && t < size
      modifies slots, displacements, this`usage, this`occupancy
      ensures Valid() && slots[..] == old(slots[..])[t := Erased(old(slots[t]), key)]
    {
      if slots[t].Used? && slots[t].e.visible && slots[t].e.key == key {
        if slots[t].e.Refs() == 0 {
          Reclaim(t);
        } else {
          var x := slots[t].e.(visible := false);
          SumUpdate(slots[..], t, Used(x));
          Modify(t, x);
        }
      } else {
        assert slots[..] == slots[..][t := slots[t]];
      }
    }

    /** Frees every unreferenced entry. */
    method EraseUnRefEntries()
      requires Valid()
      modifies slots, displacements, this`usage, this`occupancy
      ensures Valid()
      ensures forall i :: 0 <= i < size ==>
                slots[i] == if old(slots[i]).Used? && old(slots[i]).e.Refs() == 0 then Empty else old(slots[i])
    {
      ghost var s0 := slots[..];
      for t := 0 to size
        invariant Valid()
        invariant forall i :: 0 <= i < size ==>
                    slots[i] == if i < t && s0[i].Used? && s0[i].e.Refs() == 0 then Empty else s0[i]
      {
        if slots[t].Used? && slots[t].e.Refs() == 0 {
          Reclaim(t);
        }
      }
    }

    /** Ages one unreferenced entry, or evicts it when its countdown is over or it is
        invisible. Adds what it frees or finds pinned to the eviction data. */
    method ClockStep(t: nat, data: EvictionData) returns (data': EvictionData)
      requires Placed() && t < size
      modifies slots, displacements
      ensures Placed() && slots[..] == old(slots[..])[t := Tick(old(slots[t]))]
      ensures data'.freedCharge == data.freedCharge + ChargeOf(old(slots[t])) - ChargeOf(slots[t])
      ensures data'.freedCount == data.freedCount + One(old(slots[t]).Used?) - One(slots[t].Used?)
      ensures data'.pinned == data.pinned + One(old(slots[t]).Used? && old(slots[t]).e.Refs() != 0)
    {
      data' := data;
      assert slots[..] == slots[..][t := slots[t]];
      if slots[t].Used? {
        var x := slots[t].e;
        data' := Counted(x, data);
        match ClockUpdate(x) {
          case Some(y) => Modify(t, y);
          case None => RemoveAt(t);
        }
      }
    }

    /** The next four ticks of the clock. */
    method TickFour(pointer: nat, data: EvictionData, ghost s0: seq<Slot>, ghost start: nat)
        returns (data': EvictionData)
      requires Placed() && start <= pointer && AllTicked(s0, slots[..], start, pointer) && Freed(s0, slots[..], data)
      modifies slots, displacements
      ensures Placed() && AllTicked(s0, slots[..], start, pointer + 4) && Freed(s0, slots[..], data')
    {
      data' := data;
      for i := 0 to 4
        invariant Placed() && AllTicked(s0, slots[..], start, pointer + i) && Freed(s0, slots[..], data')
      {
        var t := (pointer + i) % size;
        ghost var s1 := slots[..];
        data' := ClockStep(t, data');
        SumUpdate(s1, t, slots[t]);
        TickedNext(s0, s1, slots[..], start, pointer + i);
      }
    }

    /** Runs the clock until enough is freed, the clock has gone round kMaxCountdown
        times, or too many entries turn out to be pinned. If it stops short for another
        reason than the last, no unreferenced entry is left with time on its clock. */
    method Evict(requested: nat, effortCap: nat) returns (data: EvictionData)
      requires Placed() && requested > 0
      modifies slots, displacements, this`clockPointer
      ensures Placed() && AllAged(old(slots[..]), slots[..])
      ensures AllTicked(old(slots[..]), slots[..], old(clockPointer), clockPointer)
      ensures old(clockPointer) < clockPointer <= old(clockPointer) + MAX_COUNTDOWN * size + 7
      ensures data.freedCharge == Charges(old(slots[..])) - Charges(slots[..])
      ensures data.freedCount == Occupied(old(slots[..])) - Occupied(slots[..])
      ensures data.freedCharge < requested && !EffortExceeded(data, effortCap) ==> RunDown(slots[..])
    {
      ghost var s0, start := slots[..], clockPointer;
      data := EvictionData(0, 0, 0);
      var pointer := clockPointer;
      clockPointer := clockPointer + 4;
      var maxPointer := pointer + MAX_COUNTDOWN * size;
      while true
        invariant Placed() && start <= pointer && clockPointer == pointer + 4 <= maxPointer + 7
        invariant AllTicked(s0, slots[..], start, pointer) && Freed(s0, slots[..], data)
        decreases maxPointer - pointer
      {
        data := TickFour(pointer, data, s0, start);
        if data.freedCharge >= requested || pointer >= maxPointer || EffortExceeded(data, effortCap) {
          break;
        }
        pointer := clockPointer;
        clockPointer := clockPointer + 4;
      }
      TickedAged(s0, slots[..], start, clockPointer);
      if pointer >= maxPointer {
        TickedRunDown(s0, slots[..], start, clockPointer);
      }
    }

    /** Reserves usage for an entry without ever exceeding the capacity; evicts as
        needed. `extra` is the occupancy reserved for it beforehand. */
    method ChargeStrict(total: nat, capacity: nat, needEvict: bool, effortCap: nat, ghost extra: nat) returns (ok: bool)
      requires Placed() && Accounts(0, extra)
      modifies slots, displacements, this`clockPointer, this`usage, this`occupancy
      ensures Placed() && AllAged(old(slots[..]), slots[..]) && Accounts(if ok then total else 0, extra)
      ensures ok ==> total <= capacity && usage <= capacity
      ensures ok && needEvict ==> Occupied(slots[..]) < Occupied(old(slots[..]))
      ensures !ok ==> total > capacity || needEvict || old(usage) + total > capacity
    {
      if total > capacity {
        return false;
      }
      var oldUsage := usage;
      var newUsage := if capacity < oldUsage + total then capacity else oldUsage + total;
      usage := newUsage;
      var needCharge := oldUsage + total - newUsage;
      var request := if needEvict && needCharge == 0 then 1 else needCharge;
      if request > 0 {
        var data := Evict(request, effortCap);
        NothingFreed(old(slots[..]), slots[..]);
        occupancy := occupancy - data.freedCount;
        if data.freedCharge > needCharge {
          usage := usage - (data.freedCharge - needCharge);
        } else if data.freedCharge < needCharge || (needEvict && data.freedCount == 0) {
          usage := usage - (data.freedCharge + (newUsage - oldUsage));
          return false;
        }
      }
      ok := true;
    }

    /** Reserves usage for an entry, possibly beyond the capacity; fails only if an
        eviction is needed to make room in the table and none was possible. */
    method ChargeNonStrict(total: nat, capacity: nat, needEvict: bool, effortCap: nat, ghost extra: nat)
        returns (ok: bool)
      requires Placed() && Accounts(0, extra)
      modifies slots, displacements, this`clockPointer, this`usage, this`occupancy
      ensures Placed() && AllAged(old(slots[..]), slots[..]) && Accounts(if ok then total else 0, extra)
      ensures !ok ==> needEvict && Occupied(slots[..]) == Occupied(old(slots[..])) && usage == old(usage)
      ensures ok && needEvict ==> Occupied(slots[..]) < Occupied(old(slots[..]))
    {
      var needCharge := NonStrictNeed(usage, total, capacity, needEvict);
      var freed := 0;
      if needCharge > 0 {
        var data := Evict(needCharge, effortCap);
        NothingFreed(old(slots[..]), slots[..]);
        if needEvict && data.freedCount == 0 {
          return false;
        }
        occupancy := occupancy - data.freedCount;
        freed := data.freedCharge;
      }
      usage := usage + (total - freed);
      ok := true;
    }

    method Charge(total: nat, capacity: nat, strict: bool, needEvict: bool, effortCap: nat, ghost extra: nat)
        returns (ok: bool)
      requires Placed() && Accounts(0, extra)
      modifies slots, displacements, this`clockPointer, this`usage, this`occupancy
      ensures Placed() && AllAged(old(slots[..]), slots[..]) && Accounts(if ok then total else 0, extra)
      ensures ok && strict ==> usage <= capacity
      ensures !ok && !strict ==> needEvict
    {
      if strict {
        ok := ChargeStrict(total, capacity, needEvict, effortCap, extra);
      } else {
        ok := ChargeNonStrict(total, capacity, needEvict, effortCap, extra);
      }
    }

    /** A heap-allocated handle with one reference; its charge is already in usage_. */
    method StandaloneInsert(addr: nat, key: Key, charge: nat)
      requires Placed() && Accounts(charge, 0) && addr !in handles
      modifies this`handles, this`standaloneUsage
      ensures Valid() && handles == old(handles)[addr := Entry(key, false, 1, 0, charge)]
    {
      HandlePut(handles, addr, Entry(key, false, 1, 0, charge));
      handles := handles[addr := Entry(key, false, 1, 0, charge)];
      standaloneUsage := standaloneUsage + charge;
    }

    /** BaseClockTable::Insert. `addr` is the address of a new heap handle, should one
        be needed. */
    method Insert(key: Key, charge: nat, countdown: nat, wantHandle: bool, addr: nat,
                  capacity: nat, strict: bool, effortCap: nat) returns (r: InsertResult)
      requires Valid() && addr !in handles && countdown > 0
      modifies slots, displacements, this
      ensures Valid()
      ensures r.MemoryLimit? ==> strict && handles == old(handles) && AllAged(old(slots[..]), slots[..])
      ensures strict && !r.MemoryLimit? ==> usage <= capacity
      ensures wantHandle && !r.MemoryLimit? ==> r.InTable? || r.Standalone?
      ensures r.Dropped? ==> !wantHandle && handles == old(handles)
      ensures r.Standalone? ==> wantHandle && handles == old(handles)[addr := Entry(key, false, 1, 0, charge)]
      ensures r.InTable? ==>
                && r.at < size && handles == old(handles)
                && slots[r.at] == Used(NewEntry(key, charge, countdown, wantHandle))
      ensures forall i :: 0 <= i < size && old(slots[i]).Used? && old(slots[i]).e.Refs() != 0 ==>
                slots[i].Used? && SameEntry(slots[i].e, old(slots[i]).e)
    {
      occupancy := occupancy + 1;
      var needEvict := !(occupancy <= occupancyLimit);
      var ok := Charge(charge, capacity, strict, needEvict, effortCap, 1);
      if !ok {
        occupancy := occupancy - 1;
        if strict {
          return MemoryLimit;
        }
        if !wantHandle {
          return Dropped;
        }
        usage := usage + charge;
        StandaloneInsert(addr, key, charge);
        return Standalone;
      }
      r := InsertCharged(key, charge, countdown, wantHandle, addr);
    }

    /** The insertion once the entry's charge and slot are accounted for. */
    method InsertCharged(key: Key, charge: nat, countdown: nat, wantHandle: bool, addr: nat) returns (r: InsertResult)
      requires Placed() && Accounts(charge, 1) && addr !in handles && countdown > 0
      modifies slots, displacements, this`dist, this`occupancy, this`usage, this`handles, this`standaloneUsage
      ensures Valid() && !r.MemoryLimit? && usage <= old(usage)
      ensures wantHandle ==> r.InTable? || r.Standalone?
      ensures r.Dropped? ==> !wantHandle && handles == old(handles)
      ensures r.Standalone? ==> wantHandle && handles == old(handles)[addr := Entry(key, false, 1, 0, charge)]
      ensures r.InTable? ==>
                && r.at < size && handles == old(handles)
                && slots[r.at] == Used(NewEntry(key, charge, countdown, wantHandle))
      ensures forall i :: 0 <= i < size && old(slots[i]).Used? ==>
              slots[i].Used? && SameEntry(slots[i].e, old(slots[i]).e)
    {
      ghost var s1 := slots[..];
      var e := NewEntry(key, charge, countdown, wantHandle);
      var place := DoInsert(e, countdown);
      match place {
        case Inserted(at) =>
          SumUpdate(s1, at, Used(e));
          return InTable(at);
        case Matches(at) =>
          SumUpdate(s1, at, slots[at]);
        case Full =>
      }
      occupancy := occupancy - 1;
      if !wantHandle {
        usage := usage - charge;
        return Dropped;
      }
      StandaloneInsert(addr, key, charge);
      r := Standalone;
    }

    /** BaseClockTable::CreateStandalone. */
    method CreateStandalone(addr: nat, key: Key, charge: nat, capacity: nat, strict: bool, allowUncharged: bool,
        effortCap: nat)
        returns (ok: bool)
      requires Valid() && addr !in handles
      modifies slots, displacements, this
      ensures Valid()
      ensures !ok ==> strict && !allowUncharged && handles == old(handles)
      ensures ok ==>
                && addr in handles && handles[addr].Refs() == 1 && handles - {addr} == old(handles)
                && (handles[addr].charge == charge || (strict && allowUncharged && handles[addr].charge == 0))
      ensures ok && strict && handles[addr].charge == charge && charge > 0 ==> usage <= capacity
    {
      var charged := Charge(charge, capacity, strict, false, effortCap, 0);
      var c := charge;
      if !charged {
        // never reached without the strict limit, since no slot is needed
        if !allowUncharged {
          return false;
        }
        c := 0;
      }
      StandaloneInsert(addr, key, c);
      assert handles - {addr} == old(handles);
      ok := true;
    }

    /** Release of a standalone handle: always invisible, so freed with its last reference. */
    method ReleaseStandalone(addr: nat, useful: bool) returns (gone: bool)
      requires Valid() && addr in handles && handles[addr].Refs() > 0 && !handles[addr].visible
      modifies this`handles, this`usage, this`standaloneUsage
      ensures Valid()
      ensures gone <==> old(handles[addr].Refs()) == 1
      ensures gone ==> handles == old(handles) - {addr} && usage == old(usage) - old(handles[addr].charge)
      ensures !gone ==> handles == old(handles)[addr := Released(old(handles[addr]), useful)] && usage == old(usage)
    {
      var y := Released(handles[addr], useful);
      gone := y.Refs() == 0;
      if gone {
        HandleRemove(handles, addr);
        standaloneUsage := standaloneUsage - y.charge;
        usage := usage - y.charge;
        handles := handles - {addr};
      } else {
        HandlePut(handles, addr, y);
        handles := handles[addr := y];
      }
    }

    /** What the destructor asserts: with no entries and no handles left, all
        displacements are zero and only the metadata charge remains. */
    lemma EmptyAgain()
      requires Valid() && handles == map[] && forall i :: 0 <= i < size ==> slots[i].Empty?
      ensures usage == metadataCharge && occupancy == 0 && standaloneUsage == 0
      ensures forall i :: 0 <= i < size ==> displacements[i] == 0
    {
      NoCharges(slots[..]);
      forall i | 0 <= i < size ensures displacements[i] == 0 {
        EmptyTableUndisplaced(size, probes, slots[..], dist, displacements[..], i);
      }
    }
  }

  /** MemoryLimit is a failure; the other outcomes are OK: stored in the table, returned
      as a standalone handle, or dropped as if evicted at once. */
  datatype InsertResult = MemoryLimit | InTable(at: nat) | Standalone | Dropped

  /** The same entry with the same references; its clock may have been boosted. */
  ghost predicate SameEntry(x: Entry, y: Entry) {
    x.key == y.key && x.charge == y.charge && x.visible == y.visible && x.Refs() == y.Refs()
  }

  /** What is left of a slot after a clock update of its entry, */
  function Tick(x: Slot): Slot {
    if x.Empty? then Empty else match ClockUpdate(x.e) case Some(y) => Used(y) case None => Empty
  }

  /** and after n of them. */
  function Ticked(x: Slot, n: nat): Slot { if n == 0 then x else Tick(Ticked(x, n - 1)) }

  /** How often a clock that runs from a to b passes slot i of a table. */
  function Hits(a: nat, b: nat, i: nat, size: nat): nat
    requires size > 0
    decreases b
  {
    if b <= a then 0 else Hits(a, b - 1, i, size) + One((b - 1) % size == i)
  }

  /** Each slot has been updated as often as the clock has passed it. */
  ghost predicate AllTicked(s0: seq<Slot>, s: seq<Slot>, a: nat, b: nat) {
    |s| == |s0| > 0 && forall i :: 0 <= i < |s| ==> s[i] == Ticked(s0[i], Hits(a, b, i, |s|))
  }

  /** The eviction data accounts for everything that has left the slots. */
  ghost predicate Freed(s0: seq<Slot>, s: seq<Slot>, data: EvictionData) {
    data.freedCharge == Charges(s0) - Charges(s) && data.freedCount == Occupied(s0) - Occupied(s)
  }

  /** The clocks of the unreferenced entries have run down. */
  ghost predicate RunDown(s: seq<Slot>) {
    forall i :: 0 <= i < |s| && s[i].Used? && s[i].e.Refs() == 0 ==> s[i].e.visible && s[i].e.acquire == 0
  }

  lemma TickedNext(s0: seq<Slot>, s: seq<Slot>, s': seq<Slot>, a: nat, b: nat)
    requires AllTicked(s0, s, a, b) && a <= b && s' == s[b % |s| := Tick(s[b % |s|])]
    ensures AllTicked(s0, s', a, b + 1)
  {
  }

  lemma {:induction false} TickAged(x: Slot, n: nat)
    ensures Aged(x, Ticked(x, n))
  {
    if n > 0 {
      TickAged(x, n - 1);
    }
  }

  lemma TickedAged(s0: seq<Slot>, s: seq<Slot>, a: nat, b: nat)
    requires AllTicked(s0, s, a, b)
    ensures AllAged(s0, s)
  {
    forall i | 0 <= i < |s| ensures Aged(s0[i], s[i]) { TickAged(s0[i], Hits(a, b, i, |s|)); }
  }

  /** Whatever the clock was, n updates leave no more than kMaxCountdown - n on it. */
  lemma {:induction false} TickedClock(x: Slot, n: nat)
    requires n >= 1
    ensures var y := Ticked(x, n);
            y.Used? && y.e.Refs() == 0 ==> y.e.visible && 0 <= y.e.acquire <= MAX_COUNTDOWN - n
  {
    if n > 1 {
      TickedClock(x, n - 1);
    }
  }

  lemma {:induction false} HitsSplit(a: nat, m: nat, b: nat, i: nat, size: nat)
    requires size > 0 && a <= m <= b
    ensures Hits(a, b, i, size) == Hits(a, m, i, size) + Hits(m, b, i, size)
    decreases b
  {
    if m < b {
      HitsSplit(a, m, b - 1, i, size);
    }
  }

  lemma {:induction false} HitsAt(a: nat, b: nat, q: nat, size: nat)
    requires size > 0 && a <= q < b
    ensures Hits(a, b, q % size, size) >= 1
    decreases b
  {
    if q < b - 1 {
      HitsAt(a, b - 1, q, size);
    }
  }

  /** One round of the clock passes every slot. */
  lemma HitsRound(a: nat, i: nat, size: nat)
    requires i < size
    ensures Hits(a, a + size, i, size) >= 1
  {
    var r, m := a % size, a / size;
    var q := if i >= r then a - r + i else a - r + size + i;
    Distribute(m, 1, size);
    ModOf(q, size, if i >= r then m else m + 1, i);
    HitsAt(a, a + size, q, size);
  }

  lemma HitsThree(a: nat, b: nat, i: nat, size: nat)
    requires i < size && b >= a + 3 * size
    ensures Hits(a, b, i, size) >= 3
  {
    HitsRound(a, i, size);
    HitsRound(a + size, i, size);
    HitsRound(a + 2 * size, i, size);
    HitsSplit(a, a + size, a + 2 * size, i, size);
    HitsSplit(a, a + 2 * size, a + 3 * size, i, size);
    HitsSplit(a, a + 3 * size, b, i, size);
  }

  lemma TickedRunDown(s0: seq<Slot>, s: seq<Slot>, a: nat, b: nat)
    requires AllTicked(s0, s, a, b) && b >= a + 3 * |s|
    ensures RunDown(s)
  {
    forall i | 0 <= i < |s| && s[i].Used? && s[i].e.Refs() == 0 ensures s[i].e.visible && s[i].e.acquire == 0 {
      HitsThree(a, b, i, |s|);
      TickedClock(s0[i], Hits(a, b, i, |s|));
    }
  }

  /** What the clock may do to a slot: nothing, or age or evict an unreferenced entry. */
  ghost predicate Aged(x: Slot, y: Slot) {
    || y == x
    || (x.Used? && x.e.Refs() == 0
        && (y.Empty? || SameEntry(y.e, x.e)))
  }

  ghost predicate AllAged(s0: seq<Slot>, s: seq<Slot>) {
    |s| == |s0| && forall i :: 0 <= i < |s| ==> Aged(s0[i], s[i])
  }

  lemma {:induction false} NothingFreed(s0: seq<Slot>, s: seq<Slot>)
    requires AllAged(s0, s)
    ensures Occupied(s) <= Occupied(s0)
    ensures Occupied(s) == Occupied(s0) ==> Charges(s) == Charges(s0)
    decreases |s|
  {
    if s != [] {
      assert Aged(s0[0], s[0]);
      NothingFreed(s0[1..], s[1..]);
    }
  }

  /** What Erase leaves of a slot. */
  function Erased(x: Slot, key: Key): Slot {
    if x.Used? && x.e.visible && x.e.key == key then
      if x.e.Refs() == 0 then Empty else Used(x.e.(visible := false))
    else x
  }

  /** Exactly the slots at the first m probes have been erased. */
  ghost predicate ErasedSome(s0: seq<Slot>, s: seq<Slot>, key: Key, p: seq<nat>, m: nat) {
    && |s| == |s0| && m <= |p|
    && forall i :: 0 <= i < |s| ==> s[i] == if i in p[..m] then Erased(s0[i], key) else s0[i]
  }

  lemma ErasedNext(size: nat, s0: seq<Slot>, s: seq<Slot>, key: Key, p: seq<nat>, m: nat)
    requires IsProbeSeq(size, key, p) && |s0| == size && m < size
    requires |s| == size && exists s1 :: ErasedSome(s0, s1, key, p, m) && s == s1[p[m] := Erased(s1[p[m]], key)]
    ensures ErasedSome(s0, s, key, p, m + 1)
  {
    assert p[..m + 1] == p[..m] + [p[m]];
    assert p[m] !in p[..m];
  }

  lemma ErasedAll(size: nat, s0: seq<Slot>, s: seq<Slot>, key: Key, p: seq<nat>)
    requires IsProbeSeq(size, key, p) && |s0| == size && ErasedSome(s0, s, key, p, size)
    ensures forall i :: 0 <= i < size ==> s[i] == Erased(s0[i], key)
    ensures forall i :: !IsVisible(s, i, key)
  {
    assert p[..size] == p;
    forall i | 0 <= i < size ensures s[i] == Erased(s0[i], key) { assert i in Range(size); }
  }

  lemma ErasedToZero(size: nat, f: Key -> seq<nat>, s0: seq<Slot>, s: seq<Slot>, dist: seq<nat>, disp: seq<int>,
      key: Key, m: nat)
    requires Layout(size, f, s, dist, disp) && m < size && |s0| == size && ErasedSome(s0, s, key, f(key), m + 1)
    requires disp[f(key)[m]] == 0
    ensures forall i :: 0 <= i < size ==> s[i] == Erased(s0[i], key)
    ensures forall i :: !IsVisible(s, i, key)
  {
    var p := f(key);
    forall j | 0 <= j <= m ensures !IsVisible(s, p[j], key) { assert p[j] in p[..m + 1]; }
    NoneVisible(size, f, s, dist, disp, key, m);
    forall i | 0 <= i < size ensures s[i] == Erased(s0[i], key) { assert !IsVisible(s, i, key); }
  }

  /** A probe sequence that came back to its start has seen every slot. */
  lemma AllProbed(size: nat, s: seq<Slot>, k: Key, p: seq<nat>)
    requires IsProbeSeq(size, k, p) && |s| == size && forall j :: 0 <= j < size ==> !IsVisible(s, p[j], k)
    ensures forall i :: !IsVisible(s, i, k)
    ensures (forall j :: 0 <= j < size ==> s[p[j]].Used?) ==> forall i :: 0 <= i < size ==> s[i].Used?
  {
    forall i | 0 <= i < size
      ensures !IsVisible(s, i, k) && ((forall j :: 0 <= j < size ==> s[p[j]].Used?) ==> s[i].Used?)
    {
      assert i in Range(size);
      var j :| 0 <= j < size && p[j] == i;
    }
  }

  /** Stopping at displacement zero is a sound end of an unsuccessful search. */
  lemma NoneVisible(size: nat, f: Key -> seq<nat>, s: seq<Slot>, dist: seq<nat>, disp: seq<int>, k: Key, m: nat)
    requires Layout(size, f, s, dist, disp) && m < size && disp[f(k)[m]] == 0
    requires forall j :: 0 <= j <= m ==> !IsVisible(s, f(k)[j], k)
    ensures forall i :: !IsVisible(s, i, k)
  {
    forall i | 0 <= i < size && s[i].Used? && s[i].e.key == k
      ensures !IsVisible(s, i, k)
    {
      NothingBeyond(size, f, s, dist, disp, k, m, i);
      assert PlacedOk(f, s, dist, i);
    }
  }

  /** An insertion of the key has to look further: the slot is occupied, but not by a
      visible entry with the key. */
  ghost predicate Passed(s: seq<Slot>, i: int, key: Key) {
    0 <= i < |s| && s[i].Used? && !IsVisible(s, i, key)
  }

  /** A Lookup for the key can return the entry in this slot. */
  ghost predicate IsVisible(s: seq<Slot>, i: int, key: Key) {
    0 <= i < |s| && s[i].Used? && s[i].e.visible && s[i].e.key == key
  }

  lemma {:induction false} NoCharges(s: seq<Slot>)
    requires forall i :: 0 <= i < |s| ==> s[i].Empty?
    ensures Charges(s) == 0 && Occupied(s) == 0
  {
    if s != [] {
      NoCharges(s[1..]);
    }
  }
}
