/** The usage and occupancy accounting of AutoHyperClockTable, run by one thread on a
    table that does not grow. Handles in the table are named by their home and their
    place on its chain, the newest first. */
module AutoAccounts {
  import opened LinearHashing
  import opened Options
  import opened ClockEntries
  import opened AutoEvict

  // ---------------------------------------------------------------- chains

  function Without(c: Chain, i: nat): Chain
    requires i < |c|
  {
    c[..i] + c[i + 1..]
  }

  lemma {:induction false} ChargeWithout(c: Chain, i: nat)
    requires i < |c|
    ensures ChargeOf(Without(c, i)) == ChargeOf(c) - c[i].charge
  {
    if i == 0 {
      assert Without(c, i) == c[1..];
    } else {
      assert Without(c, i)[1..] == Without(c[1..], i - 1);
      ChargeWithout(c[1..], i - 1);
    }
  }

  lemma {:induction false} ChargeUpdate(c: Chain, i: nat, e: Entry)
    requires i < |c| && e.charge == c[i].charge
    ensures ChargeOf(c[i := e]) == ChargeOf(c)
  {
    if i == 0 {
      assert c[i := e][1..] == c[1..];
    } else {
      assert c[i := e][1..] == c[1..][i - 1 := e];
      ChargeUpdate(c[1..], i - 1, e);
    }
  }

  predicate Matches(e: Entry, key: Key) { e.visible && e.key == key }

  /** What Erase leaves of a chain: no visible entry with the key, and those that had
      references invisible. */
  function Erased(c: Chain, key: Key): Chain {
    if c == [] then []
    else if !Matches(c[0], key) then [c[0]] + Erased(c[1..], key)
    else if c[0].Refs() == 0 then Erased(c[1..], key)
    else [c[0].(visible := false)] + Erased(c[1..], key)
  }

  function MatchCount(c: Chain, key: Key): nat {
    if c == [] then 0 else MatchCount(c[1..], key) + One(Matches(c[0], key))
  }

  /** Erasing one match is a step towards erasing all of them. */
  lemma {:induction false} EraseOne(c: Chain, key: Key, i: nat)
    requires i < |c| && Matches(c[i], key)
    ensures var c' := if c[i].Refs() == 0 then Without(c, i) else c[i := c[i].(visible := false)];
            Erased(c', key) == Erased(c, key) && MatchCount(c', key) < MatchCount(c, key)
  {
    var c' := if c[i].Refs() == 0 then Without(c, i) else c[i := c[i].(visible := false)];
    if i == 0 {
      assert c[i].Refs() == 0 ==> c' == c[1..];
      assert c[i].Refs() != 0 ==> c'[1..] == c[1..];
    } else {
      EraseOne(c[1..], key, i - 1);
      assert c'[1..] == if c[i].Refs() == 0 then Without(c[1..], i - 1) else c[1..][i - 1 := c[i].(visible := false)];
      assert c'[0] == c[0];
    }
  }

  lemma {:induction false} NothingToErase(c: Chain, key: Key)
    requires forall i :: 0 <= i < |c| ==> !Matches(c[i], key)
    ensures Erased(c, key) == c
  {
    if c != [] {
      NothingToErase(c[1..], key);
    }
  }

  lemma {:induction false} PinnedAppend(c: Chain, e: Entry)
    ensures Pinned(c + [e]) == Pinned(c) + if e.Refs() != 0 then [e] else []
  {
    if c == [] {
      assert c + [e] == [e] && Pinned([e][1..]) == [];
    } else {
      assert (c + [e])[1..] == c[1..] + [e];
      PinnedAppend(c[1..], e);
    }
  }

  /** A chain of which the first k entries have been freed unless they are referenced. */
  function Left(c: Chain, k: nat): Chain
    requires k <= |c|
  {
    Pinned(c[..k]) + c[k..]
  }

  lemma LeftEnds(c: Chain)
    ensures Left(c, 0) == c && Left(c, |c|) == Pinned(c)
  {
    assert c[..0] == [] && c[..|c|] == c;
  }

  lemma LeftStep(c: Chain, k: nat)
    requires k <= |c| && |Pinned(c[..k])| < |Left(c, k)|
    ensures var i := |Pinned(c[..k])|;
            && k < |c| && Left(c, k)[i] == c[k]
            && (if c[k].Refs() == 0 then Left(c, k + 1) == Without(Left(c, k), i) && |Pinned(c[..k + 1])| == i
                else Left(c, k + 1) == Left(c, k) && |Pinned(c[..k + 1])| == i + 1)
  {
    assert c[..k + 1] == c[..k] + [c[k]];
    PinnedAppend(c[..k], c[k]);
  }

  // ---------------------------------------------------------------- what sweeps free

  /** Sweeps that leave the number of entries leave their charge. */
  lemma {:induction false} SweepFrees(c: Chain)
    ensures |Sweep(c)| <= |c| && (|Sweep(c)| == |c| ==> ChargeOf(Sweep(c)) == ChargeOf(c))
    decreases |c|
  {
    if c != [] {
      SweepFrees(c[1..]);
      match ClockUpdate(c[0])
      case Some(e) => assert ([e] + Sweep(c[1..]))[1..] == Sweep(c[1..]);
      case None =>
    }
  }

  lemma {:induction false} SweepNFrees(c: Chain, n: nat)
    ensures |SweepN(c, n)| <= |c| && (|SweepN(c, n)| == |c| ==> ChargeOf(SweepN(c, n)) == ChargeOf(c))
  {
    if n > 0 {
      SweepNFrees(c, n - 1);
      SweepFrees(SweepN(c, n - 1));
    }
  }

  lemma {:induction false} SweptFrees(cs: seq<Chain>, now: seq<Chain>, visits: seq<nat>)
    requires SweptBy(cs, now, visits)
    ensures TotalCount(now) <= TotalCount(cs)
            && (TotalCount(now) == TotalCount(cs) ==> TotalCharge(now) == TotalCharge(cs))
  {
    if cs != [] {
      SweepNFrees(cs[0], visits[0]);
      SweptFrees(cs[1..], now[1..], visits[1..]);
    }
  }

  // ---------------------------------------------------------------- the table

  /** MemoryLimit is a failure; the other outcomes are OK: on its chain, returned as a
      standalone handle, or dropped as if evicted at once. */
  datatype Result = MemoryLimit | InTable | Standalone | Dropped

  class Accounts {
    const table: Table
    const metadataCharge: nat
    var occupancy: int
    var usage: int
    var standaloneUsage: int
    var handles: map<nat, Entry>

    /** usage_ and occupancy_ are over the stored charges and entries by the given amounts. */
    ghost predicate Agree(charge: int, count: int)
      reads this, table.chains
    {
      && usage == metadataCharge + TotalCharge(table.chains[..]) + HandleCharges(handles) + charge
      && occupancy == TotalCount(table.chains[..]) + count
      && standaloneUsage == HandleCharges(handles)
    }

    /** What holds between operations. */
    ghost predicate Valid()
      reads this, table, table.chains
    {
      table.Valid() && Agree(0, 0)
    }

    constructor (major: nat, used: nat, metadata: nat)
      requires major > 0 && major % 4 == 0 && major <= used < 2 * major
      ensures Valid() && fresh(table) && fresh(table.chains) && handles == map[]
      ensures usage == metadata == metadataCharge && forall h :: 0 <= h < table.chains.Length ==> table.chains[h] == []
    {
      table := new Table(major, used);
      metadataCharge := metadata;
      occupancy, usage, standaloneUsage, handles := 0, metadata, 0, map[];
      new;
      NoChains(table.chains[..]);
    }

    /** Replaces an entry by one with the same charge. */
    method Modify(home: nat, i: nat, e: Entry)
      requires home < table.chains.Length && i < |table.chains[home]| && e.charge == table.chains[home][i].charge
      modifies table.chains
      ensures table.chains[..] == old(table.chains[..])[home := old(table.chains[home])[i := e]]
      ensures TotalCharge(table.chains[..]) == old(TotalCharge(table.chains[..]))
      ensures TotalCount(table.chains[..]) == old(TotalCount(table.chains[..]))
    {
      ghost var c := table.chains[home];
      ChargeUpdate(c, i, e);
      TotalUpdate(table.chains[..], home, c[i := e]);
      table.chains[home] := table.chains[home][i := e];
    }

    /** Takes an entry that nobody else references off its chain (Remove and MarkEmpty),
        and gives its charge and its slot back. */
    method Free(home: nat, i: nat)
      requires Valid() && home < table.chains.Length && i < |table.chains[home]|
      modifies this`usage, this`occupancy, table.chains
      ensures Valid() && table.chains[..] == old(table.chains[..])[home := Without(old(table.chains[home]), i)]
    {
      var c := table.chains[home];
      ChargeWithout(c, i);
      TotalUpdate(table.chains[..], home, Without(c, i));
      table.chains[home] := Without(c, i);
      occupancy := occupancy - 1;
      usage := usage - c[i].charge;
    }

    /** Frees the entry if there are no references but the caller's. */
    method TryEraseHandle(home: nat, i: nat, holdingRef: bool, markInvisible: bool) returns (gone: bool)
      requires Valid() && home < table.chains.Length && i < |table.chains[home]|
      modifies this`usage, this`occupancy, table.chains
      ensures Valid() && (gone <==> old(table.chains[home])[i].Refs() == One(holdingRef))
      ensures var c := old(table.chains[home]);
              var e := c[i].(visible := c[i].visible && !markInvisible);
              table.chains[..] == old(table.chains[..])[home := if gone then Without(c, i) else c[i := e]]
    {
      var e := table.chains[home][i];
      if markInvisible {
        e := e.(visible := false);
      }
      Modify(home, i, e);
      gone := e.Refs() == One(holdingRef);
      if gone {
        ghost var c := old(table.chains[home]);
        assert Without(c[i := e], i) == Without(c, i);
        Free(home, i);
      }
    }

    /** Gives back a reference; frees the entry if it was the last one and either the caller
        asks for it or the entry is already invisible. */
    method Release(home: nat, i: nat, useful: bool, eraseIfLast: bool) returns (gone: bool)
      requires Valid() && home < table.chains.Length && i < |table.chains[home]| && table.chains[home][i].Refs() > 0
      modifies this`usage, this`occupancy, table.chains
      ensures Valid()
      ensures var c := old(table.chains[home]);
              var e := Released(c[i], useful);
              && (gone <==> c[i].Refs() == 1 && (eraseIfLast || !c[i].visible))
              && table.chains[..] == old(table.chains[..])[home := if gone then Without(c, i) else c[i := e]]
    {
      var e := table.chains[home][i];
      ghost var c := table.chains[home];
      Modify(home, i, Released(e, useful));
      if eraseIfLast || !e.visible {
        assert Without(c[i := Released(e, useful)], i) == Without(c, i);
        gone := TryEraseHandle(home, i, false, false);
        assert gone || table.chains[home] == c[i := Released(e, useful)];
      } else {
        gone := false;
      }
    }

    /** Finds a visible entry with the key on the chain of its home, and takes a reference. */
    method Lookup(home: nat, key: Key) returns (r: Option<nat>)
      requires home < table.chains.Length
      modifies table.chains
      ensures r.None? <==> forall i :: 0 <= i < |old(table.chains[home])| ==> !Matches(old(table.chains[home])[i], key)
      ensures r.None? ==> table.chains[..] == old(table.chains[..])
      ensures r.Some? ==>
                var c := old(table.chains[home]);
                && r.value < |c| && Matches(c[r.value], key)
                && table.chains[..] == old(table.chains[..])[home := c[r.value := Referenced(c[r.value])]]
      ensures TotalCharge(table.chains[..]) == old(TotalCharge(table.chains[..]))
      ensures TotalCount(table.chains[..]) == old(TotalCount(table.chains[..]))
    {
      var c := table.chains[home];
      for i := 0 to |c|
        invariant forall j :: 0 <= j < i ==> !Matches(c[j], key)
        invariant table.chains[..] == old(table.chains[..])
      {
        if Matches(c[i], key) {
          Modify(home, i, Referenced(c[i]));
          return Some(i);
        }
      }
      r := None;
    }

    /** One round of Erase: Lookup takes a reference, TryEraseHandle frees the entry or makes
        it invisible, and then the reference is given back. */
    method EraseFound(home: nat, key: Key) returns (found: bool)
      requires Valid() && home < table.chains.Length
      modifies this`usage, this`occupancy, table.chains
      ensures Valid() && table.chains[..] == old(table.chains[..])[home := table.chains[home]]
      ensures Erased(table.chains[home], key) == Erased(old(table.chains[home]), key)
      ensures found ==> MatchCount(table.chains[home], key) < MatchCount(old(table.chains[home]), key)
      ensures !found ==> Erased(old(table.chains[home]), key) == table.chains[home] == old(table.chains[home])
      ensures !found ==> forall i :: 0 <= i < |table.chains[home]| ==> !Matches(table.chains[home][i], key)
    {
      ghost var c := table.chains[home];
      var r := Lookup(home, key);
      match r
      case None =>
        NothingToErase(c, key);
        found := false;
      case Some(i) =>
        EraseOne(c, key, i);
        var gone := TryEraseHandle(home, i, true, true);
        if gone {
          assert Without(c[i := Referenced(c[i])], i) == Without(c, i);
        } else {
          Modify(home, i, Released(table.chains[home][i], false));
          assert table.chains[home] == c[i := c[i].(visible := false)];
        }
        found := true;
    }

    /** Erases what Lookup finds until it finds nothing. */
    method Erase(home: nat, key: Key)
      requires Valid() && home < table.chains.Length
      modifies this`usage, this`occupancy, table.chains
      ensures Valid() && table.chains[..] == old(table.chains[..])[home := Erased(old(table.chains[home]), key)]
      ensures forall i :: 0 <= i < |table.chains[home]| ==> !Matches(table.chains[home][i], key)
    {
      var found := EraseFound(home, key);
      while found
        invariant Valid() && table.chains[..] == old(table.chains[..])[home := table.chains[home]]
        invariant Erased(table.chains[home], key) == Erased(old(table.chains[home]), key)
        invariant !found ==> Erased(table.chains[home], key) == table.chains[home]
        invariant !found ==> forall i :: 0 <= i < |table.chains[home]| ==> !Matches(table.chains[home][i], key)
        decreases found, MatchCount(table.chains[home], key)
      {
        found := EraseFound(home, key);
      }
    }

    /** Frees every entry without references. */
    method EraseUnRefEntries()
      requires Valid()
      modifies this`usage, this`occupancy, table.chains
      ensures Valid() && forall h :: 0 <= h < table.chains.Length ==> table.chains[h] == Pinned(old(table.chains[h]))
    {
      ghost var cs := table.chains[..];
      for h := 0 to table.chains.Length
        invariant Valid()
        invariant forall j :: 0 <= j < table.chains.Length ==> table.chains[j] == if j < h then Pinned(cs[j]) else cs[j]
      {
        EraseUnRefChain(h);
      }
    }

    method EraseUnRefChain(home: nat)
      requires Valid() && home < table.chains.Length
      modifies this`usage, this`occupancy, table.chains
      ensures Valid() && table.chains[..] == old(table.chains[..])[home := Pinned(old(table.chains[home]))]
    {
      ghost var cs, c := table.chains[..], table.chains[home];
      ghost var k := 0;
      var i := 0;
      LeftEnds(c);
      assert cs[home := c] == cs;
      while i < |table.chains[home]|
        invariant Valid() && k <= |c| && i == |Pinned(c[..k])| && table.chains[..] == cs[home := Left(c, k)]
        decreases |c| - k
      {
        LeftStep(c, k);
        if table.chains[home][i].Refs() == 0 {
          Free(home, i);
        } else {
          i := i + 1;
        }
        k := k + 1;
      }
    }

    /** Reserves usage for an entry without ever exceeding the capacity; evicts as
        needed. `extra` is the occupancy reserved for it beforehand. */
    method ChargeStrict(total: nat, capacity: nat, needEvict: bool, effortCap: nat, ghost extra: nat) returns (ok: bool)
      requires table.Valid() && Agree(0, extra)
      modifies table.chains, table`clockPointer, this`usage, this`occupancy
      ensures table.Valid() && SamePinned(old(table.chains[..]), table.chains[..])
              && Agree(if ok then total else 0, extra)
      ensures ok ==> total <= capacity && usage <= capacity
      ensures ok && needEvict ==> TotalCount(table.chains[..]) < TotalCount(old(table.chains[..]))
      ensures !ok ==> total > capacity || needEvict || old(usage) + total > capacity
    {
      if total > capacity {
        return false;
      }
      var oldUsage := usage;
      var newUsage := if capacity < oldUsage + total then capacity else oldUsage + total;
      usage := newUsage;
      var needCharge := oldUsage + total - newUsage;
      var request := if needEvict && needCharge == 0 then 1 else needCharge;
      if request > 0 {
        var data, visits := table.Evict(request, effortCap);
        SweptFrees(old(table.chains[..]), table.chains[..], visits);
        occupancy := occupancy - data.freedCount;
        if data.freedCharge > needCharge {
          usage := usage - (data.freedCharge - needCharge);
        } else if data.freedCharge < needCharge || (needEvict && data.freedCount == 0) {
          usage := usage - (data.freedCharge + (newUsage - oldUsage));
          return false;
        }
      }
      ok := true;
    }

    /** Reserves usage for an entry, possibly beyond the capacity; fails only if an
        eviction is needed to make room in the table and none was possible. */
    method ChargeNonStrict(total: nat, capacity: nat, needEvict: bool, effortCap: nat, ghost extra: nat)
        returns (ok: bool)
      requires table.Valid() && Agree(0, extra)
      modifies table.chains, table`clockPointer, this`usage, this`occupancy
      ensures table.Valid() && SamePinned(old(table.chains[..]), table.chains[..])
              && Agree(if ok then total else 0, extra)
      ensures !ok ==> needEvict && usage == old(usage)
      ensures !ok ==> TotalCount(table.chains[..]) == TotalCount(old(table.chains[..]))
      ensures ok && needEvict ==> TotalCount(table.chains[..]) < TotalCount(old(table.chains[..]))
    {
      var needCharge := NonStrictNeed(usage, total, capacity, needEvict);
      var freed := 0;
      if needCharge > 0 {
        var data, visits := table.Evict(needCharge, effortCap);
        SweptFrees(old(table.chains[..]), table.chains[..], visits);
        if needEvict && data.freedCount == 0 {
          return false;
        }
        occupancy := occupancy - data.freedCount;
        freed := data.freedCharge;
      }
      usage := usage + (total - freed);
      ok := true;
    }

    method Charge(total: nat, capacity: nat, strict: bool, needEvict: bool, effortCap: nat, ghost extra: nat)
        returns (ok: bool)
      requires table.Valid() && Agree(0, extra)
      modifies table.chains, table`clockPointer, this`usage, this`occupancy
      ensures table.Valid() && SamePinned(old(table.chains[..]), table.chains[..])
              && Agree(if ok then total else 0, extra)
      ensures ok && strict ==> usage <= capacity
      ensures !ok && !strict ==> needEvict
    {
      if strict {
        ok := ChargeStrict(total, capacity, needEvict, effortCap, extra);
      } else {
        ok := ChargeNonStrict(total, capacity, needEvict, effortCap, extra);
      }
    }

    /** A heap-allocated handle with one reference; its charge is already in usage_. */
    method StandaloneInsert(addr: nat, key: Key, charge: nat)
      requires table.Valid() && Agree(charge, 0) && addr !in handles
      modifies this`handles, this`standaloneUsage
      ensures Valid() && handles == old(handles)[addr := Entry(key, false, 1, 0, charge)]
    {
      HandlePut(handles, addr, Entry(key, false, 1, 0, charge));
      handles := handles[addr := Entry(key, false, 1, 0, charge)];
      standaloneUsage := standaloneUsage + charge;
    }

    /** BaseClockTable::Insert. `roomy` says that the occupancy limit is not reached, and
        `found` that DoInsert finds a free slot before an entry with the key. */
    method Insert(home: nat, key: Key, charge: nat, countdown: nat, wantHandle: bool, addr: nat,
                  capacity: nat, strict: bool, effortCap: nat, roomy: bool, found: bool) returns (r: Result)
      requires Valid() && home < table.chains.Length && addr !in handles && countdown > 0
      modifies this, table`clockPointer, table.chains
      ensures Valid()
      ensures r.MemoryLimit? ==>
              strict && handles == old(handles) && SamePinned(old(table.chains[..]), table.chains[..])
      ensures strict && !r.MemoryLimit? ==> usage <= capacity
      ensures wantHandle && !r.MemoryLimit? ==> r.InTable? || r.Standalone?
      ensures r.Dropped? ==>
              !wantHandle && handles == old(handles) && SamePinned(old(table.chains[..]), table.chains[..])
      ensures r.Standalone? ==> wantHandle && handles == old(handles)[addr := Entry(key, false, 1, 0, charge)]
      ensures r.InTable? ==>
                && handles == old(handles) && table.chains[home] != []
                && table.chains[home][0] == NewEntry(key, charge, countdown, wantHandle)
                && SamePinned(old(table.chains[..]), table.chains[..][home := table.chains[home][1..]])
    {
      occupancy := occupancy + 1;
      var ok := Charge(charge, capacity, strict, !roomy, effortCap, 1);
      if !ok {
        occupancy := occupancy - 1;
        if strict {
          return MemoryLimit;
        }
        if !wantHandle {
          return Dropped;
        }
        usage := usage + charge;
        StandaloneInsert(addr, key, charge);
        return Standalone;
      }
      if found {
        var e := NewEntry(key, charge, countdown, wantHandle);
        PutFirst(table.chains[..], home, e);
        table.chains[home] := [e] + table.chains[home];
        return InTable;
      }
      occupancy := occupancy - 1;
      if !wantHandle {
        usage := usage - charge;
        return Dropped;
      }
      StandaloneInsert(addr, key, charge);
      r := Standalone;
    }

    /** BaseClockTable::CreateStandalone. */
    method CreateStandalone(addr: nat, key: Key, charge: nat, capacity: nat, strict: bool, allowUncharged: bool,
        effortCap: nat)
        returns (ok: bool)
      requires Valid() && addr !in handles
      modifies this, table`clockPointer, table.chains
      ensures Valid()
      ensures !ok ==> strict && !allowUncharged && handles == old(handles)
      ensures ok ==>
                && addr in handles && handles[addr].Refs() == 1 && handles - {addr} == old(handles)
                && (handles[addr].charge == charge || (strict && allowUncharged && handles[addr].charge == 0))
      ensures ok && strict && handles[addr].charge == charge && charge > 0 ==> usage <= capacity
    {
      var charged := Charge(charge, capacity, strict, false, effortCap, 0);
      var c := charge;
      if !charged {
        if !allowUncharged {
          return false;
        }
        c := 0;
      }
      StandaloneInsert(addr, key, c);
      assert handles - {addr} == old(handles);
      ok := true;
    }

    /** Release of a standalone handle: always invisible, so freed with its last reference. */
    method ReleaseStandalone(addr: nat, useful: bool) returns (gone: bool)
      requires Valid() && addr in handles && handles[addr].Refs() > 0 && !handles[addr].visible
      modifies this`handles, this`usage, this`standaloneUsage
      ensures Valid() && (gone <==> old(handles[addr].Refs()) == 1)
      ensures gone ==> handles == old(handles) - {addr} && usage == old(usage) - old(handles[addr].charge)
      ensures !gone ==> handles == old(handles)[addr := Released(old(handles[addr]), useful)] && usage == old(usage)
    {
      var y := Released(handles[addr], useful);
      gone := y.Refs() == 0;
      if gone {
        HandleRemove(handles, addr);
        standaloneUsage := standaloneUsage - y.charge;
        usage := usage - y.charge;
        handles := handles - {addr};
      } else {
        HandlePut(handles, addr, y);
        handles := handles[addr := y];
      }
    }

    /** What the destructor asserts: with no entries and no handles left, only the metadata
        charge remains. */
    lemma EmptyAgain()
      requires Valid() && handles == map[] && forall h :: 0 <= h < table.chains.Length ==> table.chains[h] == []
      ensures usage == metadataCharge && occupancy == 0 && standaloneUsage == 0
    {
      NoChains(table.chains[..]);
    }
  }

  lemma {:induction false} NoChains(cs: seq<Chain>)
    requires forall h :: 0 <= h < |cs| ==> cs[h] == []
    ensures TotalCharge(cs) == 0 && TotalCount(cs) == 0
  {
    if cs != [] {
      NoChains(cs[1..]);
    }
  }

  lemma PutFirst(cs: seq<Chain>, home: nat, e: Entry)
    requires home < |cs|
    ensures TotalCharge(cs[home := [e] + cs[home]]) == TotalCharge(cs) + e.charge
    ensures TotalCount(cs[home := [e] + cs[home]]) == TotalCount(cs) + 1
    ensures cs[home := [e] + cs[home]][home := ([e] + cs[home])[1..]] == cs
  {
    assert ([e] + cs[home])[1..] == cs[home];
    TotalUpdate(cs, home, [e] + cs[home]);
  }
}
