/** LRUCacheShard: a hash table of handles, an LRU list of those that nobody references,
    and the accounting of charges. Operations run one at a time, under the shard's mutex. */
module LruShard {
  import opened Options
  import opened HashPositions
  import opened LruLinks
  import opened LruHandles
  import opened LruPools

  datatype Priority = HighPriority | LowPriority | BottomPriority

  datatype Status = Ok | OkOverwritten | MemoryLimit

  function NewHandle(tag: Tag, refs: nat, inCache: bool, priority: Priority): Handle {
    Handle(tag, refs, inCache, false, priority.HighPriority?, priority.LowPriority?)
  }

  // ---------------------------------------------------------------- eviction

  predicate Enough(s: Cache, charge: seq<nat>, order: seq<nat>, need: nat, capacity: nat) {
    order == [] || s.usage + need <= capacity || !(order[0] < |s.handles| == |charge| && charge[order[0]] <= s.usage)
  }

  /** Evicting from the oldest handle on, as long as there is not enough room: what is left
      in the cache and on the list. */
  ghost function MakeRoom(s: Cache, charge: seq<nat>, order: seq<nat>, need: nat, capacity: nat): (Cache, seq<nat>)
    decreases |order|
  {
    if Enough(s, charge, order, need, capacity) then (s, order)
    else MakeRoom(Evict(s, charge, order[0]), charge, order[1..], need, capacity)
  }

  /** The eviction takes a stretch of the oldest handles, of which all but the last would
      not have made room. */
  lemma {:induction false} MakeRoomTakes(s: Cache, charge: seq<nat>, order: seq<nat>, need: nat, capacity: nat)
      returns (k: nat)
    ensures var (s', order') := MakeRoom(s, charge, order, need, capacity);
            && k <= |order| && order' == order[k..] && |s'.handles| == |s.handles|
            && (forall i :: 0 <= i < k ==> order[i] < |s.handles| == |charge|)
            && (if k == 0 then s' == s else s'.usage + charge[order[k - 1]] + need > capacity)
    decreases |order|
  {
    if Enough(s, charge, order, need, capacity) {
      k := 0;
    } else {
      var k' := MakeRoomTakes(Evict(s, charge, order[0]), charge, order[1..], need, capacity);
      k := k' + 1;
    }
  }

  /** It frees the handles it takes, and leaves the others as they were. */
  lemma {:induction false} MakeRoomKeeps(s: Cache, charge: seq<nat>, order: seq<nat>, need: nat, capacity: nat, k: nat,
      x: nat)
    requires k <= |order| && MakeRoom(s, charge, order, need, capacity).1 == order[k..] && x < |s.handles|
    ensures var s' := MakeRoom(s, charge, order, need, capacity).0;
            && |s'.handles| == |s.handles|
            && s'.handles[x] == if x in order[..k] then s.handles[x].(inCache := false) else s.handles[x]
    decreases |order|
  {
    if k > 0 {
      var e := order[0];
      assert order[k..] == order[1..][k - 1..] && order[..k] == [e] + order[1..][..k - 1];
      MakeRoomKeeps(Evict(s, charge, e), charge, order[1..], need, capacity, k - 1, x);
    } else {
      assert order[..0] == [];
      if !Enough(s, charge, order, need, capacity) {
        var k' := MakeRoomTakes(Evict(s, charge, order[0]), charge, order[1..], need, capacity);
      }
    }
  }

  /** A key out of the table, its handle freed unless it is referenced. */
  ghost function Erased(s: Cache, charge: seq<nat>, tag: Tag): Cache {
    if tag in s.contents && s.contents[tag] < |s.handles| == |charge| && charge[s.contents[tag]] <= s.usage then
      if s.handles[s.contents[tag]].refs == 0 then Evict(s, charge, s.contents[tag]) else Forget(s, s.contents[tag])
    else s
  }

  /** A list without a handle. */
  ghost function Without(order: seq<nat>, e: nat): seq<nat> {
    if order == [] then [] else (if order[0] == e then [] else [order[0]]) + Without(order[1..], e)
  }

  lemma {:induction false} WithoutAbsent(order: seq<nat>, e: nat)
    requires e !in order
    ensures Without(order, e) == order
  {
    if order != [] {
      WithoutAbsent(order[1..], e);
    }
  }

  lemma {:induction false} WithoutRemoves(order: seq<nat>, p: nat)
    requires NoDup(order) && p < |order|
    ensures Without(order, order[p]) == Remove(order, p)
  {
    if p == 0 {
      WithoutAbsent(order[1..], order[0]);
      assert Remove(order, 0) == order[1..];
    } else {
      WithoutRemoves(order[1..], p - 1);
      assert Remove(order, p) == [order[0]] + Remove(order[1..], p - 1);
    }
  }

  /** The list once a key is out of the table: its handle is gone, if it was on the list. */
  ghost function LeftListed(s: Cache, order: seq<nat>, tag: Tag): seq<nat> {
    if tag in s.contents then Without(order, s.contents[tag]) else order
  }

  class Shard {
    const list: PoolList
    var cache: Cache
    var strict: bool

    /** Everything but the room that evictions have to make. */
    ghost predicate Sound()
      reads this, list
    {
      list.Valid() && |cache.handles| == |list.list.next| && CacheOk(cache, list.list.charge, list.shape.listed)
    }

    /** A shard over its capacity has nothing left to evict. */
    ghost predicate Valid()
      reads this, list
    {
      Sound() && (cache.usage > list.capacity ==> list.shape.order == [])
    }

    /** LRU_Insert works for a handle like this: the high pool fits if it goes to the low
        pool. */
    predicate CanList(h: Handle)
      reads list
    {
      list.GoalOf(h.highPri, h.lowPri, h.hit) == Low ==> Fits(list.list.usage.high, list.highCapacity)
    }

    /** The same once only these handles are left on the list. */
    ghost predicate CanListAmong(h: Handle, order: seq<nat>)
      reads list
    {
      list.GoalOf(h.highPri, h.lowPri, h.hit) == Low ==>
        Fits(HighOf(order, list.list.pool, list.list.charge), list.highCapacity)
    }

    constructor (capacity: nat, strict: bool, highRatio: real, lowRatio: real)
      requires highRatio >= 0.0 && lowRatio >= 0.0
      ensures Valid() && list.PoolsFit() && list.Scaled() && cache.contents == map[] && cache.usage == 0 && fresh(list)
    {
      list := new PoolList(capacity, highRatio, lowRatio);
      cache := Cache([NewHandle(Tag(0, ""), 0, false, BottomPriority)], map[], 0);
      this.strict := strict;
      new;
      OrderOk(list.list, list.shape);
      assert |list.list.charge| == 1 && CacheDef(cache, list.list.charge, {});
      CacheOkIs(cache, list.list.charge, {});
    }

    /** Takes the oldest handle off the list and out of the table, and frees it. */
    method DropOldest()
      requires Sound() && list.shape.order != []
      modifies this`cache, list`list, list`lruLow, list`shape
      ensures Sound() && list.shape.order == old(list.shape.order)[1..] && (old(list.PoolsFit()) ==> list.PoolsFit())
      ensures list.list.charge == old(list.list.charge) && list.list.pool == old(list.list.pool)
      ensures old(list.shape.order)[0] < old(|cache.handles|) == |list.list.charge|
      ensures list.list.charge[old(list.shape.order)[0]] <= old(cache.usage)
      ensures cache == Evict(old(cache), list.list.charge, old(list.shape.order)[0])
    {
      Oldest(list.list, list.shape);
      var e := list.list.next[0];
      EvictOk(cache, list.list.charge, list.shape.listed, e);
      list.LRU_Remove(e, 0);
      cache := Evict(cache, list.list.charge, e);
    }

    method EvictFromLRU(need: nat)
      requires Sound()
      modifies this`cache, list`list, list`lruLow, list`shape
      ensures Sound() && (old(list.PoolsFit()) ==> list.PoolsFit()) && list.list.charge == old(list.list.charge)
      ensures list.list.pool == old(list.list.pool)
      ensures (cache, list.shape.order) ==
                MakeRoom(old(cache), list.list.charge, old(list.shape.order), need, list.capacity)
      ensures list.shape.order == [] || cache.usage + need <= list.capacity
    {
      while cache.usage + need > list.capacity && list.list.next[0] != 0
        invariant Sound() && (old(list.PoolsFit()) ==> list.PoolsFit()) && list.list.charge == old(list.list.charge)
        invariant list.list.pool == old(list.list.pool)
        invariant MakeRoom(cache, list.list.charge, list.shape.order, need, list.capacity) ==
                    MakeRoom(old(cache), list.list.charge, old(list.shape.order), need, list.capacity)
        decreases |list.shape.order|
      {
        NextOf(list.list, list.shape, 0);
        DropOldest();
      }
      NextOf(list.list, list.shape, 0);
      OrderOk(list.list, list.shape);
    }

    /** The handle of a key, with a reference taken; it is no longer on the list. */
    method Lookup(tag: Tag) returns (r: Option<nat>)
      requires Valid()
      modifies this`cache, list`list, list`lruLow, list`shape
      ensures Valid() && (old(list.PoolsFit()) ==> list.PoolsFit())
      ensures r == if tag in old(cache.contents) then Some(old(cache.contents)[tag]) else None
      ensures r.Some? ==> r.value < old(|cache.handles|) && cache == Reference(old(cache), r.value, true)
      ensures r.Some? ==> list.shape.listed == old(list.shape.listed) - {r.value}
      ensures r.None? ==> cache == old(cache) && list.shape == old(list.shape)
    {
      if tag !in cache.contents {
        return None;
      }
      var e := cache.contents[tag];
      InTable(cache, list.list.charge, list.shape.listed, tag);
      ReferenceOk(cache, list.list.charge, list.shape.listed, e, true);
      Unlist(e);
      cache := Reference(cache, e, true);
      r := Some(e);
    }

    /** Takes a handle off the list if it is on it, that is, if it has no references. */
    method Unlist(e: nat)
      requires list.Valid() && (e in list.shape.listed <==> e < |cache.handles| && cache.handles[e].refs == 0)
      modifies list`list, list`lruLow, list`shape
      ensures list.Valid() && list.shape.listed == old(list.shape.listed) - {e}
              && (old(list.PoolsFit()) ==> list.PoolsFit())
      ensures list.list.charge == old(list.list.charge) && |list.list.next| == old(|list.list.next|)
      ensures list.list.pool == old(list.list.pool) && list.shape.order == Without(old(list.shape.order), e)
      ensures old(list.shape.order) == [] ==> list.shape.order == []
    {
      if e < |cache.handles| && cache.handles[e].refs == 0 {
        ghost var p := PlaceOf(list.list, list.shape, e);
        OrderOk(list.list, list.shape);
        WithoutRemoves(list.shape.order, p);
        list.LRU_Remove(e, p);
      } else {
        OrderOk(list.list, list.shape);
        WithoutAbsent(list.shape.order, e);
      }
    }

    /** One more reference to a handle that has some. */
    method Ref(e: nat)
      requires Valid() && 1 <= e < |cache.handles| && cache.handles[e].refs > 0
      modifies this`cache
      ensures Valid() && cache == Reference(old(cache), e, old(cache.handles)[e].hit)
    {
      NotOnList(cache, list.list.charge, list.shape.listed, e);
      ReferenceOk(cache, list.list.charge, list.shape.listed, e, cache.handles[e].hit);
      assert list.shape.listed - {e} == list.shape.listed;
      cache := Reference(cache, e, cache.handles[e].hit);
    }

    /** Drops a reference. With the last one the handle goes back to the list, or is freed
        if it is no longer in the table, is to be erased, or the shard is over capacity. The
        states and the usage follow in any case, the list if it can take the handle. */
    method Release(handle: Option<nat>, eraseIfLastRef: bool) returns (freed: bool)
      requires Valid()
      requires handle.Some? ==> 1 <= handle.value < |cache.handles| && cache.handles[handle.value].refs > 0
      modifies this`cache, list`list, list`lruLow, list`shape
      ensures handle.None? ==> !freed && cache == old(cache)
      ensures handle.None? ==> Valid() && list.list == old(list.list) && list.shape == old(list.shape)
      ensures handle.Some? ==>
                var h := old(cache.handles)[handle.value];
                && freed == (h.refs == 1 && (!h.inCache || eraseIfLastRef || old(cache.usage) > list.capacity))
                && handle.value < |list.list.charge| == |old(cache).handles|
                   && list.list.charge[handle.value] <= old(cache.usage)
                && cache == (if freed then Free(old(cache), list.list.charge, handle.value)
                   else Unreference(old(cache), handle.value))
                && var back := h.refs == 1 && !freed;
                   var listed := if back then old(list.shape.listed) + {handle.value} else old(list.shape.listed);
                   && CacheOk(cache, list.list.charge, listed)
                   && (back && old(CanList(cache.handles[handle.value])) ==>
                         Valid() && list.shape.listed == listed && (old(list.PoolsFit()) ==> list.PoolsFit()))
                   && (!back ==> Valid() && list.shape == old(list.shape) && (old(list.PoolsFit()) ==> list.PoolsFit()))
    {
      if handle.None? {
        return false;
      }
      var e := handle.value;
      var h := cache.handles[e];
      NotOnList(cache, list.list.charge, list.shape.listed, e);
      UnreferenceOk(cache, list.list.charge, list.shape.listed, e);
      if h.refs > 1 {
        cache := Unreference(cache, e);
        return false;
      }
      if h.inCache && !(cache.usage > list.capacity || eraseIfLastRef) {
        var _ := list.LRU_Insert(e, h.highPri, h.lowPri, h.hit);
        cache := Unreference(cache, e);
        return false;
      }
      FreeOk(cache, list.list.charge, list.shape.listed, e);
      cache := Free(cache, list.list.charge, e);
      freed := true;
    }

    /** Takes a key out of the table; its handle is freed unless it is referenced. */
    method Erase(tag: Tag)
      requires Valid()
      modifies this`cache, list`list, list`lruLow, list`shape
      ensures Valid() && (old(list.PoolsFit()) ==> list.PoolsFit()) && tag !in cache.contents
      ensures cache == Erased(old(cache), old(list.list.charge), tag) && list.list.charge == old(list.list.charge)
      ensures var gone := if tag in old(cache.contents) then {old(cache.contents)[tag]} else {};
              list.shape.listed == old(list.shape.listed) - gone
      ensures list.list.pool == old(list.list.pool)
      ensures list.shape.order == LeftListed(old(cache), old(list.shape.order), tag)
    {
      if tag !in cache.contents {
        return;
      }
      var e := cache.contents[tag];
      InTable(cache, list.list.charge, list.shape.listed, tag);
      if cache.handles[e].refs == 0 {
        EvictOk(cache, list.list.charge, list.shape.listed, e);
        Unlist(e);
        cache := Evict(cache, list.list.charge, e);
      } else {
        ForgetOk(cache, list.list.charge, list.shape.listed, e);
        assert list.shape.listed - {e} == list.shape.listed;
        OrderOk(list.list, list.shape);
        WithoutAbsent(list.shape.order, e);
        cache := Forget(cache, e);
      }
    }

    /** Inserts a handle and evicts to make room. Without room, an entry whose handle nobody
        asks for is dropped, and a strict shard refuses. The states and the usage follow in any
        case, the list if it can take the handle once the eviction is done. */
    method Insert(tag: Tag, charge: nat, priority: Priority, wantHandle: bool)
        returns (status: Status, handle: Option<nat>)
      requires Valid()
      modifies this`cache, list`list, list`lruLow, list`shape
      ensures var (s, order) :=
                MakeRoom(old(cache), old(list.list.charge), old(list.shape.order), charge, list.capacity);
              var left := LeftListed(s, order, tag);
              wantHandle || s.usage + charge > list.capacity
              || old(CanListAmong(NewHandle(tag, 0, true, priority), left)) ==>
                Valid() && (old(list.PoolsFit()) ==> list.PoolsFit())
      ensures var (s, order) :=
                MakeRoom(old(cache), old(list.list.charge), old(list.shape.order), charge, list.capacity);
              if s.usage + charge > list.capacity && (strict || !wantHandle) then
                && cache == s && list.shape.order == order && handle == None
                   && list.list.charge == old(list.list.charge)
                && status == if wantHandle then MemoryLimit else Ok
              else
                && cache == Add(Erased(s, old(list.list.charge), tag),
                                NewHandle(tag, if wantHandle then 1 else 0, true, priority), charge)
                && list.list.charge == old(list.list.charge) + [charge]
                && (var left := Members(LeftListed(s, order, tag));
                    CacheOk(cache, list.list.charge, if wantHandle then left else left + {|s.handles|}))
                && cache.contents[tag] == |cache.handles| - 1
                   && handle == (if wantHandle then Some(cache.contents[tag]) else None)
                && status == if tag in s.contents then OkOverwritten else Ok
      ensures strict && status != MemoryLimit && wantHandle ==> cache.usage <= list.capacity
    {
      EvictFromLRU(charge);
      if cache.usage + charge > list.capacity && (strict || !wantHandle) {
        return if wantHandle then MemoryLimit else Ok, None;
      }
      status := if tag in cache.contents then OkOverwritten else Ok;
      var e := Install(tag, charge, priority, wantHandle);
      handle := if wantHandle then Some(e) else None;
    }

    /** Puts a new handle in the place of what the key had, and on the list unless it is
        referenced. */
    method Install(tag: Tag, charge: nat, priority: Priority, referenced: bool) returns (e: nat)
      requires Valid() && (cache.usage + charge > list.capacity ==> referenced && list.shape.order == [])
      modifies this`cache, list`list, list`lruLow, list`shape
      ensures var left := LeftListed(old(cache), old(list.shape.order), tag);
              && (referenced || old(CanListAmong(NewHandle(tag, 0, true, priority), left)) ==>
                    Valid() && (old(list.PoolsFit()) ==> list.PoolsFit()))
              && CacheOk(cache, list.list.charge, if referenced then Members(left) else Members(left) + {e})
      ensures cache.usage <= old(cache.usage) + charge
      ensures cache == Add(Erased(old(cache), old(list.list.charge), tag),
                           NewHandle(tag, if referenced then 1 else 0, true, priority), charge)
      ensures list.list.charge == old(list.list.charge) + [charge] && e == |cache.handles| - 1
              && cache.contents[tag] == e
    {
      Erase(tag);
      OrderOk(list.list, list.shape);
      HighOfList(list.list, list.shape);
      var h := NewHandle(tag, if referenced then 1 else 0, true, priority);
      NewNumber(list.list, list.shape);
      AddOk(cache, list.list.charge, list.shape.listed, h, charge);
      e := list.AddHandle(charge);
      cache := Add(cache, h, charge);
      if !referenced {
        var _ := list.LRU_Insert(e, h.highPri, h.lowPri, h.hit);
      }
    }

    /** A referenced handle that is in no table; it may be left without a charge. */
    method CreateStandalone(tag: Tag, charge: nat, allowUncharged: bool) returns (handle: Option<nat>)
      requires Valid()
      modifies this`cache, list`list, list`lruLow, list`shape
      ensures Valid() && (old(list.PoolsFit()) ==> list.PoolsFit())
      ensures var (s, order) :=
                MakeRoom(old(cache), old(list.list.charge), old(list.shape.order), charge, list.capacity);
              && list.shape.order == order
              && (handle.None? <==> strict && !allowUncharged && s.usage + charge > list.capacity)
              && if handle.None? then cache == s
                 else
                   var c := if strict && s.usage + charge > list.capacity then 0 else charge;
                   && cache == Add(s, NewHandle(tag, 1, false, BottomPriority), c)
                      && list.list.charge == old(list.list.charge) + [c]
                   && handle == Some(|s.handles|)
    {
      EvictFromLRU(charge);
      var c := charge;
      if strict && cache.usage + charge > list.capacity {
        if !allowUncharged {
          return None;
        }
        c := 0;
      }
      var h := NewHandle(tag, 1, false, BottomPriority);
      NewNumber(list.list, list.shape);
      AddOk(cache, list.list.charge, list.shape.listed, h, c);
      var e := list.AddHandle(c);
      cache := Add(cache, h, c);
      handle := Some(e);
    }

    /** Frees everything that nobody references. */
    method EraseUnRefEntries()
      requires Valid()
      modifies this`cache, list`list, list`lruLow, list`shape
      ensures Valid() && list.shape.order == [] && (old(list.PoolsFit()) ==> list.PoolsFit())
      ensures |cache.handles| == old(|cache.handles|)
      ensures forall x :: 0 <= x < |cache.handles| && old(cache.handles)[x].refs > 0 ==>
              cache.handles[x] == old(cache.handles)[x]
    {
      NextOf(list.list, list.shape, 0);
      while list.list.next[0] != 0
        invariant Sound() && (old(list.PoolsFit()) ==> list.PoolsFit()) && |cache.handles| == old(|cache.handles|)
        invariant forall x :: 0 <= x < |cache.handles| && old(cache.handles)[x].refs > 0 ==>
                  cache.handles[x] == old(cache.handles)[x]
        decreases |list.shape.order|
      {
        NextOf(list.list, list.shape, 0);
        Oldest(list.list, list.shape);
        OnList(cache, list.list.charge, list.shape.listed, list.shape.order[0]);
        DropOldest();
      }
      NextOf(list.list, list.shape, 0);
      OrderOk(list.list, list.shape);
    }

    /** A new capacity. The pools keep their sizes, so that they may no longer fit. */
    method SetCapacity(capacity: nat)
      requires Valid()
      modifies this`cache, list
      ensures Valid() && list.Scaled() && list.capacity == capacity
      ensures (cache, list.shape.order) ==
                MakeRoom(old(cache), old(list.list.charge), old(list.shape.order), 0, capacity)
    {
      list.SetCapacity(capacity);
      EvictFromLRU(0);
    }
  }

  /** What a valid shard is: each handle is in one of its states, the usage is the charge of
      the live handles, and the list runs through its pools from bottom to high. */
  lemma ShardMeans(s: Shard)
    requires s.Valid()
    ensures CacheDef(s.cache, s.list.list.charge, Members(s.list.shape.order)) && ListDef(s.list.list, s.list.shape)
    ensures s.cache.usage > s.list.capacity ==> s.list.shape.order == []
    ensures s.list.lruLow == At(s.list.shape.order, s.list.shape.l - 1)
  {
    ListOkIs(s.list.list, s.list.shape);
    CacheOkIs(s.cache, s.list.list.charge, s.list.shape.listed);
  }
}
