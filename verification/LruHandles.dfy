/** The handles of an LRU shard: their states, the table that finds them, and the charges
    of those that live. */
module LruHandles {
  import opened HashPositions

  /** LRUHandle, but for its links, pool and charge. */
  datatype Handle = Handle(tag: Tag, refs: nat, inCache: bool, hit: bool, highPri: bool, lowPri: bool) {
    predicate Alive() { inCache || refs > 0 }
  }

  /** The numbered handles, the map that the hash table stands for, and the usage. Number 0
      is the dummy head of the list. */
  datatype Cache = Cache(handles: seq<Handle>, contents: map<Tag, nat>, usage: nat)

  /** The three states of a live handle: referenced and in the table, not referenced and
      in the table, then on the LRU list, or referenced and not in the table. */
  ghost predicate Coherent(h: Handle, x: nat, contents: map<Tag, nat>, listed: set<nat>) {
    && (h.inCache <==> h.tag in contents && contents[h.tag] == x)
    && (x in listed <==> h.inCache && h.refs == 0)
  }

  /** The charge of the live handles among the first n. */
  ghost function AliveCharge(handles: seq<Handle>, charge: seq<nat>, n: nat): nat
    requires n <= |handles| == |charge|
  {
    if n == 0 then 0 else AliveCharge(handles, charge, n - 1) + (if handles[n - 1].Alive() then charge[n - 1] else 0)
  }

  ghost predicate CacheDef(s: Cache, charge: seq<nat>, listed: set<nat>) {
    && |s.handles| == |charge| > 0 && !s.handles[0].Alive()
    && (forall x :: 1 <= x < |s.handles| ==> Coherent(s.handles[x], x, s.contents, listed))
    && (forall t :: t in s.contents ==> 1 <= s.contents[t] < |s.handles| && s.handles[s.contents[t]].tag == t)
    && s.usage == AliveCharge(s.handles, charge, |s.handles|)
  }

  // CacheOk is CacheDef, chosen so that its definition comes into play only where
  // Unsealed is mentioned.

  ghost predicate Unsealed(t: int) { true }

  ghost predicate IsCacheOk(s: Cache, charge: seq<nat>, listed: set<nat>, r: bool) {
    forall t {:trigger Unsealed(t)} :: Unsealed(t) ==> (r <==> CacheDef(s, charge, listed))
  }

  ghost predicate CacheOk(s: Cache, charge: seq<nat>, listed: set<nat>) {
    assert IsCacheOk(s, charge, listed, CacheDef(s, charge, listed));
    var r: bool :| IsCacheOk(s, charge, listed, r);
    r
  }

  lemma CacheOkIs(s: Cache, charge: seq<nat>, listed: set<nat>)
    ensures CacheOk(s, charge, listed) <==> CacheDef(s, charge, listed)
  {
    assert Unsealed(0);
  }

  // ---------------------------------------------------------------- charges

  lemma {:induction false} AliveChange(handles: seq<Handle>, charge: seq<nat>, n: nat, e: nat, h: Handle)
    requires n <= |handles| == |charge| && e < |handles|
    ensures AliveCharge(handles[e := h], charge, n) ==
              AliveCharge(handles, charge, n)
              - (if e < n && handles[e].Alive() then charge[e] else 0) + (if e < n && h.Alive() then charge[e] else 0)
  {
    if n > 0 {
      AliveChange(handles, charge, n - 1, e, h);
    }
  }

  lemma {:induction false} AliveExtend(handles: seq<Handle>, charge: seq<nat>, n: nat, h: Handle, c: nat)
    requires n <= |handles| == |charge|
    ensures AliveCharge(handles + [h], charge + [c], n) == AliveCharge(handles, charge, n)
  {
    if n > 0 {
      AliveExtend(handles, charge, n - 1, h, c);
    }
  }

  /** Every live handle is charged. */
  lemma {:induction false} AliveAtLeast(handles: seq<Handle>, charge: seq<nat>, n: nat, e: nat)
    requires e < n <= |handles| == |charge| && handles[e].Alive()
    ensures AliveCharge(handles, charge, n) >= charge[e]
  {
    if e < n - 1 {
      AliveAtLeast(handles, charge, n - 1, e);
    }
  }

  // ---------------------------------------------------------------- what the states mean

  lemma InTable(s: Cache, charge: seq<nat>, listed: set<nat>, tag: Tag)
    requires CacheOk(s, charge, listed) && tag in s.contents
    ensures var e := s.contents[tag];
            && 1 <= e < |s.handles| == |charge| && s.handles[e].tag == tag && s.handles[e].inCache
               && charge[e] <= s.usage
            && (e in listed <==> s.handles[e].refs == 0)
  {
    assert Unsealed(0);
    assert Coherent(s.handles[s.contents[tag]], s.contents[tag], s.contents, listed);
    AliveAtLeast(s.handles, charge, |s.handles|, s.contents[tag]);
  }

  lemma OnList(s: Cache, charge: seq<nat>, listed: set<nat>, x: nat)
    requires CacheOk(s, charge, listed) && 1 <= x < |s.handles| && x in listed
    ensures s.handles[x].inCache && s.handles[x].refs == 0 && s.handles[x].tag in s.contents
            && s.contents[s.handles[x].tag] == x
    ensures |charge| == |s.handles| && charge[x] <= s.usage
  {
    assert Unsealed(0);
    assert Coherent(s.handles[x], x, s.contents, listed);
    AliveAtLeast(s.handles, charge, |s.handles|, x);
  }

  lemma NotOnList(s: Cache, charge: seq<nat>, listed: set<nat>, x: nat)
    requires CacheOk(s, charge, listed) && 1 <= x < |s.handles| && s.handles[x].refs > 0
    ensures x !in listed && |charge| == |s.handles| && charge[x] <= s.usage
    ensures s.handles[x].inCache <==> s.handles[x].tag in s.contents && s.contents[s.handles[x].tag] == x
  {
    assert Unsealed(0);
    assert Coherent(s.handles[x], x, s.contents, listed);
    AliveAtLeast(s.handles, charge, |s.handles|, x);
  }

  // ---------------------------------------------------------------- changes

  /** Nothing but the entry of the tag differs. */
  ghost predicate SameBut(contents: map<Tag, nat>, contents': map<Tag, nat>, tag: Tag) {
    forall t :: t != tag ==> (t in contents' <==> t in contents) && (t in contents ==> contents'[t] == contents[t])
  }

  /** One handle changes, and with it at most its own place in the table and on the list. */
  lemma ChangeOne(s: Cache, charge: seq<nat>, listed: set<nat>, e: nat, h: Handle, contents': map<Tag, nat>,
      listed': set<nat>)
    requires CacheOk(s, charge, listed) && 1 <= e < |s.handles| && h.tag == s.handles[e].tag
    requires SameBut(s.contents, contents', h.tag) && Coherent(h, e, contents', listed')
    requires (s.handles[e].inCache && (h.tag !in contents' || contents'[h.tag] == e)) || contents' == s.contents
    requires listed' - {e} == listed - {e}
    ensures |charge| == |s.handles| && s.usage >= (if s.handles[e].Alive() then charge[e] else 0)
    ensures CacheOk(Cache(s.handles[e := h], contents',
                          s.usage - (if s.handles[e].Alive() then charge[e] else 0)
                          + (if h.Alive() then charge[e] else 0)),
                    charge, listed')
  {
    assert Unsealed(0);
    AliveChange(s.handles, charge, |s.handles|, e, h);
    if s.handles[e].Alive() {
      AliveAtLeast(s.handles, charge, |s.handles|, e);
    }
    var handles' := s.handles[e := h];
    assert Coherent(s.handles[e], e, s.contents, listed);
    forall x | 1 <= x < |s.handles| ensures Coherent(handles'[x], x, contents', listed') {
      if x != e {
        assert Coherent(s.handles[x], x, s.contents, listed);
        OthersCoherent(s.handles[x], x, s.contents, listed, e, h.tag, contents', listed');
      }
    }
  }

  lemma OthersCoherent(o: Handle, x: nat, contents: map<Tag, nat>, listed: set<nat>, e: nat, tag: Tag,
                       contents': map<Tag, nat>, listed': set<nat>)
    requires Coherent(o, x, contents, listed) && x != e
    requires SameBut(contents, contents', tag) && listed' - {e} == listed - {e}
    requires (tag in contents && contents[tag] == e && (tag !in contents' || contents'[tag] == e))
             || contents' == contents
    ensures Coherent(o, x, contents', listed')
  {
    assert x in listed' - {e} <==> x in listed - {e};
  }

  /** Evicted or erased while nobody references it. */
  function Evict(s: Cache, charge: seq<nat>, e: nat): Cache
    requires e < |s.handles| == |charge| && charge[e] <= s.usage
  {
    Cache(s.handles[e := s.handles[e].(inCache := false)], s.contents - {s.handles[e].tag}, s.usage - charge[e])
  }

  lemma EvictOk(s: Cache, charge: seq<nat>, listed: set<nat>, e: nat)
    requires CacheOk(s, charge, listed) && 1 <= e < |s.handles| && e in listed
    ensures |charge| == |s.handles| && charge[e] <= s.usage && CacheOk(Evict(s, charge, e), charge, listed - {e})
  {
    OnList(s, charge, listed, e);
    ChangeOne(s, charge, listed, e, s.handles[e].(inCache := false), s.contents - {s.handles[e].tag}, listed - {e});
  }

  /** Referenced anew, or once more; a lookup also marks the handle as hit. */
  function Reference(s: Cache, e: nat, hit: bool): Cache
    requires e < |s.handles|
  {
    s.(handles := s.handles[e := s.handles[e].(refs := s.handles[e].refs + 1, hit := hit)])
  }

  lemma ReferenceOk(s: Cache, charge: seq<nat>, listed: set<nat>, e: nat, hit: bool)
    requires CacheOk(s, charge, listed) && 1 <= e < |s.handles| && (s.handles[e].refs > 0 || s.handles[e].inCache)
    ensures CacheOk(Reference(s, e, hit), charge, listed - {e})
  {
    HasState(s, charge, listed, e);
    ChangeOne(s, charge, listed, e, s.handles[e].(refs := s.handles[e].refs + 1, hit := hit), s.contents, listed - {e});
  }

  lemma HasState(s: Cache, charge: seq<nat>, listed: set<nat>, x: nat)
    requires CacheOk(s, charge, listed) && 1 <= x < |s.handles|
    ensures Coherent(s.handles[x], x, s.contents, listed)
  {
    assert Unsealed(0);
  }

  /** One reference less, but not the last. */
  function Unreference(s: Cache, e: nat): Cache
    requires e < |s.handles| && s.handles[e].refs > 0
  {
    s.(handles := s.handles[e := s.handles[e].(refs := s.handles[e].refs - 1)])
  }

  lemma UnreferenceOk(s: Cache, charge: seq<nat>, listed: set<nat>, e: nat)
    requires CacheOk(s, charge, listed) && 1 <= e < |s.handles| && s.handles[e].refs > 0
    ensures s.handles[e].refs > 1 ==> CacheOk(Unreference(s, e), charge, listed)
    ensures s.handles[e].refs == 1 && s.handles[e].inCache ==> CacheOk(Unreference(s, e), charge, listed + {e})
  {
    HasState(s, charge, listed, e);
    if s.handles[e].refs > 1 {
      ChangeOne(s, charge, listed, e, s.handles[e].(refs := s.handles[e].refs - 1), s.contents, listed);
    } else if s.handles[e].inCache {
      ChangeOne(s, charge, listed, e, s.handles[e].(refs := 0), s.contents, listed + {e});
    }
  }

  /** Out of the table while it is referenced. */
  function Forget(s: Cache, e: nat): Cache
    requires e < |s.handles|
  {
    s.(handles := s.handles[e := s.handles[e].(inCache := false)], contents := s.contents - {s.handles[e].tag})
  }

  lemma ForgetOk(s: Cache, charge: seq<nat>, listed: set<nat>, e: nat)
    requires CacheOk(s, charge, listed) && 1 <= e < |s.handles| && s.handles[e].refs > 0 && s.handles[e].inCache
    ensures CacheOk(Forget(s, e), charge, listed)
  {
    HasState(s, charge, listed, e);
    ChangeOne(s, charge, listed, e, s.handles[e].(inCache := false), s.contents - {s.handles[e].tag}, listed);
  }

  /** Freed with its last reference, and out of the table if it was still in it. */
  function Free(s: Cache, charge: seq<nat>, e: nat): Cache
    requires e < |s.handles| == |charge| && charge[e] <= s.usage
  {
    Cache(s.handles[e := s.handles[e].(refs := 0, inCache := false)],
          if s.handles[e].inCache then s.contents - {s.handles[e].tag} else s.contents, s.usage - charge[e])
  }

  lemma FreeOk(s: Cache, charge: seq<nat>, listed: set<nat>, e: nat)
    requires CacheOk(s, charge, listed) && 1 <= e < |s.handles| && s.handles[e].refs > 0
    ensures |charge| == |s.handles| && charge[e] <= s.usage && CacheOk(Free(s, charge, e), charge, listed)
  {
    NotOnList(s, charge, listed, e);
    ChangeOne(s, charge, listed, e, s.handles[e].(refs := 0, inCache := false),
              if s.handles[e].inCache then s.contents - {s.handles[e].tag} else s.contents, listed);
  }

  /** A new handle, with its own entry in the table if it is in the cache. */
  function Add(s: Cache, h: Handle, c: nat): Cache {
    var contents := if h.inCache then s.contents[h.tag := |s.handles|] else s.contents;
    Cache(s.handles + [h], contents, s.usage + if h.Alive() then c else 0)
  }

  lemma AddOk(s: Cache, charge: seq<nat>, listed: set<nat>, h: Handle, c: nat)
    requires CacheOk(s, charge, listed) && |s.handles| !in listed && (h.inCache ==> h.tag !in s.contents)
    ensures CacheOk(Add(s, h, c), charge + [c], if h.inCache && h.refs == 0 then listed + {|s.handles|} else listed)
  {
    assert Unsealed(0);
    AliveExtend(s.handles, charge, |s.handles|, h, c);
    var s', n := Add(s, h, c), |s.handles|;
    var listed' := if h.inCache && h.refs == 0 then listed + {n} else listed;
    forall x | 1 <= x < n + 1 ensures Coherent(s'.handles[x], x, s'.contents, listed') {
      if x < n {
        assert Coherent(s.handles[x], x, s.contents, listed);
      }
    }
  }
}
