/** LRUHandleTable: a chained hash table on the upper hash bits that doubles. */
module HandleTable {
  import opened LinearHashing
  import opened HashPositions
  import opened Options

  datatype Node = Node(tag: Tag, id: nat)

  /** The position of a tag in a chain, or the end. */
  function Find(chain: seq<Node>, tag: Tag): (r: nat)
    ensures r <= |chain| && (r < |chain| ==> chain[r].tag == tag) && forall j :: 0 <= j < r ==> chain[j].tag != tag
  {
    if chain == [] || chain[0].tag == tag then 0 else 1 + Find(chain[1..], tag)
  }

  predicate Has(chain: seq<Node>, tag: Tag) { Find(chain, tag) < |chain| }

  /** A chain holds each tag of the map that belongs to it once, and nothing else. */
  ghost predicate ChainOk(chain: seq<Node>, i: nat, home: nat -> nat, m: map<Tag, nat>)
  {
    && (forall j :: 0 <= j < |chain| ==> Placed(chain[j], i, home, m))
    && (forall j, l :: 0 <= j < l < |chain| ==> chain[j].tag != chain[l].tag)
    && (forall t :: t in m && home(t.hash) == i ==> Has(chain, t))
  }

  ghost predicate Placed(n: Node, i: nat, home: nat -> nat, m: map<Tag, nat>)
  {
    n.tag in m && m[n.tag] == n.id && home(n.tag.hash) == i
  }

  /** The chain of each hash. */
  function ChainOf(bits: nat): nat -> nat
    requires bits <= HASH_BITS
  {
    hash => Bucket(hash, bits)
  }

  ghost predicate Holds(list: seq<seq<Node>>, bits: nat, m: map<Tag, nat>) {
    && bits <= HASH_BITS && |list| == Pow2(bits)
    && (forall i :: 0 <= i < |list| ==> ChainOk(list[i], i, ChainOf(bits), m))
  }

  lemma HasAt(chain: seq<Node>, tag: Tag, j: nat)
    requires j < |chain| && chain[j].tag == tag
    ensures Has(chain, tag)
  {
  }

  /** A tag is in the map exactly if its chain has it. */
  lemma InMap(chain: seq<Node>, i: nat, home: nat -> nat, m: map<Tag, nat>, tag: Tag)
    requires ChainOk(chain, i, home, m) && i == home(tag.hash)
    ensures tag in m <==> Has(chain, tag)
    ensures tag in m ==> m[tag] == chain[Find(chain, tag)].id
  {
    if Has(chain, tag) {
      assert Placed(chain[Find(chain, tag)], i, home, m);
    }
  }

  /** A map entry does not matter to a chain that it does not belong to. */
  lemma OtherChain(chain: seq<Node>, i: nat, home: nat -> nat, m: map<Tag, nat>, m': map<Tag, nat>, tag: Tag)
    requires ChainOk(chain, i, home, m) && i != home(tag.hash)
    requires forall t :: t != tag ==> (t in m <==> t in m') && (t in m ==> m[t] == m'[t])
    ensures ChainOk(chain, i, home, m')
  {
    forall j | 0 <= j < |chain| ensures Placed(chain[j], i, home, m') {
      assert Placed(chain[j], i, home, m);
    }
  }

  lemma ReplaceInChain(chain: seq<Node>, i: nat, home: nat -> nat, m: map<Tag, nat>, n: Node)
    requires ChainOk(chain, i, home, m) && i == home(n.tag.hash) && Has(chain, n.tag)
    ensures ChainOk(chain[Find(chain, n.tag) := n], i, home, m[n.tag := n.id])
  {
    var p := Find(chain, n.tag);
    var chain', m' := chain[p := n], m[n.tag := n.id];
    forall j | 0 <= j < |chain| ensures Placed(chain'[j], i, home, m') {
      assert Placed(chain[j], i, home, m);
    }
    forall t | t in m' && home(t.hash) == i ensures Has(chain', t) {
      HasAt(chain', t, if t == n.tag then p else Find(chain, t));
    }
  }

  lemma AppendToChain(chain: seq<Node>, i: nat, home: nat -> nat, m: map<Tag, nat>, n: Node, front: bool)
    requires ChainOk(chain, i, home, m) && i == home(n.tag.hash) && n.tag !in m
    ensures ChainOk(if front then [n] + chain else chain + [n], i, home, m[n.tag := n.id])
  {
    var chain', m' := if front then [n] + chain else chain + [n], m[n.tag := n.id];
    var off := if front then 1 else 0;
    forall j | 0 <= j < |chain'| ensures Placed(chain'[j], i, home, m') {
      assert chain'[j] == n || Placed(chain[j - off], i, home, m);
    }
    forall j, l | 0 <= j < l < |chain'| ensures chain'[j].tag != chain'[l].tag {
      assert chain'[j] == n || Placed(chain[j - off], i, home, m);
      assert chain'[l] == n || Placed(chain[l - off], i, home, m);
    }
    forall t | t in m' && home(t.hash) == i ensures Has(chain', t) {
      if t == n.tag {
        HasAt(chain', t, if front then 0 else |chain|);
      } else {
        HasAt(chain', t, Find(chain, t) + off);
      }
    }
  }

  function Without(chain: seq<Node>, p: nat): seq<Node>
    requires p < |chain|
  {
    chain[..p] + chain[p + 1..]
  }

  lemma RemovedPlaced(chain: seq<Node>, i: nat, home: nat -> nat, m: map<Tag, nat>, p: nat, j: nat)
    requires ChainOk(chain, i, home, m) && p < |chain| && j < |chain| - 1
    ensures Without(chain, p)[j] == chain[Past(j, p)] && Placed(Without(chain, p)[j], i, home, m - {chain[p].tag})
  {
    assert Placed(chain[Past(j, p)], i, home, m);
    assert if j < p then chain[j].tag != chain[p].tag else chain[p].tag != chain[j + 1].tag;
  }

  lemma RemovedHas(chain: seq<Node>, p: nat, t: Tag)
    requires p < |chain| && Has(chain, t) && t != chain[p].tag
    ensures Has(Without(chain, p), t)
  {
    var q := Find(chain, t);
    HasAt(Without(chain, p), t, if q < p then q else q - 1);
  }

  lemma RemoveFromChain(chain: seq<Node>, i: nat, home: nat -> nat, m: map<Tag, nat>, tag: Tag)
    requires ChainOk(chain, i, home, m) && i == home(tag.hash) && Has(chain, tag)
    ensures ChainOk(Without(chain, Find(chain, tag)), i, home, m - {tag})
  {
    var p := Find(chain, tag);
    var m' := m - {tag};
    forall j | 0 <= j < |chain| - 1
      ensures Without(chain, p)[j] == chain[Past(j, p)] && Placed(Without(chain, p)[j], i, home, m')
    {
      RemovedPlaced(chain, i, home, m, p, j);
    }
    forall t | t in m' && home(t.hash) == i ensures Has(Without(chain, p), t) {
      RemovedHas(chain, p, t);
    }
  }

  function Past(j: int, p: int): int { if j < p then j else j + 1 }

  lemma OneLess(m: map<Tag, nat>, tag: Tag)
    requires tag in m
    ensures |m - {tag}| == |m| - 1
  {
    assert (m - {tag}).Keys == m.Keys - {tag};
  }

  // TableOk is Holds, chosen so that its definition comes into play only where Looked is
  // mentioned.

  ghost predicate Looked(t: int) { true }

  ghost predicate IsTableOk(list: seq<seq<Node>>, bits: nat, m: map<Tag, nat>, r: bool) {
    forall t {:trigger Looked(t)} :: Looked(t) ==> (r <==> Holds(list, bits, m))
  }

  ghost predicate TableOk(list: seq<seq<Node>>, bits: nat, m: map<Tag, nat>) {
    assert IsTableOk(list, bits, m, Holds(list, bits, m));
    var r: bool :| IsTableOk(list, bits, m, r);
    r
  }

  lemma TableOkIs(list: seq<seq<Node>>, bits: nat, m: map<Tag, nat>)
    ensures TableOk(list, bits, m) <==> Holds(list, bits, m)
  {
    assert Looked(0);
  }

  // ---------------------------------------------------------------- the table

  class Table {
    const maxLengthBits: nat
    var lengthBits: nat
    var list: array<seq<Node>>
    var elems: nat

    /** The finite map that the table stands for. */
    ghost var contents: map<Tag, nat>

    ghost predicate Valid()
      reads this, list
    {
      4 <= lengthBits <= 31 && TableOk(list[..], lengthBits, contents) && elems == |contents|
    }

    constructor (maxLengthBits: nat)
      ensures Valid() && contents == map[] && this.maxLengthBits == maxLengthBits && fresh(list)
      ensures lengthBits == 4 && list.Length == 16 && forall i :: 0 <= i < 16 ==> list[i] == []
    {
      this.maxLengthBits := maxLengthBits;
      lengthBits, elems, contents := 4, 0, map[];
      assert Pow2(4) == 16;
      list := new seq<Node>[16](_ => []);
      new;
      TableOkIs(list[..], 4, map[]);
    }

    /** The chain and the place in it where a tag is, or would be added. */
    method FindPointer(tag: Tag) returns (i: nat, j: nat)
      requires Valid()
      ensures i == Bucket(tag.hash, lengthBits) < list.Length && j == Find(list[i], tag)
    {
      TableOkIs(list[..], lengthBits, contents);
      i := Bucket(tag.hash, lengthBits);
      BucketInTable(tag.hash, lengthBits);
      j := 0;
      while j < |list[i]| && list[i][j].tag != tag
        invariant 0 <= j <= |list[i]| && forall l :: 0 <= l < j ==> list[i][l].tag != tag
      {
        j := j + 1;
      }
    }

    method Lookup(tag: Tag) returns (r: Option<nat>)
      requires Valid()
      ensures r == if tag in contents then Some(contents[tag]) else None
    {
      TableOkIs(list[..], lengthBits, contents);
      var i, j := FindPointer(tag);
      InMap(list[i], i, ChainOf(lengthBits), contents, tag);
      r := if j < |list[i]| then Some(list[i][j].id) else None;
    }

    method Insert(n: Node) returns (prior: Option<nat>)
      requires Valid()
      modifies this, list
      ensures Valid() && contents == old(contents)[n.tag := n.id]
      ensures prior == if n.tag in old(contents) then Some(old(contents)[n.tag]) else None
      ensures list == old(list) || fresh(list)
    {
      TableOkIs(list[..], lengthBits, contents);
      var i, j := FindPointer(n.tag);
      ghost var before, m := list[..], contents;
      InMap(list[i], i, ChainOf(lengthBits), m, n.tag);
      if j < |list[i]| {
        prior := Some(list[i][j].id);
        ReplaceInChain(list[i], i, ChainOf(lengthBits), m, n);
        list[i] := list[i][j := n];
      } else {
        prior := None;
        AppendToChain(list[i], i, ChainOf(lengthBits), m, n, false);
        list[i] := list[i] + [n];
        elems := elems + 1;
      }
      contents := m[n.tag := n.id];
      OtherChains(before, lengthBits, m, contents, n.tag, i, list[..]);
      TableOkIs(list[..], lengthBits, contents);
      if prior.None? && elems >= list.Length {
        Resize();
      }
    }

    method Remove(tag: Tag) returns (result: Option<nat>)
      requires Valid()
      modifies this, list
      ensures Valid() && contents == old(contents) - {tag} && list == old(list)
      ensures result == if tag in old(contents) then Some(old(contents)[tag]) else None
    {
      TableOkIs(list[..], lengthBits, contents);
      var i, j := FindPointer(tag);
      ghost var before, m := list[..], contents;
      InMap(list[i], i, ChainOf(lengthBits), m, tag);
      if j < |list[i]| {
        result := Some(list[i][j].id);
        RemoveFromChain(list[i], i, ChainOf(lengthBits), m, tag);
        list[i] := Without(list[i], j);
        elems := elems - 1;
        contents := m - {tag};
        OneLess(m, tag);
        OtherChains(before, lengthBits, m, contents, tag, i, list[..]);
        TableOkIs(list[..], lengthBits, contents);
      } else {
        assert m - {tag} == m;
        result := None;
      }
    }

    /** Visits the chains from the saved position on, as many as told, and saves where
        to go on. */
    method ApplyToSomeEntries(count: nat, state: nat) returns (visited: seq<Node>, state': nat)
      requires Valid() && count > 0 && state <= DONE
      ensures state' == Advance(state, lengthBits, count)
      ensures forall n :: n in visited <==>
              n.tag in contents && contents[n.tag] == n.id && Covered(n.tag.hash, state, lengthBits, count)
      ensures forall i, j :: 0 <= i < j < |visited| ==> visited[i].tag != visited[j].tag
    {
      TableOkIs(list[..], lengthBits, contents);
      var begin := Begin(state, lengthBits);
      BeginInTable(state, lengthBits);
      var end := begin + count;
      if end >= list.Length {
        end, state' := list.Length, DONE;
      } else {
        state' := end * Pow2(STATE_BITS - lengthBits);
      }
      visited := ApplyToEntriesRange(begin, end);
      InRange(visited, contents, lengthBits, state, count, end);
    }

    method ApplyToEntriesRange(begin: nat, end: nat) returns (visited: seq<Node>)
      requires Valid() && begin <= end <= list.Length
      ensures VisitedUpTo(visited, contents, ChainOf(lengthBits), begin, end)
    {
      TableOkIs(list[..], lengthBits, contents);
      visited := [];
      for i := begin to end
        invariant VisitedUpTo(visited, contents, ChainOf(lengthBits), begin, i)
      {
        VisitChain(visited, contents, ChainOf(lengthBits), begin, i, list[i]);
        visited := visited + list[i];
      }
    }

    /** Doubles the table, unless it has reached its limit. */
    method Resize()
      requires Valid()
      modifies this`list, this`lengthBits
      ensures Valid() && (list == old(list) || fresh(list))
      ensures lengthBits == if old(lengthBits) >= maxLengthBits || old(lengthBits) >= 31 then old(lengthBits)
              else old(lengthBits) + 1
    {
      if lengthBits >= maxLengthBits || lengthBits >= 31 {
        return;
      }
      TableOkIs(list[..], lengthBits, contents);
      var newList, count := Rehash(list, lengthBits, contents);
      assert elems == count;
      TableOkIs(newList[..], lengthBits + 1, contents);
      list, lengthBits := newList, lengthBits + 1;
    }
  }

  /** Adds a node at the front of its chain. */
  method PushFront(list: array<seq<Node>>, bits: nat, n: Node, ghost m: map<Tag, nat>)
    requires Holds(list[..], bits, m) && n.tag !in m
    modifies list
    ensures Holds(list[..], bits, m[n.tag := n.id])
  {
    var b := Bucket(n.tag.hash, bits);
    BucketInTable(n.tag.hash, bits);
    ghost var before := list[..];
    AppendToChain(list[b], b, ChainOf(bits), m, n, true);
    list[b] := [n] + list[b];
    OtherChains(before, bits, m, m[n.tag := n.id], n.tag, b, list[..]);
  }

  /** Empties one chain, from its front, into the chains of a table twice as long. */
  method MoveChain(newList: array<seq<Node>>, newBits: nat, chain: seq<Node>, i: nat, ghost bits: nat,
      ghost m: map<Tag, nat>, ghost before: map<Tag, nat>)
    returns (ghost moved: map<Tag, nat>)
    requires bits <= HASH_BITS && ChainOk(chain, i, ChainOf(bits), m)
    requires Holds(newList[..], newBits, before) && MovedBelow(m, before, ChainOf(bits), i)
    modifies newList
    ensures Holds(newList[..], newBits, moved) && MovedBelow(m, moved, ChainOf(bits), i + 1)
    ensures |moved| == |before| + |chain|
  {
    moved := before;
    for j := 0 to |chain|
      invariant Holds(newList[..], newBits, moved) && |moved| == |before| + j
      invariant MovedWithin(m, moved, ChainOf(bits), i, chain, j)
    {
      MoveOne(m, moved, ChainOf(bits), i, chain, j);
      PushFront(newList, newBits, chain[j], moved);
      moved := moved[chain[j].tag := chain[j].id];
    }
    ChainMoved(m, moved, ChainOf(bits), i, chain);
  }

  /** A table twice as long that holds the same, and how many nodes were moved. */
  method Rehash(list: array<seq<Node>>, bits: nat, ghost m: map<Tag, nat>)
      returns (newList: array<seq<Node>>, count: nat)
    requires bits < HASH_BITS && Holds(list[..], bits, m)
    ensures fresh(newList) && Holds(newList[..], bits + 1, m) && count == |m|
  {
    newList := new seq<Node>[2 * list.Length](_ => []);
    count := 0;
    ghost var moved: map<Tag, nat> := map[];
    for i := 0 to list.Length
      modifies newList
      invariant Holds(newList[..], bits + 1, moved) && count == |moved|
      invariant MovedBelow(m, moved, ChainOf(bits), i)
    {
      moved := MoveChain(newList, bits + 1, list[i], i, bits, m, moved);
      count := count + |list[i]|;
    }
    AllMoved(m, moved, bits, list.Length);
  }

  /** Chains other than the one at i are untouched and still hold what belongs to them. */
  lemma OtherChains(before: seq<seq<Node>>, bits: nat, m: map<Tag, nat>, m': map<Tag, nat>, tag: Tag, i: nat,
      after: seq<seq<Node>>)
    requires Holds(before, bits, m) && i == Bucket(tag.hash, bits) < |before| == |after|
    requires forall t :: t != tag ==> (t in m <==> t in m') && (t in m ==> m[t] == m'[t])
    requires forall l :: 0 <= l < |before| && l != i ==> after[l] == before[l]
    requires ChainOk(after[i], i, ChainOf(bits), m')
    ensures Holds(after, bits, m')
  {
    forall l | 0 <= l < |after| ensures ChainOk(after[l], l, ChainOf(bits), m') {
      if l != i {
        OtherChain(before[l], l, ChainOf(bits), m, m', tag);
      }
    }
  }

  /** What has been moved while doubling: the chains below i, */
  ghost predicate MovedBelow(m: map<Tag, nat>, moved: map<Tag, nat>, home: nat -> nat, i: nat)
  {
    && (forall t :: t in moved ==> t in m && m[t] == moved[t] && home(t.hash) < i)
    && (forall t :: t in m && home(t.hash) < i ==> t in moved)
  }

  /** and the first j nodes of chain i. */
  ghost predicate MovedWithin(m: map<Tag, nat>, moved: map<Tag, nat>, home: nat -> nat, i: nat, chain: seq<Node>,
      j: nat)
    requires j <= |chain|
  {
    && (forall t :: t in moved ==> t in m && m[t] == moved[t] && (home(t.hash) < i || Has(chain[..j], t)))
    && (forall t :: t in m && home(t.hash) < i ==> t in moved)
    && (forall l :: 0 <= l < j ==> chain[l].tag in moved)
  }

  lemma MoveOne(m: map<Tag, nat>, moved: map<Tag, nat>, home: nat -> nat, i: nat, chain: seq<Node>, j: nat)
    requires j < |chain| && ChainOk(chain, i, home, m) && MovedWithin(m, moved, home, i, chain, j)
    ensures chain[j].tag in m && chain[j].tag !in moved
    ensures MovedWithin(m, moved[chain[j].tag := chain[j].id], home, i, chain, j + 1)
  {
    assert Placed(chain[j], i, home, m);
    forall t | t in moved && Has(chain[..j], t) ensures t != chain[j].tag && Has(chain[..j + 1], t) {
      HasLonger(chain, i, home, m, t, j);
    }
    HasAt(chain[..j + 1], chain[j].tag, j);
  }

  lemma HasLonger(chain: seq<Node>, i: nat, home: nat -> nat, m: map<Tag, nat>, t: Tag, j: nat)
    requires j < |chain| && ChainOk(chain, i, home, m) && Has(chain[..j], t)
    ensures t != chain[j].tag && Has(chain[..j + 1], t)
  {
    assert chain[Find(chain[..j], t)].tag == t;
    HasAt(chain[..j + 1], t, Find(chain[..j], t));
  }

  lemma ChainMoved(m: map<Tag, nat>, moved: map<Tag, nat>, home: nat -> nat, i: nat, chain: seq<Node>)
    requires ChainOk(chain, i, home, m) && MovedWithin(m, moved, home, i, chain, |chain|)
    ensures MovedBelow(m, moved, home, i + 1)
  {
    assert chain[..|chain|] == chain;
    forall t | t in moved && Has(chain, t) ensures home(t.hash) == i {
      assert Placed(chain[Find(chain, t)], i, home, m);
    }
    forall t | t in m && home(t.hash) == i ensures t in moved {
      assert Has(chain, t) && chain[Find(chain, t)].tag == t;
    }
  }

  lemma AllMoved(m: map<Tag, nat>, moved: map<Tag, nat>, bits: nat, length: nat)
    requires bits <= HASH_BITS && length == Pow2(bits) && MovedBelow(m, moved, ChainOf(bits), length)
    ensures moved == m
  {
    forall t | t in m ensures t in moved {
      BucketInTable(t.hash, bits);
    }
  }

  /** The nodes of the chains from begin up to i have been visited, once each. */
  ghost predicate VisitedUpTo(visited: seq<Node>, m: map<Tag, nat>, home: nat -> nat, begin: nat, i: nat) {
    && (forall n :: n in visited <==> n.tag in m && m[n.tag] == n.id && begin <= home(n.tag.hash) < i)
    && (forall j, l :: 0 <= j < l < |visited| ==> visited[j].tag != visited[l].tag)
  }

  lemma VisitChain(visited: seq<Node>, m: map<Tag, nat>, home: nat -> nat, begin: nat, i: nat, chain: seq<Node>)
    requires begin <= i && VisitedUpTo(visited, m, home, begin, i) && ChainOk(chain, i, home, m)
    ensures VisitedUpTo(visited + chain, m, home, begin, i + 1)
  {
    forall n ensures n in visited + chain <==> n.tag in m && m[n.tag] == n.id && begin <= home(n.tag.hash) < i + 1 {
      if n in chain {
        var j :| 0 <= j < |chain| && chain[j] == n;
        assert Placed(chain[j], i, home, m);
      }
      if n.tag in m && m[n.tag] == n.id && home(n.tag.hash) == i {
        assert Has(chain, n.tag);
        assert Placed(chain[Find(chain, n.tag)], i, home, m);
        assert chain[Find(chain, n.tag)] == n;
      }
    }
    forall j, l | 0 <= j < l < |visited + chain| ensures (visited + chain)[j].tag != (visited + chain)[l].tag {
      if j < |visited| <= l {
        assert visited[j] in visited;
        assert Placed(chain[l - |visited|], i, home, m);
      }
    }
  }

  lemma InRange(visited: seq<Node>, m: map<Tag, nat>, bits: nat, state: nat, count: nat, end: nat)
    requires bits <= HASH_BITS
    requires VisitedUpTo(visited, m, ChainOf(bits), Begin(state, bits), end)
    requires end == if Begin(state, bits) + count >= Pow2(bits) then Pow2(bits) else Begin(state, bits) + count
    ensures forall n :: n in visited <==> n.tag in m && m[n.tag] == n.id && Covered(n.tag.hash, state, bits, count)
  {
    forall n ensures n in visited <==> n.tag in m && m[n.tag] == n.id && Covered(n.tag.hash, state, bits, count) {
      if n.tag in m {
        BucketInTable(n.tag.hash, bits);
      }
    }
  }
}
