/** The LRU list of a shard, divided by two boundary pointers into a bottom, a low and a
    high priority pool. */
module LruPools {
  import opened LruLinks
  import opened Options

  datatype Pool = Bottom | Low | High

  // ---------------------------------------------------------------- charges

  /** The total charge of the handles from place i up to j of the list. */
  ghost function Sum(order: seq<nat>, charge: seq<nat>, i: nat, j: nat): nat
    requires j <= |order|
    decreases j
  {
    if i >= j then 0 else Sum(order, charge, i, j - 1) + (if order[j - 1] < |charge| then charge[order[j - 1]] else 0)
  }

  lemma {:induction false} SumSplit(order: seq<nat>, charge: seq<nat>, i: nat, j: nat, k: nat)
    requires i <= j <= k <= |order|
    ensures Sum(order, charge, i, k) == Sum(order, charge, i, j) + Sum(order, charge, j, k)
    decreases k
  {
    if j < k {
      SumSplit(order, charge, i, j, k - 1);
    }
  }

  lemma SumFirst(order: seq<nat>, charge: seq<nat>, i: nat, k: nat)
    requires i < k <= |order| && order[i] < |charge|
    ensures Sum(order, charge, i, k) == charge[order[i]] + Sum(order, charge, i + 1, k)
  {
    SumSplit(order, charge, i, i + 1, k);
    assert Sum(order, charge, i, i) == 0;
  }

  /** Equal stretches of two lists have equal charges. */
  lemma {:induction false} SumShift(order: seq<nat>, order': seq<nat>, charge: seq<nat>, i: nat, j: nat, d: int)
    requires j <= |order| && 0 <= i + d && j + d <= |order'| && i <= j
    requires forall k :: i <= k < j ==> order'[k + d] == order[k]
    ensures Sum(order', charge, i + d, j + d) == Sum(order, charge, i, j)
    decreases j
  {
    if i < j {
      SumShift(order, order', charge, i, j - 1, d);
      assert order'[j - 1 + d] == order[j - 1];
    }
  }

  lemma InsertSumBelow(order: seq<nat>, charge: seq<nat>, p: nat, e: nat, i: nat, j: nat)
    requires i <= j <= p <= |order|
    ensures Sum(Insert(order, p, e), charge, i, j) == Sum(order, charge, i, j)
  {
    SumShift(order, Insert(order, p, e), charge, i, j, 0);
  }

  lemma InsertSumAbove(order: seq<nat>, charge: seq<nat>, p: nat, e: nat, i: nat, j: nat)
    requires p <= i <= j <= |order|
    ensures Sum(Insert(order, p, e), charge, i + 1, j + 1) == Sum(order, charge, i, j)
  {
    SumShift(order, Insert(order, p, e), charge, i, j, 1);
  }

  lemma InsertSumOver(order: seq<nat>, charge: seq<nat>, p: nat, e: nat, i: nat, j: nat)
    requires i <= p <= j <= |order| && e < |charge|
    ensures Sum(Insert(order, p, e), charge, i, j + 1) == Sum(order, charge, i, j) + charge[e]
  {
    var order' := Insert(order, p, e);
    InsertSumBelow(order, charge, p, e, i, p);
    InsertSumAbove(order, charge, p, e, p, j);
    SumSplit(order, charge, i, p, j);
    SumSplit(order', charge, i, p, j + 1);
    SumFirst(order', charge, p, j + 1);
  }

  lemma RemoveSum(order: seq<nat>, charge: seq<nat>, p: nat, i: nat, j: nat)
    requires p < |order| && i <= j <= |order| && order[p] < |charge|
    ensures j <= p ==> Sum(Remove(order, p), charge, i, j) == Sum(order, charge, i, j)
    ensures p < i ==> Sum(Remove(order, p), charge, i - 1, j - 1) == Sum(order, charge, i, j)
    ensures i <= p < j ==> Sum(Remove(order, p), charge, i, j - 1) + charge[order[p]] == Sum(order, charge, i, j)
  {
    var order' := Remove(order, p);
    if j <= p {
      SumShift(order, order', charge, i, j, 0);
    } else if p < i {
      SumShift(order, order', charge, i, j, -1);
    } else {
      SumShift(order, order', charge, i, p, 0);
      SumShift(order, order', charge, p + 1, j, -1);
      SumSplit(order, charge, i, p, j);
      SumFirst(order, charge, p, j);
      SumSplit(order', charge, i, p, j - 1);
    }
  }

  // ---------------------------------------------------------------- pools

  /** The pool of the i-th handle: bottom up to b, low up to l, then high. */
  function PoolAt(i: int, b: nat, l: nat): Pool { if i < b then Bottom else if i < l then Low else High }

  ghost predicate Pooled(pool: seq<Pool>, order: seq<nat>, b: nat, l: nat) {
    forall i :: 0 <= i < |order| ==> order[i] < |pool| && pool[order[i]] == PoolAt(i, b, l)
  }

  /** The charges of the low pool, the high pool, and the list. */
  datatype Usage = Usage(low: nat, high: nat, total: nat)

  ghost predicate UsageOk(u: Usage, charge: seq<nat>, order: seq<nat>, b: nat, l: nat)
    requires b <= l <= |order|
  {
    u == Usage(Sum(order, charge, b, l), Sum(order, charge, l, |order|), Sum(order, charge, 0, |order|))
  }

  /** The linked handles with their pools, the bottom boundary pointer and the usages. */
  datatype Lists = Lists(next: seq<int>, prev: seq<int>, pool: seq<Pool>, charge: seq<nat>, lruBottom: nat,
      usage: Usage)

  /** The handles on the list from the oldest to the newest, where the pools end, and the
      set of these handles. */
  datatype Shape = Shape(order: seq<nat>, b: nat, l: nat, listed: set<nat>) {
    predicate Ordered() { b <= l <= |order| }
  }

  ghost predicate ListDef(s: Lists, g: Shape)
    requires g.Ordered()
  {
    && Linked(s.next, s.prev, g.order) && |s.next| == |s.pool| == |s.charge| && Pooled(s.pool, g.order, g.b, g.l)
    && UsageOk(s.usage, s.charge, g.order, g.b, g.l) && s.lruBottom == At(g.order, g.b - 1)
    && g.listed == Members(g.order)
  }

  // ListOk is ListDef, chosen so that its definition comes into play only where Open is
  // mentioned. This keeps proofs about the shard from unfolding it.

  ghost predicate Open(t: int) { true }

  ghost predicate IsListOk(s: Lists, g: Shape, r: bool)
    requires g.Ordered()
  {
    forall t {:trigger Open(t)} :: Open(t) ==> (r <==> ListDef(s, g))
  }

  ghost predicate ListOk(s: Lists, g: Shape)
    requires g.Ordered()
  {
    assert IsListOk(s, g, ListDef(s, g));
    var r: bool :| IsListOk(s, g, r);
    r
  }

  lemma ListOkIs(s: Lists, g: Shape)
    requires g.Ordered()
    ensures ListOk(s, g) <==> ListDef(s, g)
  {
    assert Open(0);
  }

  lemma OrderOk(s: Lists, g: Shape)
    requires g.Ordered() && ListOk(s, g)
    ensures NoDup(g.order) && (forall i :: 0 <= i < |g.order| ==> 1 <= g.order[i] < |s.next|)
            && g.listed == Members(g.order)
    ensures |s.next| == |s.charge| && s.usage.total == Sum(g.order, s.charge, 0, |g.order|)
  {
    assert Open(0);
  }

  /** A handle on the list has a place. */
  lemma PlaceOf(s: Lists, g: Shape, e: nat) returns (p: nat)
    requires g.Ordered() && ListOk(s, g) && e in g.listed
    ensures p < |g.order| && g.order[p] == e && 1 <= e < |s.next|
  {
    OrderOk(s, g);
    p :| 0 <= p < |g.order| && g.order[p] == e;
  }

  /** A number that is not a handle's is not on the list. */
  lemma NewNumber(s: Lists, g: Shape)
    requires g.Ordered() && ListOk(s, g)
    ensures |s.next| !in g.listed && |s.charge| == |s.next|
  {
    OrderOk(s, g);
  }

  /** The oldest handle. */
  lemma Oldest(s: Lists, g: Shape)
    requires g.Ordered() && ListOk(s, g) && g.order != []
    ensures 1 <= g.order[0] < |s.next| && g.order[0] in g.listed && Remove(g.order, 0) == g.order[1..]
    ensures s.next[0] == g.order[0]
  {
    OrderOk(s, g);
    NextOf(s, g, 0);
    assert Remove(g.order, 0) == g.order[1..];
  }

  /** A neighbour by links is a neighbour in the order. */
  lemma NextOf(s: Lists, g: Shape, i: nat)
    requires g.Ordered() && ListOk(s, g) && i <= |g.order|
    ensures |s.next| == |s.prev| == |s.pool| == |s.charge| && At(g.order, i) < |s.next| && At(g.order, i - 1) < |s.next|
    ensures s.next[At(g.order, i - 1)] == At(g.order, i) && s.prev[At(g.order, i)] == At(g.order, i - 1)
  {
    assert Open(0) && LinkOk(s.next, s.prev, g.order, i);
  }

  lemma PooledMove(pool: seq<Pool>, order: seq<nat>, b: nat, l: nat, i: nat, b': nat, l': nat)
    requires Pooled(pool, order, b, l) && NoDup(order) && b <= l <= |order| && i < |order|
    requires (i == l && b' == b && l' == l + 1) || (i == b < l && b' == b + 1 && l' == l)
    ensures Pooled(pool[order[i] := PoolAt(i, b', l')], order, b', l')
  {
  }

  // The oldest handle of a pool moves to the pool below.

  function ToLow(s: Lists, x: nat): Lists
    requires x < |s.pool| == |s.charge| && s.charge[x] <= s.usage.high
  {
    s.(pool := s.pool[x := Low], usage := Usage(s.usage.low + s.charge[x], s.usage.high - s.charge[x], s.usage.total))
  }

  function ToBottom(s: Lists, x: nat): Lists
    requires x < |s.pool| == |s.charge| && s.charge[x] <= s.usage.low
  {
    s.(pool := s.pool[x := Bottom], lruBottom := x,
      usage := Usage(s.usage.low - s.charge[x], s.usage.high, s.usage.total))
  }

  lemma HighStep(s: Lists, g: Shape)
    requires g.Ordered() && ListOk(s, g) && s.usage.high > 0
    ensures g.l < |g.order| && 1 <= g.order[g.l] < |s.pool| == |s.charge| == |s.next|
            && s.charge[g.order[g.l]] <= s.usage.high
    ensures At(g.order, g.l - 1) < |s.next| && s.next[At(g.order, g.l - 1)] == g.order[g.l]
    ensures Sum(g.order, s.charge, g.l, |g.order|) == s.usage.high
    ensures ListOk(ToLow(s, g.order[g.l]), g.(l := g.l + 1))
  {
    assert Open(0);
    assert Sum(g.order, s.charge, |g.order|, |g.order|) == 0;
    assert LinkOk(s.next, s.prev, g.order, g.l);
    SumFirst(g.order, s.charge, g.l, |g.order|);
    PooledMove(s.pool, g.order, g.b, g.l, g.l, g.b, g.l + 1);
  }

  lemma LowStep(s: Lists, g: Shape)
    requires g.Ordered() && ListOk(s, g) && s.usage.low > 0
    ensures g.b < g.l && 1 <= g.order[g.b] < |s.pool| == |s.charge| == |s.next| && s.charge[g.order[g.b]] <= s.usage.low
    ensures s.lruBottom < |s.next| && s.next[s.lruBottom] == g.order[g.b]
    ensures Sum(g.order, s.charge, g.b, g.l) == s.usage.low
    ensures ListOk(ToBottom(s, g.order[g.b]), g.(b := g.b + 1))
  {
    assert Open(0);
    assert Sum(g.order, s.charge, g.l, g.l) == 0;
    assert LinkOk(s.next, s.prev, g.order, g.b);
    SumFirst(g.order, s.charge, g.b, g.l);
    PooledMove(s.pool, g.order, g.b, g.l, g.b, g.b + 1, g.l);
  }

  /** The charge of the handles in a list that are marked as high. */
  ghost function HighOf(order: seq<nat>, pool: seq<Pool>, charge: seq<nat>): nat {
    if order == [] then 0
    else
      var x := order[|order| - 1];
      HighOf(order[..|order| - 1], pool, charge) + if x < |pool| == |charge| && pool[x].High? then charge[x] else 0
  }

  lemma {:induction false} HighOfPrefix(s: Lists, g: Shape, i: nat)
    requires g.Ordered() && |s.pool| == |s.charge| && Pooled(s.pool, g.order, g.b, g.l) && i <= |g.order|
    ensures HighOf(g.order[..i], s.pool, s.charge) == Sum(g.order, s.charge, g.l, i)
  {
    if i > 0 {
      HighOfPrefix(s, g, i - 1);
      assert g.order[..i][..i - 1] == g.order[..i - 1];
    }
  }

  lemma HighOfList(s: Lists, g: Shape)
    requires g.Ordered() && ListOk(s, g)
    ensures s.usage.high == HighOf(g.order, s.pool, s.charge)
  {
    assert Open(0);
    HighOfPrefix(s, g, |g.order|);
    assert g.order[..|g.order|] == g.order;
  }

  // ---------------------------------------------------------------- insertion

  /** Where a handle goes, at the newest end of a pool. */
  function Place(to: Pool, g: Shape): nat { match to case High => |g.order| case Low => g.l case Bottom => g.b }

  function Grown(g: Shape, to: Pool, e: nat): Shape
    requires g.Ordered()
  {
    var b, l := if to.Bottom? then g.b + 1 else g.b, if to.High? then g.l else g.l + 1;
    Shape(Insert(g.order, Place(to, g), e), b, l, g.listed + {e})
  }

  predicate Linkable(s: Lists, a: nat, e: nat) {
    a < |s.next| == |s.prev| == |s.pool| == |s.charge| && e < |s.next| && 0 <= s.next[a] < |s.next|
  }

  /** Links a handle in behind a, into a pool. */
  function LinkIn(s: Lists, a: nat, e: nat, to: Pool): Lists
    requires Linkable(s, a, e)
  {
    var u, c := s.usage, s.charge[e];
    Lists(LinkedNext(s.next, a, e), LinkedPrev(s.next, s.prev, a, e), s.pool[e := to], s.charge,
          if to.Bottom? then e else s.lruBottom,
          Usage(if to.Low? then u.low + c else u.low, if to.High? then u.high + c else u.high, u.total + c))
  }

  lemma PooledInsert(pool: seq<Pool>, g: Shape, to: Pool, e: nat)
    requires g.Ordered() && Pooled(pool, g.order, g.b, g.l) && e < |pool| && e !in g.order
    ensures Pooled(pool[e := to], Grown(g, to, e).order, Grown(g, to, e).b, Grown(g, to, e).l)
  {
    var g', p := Grown(g, to, e), Place(to, g);
    forall i | 0 <= i < |g'.order| ensures g'.order[i] < |pool| && pool[e := to][g'.order[i]] == PoolAt(i, g'.b, g'.l) {
      InsertAt(g.order, p, e, i);
      assert i != p ==> g'.order[i] in g.order;
    }
  }

  lemma UsageInsert(s: Lists, g: Shape, a: nat, to: Pool, e: nat)
    requires g.Ordered() && UsageOk(s.usage, s.charge, g.order, g.b, g.l)
    requires Linkable(s, a, e)
    ensures UsageOk(LinkIn(s, a, e, to).usage, s.charge, Grown(g, to, e).order, Grown(g, to, e).b, Grown(g, to, e).l)
  {
    var n := |g.order|;
    InsertSumOver(g.order, s.charge, Place(to, g), e, 0, n);
    match to {
      case High =>
        InsertSumBelow(g.order, s.charge, n, e, g.b, g.l);
        InsertSumOver(g.order, s.charge, n, e, g.l, n);
      case Low =>
        InsertSumOver(g.order, s.charge, g.l, e, g.b, g.l);
        InsertSumAbove(g.order, s.charge, g.l, e, g.l, n);
      case Bottom =>
        InsertSumAbove(g.order, s.charge, g.b, e, g.b, g.l);
        InsertSumAbove(g.order, s.charge, g.b, e, g.l, n);
    }
  }

  lemma InsertLinks(s: Lists, g: Shape, to: Pool, e: nat)
    requires g.Ordered() && Linked(s.next, s.prev, g.order) && |s.next| == |s.pool| == |s.charge|
    requires 1 <= e < |s.next| && e !in g.order
    ensures var a := At(g.order, Place(to, g) - 1);
            Linkable(s, a, e) && Linked(LinkIn(s, a, e, to).next, LinkIn(s, a, e, to).prev, Grown(g, to, e).order)
  {
    LinkInserted(s.next, s.prev, g.order, Place(to, g), e);
  }

  lemma InsertIsOk(s: Lists, g: Shape, to: Pool, e: nat)
    requires g.Ordered() && ListDef(s, g) && 1 <= e < |s.next| && e !in g.listed
    ensures var a := At(g.order, Place(to, g) - 1); Linkable(s, a, e) && ListDef(LinkIn(s, a, e, to), Grown(g, to, e))
  {
    InsertLinks(s, g, to, e);
    PooledInsert(s.pool, g, to, e);
    UsageInsert(s, g, At(g.order, Place(to, g) - 1), to, e);
    InsertBottomBound(g, to, e);
    MembersInsert(g.order, Place(to, g), e);
  }

  lemma InsertOk(s: Lists, g: Shape, to: Pool, e: nat)
    requires g.Ordered() && ListOk(s, g) && 1 <= e < |s.next| && e !in g.listed
    ensures var a := At(g.order, Place(to, g) - 1); Linkable(s, a, e) && ListOk(LinkIn(s, a, e, to), Grown(g, to, e))
  {
    ListOkIs(s, g);
    InsertIsOk(s, g, to, e);
    ListOkIs(LinkIn(s, At(g.order, Place(to, g) - 1), e, to), Grown(g, to, e));
  }

  lemma InsertBottomBound(g: Shape, to: Pool, e: nat)
    requires g.Ordered()
    ensures At(Grown(g, to, e).order, Grown(g, to, e).b - 1) == if to.Bottom? then e else At(g.order, g.b - 1)
  {
    InsertAt(g.order, Place(to, g), e, g.b - 1);
    InsertAt(g.order, Place(to, g), e, g.b);
  }

  /** The boundary pointers are equal only if the low pool is empty. */
  lemma BoundsMeet(s: Lists, g: Shape)
    requires g.Ordered() && ListOk(s, g)
    ensures s.lruBottom == At(g.order, g.b - 1) && (s.lruBottom == At(g.order, g.l - 1) <==> g.b == g.l)
  {
    assert Open(0);
    if g.b < g.l {
      AtDistinct(g.order, g.b - 1, g.l - 1);
    }
  }

  /** The low boundary after an insertion. */
  lemma InsertBound(g: Shape, to: Pool, e: nat)
    requires g.Ordered()
    ensures At(Grown(g, to, e).order, Grown(g, to, e).l - 1) ==
              if to.Low? || (to.Bottom? && g.b == g.l) then e else At(g.order, g.l - 1)
  {
    InsertAt(g.order, Place(to, g), e, if to.High? then g.l - 1 else g.l);
  }

  // ---------------------------------------------------------------- removal

  /** Where a boundary is after the removal of the handle at place p. */
  function Before(p: nat, b: nat): nat { if p < b then b - 1 else b }

  function Shrunk(g: Shape, p: nat): Shape
    requires g.Ordered() && p < |g.order|
  {
    Shape(Remove(g.order, p), Before(p, g.b), Before(p, g.l), g.listed - {g.order[p]})
  }

  predicate Removable(s: Lists, e: nat) {
    && e < |s.next| == |s.prev| == |s.pool| == |s.charge| && 0 <= s.next[e] < |s.next| && 0 <= s.prev[e] < |s.next|
    && s.charge[e] <= s.usage.total && (s.pool[e].Low? ==> s.charge[e] <= s.usage.low)
       && (s.pool[e].High? ==> s.charge[e] <= s.usage.high)
  }

  /** Unlinks a handle. */
  function LinkOut(s: Lists, e: nat): Lists
    requires Removable(s, e)
  {
    Lists(UnlinkedNext(s.next, s.prev, e), UnlinkedPrev(s.next, s.prev, e), s.pool, s.charge,
          if s.lruBottom == e then s.prev[e] else s.lruBottom, UsedLess(s.usage, s.pool[e], s.charge[e]))
  }

  /** The usages without a handle of charge c in the given pool. */
  function UsedLess(u: Usage, pool: Pool, c: nat): Usage
    requires c <= u.total && (pool.Low? ==> c <= u.low) && (pool.High? ==> c <= u.high)
  {
    Usage(if pool.Low? then u.low - c else u.low, if pool.High? then u.high - c else u.high, u.total - c)
  }

  lemma PooledRemove(pool: seq<Pool>, g: Shape, p: nat)
    requires g.Ordered() && Pooled(pool, g.order, g.b, g.l) && p < |g.order|
    ensures Pooled(pool, Shrunk(g, p).order, Shrunk(g, p).b, Shrunk(g, p).l)
  {
    var g' := Shrunk(g, p);
    forall i | 0 <= i < |g'.order| ensures g'.order[i] < |pool| && pool[g'.order[i]] == PoolAt(i, g'.b, g'.l) {
      RemoveAt(g.order, p, i);
    }
  }

  lemma UsageRemove(s: Lists, g: Shape, p: nat)
    requires g.Ordered() && UsageOk(s.usage, s.charge, g.order, g.b, g.l) && p < |g.order|
    requires g.order[p] < |s.pool| == |s.charge| && s.pool[g.order[p]] == PoolAt(p, g.b, g.l)
    ensures var c, x := s.charge[g.order[p]], s.pool[g.order[p]];
            && c <= s.usage.total && (x.Low? ==> c <= s.usage.low) && (x.High? ==> c <= s.usage.high)
            && UsageOk(UsedLess(s.usage, x, c), s.charge, Shrunk(g, p).order, Shrunk(g, p).b, Shrunk(g, p).l)
  {
    RemoveSum(g.order, s.charge, p, g.b, g.l);
    RemoveSum(g.order, s.charge, p, g.l, |g.order|);
    RemoveSum(g.order, s.charge, p, 0, |g.order|);
  }

  lemma RemoveBound(order: seq<nat>, b: nat, p: nat)
    requires b <= |order| && p < |order| && NoDup(order) && (forall i :: 0 <= i < |order| ==> order[i] >= 1)
    ensures At(Remove(order, p), Before(p, b) - 1) == if At(order, b - 1) == order[p] then At(order, p - 1)
            else At(order, b - 1)
  {
    RemoveAt(order, p, Before(p, b) - 1);
    if p < b - 1 {
      AtDistinct(order, p, b - 1);
    } else if b - 1 < p {
      AtDistinct(order, b - 1, p);
    }
  }

  /** The low boundary after a removal. */
  lemma RemoveLowBound(s: Lists, g: Shape, p: nat)
    requires g.Ordered() && ListOk(s, g) && p < |g.order|
    ensures g.order[p] < |s.prev|
    ensures At(Shrunk(g, p).order, Shrunk(g, p).l - 1) ==
              if At(g.order, g.l - 1) == g.order[p] then s.prev[g.order[p]] else At(g.order, g.l - 1)
  {
    OrderOk(s, g);
    NextOf(s, g, p);
    RemoveBound(g.order, g.l, p);
  }

  lemma RemoveIsOk(s: Lists, g: Shape, p: nat)
    requires g.Ordered() && ListDef(s, g) && p < |g.order|
    ensures Removable(s, g.order[p])
    ensures LinkOut(s, g.order[p]).lruBottom == At(Shrunk(g, p).order, Shrunk(g, p).b - 1)
  {
    LinkRemoved(s.next, s.prev, g.order, p);
    UsageRemove(s, g, p);
    RemoveBound(g.order, g.b, p);
  }

  lemma RemoveOk(s: Lists, g: Shape, p: nat)
    requires g.Ordered() && ListOk(s, g) && p < |g.order|
    ensures Removable(s, g.order[p]) && ListOk(LinkOut(s, g.order[p]), Shrunk(g, p))
  {
    assert Open(0);
    RemoveIsOk(s, g, p);
    LinkRemoved(s.next, s.prev, g.order, p);
    PooledRemove(s.pool, g, p);
    UsageRemove(s, g, p);
    MembersRemove(g.order, p);
  }

  // ---------------------------------------------------------------- new handles

  function WithHandle(s: Lists, c: nat): Lists {
    s.(next := s.next + [NULL], prev := s.prev + [NULL], pool := s.pool + [Bottom], charge := s.charge + [c])
  }

  lemma {:induction false} SumExtended(order: seq<nat>, charge: seq<nat>, c: nat, i: nat, j: nat)
    requires j <= |order| && forall k :: 0 <= k < |order| ==> order[k] < |charge|
    ensures Sum(order, charge + [c], i, j) == Sum(order, charge, i, j)
    decreases j
  {
    if i < j {
      SumExtended(order, charge, c, i, j - 1);
    }
  }

  lemma LinkedExtended(next: seq<int>, prev: seq<int>, order: seq<nat>)
    requires Linked(next, prev, order)
    ensures Linked(next + [NULL], prev + [NULL], order)
  {
    forall i | 0 <= i <= |order| ensures LinkOk(next + [NULL], prev + [NULL], order, i) {
      assert LinkOk(next, prev, order, i);
    }
  }

  lemma ExtendOk(s: Lists, g: Shape, c: nat)
    requires g.Ordered() && ListOk(s, g)
    ensures ListOk(WithHandle(s, c), g)
  {
    assert Open(0);
    LinkedExtended(s.next, s.prev, g.order);
    SumExtended(g.order, s.charge, c, g.b, g.l);
    SumExtended(g.order, s.charge, c, g.l, |g.order|);
    SumExtended(g.order, s.charge, c, 0, |g.order|);
  }

  // ---------------------------------------------------------------- when pools do not fit

  /** There is a handle behind x, and the usage covers it. */
  predicate CanMove(s: Lists, x: nat, used: nat) {
    x < |s.next| && 1 <= s.next[x] < |s.pool| == |s.charge| && s.charge[s.next[x]] <= used
  }

  /** The first loop of MaintainPoolSize from the low boundary pointer x, of at most n steps:
      what it leaves of the list and the pointer. It fails where the source asserts that
      the pointer is not at the head and that the high pool's usage covers the handle. */
  function HighLoop(s: Lists, x: nat, capacity: real, n: nat): Option<(Lists, nat)>
    decreases n
  {
    if Fits(s.usage.high, capacity) then Some((s, x))
    else if n == 0 || !CanMove(s, x, s.usage.high) then None
    else HighLoop(ToLow(s, s.next[x]), s.next[x], capacity, n - 1)
  }

  /** The second loop, from the bottom boundary pointer. */
  function LowLoop(s: Lists, capacity: real, n: nat): Option<Lists>
    decreases n
  {
    var x := s.lruBottom;
    if Fits(s.usage.low, capacity) then Some(s)
    else if n == 0 || !CanMove(s, x, s.usage.low) then None
    else LowLoop(ToBottom(s, s.next[x]), capacity, n - 1)
  }

  /** Both loops. */
  function Maintained(s: Lists, x: nat, high: real, low: real, n: nat): Option<(Lists, nat)> {
    match HighLoop(s, x, high, n)
    case None => None
    case Some((s', x')) => (match LowLoop(s', low, n) case None => None case Some(s'') => Some((s'', x')))
  }

  /** LRU_Insert of a low priority handle: it is linked in behind the low boundary pointer,
      then the pools overflow from that pointer on, and only then the pointer moves. */
  function LowInserted(s: Lists, lruLow: nat, e: nat, high: real, low: real, n: nat): Option<(Lists, nat)> {
    if !Linkable(s, lruLow, e) then None
    else match Maintained(LinkIn(s, lruLow, e, Low), lruLow, high, low, n)
      case None => None
      case Some(r) => Some((r.0, e))
  }

  /** A list and a low boundary pointer that agree with some order of handles and pools. */
  ghost predicate Intact(r: Option<(Lists, nat)>) {
    r.Some? && exists g: Shape :: IntactAs(r.value.0, r.value.1, g)
  }

  ghost predicate IntactAs(s: Lists, lruLow: nat, g: Shape) {
    g.Ordered() && ListOk(s, g) && lruLow == At(g.order, g.l - 1)
  }

  lemma {:induction false} HighLoopKeeps(s: Lists, x: nat, capacity: real, n: nat)
    ensures var r := HighLoop(s, x, capacity, n);
            r.Some? ==> && r.value.0.next == s.next && r.value.0.prev == s.prev && r.value.0.charge == s.charge
                        && Fits(r.value.0.usage.high, capacity)
    decreases n
  {
    if HighLoop(s, x, capacity, n).Some? && !Fits(s.usage.high, capacity) {
      HighLoopKeeps(ToLow(s, s.next[x]), s.next[x], capacity, n - 1);
    }
  }

  lemma {:induction false} LowLoopKeeps(s: Lists, capacity: real, n: nat)
    ensures var r := LowLoop(s, capacity, n);
            r.Some? ==> && r.value.next == s.next && r.value.prev == s.prev && r.value.charge == s.charge
                        && r.value.usage.high == s.usage.high
    decreases n
  {
    if LowLoop(s, capacity, n).Some? && !Fits(s.usage.low, capacity) {
      LowLoopKeeps(ToBottom(s, s.next[s.lruBottom]), capacity, n - 1);
    }
  }

  /** From the right boundary the second loop ends within the number of handles. */
  lemma {:induction false} LowLoopEnds(s: Lists, g: Shape, capacity: real, n: nat) returns (b: nat)
    requires g.Ordered() && ListOk(s, g) && capacity >= 0.0 && n >= |g.order| - g.b
    ensures b <= g.l && LowLoop(s, capacity, n).Some? && ListOk(LowLoop(s, capacity, n).value, g.(b := b))
    decreases n
  {
    if Fits(s.usage.low, capacity) {
      b := g.b;
    } else {
      LowStep(s, g);
      b := LowLoopEnds(ToBottom(s, g.order[g.b]), g.(b := g.b + 1), capacity, n - 1);
    }
  }

  /** If the high pool fits, a low priority insertion leaves an intact list. */
  lemma LowInsertWorks(s: Lists, g: Shape, e: nat, high: real, low: real, n: nat)
    requires g.Ordered() && ListOk(s, g) && 1 <= e < |s.next| && e !in g.listed && high >= 0.0 && low >= 0.0
             && n > |g.order|
    requires Fits(s.usage.high, high)
    ensures Intact(LowInserted(s, At(g.order, g.l - 1), e, high, low, n))
  {
    var a, g' := At(g.order, g.l - 1), Grown(g, Low, e);
    InsertOk(s, g, Low, e);
    InsertBound(g, Low, e);
    var s' := LinkIn(s, a, e, Low);
    assert HighLoop(s', a, high, n) == Some((s', a));
    var b := LowLoopEnds(s', g', low, n);
    assert LowInserted(s, a, e, high, low, n) == Some((LowLoop(s', low, n).value, e));
    assert IntactAs(LowLoop(s', low, n).value, e, g'.(b := b));
  }

  lemma SameOrder(s: Lists, g: Shape, s': Lists, g': Shape)
    requires g.Ordered() && ListOk(s, g) && g'.Ordered() && ListOk(s', g') && s'.next == s.next && s'.prev == s.prev
    ensures g'.order == g.order
  {
    assert Open(0);
    LinkedUnique(s.next, s.prev, g.order, g'.order);
  }

  lemma HighUsage(s: Lists, g: Shape)
    requires g.Ordered() && ListOk(s, g)
    ensures s.usage.high == Sum(g.order, s.charge, g.l, |g.order|)
  {
    assert Open(0);
  }

  /** An intact result has the handle at the newest end of the low pool, and so the high
      pool's usage that was there before. */
  lemma IntactUsage(s: Lists, g: Shape, e: nat, r: Lists, g': Shape)
    requires g.Ordered() && ListOk(s, g) && 1 <= e < |s.next| && e !in g.listed
    requires var a := At(g.order, g.l - 1);
             && Linkable(s, a, e)
             && r.next == LinkIn(s, a, e, Low).next && r.prev == LinkIn(s, a, e, Low).prev && r.charge == s.charge
    requires IntactAs(r, e, g')
    ensures r.usage.high == s.usage.high
  {
    InsertOk(s, g, Low, e);
    SameOrder(LinkIn(s, At(g.order, g.l - 1), e, Low), Grown(g, Low, e), r, g');
    OrderOk(r, g');
    InsertAt(g.order, g.l, e, g.l);
    assert g'.l == g.l + 1;
    HighUsage(s, g);
    HighUsage(r, g');
    InsertSumAbove(g.order, s.charge, g.l, e, g.l, |g.order|);
  }

  /** Putting a low priority handle on any list leaves an intact list, with its pools, usages
      and both boundary pointers right, if and only if the high pool fits its capacity when
      the insertion starts. */
  lemma LowInsertExact(s: Lists, g: Shape, e: nat, high: real, low: real, n: nat)
    requires g.Ordered() && ListOk(s, g) && 1 <= e < |s.next| && e !in g.listed && high >= 0.0 && low >= 0.0
             && n > |g.order|
    ensures Intact(LowInserted(s, At(g.order, g.l - 1), e, high, low, n)) <==> Fits(s.usage.high, high)
  {
    if Fits(s.usage.high, high) {
      LowInsertWorks(s, g, e, high, low, n);
    } else {
      LowInsertBreaks(s, g, e, high, low, n);
    }
  }

  /** If the high pool does not fit, it never does, however many steps the loops may take. */
  lemma LowInsertBreaks(s: Lists, g: Shape, e: nat, high: real, low: real, n: nat)
    requires g.Ordered() && ListOk(s, g) && 1 <= e < |s.next| && e !in g.listed
    requires !Fits(s.usage.high, high)
    ensures !Intact(LowInserted(s, At(g.order, g.l - 1), e, high, low, n))
  {
    var a := At(g.order, g.l - 1);
    var r := LowInserted(s, a, e, high, low, n);
    if Intact(r) {
      var g': Shape :| IntactAs(r.value.0, r.value.1, g');
      MaintainedKeeps(LinkIn(s, a, e, Low), a, high, low, n);
      IntactUsage(s, g, e, r.value.0, g');
    }
  }

  lemma MaintainedKeeps(s: Lists, x: nat, high: real, low: real, n: nat)
    ensures var r := Maintained(s, x, high, low, n);
            r.Some? ==> && r.value.0.next == s.next && r.value.0.prev == s.prev && r.value.0.charge == s.charge
                        && Fits(r.value.0.usage.high, high)
  {
    HighLoopKeeps(s, x, high, n);
    if HighLoop(s, x, high, n).Some? {
      LowLoopKeeps(HighLoop(s, x, high, n).value.0, low, n);
    }
  }

  // ---------------------------------------------------------------- the list

  predicate Fits(used: nat, capacity: real) { used as real <= capacity }

  /** The pool that a handle is put in, before anything overflows. */
  function Goal(highRatio: real, lowRatio: real, highPri: bool, lowPri: bool, hit: bool): Pool {
    if highRatio > 0.0 && (highPri || hit) then High
    else if lowRatio > 0.0 && (highPri || lowPri || hit) then Low
    else Bottom
  }

  class PoolList {
    var list: Lists
    var lruLow: nat
    var capacity: nat
    var highRatio: real
    var lowRatio: real
    var highCapacity: real
    var lowCapacity: real

    ghost var shape: Shape

    ghost predicate Valid()
      reads this
    {
      && |list.next| > 0 && IntactAs(list, lruLow, shape)
      && highRatio >= 0.0 && lowRatio >= 0.0 && highCapacity >= 0.0 && lowCapacity >= 0.0
    }

    predicate PoolsFit()
      reads this
    {
      Fits(list.usage.high, highCapacity) && Fits(list.usage.low, lowCapacity)
    }

    /** The pool capacities follow from the capacity and the ratios. */
    ghost predicate Scaled()
      reads this
    {
      highCapacity == capacity as real * highRatio && lowCapacity == capacity as real * lowRatio
    }

    constructor (capacity: nat, highRatio: real, lowRatio: real)
      requires highRatio >= 0.0 && lowRatio >= 0.0
      ensures Valid() && Scaled() && PoolsFit() && shape == Shape([], 0, 0, {}) && |list.next| == 1
              && list.usage == Usage(0, 0, 0)
      ensures this.capacity == capacity && this.highRatio == highRatio && this.lowRatio == lowRatio
    {
      list, lruLow := Lists([0], [0], [Bottom], [0], 0, Usage(0, 0, 0)), 0;
      this.capacity, this.highRatio, this.lowRatio := capacity, highRatio, lowRatio;
      highCapacity, lowCapacity := capacity as real * highRatio, capacity as real * lowRatio;
      shape := Shape([], 0, 0, {});
      new;
      assert Open(0);
      assert forall i {:trigger LinkOk([0], [0], [], i)} :: 0 <= i <= 0 ==> LinkOk([0], [0], [], i);
    }

    /** Overflows the oldest entries of the high pool into the low pool, and those of the
        low pool into the bottom pool, as few as it takes. The low boundary pointer has to
        be right only if the high pool overflows. */
    method MaintainPoolSize()
      requires shape.Ordered() && ListOk(list, shape) && highCapacity >= 0.0 && lowCapacity >= 0.0
      requires !Fits(list.usage.high, highCapacity) ==> lruLow == At(shape.order, shape.l - 1)
      modifies this`list, this`lruLow, this`shape
      ensures shape.Ordered() && ListOk(list, shape) && PoolsFit() && shape.order == old(shape.order)
              && shape.listed == old(shape.listed)
      ensures list.charge == old(list.charge) && list.next == old(list.next)
      ensures lruLow == if old(Fits(list.usage.high, highCapacity)) then old(lruLow) else At(shape.order, shape.l - 1)
      ensures if old(Fits(list.usage.high, highCapacity)) then shape.l == old(shape.l)
              else shape.l > old(shape.l)
                   && Sum(shape.order, list.charge, shape.l - 1, |shape.order|) as real > highCapacity
      ensures shape.b >= old(shape.b)
      ensures shape.b > old(shape.b) ==> Sum(shape.order, list.charge, shape.b - 1, shape.l) as real > lowCapacity
      ensures old(PoolsFit()) ==> shape == old(shape)
      ensures Maintained(old(list), old(lruLow), highCapacity, lowCapacity, |shape.order|) == Some((list, lruLow))
    {
      OverflowHigh();
      OverflowLow();
    }

    method OverflowHigh()
      requires shape.Ordered() && ListOk(list, shape) && highCapacity >= 0.0
      requires !Fits(list.usage.high, highCapacity) ==> lruLow == At(shape.order, shape.l - 1)
      modifies this`list, this`lruLow, this`shape
      ensures shape.Ordered() && ListOk(list, shape) && Fits(list.usage.high, highCapacity)
      ensures shape.order == old(shape.order) && shape.listed == old(shape.listed) && shape.b == old(shape.b)
      ensures list.charge == old(list.charge) && list.next == old(list.next)
      ensures lruLow == if old(Fits(list.usage.high, highCapacity)) then old(lruLow) else At(shape.order, shape.l - 1)
      ensures if old(Fits(list.usage.high, highCapacity)) then shape.l == old(shape.l)
              else shape.l > old(shape.l)
                   && Sum(shape.order, list.charge, shape.l - 1, |shape.order|) as real > highCapacity
      ensures old(Fits(list.usage.high, highCapacity)) ==> list == old(list) && shape == old(shape)
      ensures HighLoop(old(list), old(lruLow), highCapacity, |shape.order|) == Some((list, lruLow))
    {
      if Fits(list.usage.high, highCapacity) {
        return;
      }
      ghost var n := |shape.order|;
      while list.usage.high as real > highCapacity
        invariant shape.Ordered() && ListOk(list, shape) && lruLow == At(shape.order, shape.l - 1)
        invariant shape.order == old(shape.order) && shape.listed == old(shape.listed) && shape.b == old(shape.b)
        invariant list.charge == old(list.charge) && list.next == old(list.next)
        invariant shape.l == old(shape.l) ==> !Fits(list.usage.high, highCapacity)
        invariant shape.l >= old(shape.l)
        invariant shape.l > old(shape.l) ==>
                  Sum(shape.order, list.charge, shape.l - 1, |shape.order|) as real > highCapacity
        invariant n >= |shape.order| - shape.l
        invariant HighLoop(list, lruLow, highCapacity, n) ==
                    HighLoop(old(list), old(lruLow), highCapacity, |shape.order|)
        decreases |shape.order| - shape.l
      {
        HighStep(list, shape);
        lruLow := list.next[lruLow];
        list, shape, n := ToLow(list, lruLow), shape.(l := shape.l + 1), n - 1;
      }
    }

    method OverflowLow()
      requires shape.Ordered() && ListOk(list, shape) && lowCapacity >= 0.0
      modifies this`list, this`shape
      ensures shape.Ordered() && ListOk(list, shape) && Fits(list.usage.low, lowCapacity)
              && list.usage.high == old(list.usage.high)
      ensures shape.order == old(shape.order) && shape.listed == old(shape.listed) && shape.l == old(shape.l)
      ensures list.charge == old(list.charge) && list.next == old(list.next)
      ensures shape.b >= old(shape.b)
      ensures shape.b > old(shape.b) ==> Sum(shape.order, list.charge, shape.b - 1, shape.l) as real > lowCapacity
      ensures old(Fits(list.usage.low, lowCapacity)) ==> shape == old(shape)
      ensures LowLoop(old(list), lowCapacity, |shape.order|) == Some(list)
    {
      ghost var n := |shape.order|;
      while list.usage.low as real > lowCapacity
        invariant shape.Ordered() && ListOk(list, shape) && list.usage.high == old(list.usage.high)
        invariant shape.order == old(shape.order) && shape.listed == old(shape.listed) && shape.l == old(shape.l)
        invariant list.charge == old(list.charge) && list.next == old(list.next)
        invariant shape.b >= old(shape.b)
        invariant shape.b > old(shape.b) ==> Sum(shape.order, list.charge, shape.b - 1, shape.l) as real > lowCapacity
        invariant if shape.b == old(shape.b) then list == old(list) && shape == old(shape)
                  else !old(Fits(list.usage.low, lowCapacity))
        invariant n >= |shape.order| - shape.b
                  && LowLoop(list, lowCapacity, n) == LowLoop(old(list), lowCapacity, |shape.order|)
        decreases |shape.order| - shape.b
      {
        LowStep(list, shape);
        list, shape, n := ToBottom(list, list.next[list.lruBottom]), shape.(b := shape.b + 1), n - 1;
      }
    }

    /** Where a handle goes, before anything overflows. */
    function GoalOf(highPri: bool, lowPri: bool, hit: bool): Pool
      reads this
    {
      Goal(highRatio, lowRatio, highPri, lowPri, hit)
    }

    /** Puts a handle at the newest end of its pool and lets the pools overflow. The list
        stays intact unless the handle goes to the low pool and the high pool does not fit;
        then the source's assertions fail (not ok), or the list is left broken. */
    method LRU_Insert(e: nat, highPri: bool, lowPri: bool, hit: bool) returns (ok: bool)
      requires Valid() && 1 <= e < |list.next| && e !in shape.listed
      modifies this`list, this`lruLow, this`shape
      ensures list.charge == old(list.charge) && |list.next| == old(|list.next|) && e < |list.charge|
      ensures if GoalOf(highPri, lowPri, hit).Low? && !old(Fits(list.usage.high, highCapacity))
              then ok ==> !Intact(Some((list, lruLow)))
              else ok && Valid()
      ensures Valid() && ok ==> shape.listed == old(shape.listed) + {e}
      ensures Valid() && ok ==>
                shape.order == Insert(old(shape.order), Place(GoalOf(highPri, lowPri, hit), old(shape)), e)
      ensures Valid() && ok && (old(PoolsFit()) || GoalOf(highPri, lowPri, hit) != Bottom) ==> PoolsFit()
      ensures var u, c := old(list.usage), list.charge[e];
              Fits(u.high + c, highCapacity) && Fits(u.low + c, lowCapacity) ==>
                shape == Grown(old(shape), GoalOf(highPri, lowPri, hit), e)
      ensures GoalOf(highPri, lowPri, hit).Low? ==>
                var n := if old(Fits(list.usage.high, highCapacity)) then |shape.order| else |list.next|;
                LowInserted(old(list), old(lruLow), e, highCapacity, lowCapacity, n) ==
                  if ok then Some((list, lruLow)) else None
    {
      var to := GoalOf(highPri, lowPri, hit);
      var same := LinkTo(e, to);
      ok := true;
      match to {
        case High =>
          MaintainPoolSize();
        case Low =>
          if Fits(list.usage.high, highCapacity) {
            MaintainPoolSize();
            lruLow := e;
          } else {
            ok := OverflowFrom(e, old(list), old(shape));
          }
        case Bottom =>
          if same {
            lruLow := e;
          }
      }
    }

    /** MaintainPoolSize from a low boundary pointer that the new handle has not moved yet. */
    method OverflowFrom(e: nat, ghost before: Lists, ghost g: Shape) returns (ok: bool)
      requires g.Ordered() && ListOk(before, g) && 1 <= e < |before.next| && e !in g.listed
      requires lruLow == At(g.order, g.l - 1) && !Fits(before.usage.high, highCapacity)
      requires Linkable(before, lruLow, e) && list == LinkIn(before, lruLow, e, Low)
      modifies this`list, this`lruLow
      ensures list.charge == old(list.charge) && list.next == old(list.next) && (ok ==> !Intact(Some((list, lruLow))))
      ensures LowInserted(before, old(lruLow), e, highCapacity, lowCapacity, |list.next|) ==
                if ok then Some((list, lruLow)) else None
    {
      var r := Maintained(list, lruLow, highCapacity, lowCapacity, |list.next|);
      MaintainedKeeps(list, lruLow, highCapacity, lowCapacity, |list.next|);
      LowInsertBreaks(before, g, e, highCapacity, lowCapacity, |list.next|);
      ok := r.Some?;
      if ok {
        list, lruLow := r.value.0, e;
      }
    }

    /** Links a handle in at the newest end of a pool; tells whether the boundaries met. */
    method LinkTo(e: nat, to: Pool) returns (same: bool)
      requires Valid() && 1 <= e < |list.next| && e !in shape.listed
      modifies this`list, this`shape
      ensures shape == Grown(old(shape), to, e) && shape.Ordered() && ListOk(list, shape)
      ensures list.charge == old(list.charge) && |list.next| == old(|list.next|)
      ensures At(shape.order, shape.l - 1) == if to.Low? || (to.Bottom? && same) then e else lruLow
      ensures to.Low? ==> Linkable(old(list), old(lruLow), e) && list == LinkIn(old(list), old(lruLow), e, Low)
      ensures e < |list.charge| && list.usage.high == old(list.usage.high) + (if to.High? then list.charge[e] else 0)
      ensures list.usage.low == old(list.usage.low) + (if to.Low? then list.charge[e] else 0)
    {
      NextOf(list, shape, |shape.order|);
      InsertOk(list, shape, to, e);
      BoundsMeet(list, shape);
      InsertBound(shape, to, e);
      var a := match to case High => list.prev[0] case Low => lruLow case Bottom => list.lruBottom;
      same := list.lruBottom == lruLow;
      list, shape := LinkIn(list, a, e, to), Grown(shape, to, e);
    }

    method LRU_Remove(e: nat, ghost p: nat)
      requires Valid() && p < |shape.order| && shape.order[p] == e
      modifies this`list, this`lruLow, this`shape
      ensures Valid() && list.charge == old(list.charge) && |list.next| == old(|list.next|)
      ensures shape.listed == old(shape.listed) - {e} && shape.order == Remove(old(shape.order), p)
      ensures (old(PoolsFit()) ==> PoolsFit()) && list.pool == old(list.pool) && list.usage.high <= old(list.usage.high)
    {
      RemoveOk(list, shape, p);
      RemoveLowBound(list, shape, p);
      if lruLow == e {
        lruLow := list.prev[e];
      }
      list, shape := LinkOut(list, e), Shrunk(shape, p);
    }

    /** A new handle, not yet on the list. */
    method AddHandle(c: nat) returns (e: nat)
      requires Valid()
      modifies this`list
      ensures Valid() && (old(PoolsFit()) ==> PoolsFit())
      ensures e == old(|list.next|) == |list.next| - 1 && list.charge == old(list.charge) + [c]
              && list.usage == old(list.usage)
    {
      OrderOk(list, shape);
      ExtendOk(list, shape, c);
      e := |list.next|;
      list := WithHandle(list, c);
    }

    /** New pool capacities, without overflowing the pools. */
    method SetCapacity(capacity: nat)
      requires Valid()
      modifies this`capacity, this`highCapacity, this`lowCapacity
      ensures Valid() && Scaled() && this.capacity == capacity
    {
      this.capacity := capacity;
      highCapacity, lowCapacity := capacity as real * highRatio, capacity as real * lowRatio;
    }

    method SetHighPriorityPoolRatio(ratio: real)
      requires Valid() && Scaled() && ratio >= 0.0
      modifies this`highRatio, this`highCapacity, this`list, this`lruLow, this`shape
      ensures Valid() && Scaled() && PoolsFit() && highRatio == ratio
      ensures shape.order == old(shape.order) && shape.listed == old(shape.listed) && list.charge == old(list.charge)
              && |list.next| == old(|list.next|)
    {
      highRatio, highCapacity := ratio, capacity as real * ratio;
      MaintainPoolSize();
    }

    method SetLowPriorityPoolRatio(ratio: real)
      requires Valid() && Scaled() && ratio >= 0.0
      modifies this`lowRatio, this`lowCapacity, this`list, this`lruLow, this`shape
      ensures Valid() && Scaled() && PoolsFit() && lowRatio == ratio
      ensures shape.order == old(shape.order) && shape.listed == old(shape.listed) && list.charge == old(list.charge)
              && |list.next| == old(|list.next|)
    {
      lowRatio, lowCapacity := ratio, capacity as real * ratio;
      MaintainPoolSize();
    }
  }

  /** The condition can fail: capacity 100, ratios 0.5, one high priority handle of charge
      50; then the capacity is set to 60. A low priority handle of charge 10 makes the loop
      run past it and into the high pool, whose usage no longer covers its handle. */
  method ShrinkThenInsertFails() returns (p: PoolList, e: nat)
    ensures p.Valid() && p.Scaled() && p.capacity == 60 && 1 <= e < |p.list.next| && e !in p.shape.listed
    ensures p.list.usage.high == 50 && p.highCapacity == 30.0
    ensures Goal(p.highRatio, p.lowRatio, false, true, false) == Low
    ensures !Intact(LowInserted(p.list, p.lruLow, e, p.highCapacity, p.lowCapacity, |p.list.next|))
  {
    p := new PoolList(100, 0.5, 0.5);
    OrderOk(p.list, p.shape);
    var x := p.AddHandle(50);
    var _ := p.LRU_Insert(x, true, false, false);
    p.SetCapacity(60);
    e := p.AddHandle(10);
    assert p.shape == Shape([x], 0, 0, {x});
    OrderOk(p.list, p.shape);
    HighUsage(p.list, p.shape);
    SumFirst([x], p.list.charge, 0, 1);
    LowInsertExact(p.list, p.shape, e, p.highCapacity, p.lowCapacity, |p.list.next|);
  }
}
