/** The circular doubly linked list of an LRU shard. Handles are numbered; number 0 is
    the dummy head, and a handle that is not on the list has no links. */
module LruLinks {
  const NULL: int := -1

  /** The i-th handle from the oldest; the head stands before and after the list. */
  function At(order: seq<nat>, i: int): nat { if 0 <= i < |order| then order[i] else 0 }

  ghost predicate NoDup(order: seq<nat>) {
    forall i, j :: 0 <= i < j < |order| ==> order[i] != order[j]
  }

  /** next and prev agree at the i-th link. */
  ghost predicate LinkOk(next: seq<int>, prev: seq<int>, order: seq<nat>, i: int)
    requires |next| == |prev|
  {
    && At(order, i - 1) < |next| && At(order, i) < |next|
    && next[At(order, i - 1)] == At(order, i) && prev[At(order, i)] == At(order, i - 1)
  }

  /** The links run through the handles of the order, from the oldest to the newest. */
  ghost predicate Linked(next: seq<int>, prev: seq<int>, order: seq<nat>) {
    && |next| == |prev| > 0 && NoDup(order)
    && (forall i :: 0 <= i < |order| ==> 1 <= order[i] < |next|)
    && (forall i {:trigger LinkOk(next, prev, order, i)} :: 0 <= i <= |order| ==> LinkOk(next, prev, order, i))
    && (forall x :: 1 <= x < |next| && x !in order ==> next[x] == NULL && prev[x] == NULL)
  }

  function Insert(order: seq<nat>, p: nat, e: nat): seq<nat>
    requires p <= |order|
  {
    order[..p] + [e] + order[p..]
  }

  function Remove(order: seq<nat>, p: nat): seq<nat>
    requires p < |order|
  {
    order[..p] + order[p + 1..]
  }

  lemma AtDistinct(order: seq<nat>, i: int, j: int)
    requires NoDup(order) && (forall k :: 0 <= k < |order| ==> order[k] >= 1) && -1 <= i < j < |order|
    ensures At(order, i) != At(order, j)
  {
  }

  lemma InsertAt(order: seq<nat>, p: nat, e: nat, i: int)
    requires p <= |order|
    ensures At(Insert(order, p, e), i) == if i < p then At(order, i) else if i == p then e else At(order, i - 1)
  {
  }

  lemma RemoveAt(order: seq<nat>, p: nat, i: int)
    requires p < |order|
    ensures At(Remove(order, p), i) == if i < p then At(order, i) else At(order, i + 1)
  {
  }

  // e->prev = a; e->next = a->next; then both neighbours point to e.

  function LinkedNext(next: seq<int>, a: nat, e: nat): seq<int>
    requires a < |next| && e < |next|
  {
    next[e := next[a]][a := e]
  }

  function LinkedPrev(next: seq<int>, prev: seq<int>, a: nat, e: nat): seq<int>
    requires a < |next| == |prev| && e < |next| && 0 <= next[a] < |next|
  {
    prev[e := a][next[a] := e]
  }

  lemma LinkInserted(next: seq<int>, prev: seq<int>, order: seq<nat>, p: nat, e: nat)
    requires Linked(next, prev, order) && p <= |order| && 1 <= e < |next| && e !in order
    ensures At(order, p - 1) < |next| && 0 <= next[At(order, p - 1)] < |next|
    ensures Linked(LinkedNext(next, At(order, p - 1), e), LinkedPrev(next, prev, At(order, p - 1), e),
            Insert(order, p, e))
  {
    var a, order' := At(order, p - 1), Insert(order, p, e);
    assert LinkOk(next, prev, order, p);
    var next', prev' := LinkedNext(next, a, e), LinkedPrev(next, prev, a, e);
    forall i | 0 <= i <= |order'| ensures LinkOk(next', prev', order', i) {
      LinkInsertedAt(next, prev, order, p, e, i);
    }
    InsertMembers(order, p, e);
    forall x | 1 <= x < |next| && x !in order' ensures next'[x] == NULL && prev'[x] == NULL {
      assert x !in order && x != e;
      assert a == 0 || a in order;
      assert At(order, p) == 0 || At(order, p) in order;
    }
  }

  lemma InsertMembers(order: seq<nat>, p: nat, e: nat)
    requires p <= |order| && e !in order && NoDup(order)
    ensures NoDup(Insert(order, p, e)) && forall x :: x in Insert(order, p, e) <==> x == e || x in order
  {
    var order' := Insert(order, p, e);
    assert order == order[..p] + order[p..];
    forall i, j | 0 <= i < j < |order'| ensures order'[i] != order'[j] {
      InsertAt(order, p, e, i);
      InsertAt(order, p, e, j);
    }
  }

  lemma LinkInsertedAt(next: seq<int>, prev: seq<int>, order: seq<nat>, p: nat, e: nat, i: nat)
    requires Linked(next, prev, order) && p <= |order| && 1 <= e < |next| && e !in order && i <= |order| + 1
    requires LinkOk(next, prev, order, p)
    ensures LinkOk(LinkedNext(next, At(order, p - 1), e), LinkedPrev(next, prev, At(order, p - 1), e),
            Insert(order, p, e), i)
  {
    InsertAt(order, p, e, i - 1);
    InsertAt(order, p, e, i);
    if i < p {
      assert LinkOk(next, prev, order, i);
      AtDistinct(order, i - 1, p - 1);
      if p < |order| {
        AtDistinct(order, i, p);
      } else {
        AtDistinct(order, -1, i);
      }
    } else if i > p + 1 {
      assert LinkOk(next, prev, order, i - 1);
      AtDistinct(order, p - 1, i - 2);
      if i - 1 < |order| {
        AtDistinct(order, p, i - 1);
      } else {
        AtDistinct(order, -1, p);
      }
    }
  }

  // Both neighbours of e point past it, and e has no links.

  function UnlinkedNext(next: seq<int>, prev: seq<int>, e: nat): seq<int>
    requires e < |next| == |prev| && 0 <= prev[e] < |next|
  {
    next[prev[e] := next[e]][e := NULL]
  }

  function UnlinkedPrev(next: seq<int>, prev: seq<int>, e: nat): seq<int>
    requires e < |next| == |prev| && 0 <= next[e] < |next|
  {
    prev[next[e] := prev[e]][e := NULL]
  }

  lemma LinkRemoved(next: seq<int>, prev: seq<int>, order: seq<nat>, p: nat)
    requires Linked(next, prev, order) && p < |order|
    ensures order[p] < |next| && next[order[p]] == At(order, p + 1) < |next|
            && prev[order[p]] == At(order, p - 1) < |next|
    ensures Linked(UnlinkedNext(next, prev, order[p]), UnlinkedPrev(next, prev, order[p]), Remove(order, p))
  {
    var e, order' := order[p], Remove(order, p);
    assert LinkOk(next, prev, order, p) && LinkOk(next, prev, order, p + 1);
    var next', prev' := UnlinkedNext(next, prev, e), UnlinkedPrev(next, prev, e);
    forall i | 0 <= i <= |order'| ensures LinkOk(next', prev', order', i) {
      LinkRemovedAt(next, prev, order, p, i);
    }
    RemoveMembers(order, p);
    forall x | 1 <= x < |next| && x !in order' ensures next'[x] == NULL && prev'[x] == NULL {
      assert At(order, p - 1) == 0 || At(order, p - 1) in order;
      assert At(order, p + 1) == 0 || At(order, p + 1) in order;
      assert x == e || x !in order;
    }
  }

  lemma RemoveMembers(order: seq<nat>, p: nat)
    requires p < |order| && NoDup(order)
    ensures NoDup(Remove(order, p)) && forall x :: x in Remove(order, p) <==> x in order && x != order[p]
  {
    var order' := Remove(order, p);
    forall i, j | 0 <= i < j < |order'| ensures order'[i] != order'[j] {
      RemoveAt(order, p, i);
      RemoveAt(order, p, j);
    }
    forall x | x in order && x != order[p] ensures x in order' {
      var i :| 0 <= i < |order| && order[i] == x;
      RemoveAt(order, p, if i < p then i else i - 1);
      assert order'[if i < p then i else i - 1] == x;
    }
    forall x | x in order' ensures x in order && x != order[p] {
      var i :| 0 <= i < |order'| && order'[i] == x;
      RemoveAt(order, p, i);
    }
  }

  lemma LinkRemovedBelow(next: seq<int>, prev: seq<int>, order: seq<nat>, p: nat, i: nat)
    requires Linked(next, prev, order) && i < p < |order|
    requires LinkOk(next, prev, order, p) && LinkOk(next, prev, order, p + 1)
    ensures LinkOk(UnlinkedNext(next, prev, order[p]), UnlinkedPrev(next, prev, order[p]), Remove(order, p), i)
  {
    RemoveAt(order, p, i - 1);
    RemoveAt(order, p, i);
    assert LinkOk(next, prev, order, i);
    AtDistinct(order, i - 1, p - 1);
    AtDistinct(order, i, p);
    AtDistinct(order, i - 1, p);
    if p + 1 < |order| {
      AtDistinct(order, i, p + 1);
    } else {
      AtDistinct(order, -1, i);
    }
  }

  lemma LinkRemovedAbove(next: seq<int>, prev: seq<int>, order: seq<nat>, p: nat, i: nat)
    requires Linked(next, prev, order) && p < i < |order|
    requires LinkOk(next, prev, order, p) && LinkOk(next, prev, order, p + 1)
    ensures LinkOk(UnlinkedNext(next, prev, order[p]), UnlinkedPrev(next, prev, order[p]), Remove(order, p), i)
  {
    RemoveAt(order, p, i - 1);
    RemoveAt(order, p, i);
    assert LinkOk(next, prev, order, i + 1);
    AtDistinct(order, p - 1, i);
    AtDistinct(order, p, i);
    if i + 1 < |order| {
      AtDistinct(order, p + 1, i + 1);
      AtDistinct(order, p, i + 1);
    } else {
      AtDistinct(order, -1, p);
      AtDistinct(order, -1, p + 1);
    }
  }

  lemma LinkRemovedAt(next: seq<int>, prev: seq<int>, order: seq<nat>, p: nat, i: nat)
    requires Linked(next, prev, order) && p < |order| && i < |order|
    requires LinkOk(next, prev, order, p) && LinkOk(next, prev, order, p + 1)
    ensures LinkOk(UnlinkedNext(next, prev, order[p]), UnlinkedPrev(next, prev, order[p]), Remove(order, p), i)
  {
    if i < p {
      LinkRemovedBelow(next, prev, order, p, i);
    } else if i > p {
      LinkRemovedAbove(next, prev, order, p, i);
    } else {
      RemoveAt(order, p, i - 1);
      RemoveAt(order, p, i);
      AtDistinct(order, p - 1, p);
      if p + 1 < |order| {
        AtDistinct(order, p, p + 1);
      }
    }
  }

  // ---------------------------------------------------------------- uniqueness

  lemma {:induction false} SamePlaces(next: seq<int>, prev: seq<int>, a: seq<nat>, b: seq<nat>, i: nat)
    requires Linked(next, prev, a) && Linked(next, prev, b) && i <= |a| && i <= |b|
    ensures At(a, i) == At(b, i) && forall j :: 0 <= j < i ==> a[j] == b[j]
  {
    if i > 0 {
      SamePlaces(next, prev, a, b, i - 1);
    }
    assert LinkOk(next, prev, a, i) && LinkOk(next, prev, b, i);
  }

  /** The links leave no choice of the order. */
  lemma LinkedUnique(next: seq<int>, prev: seq<int>, a: seq<nat>, b: seq<nat>)
    requires Linked(next, prev, a) && Linked(next, prev, b)
    ensures a == b
  {
    SamePlaces(next, prev, a, b, if |a| < |b| then |a| else |b|);
  }

  // ---------------------------------------------------------------- members

  ghost function Members(order: seq<nat>): set<nat> { set x | x in order }

  lemma MembersInsert(order: seq<nat>, p: nat, e: nat)
    requires p <= |order|
    ensures Members(Insert(order, p, e)) == Members(order) + {e}
  {
    assert order == order[..p] + order[p..];
  }

  lemma MembersRemove(order: seq<nat>, p: nat)
    requires p < |order| && NoDup(order)
    ensures Members(Remove(order, p)) == Members(order) - {order[p]}
  {
    RemoveMembers(order, p);
  }
}
