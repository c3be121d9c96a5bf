/** Whole runs of an iterator, and what a snapshot hides from them. */
module DbSnapshot {
  import opened Options
  import opened DbEntries
  import opened DbView
  import opened DbIter

  /** One move; a step of an iterator that is not valid is not taken. */
  method Execute(it: DBIter, command: Command)
    requires it.Valid()
    modifies it
    ensures it.Valid() && it.cursor == Moved(View(it.es, it.c), old(it.cursor), command)
  {
    ShownAtIs(it.es, it.c, it.cursor);
    match command {
      case Next => if it.valid { it.Next(); }
      case Prev => if it.valid { it.Prev(); }
      case Seek(k) => it.Seek(k);
      case SeekForPrev(k) => it.SeekForPrev(k);
      case SeekToFirst => it.SeekToFirst();
      case SeekToLast => it.SeekToLast();
    }
  }

  /** Any sequence of moves on an iterator shows what the same moves on a plain cursor
      over the view show. */
  method RunIterator(es: seq<Entry>, c: Config, commands: seq<Command>) returns (shown: seq<Shown>)
    requires Sorted(es)
    ensures shown == CursorRun(View(es, c), -1, commands)
  {
    var it := new DBIter(es, c);
    shown := [];
    ghost var view := View(es, c);
    for i := 0 to |commands|
      invariant it.Valid() && it.es == es && it.c == c && view == View(es, c)
      invariant shown + CursorRun(view, it.cursor, commands[i..]) == CursorRun(view, -1, commands)
    {
      assert commands[i..][0] == commands[i] && commands[i..][1..] == commands[i + 1..];
      Execute(it, commands[i]);
      ShownAtIs(es, c, it.cursor);
      shown := shown + [it.Shown()];
    }
  }

  // ---------------------------------------------------------------- writes after the snapshot

  ghost predicate Ascending(view: seq<Row>) {
    forall i, j :: 0 <= i < j < |view| ==> view[i].key < view[j].key
  }

  /** Ascending rows are determined by which rows there are. */
  lemma {:induction false} AscendingUnique(a: seq<Row>, b: seq<Row>)
    requires Ascending(a) && Ascending(b) && forall r :: r in a <==> r in b
    ensures a == b
    decreases |a|
  {
    assert (a != [] ==> a[0] in a) && (b != [] ==> b[0] in b);
    if a != [] && b != [] {
      var i :| 0 <= i < |b| && b[i] == a[0];
      var j :| 0 <= j < |a| && a[j] == b[0];
      assert a[0] == b[0];
      forall r ensures r in a[1..] <==> r in b[1..] {
        assert r in a <==> r == a[0] || r in a[1..];
        assert r in b <==> r == b[0] || r in b[1..];
      }
      AscendingUnique(a[1..], b[1..]);
    }
  }

  function Inserted(es: seq<Entry>, p: nat, e: Entry): seq<Entry>
    requires p <= |es|
  {
    es[..p] + [e] + es[p..]
  }

  lemma {:induction false} FoldTail(es: seq<Entry>, p: nat, e: Entry, i: nat, k: Key, s: nat)
    requires p <= i <= |es|
    ensures Fold(Inserted(es, p, e), i + 1, k, s) == Fold(es, i, k, s)
    decreases |es| - i
  {
    if i < |es| {
      FoldTail(es, p, e, i + 1, k, s);
    }
  }

  lemma {:induction false} FoldInserted(es: seq<Entry>, p: nat, e: Entry, i: nat, k: Key, s: nat)
    requires i <= p <= |es| && e.number > s
    ensures Fold(Inserted(es, p, e), i, k, s) == Fold(es, i, k, s)
    decreases p - i
  {
    if i == p {
      FoldTail(es, p, e, p, k, s);
    } else {
      FoldInserted(es, p, e, i + 1, k, s);
    }
  }

  /** Writing an entry after the snapshot was taken, wherever it sorts, changes nothing
      that an iterator on the snapshot can ever show. */
  lemma LaterWriteInvisible(es: seq<Entry>, p: nat, e: Entry, c: Config)
    requires p <= |es| && Sorted(es) && Sorted(Inserted(es, p, e)) && e.number > c.snapshot
    ensures View(Inserted(es, p, e), c) == View(es, c)
  {
    var es' := Inserted(es, p, e);
    forall row ensures row in View(es', c) <==> row in View(es, c) {
      ViewExact(es, c, row);
      ViewExact(es', c, row);
      FoldInserted(es, p, e, 0, row.key, c.snapshot);
      SameKeys(es, p, e, row.key);
      if forall i :: 0 <= i < |es| ==> es[i].key != row.key {
        InvisibleAbsent(es, c, row.key);
      }
    }
    forall i, j | 0 <= i < j < |View(es, c)| ensures View(es, c)[i].key < View(es, c)[j].key {
      ViewAscends(es, c, |es|, i, j);
    }
    forall i, j | 0 <= i < j < |View(es', c)| ensures View(es', c)[i].key < View(es', c)[j].key {
      ViewAscends(es', c, |es'|, i, j);
    }
    AscendingUnique(View(es', c), View(es, c));
  }

  lemma SameKeys(es: seq<Entry>, p: nat, e: Entry, k: Key)
    requires p <= |es|
    ensures (exists i :: 0 <= i < |es| && es[i].key == k) ==>
            exists i :: 0 <= i < |es| + 1 && Inserted(es, p, e)[i].key == k
  {
    if i :| 0 <= i < |es| && es[i].key == k {
      assert Inserted(es, p, e)[if i < p then i else i + 1] == es[i];
    }
  }
}
