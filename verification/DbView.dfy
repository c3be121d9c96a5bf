/** Facts about folded versions and about the view of a snapshot. */
module DbView {
  import opened Options
  import opened DbEntries

  /** The entry is a visible version of the key. */
  predicate Matches(e: Entry, k: Key, snapshot: nat) { e.key == k && e.number <= snapshot }

  // ---------------------------------------------------------------- versions

  /** Entries that are not visible versions do not matter. */
  lemma {:induction false} FoldSkip(es: seq<Entry>, i: nat, j: nat, k: Key, snapshot: nat)
    requires i <= j <= |es| && forall l :: i <= l < j ==> !Matches(es[l], k, snapshot)
    ensures Fold(es, i, k, snapshot) == Fold(es, j, k, snapshot)
    decreases j - i
  {
    if i < j {
      FoldSkip(es, i + 1, j, k, snapshot);
    }
  }

  /** Beyond the entries of a key there are no versions. */
  lemma FoldEnd(es: seq<Entry>, k: Key, snapshot: nat)
    requires Sorted(es)
    ensures Fold(es, Hi(es, k), k, snapshot) == NOTHING
  {
    FoldSkip(es, Hi(es, k), |es|, k, snapshot);
  }

  /** A key none of whose entries is visible is absent. */
  lemma InvisibleAbsent(es: seq<Entry>, c: Config, k: Key)
    requires forall i :: 0 <= i < |es| ==> !Matches(es[i], k, c.snapshot)
    ensures Resolve(es, c, k) == Absent
  {
    FoldSkip(es, 0, |es|, k, c.snapshot);
  }

  // ---------------------------------------------------------------- the view by positions

  lemma {:induction false} ViewPrefix(es: seq<Entry>, c: Config, a: nat, b: nat)
    requires a <= b <= |es|
    ensures |ViewTo(es, c, a)| <= |ViewTo(es, c, b)| && ViewTo(es, c, b)[..|ViewTo(es, c, a)|] == ViewTo(es, c, a)
    decreases b - a
  {
    if a < b {
      ViewPrefix(es, c, a, b - 1);
    }
  }

  /** No rows come from a stretch of entries whose keys are dead or out of bounds. */
  lemma {:induction false} ViewGap(es: seq<Entry>, c: Config, a: nat, b: nat)
    requires a <= b <= |es|
    requires forall i :: a <= i < b && IsStart(es, i) ==> !InBounds(c, es[i].key) || Resolve(es, c, es[i].key) == Absent
    ensures ViewTo(es, c, a) == ViewTo(es, c, b)
    decreases b - a
  {
    if a < b {
      ViewGap(es, c, a, b - 1);
    }
  }

  /** Nor from a stretch of whole keys without a visible entry. */
  lemma ViewInvisible(es: seq<Entry>, c: Config, a: nat, b: nat)
    requires Sorted(es) && a <= b <= |es| && IsStart(es, a) && IsStart(es, b)
    requires forall i :: a <= i < b ==> es[i].number > c.snapshot
    ensures ViewTo(es, c, a) == ViewTo(es, c, b)
  {
    forall i | a <= i < b && IsStart(es, i) ensures Resolve(es, c, es[i].key) == Absent {
      var k := es[i].key;
      forall j | 0 <= j < |es| ensures !Matches(es[j], k, c.snapshot) {
        if j < a {
          assert Precedes(es[j], es[a - 1]) || j == a - 1;
          assert Precedes(es[a], es[i]) || i == a;
          assert Precedes(es[a - 1], es[a]);
        } else if b <= j {
          assert Precedes(es[i], es[b - 1]) || i == b - 1;
          assert Precedes(es[b], es[j]) || j == b;
          assert Precedes(es[b - 1], es[b]);
        }
      }
      InvisibleAbsent(es, c, k);
    }
    ViewGap(es, c, a, b);
  }

  /** A key adds its row, or nothing. */
  lemma ViewOfKey(es: seq<Entry>, c: Config, k: Key)
    requires Sorted(es) && Lo(es, k) < Hi(es, k)
    ensures IsStart(es, Lo(es, k)) && IsStart(es, Hi(es, k))
    ensures ViewTo(es, c, Hi(es, k)) == ViewTo(es, c, Lo(es, k)) +
              (if InBounds(c, k) && Resolve(es, c, k) != Absent then [Row(k, Resolve(es, c, k))] else [])
  {
    var a, b := Lo(es, k), Hi(es, k);
    forall i | a + 1 <= i < b ensures !IsStart(es, i) {
      assert es[i - 1].key == k == es[i].key;
    }
    assert es[a].key == k;
    ViewGap(es, c, a + 1, b);
  }

  /** A present or failed key is the row at its place. */
  lemma RowAt(es: seq<Entry>, c: Config, k: Key)
    requires Sorted(es) && Lo(es, k) < Hi(es, k) && InBounds(c, k) && Resolve(es, c, k) != Absent
    ensures |ViewTo(es, c, Lo(es, k))| < |View(es, c)|
    ensures View(es, c)[|ViewTo(es, c, Lo(es, k))|] == Row(k, Resolve(es, c, k))
    ensures |ViewTo(es, c, Hi(es, k))| == |ViewTo(es, c, Lo(es, k))| + 1
  {
    ViewOfKey(es, c, k);
    ViewPrefix(es, c, Hi(es, k), |es|);
  }


  // ---------------------------------------------------------------- the view by keys

  /** Rows that come from the entries between a and b have keys of those entries. */
  lemma {:induction false} RowsFrom(es: seq<Entry>, c: Config, a: nat, b: nat, p: Key -> bool)
    requires a <= b <= |es| && forall i :: a <= i < b ==> p(es[i].key)
    ensures |ViewTo(es, c, a)| <= |ViewTo(es, c, b)|
    ensures forall i :: |ViewTo(es, c, a)| <= i < |ViewTo(es, c, b)| ==> p(ViewTo(es, c, b)[i].key)
    decreases b - a
  {
    if a < b {
      RowsFrom(es, c, a, b - 1, p);
      assert p(es[b - 1].key);
    }
  }

  lemma {:induction false} CountBelow(view: seq<Row>, m: nat, k: Key)
    requires m <= |view| && forall i :: 0 <= i < |view| ==> (view[i].key < k <==> i < m)
    ensures RowsBelow(view, k) == m
  {
    if m > 0 {
      assert view[0].key < k;
      CountBelow(view[1..], m - 1, k);
    }
  }

  lemma {:induction false} CountUpTo(view: seq<Row>, m: nat, k: Key)
    requires m <= |view| && forall i :: 0 <= i < |view| ==> (view[i].key <= k <==> i < m)
    ensures RowsUpTo(view, k) == m
  {
    if m > 0 {
      assert view[0].key <= k;
      CountUpTo(view[1..], m - 1, k);
    }
  }

  /** Where the entries divide by key, the view does. */
  lemma RowsDivide(es: seq<Entry>, c: Config, n: nat, p: Key -> bool)
    requires n <= |es| && forall i :: 0 <= i < |es| ==> (p(es[i].key) <==> i < n)
    ensures |ViewTo(es, c, n)| <= |View(es, c)|
    ensures forall i :: 0 <= i < |View(es, c)| ==> (p(View(es, c)[i].key) <==> i < |ViewTo(es, c, n)|)
  {
    RowsFrom(es, c, 0, n, p);
    RowsFrom(es, c, n, |es|, (x: Key) => !p(x));
    ViewPrefix(es, c, n, |es|);
    var head, view := ViewTo(es, c, n), View(es, c);
    forall i | 0 <= i < |view| ensures p(view[i].key) <==> i < |head| {
      assert i < |head| ==> view[..|head|][i] == head[i];
    }
  }

  /** The rows below a key, and up to it, are those of the entries below and up to it. */
  lemma RowsOfEntries(es: seq<Entry>, c: Config, k: Key)
    requires Sorted(es)
    ensures RowsBelow(View(es, c), k) == |ViewTo(es, c, Lo(es, k))|
    ensures RowsUpTo(View(es, c), k) == |ViewTo(es, c, Hi(es, k))|
  {
    RowsDivide(es, c, Lo(es, k), (x: Key) => x < k);
    RowsDivide(es, c, Hi(es, k), (x: Key) => x <= k);
    CountBelow(View(es, c), |ViewTo(es, c, Lo(es, k))|, k);
    CountUpTo(View(es, c), |ViewTo(es, c, Hi(es, k))|, k);
  }

  /** The view is in strictly ascending order of keys. */
  lemma {:induction false} ViewAscends(es: seq<Entry>, c: Config, n: nat, i: nat, j: nat)
    requires Sorted(es) && n <= |es| && i < j < |ViewTo(es, c, n)|
    ensures ViewTo(es, c, n)[i].key < ViewTo(es, c, n)[j].key
    decreases n
  {
    if j < |ViewTo(es, c, n - 1)| {
      ViewAscends(es, c, n - 1, i, j);
    } else {
      var k := es[n - 1].key;
      assert IsStart(es, n - 1) && j == |ViewTo(es, c, n - 1)|;
      forall l | 0 <= l < n - 1 ensures es[l].key < k {
        assert Precedes(es[l], es[n - 2]) || l == n - 2;
        assert Precedes(es[n - 2], es[n - 1]);
      }
      RowsFrom(es, c, 0, n - 1, (x: Key) => x < k);
    }
  }

  /** Where the row of a key is, if there is one. */
  lemma RowOfKey(es: seq<Entry>, c: Config, k: Key) returns (m: nat, n: nat)
    requires Sorted(es) && Lo(es, k) < Hi(es, k)
    ensures m <= n <= m + 1 && n <= |View(es, c)|
    ensures forall i :: 0 <= i < |View(es, c)| ==>
            (View(es, c)[i].key < k <==> i < m) && (View(es, c)[i].key <= k <==> i < n)
    ensures m < n <==> InBounds(c, k) && Resolve(es, c, k) != Absent
    ensures m < n ==> View(es, c)[m] == Row(k, Resolve(es, c, k))
  {
    m, n := |ViewTo(es, c, Lo(es, k))|, |ViewTo(es, c, Hi(es, k))|;
    RowsDivide(es, c, Lo(es, k), (x: Key) => x < k);
    RowsDivide(es, c, Hi(es, k), (x: Key) => x <= k);
    ViewOfKey(es, c, k);
    if InBounds(c, k) && Resolve(es, c, k) != Absent {
      RowAt(es, c, k);
    }
  }

  /** A row is in the view exactly if its key has entries, is within the bounds, and its
      visible versions, applied in order, leave the row's outcome. */
  lemma ViewExact(es: seq<Entry>, c: Config, row: Row)
    requires Sorted(es)
    ensures row in View(es, c) <==>
              && (exists i :: 0 <= i < |es| && es[i].key == row.key)
              && InBounds(c, row.key) && row.outcome == Resolve(es, c, row.key) != Absent
  {
    if exists i :: 0 <= i < |es| && es[i].key == row.key {
      var i :| 0 <= i < |es| && es[i].key == row.key;
      assert Lo(es, row.key) <= i < Hi(es, row.key);
      var m, n := RowOfKey(es, c, row.key);
      RowBetween(View(es, c), m, n, row);
    } else {
      RowsDivide(es, c, |es|, (x: Key) => x != row.key);
    }
  }

  /** In a view divided at a key, at most one row can have that key. */
  lemma RowBetween(view: seq<Row>, m: nat, n: nat, row: Row)
    requires m <= n <= m + 1 && n <= |view|
    requires forall i :: 0 <= i < |view| ==> (view[i].key < row.key <==> i < m) && (view[i].key <= row.key <==> i < n)
    ensures row in view <==> m < n && view[m] == row
  {
    if row in view {
      var i :| 0 <= i < |view| && view[i] == row;
      assert m <= i < n;
    }
  }

  // ---------------------------------------------------------------- counting rows
  // Rank and ShownAt are |ViewTo| and Show of the view. They are chosen so that their
  // definitions come into play only where Counting is mentioned, which keeps proofs
  // about the iterator from unfolding the view.

  ghost predicate Counting(t: int) { true }

  ghost predicate IsRank(es: seq<Entry>, c: Config, n: nat, r: nat)
    requires n <= |es|
  {
    forall t {:trigger Counting(t)} :: Counting(t) ==> r == |ViewTo(es, c, n)|
  }

  ghost predicate IsShown(es: seq<Entry>, c: Config, i: int, r: Shown) {
    forall t {:trigger Counting(t)} :: Counting(t) ==> r == Show(View(es, c), i)
  }

  /** How many rows come from the first n entries. */
  ghost function Rank(es: seq<Entry>, c: Config, n: nat): nat
    requires n <= |es|
  {
    assert IsRank(es, c, n, |ViewTo(es, c, n)|);
    var r: nat :| IsRank(es, c, n, r);
    r
  }

  /** What row i of the view shows. */
  ghost function ShownAt(es: seq<Entry>, c: Config, i: int): Shown {
    assert IsShown(es, c, i, Show(View(es, c), i));
    var r :| IsShown(es, c, i, r);
    r
  }

  lemma RankIs(es: seq<Entry>, c: Config, n: nat)
    requires n <= |es|
    ensures Rank(es, c, n) == |ViewTo(es, c, n)|
  {
    assert Counting(0);
  }

  lemma ShownAtIs(es: seq<Entry>, c: Config, i: int)
    ensures ShownAt(es, c, i) == Show(View(es, c), i)
  {
    assert Counting(0);
  }

  /** What a key shows that is not absent. */
  function ShownAs(k: Key, o: Outcome): Shown { if o.Present? then At(k, o.value) else Error }

  /** A key within the bounds has one row, or none if it is absent. */
  lemma RankOfKey(es: seq<Entry>, c: Config, k: Key)
    requires Sorted(es) && Lo(es, k) < Hi(es, k)
    ensures IsStart(es, Lo(es, k)) && IsStart(es, Hi(es, k))
    ensures Resolve(es, c, k) == Absent ==> Rank(es, c, Hi(es, k)) == Rank(es, c, Lo(es, k))
    ensures InBounds(c, k) && Resolve(es, c, k) != Absent ==> Rank(es, c, Hi(es, k)) == Rank(es, c, Lo(es, k)) + 1
    ensures InBounds(c, k) && Resolve(es, c, k) != Absent ==>
            ShownAt(es, c, Rank(es, c, Lo(es, k))) == ShownAs(k, Resolve(es, c, k))
  {
    RankIs(es, c, Lo(es, k));
    RankIs(es, c, Hi(es, k));
    ViewOfKey(es, c, k);
    if InBounds(c, k) && Resolve(es, c, k) != Absent {
      RowAt(es, c, k);
      ShownAtIs(es, c, Rank(es, c, Lo(es, k)));
    }
  }

  lemma RankInvisible(es: seq<Entry>, c: Config, a: nat, b: nat)
    requires Sorted(es) && a <= b <= |es| && IsStart(es, a) && IsStart(es, b)
    requires forall i :: a <= i < b ==> es[i].number > c.snapshot
    ensures Rank(es, c, a) == Rank(es, c, b)
  {
    ViewInvisible(es, c, a, b);
    RankIs(es, c, a);
    RankIs(es, c, b);
  }

  /** Past the last row, and before the first, there is nothing to show. */
  lemma RankEnds(es: seq<Entry>, c: Config)
    ensures ShownAt(es, c, Rank(es, c, |es|)) == Invalid && ShownAt(es, c, -1) == Invalid
  {
    RankIs(es, c, |es|);
    ShownAtIs(es, c, |View(es, c)|);
    ShownAtIs(es, c, -1);
  }

  /** Keys at or beyond the upper bound have no rows. */
  lemma BeyondUpper(es: seq<Entry>, c: Config, a: nat)
    requires Sorted(es) && a < |es| && AboveUpper(c, es[a].key)
    ensures Rank(es, c, a) == Rank(es, c, |es|)
  {
    forall i | a <= i < |es| ensures AboveUpper(c, es[i].key) {
      assert i == a || Precedes(es[a], es[i]);
    }
    ViewGap(es, c, a, |es|);
    RankIs(es, c, a);
    RankIs(es, c, |es|);
  }

  /** Keys below the lower bound have no rows. */
  lemma BeforeLower(es: seq<Entry>, c: Config, a: nat)
    requires Sorted(es) && a < |es| && BelowLower(c, es[a].key)
    ensures Rank(es, c, a + 1) == 0
  {
    forall i | 0 <= i <= a ensures BelowLower(c, es[i].key) {
      assert i == a || Precedes(es[i], es[a]);
    }
    ViewGap(es, c, 0, a + 1);
    RankIs(es, c, a + 1);
  }

  /** Positions found by key are starts. */
  lemma StartsAt(es: seq<Entry>, k: Key)
    requires Sorted(es)
    ensures IsStart(es, Lo(es, k)) && IsStart(es, Hi(es, k))
  {
  }

  /** The cursor over the view finds rows by key where the entries do. */
  lemma RankByKey(es: seq<Entry>, c: Config, k: Key)
    requires Sorted(es)
    ensures RowsBelow(View(es, c), k) == Rank(es, c, Lo(es, k))
    ensures RowsUpTo(View(es, c), k) == Rank(es, c, Hi(es, k))
    ensures |View(es, c)| == Rank(es, c, |es|)
  {
    RowsOfEntries(es, c, k);
    RankIs(es, c, Lo(es, k));
    RankIs(es, c, Hi(es, k));
    RankIs(es, c, |es|);
  }

  /** Seeking below the lower bound finds what seeking to it finds, the first row. */
  lemma RankLower(es: seq<Entry>, c: Config, k: Key)
    requires Sorted(es) && c.lower.Some? && k <= c.lower.value
    ensures Rank(es, c, Lo(es, k)) == 0
  {
    if Lo(es, k) > 0 {
      BeforeLower(es, c, Lo(es, k) - 1);
    } else {
      RankIs(es, c, 0);
    }
  }

  /** Seeking at or above the upper bound finds what seeking below it finds, the last row. */
  lemma RankUpper(es: seq<Entry>, c: Config, k: Key)
    requires Sorted(es) && c.upper.Some? && k >= c.upper.value
    ensures Rank(es, c, Lo(es, c.upper.value)) == Rank(es, c, Hi(es, k)) == Rank(es, c, |es|)
  {
    var a, b := Lo(es, c.upper.value), Hi(es, k);
    if a < |es| {
      BeyondUpper(es, c, a);
    }
    if b < |es| {
      BeyondUpper(es, c, b);
    }
  }
}
