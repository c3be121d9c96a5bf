/** DBIter: the user-facing iterator over the internal entries of a column family. */
module DbIter {
  import opened Options
  import opened DbEntries
  import opened DbView

  // ---------------------------------------------------------------- merge operands

  function Reversed(s: seq<Value>): seq<Value> {
    if s == [] then [] else Reversed(s[1..]) + [s[0]]
  }

  lemma {:induction false} ReversedAppend(s: seq<Value>, t: seq<Value>)
    ensures Reversed(s + t) == Reversed(t) + Reversed(s)
  {
    if s == [] {
      assert s + t == t;
    } else {
      assert (s + t)[1..] == s[1..] + t;
      ReversedAppend(s[1..], t);
    }
  }

  lemma {:induction false} ReversedTwice(s: seq<Value>)
    ensures Reversed(Reversed(s)) == s
  {
    if s != [] {
      ReversedTwice(s[1..]);
      ReversedAppend(Reversed(s[1..]), [s[0]]);
      assert Reversed([s[0]]) == [s[0]];
    }
  }

  /** A list of operands that is turned around when the direction of pushing changes. */
  datatype MergeContext = MergeContext(operands: seq<Value>, reversed: bool) {
    function Clear(): MergeContext { MergeContext([], reversed) }

    function Turned(backward: bool): MergeContext {
      if reversed == backward then this else MergeContext(Reversed(operands), backward)
    }

    /** Pushes an operand older than those before. */
    function PushOperand(v: Value): MergeContext { MergeContext(Turned(true).operands + [v], true) }

    /** Pushes an operand newer than those before. */
    function PushOperandBack(v: Value): MergeContext { MergeContext(Turned(false).operands + [v], false) }

    /** All operands, oldest first. */
    function GetOperands(): seq<Value> { Turned(false).operands }

    lemma PushedOlder(v: Value)
      ensures PushOperand(v).GetOperands() == [v] + GetOperands()
    {
      ReversedAppend(Turned(true).operands, [v]);
      assert Reversed([v]) == [v];
      ReversedTwice(operands);
    }

    lemma PushedNewer(v: Value)
      ensures PushOperandBack(v).GetOperands() == GetOperands() + [v]
    {
    }
  }

  // ---------------------------------------------------------------- facts about one position

  /** Versions with the given operands on top. */
  function OnTop(v: Versions, operands: seq<Value>): Versions { Versions(v.base, v.operands + operands) }

  /** Entries before pos that are not skipped cannot be seen, and have no rows. */
  lemma Fresh(es: seq<Entry>, c: Config, g: nat, pos: nat)
    requires Sorted(es) && g <= pos < |es| && IsStart(es, g)
    requires forall i :: g <= i < pos ==> es[i].number > c.snapshot
    ensures g <= Lo(es, es[pos].key) <= pos < Hi(es, es[pos].key)
    ensures Rank(es, c, g) == Rank(es, c, Lo(es, es[pos].key))
    ensures forall i :: 0 <= i < pos ==> !Matches(es[i], es[pos].key, c.snapshot)
  {
    var k := es[pos].key;
    if g > 0 {
      assert es[g - 1].key < k by {
        assert Precedes(es[g - 1], es[g]);
        assert g == pos || Precedes(es[g], es[pos]);
      }
    }
    var lo := Lo(es, k);
    assert lo == 0 || es[lo - 1].key < k == es[lo].key by {
      assert es[lo].key <= k by { assert lo == pos || Precedes(es[lo], es[pos]); }
    }
    RankInvisible(es, c, g, lo);
  }

  /** The newest visible version decides, unless it is a merge operand. */
  lemma Newest(es: seq<Entry>, c: Config, pos: nat)
    requires pos < |es| && es[pos].number <= c.snapshot
    requires forall i :: 0 <= i < pos ==> !Matches(es[i], es[pos].key, c.snapshot)
    ensures Fold(es, 0, es[pos].key, c.snapshot) == Apply(Fold(es, pos + 1, es[pos].key, c.snapshot), es[pos].op)
    ensures es[pos].op.Put? ==> Resolve(es, c, es[pos].key) == Present(es[pos].op.value)
    ensures es[pos].op.Delete? || es[pos].op.SingleDelete? ==> Resolve(es, c, es[pos].key) == Absent
  {
    FoldSkip(es, 0, pos, es[pos].key, c.snapshot);
  }

  /** An older version under operands already collected. */
  lemma Older(es: seq<Entry>, k: Key, s: nat, pos: nat, operands: seq<Value>)
    requires pos < |es| && Matches(es[pos], k, s)
    requires Fold(es, 0, k, s) == OnTop(Fold(es, pos, k, s), operands)
    ensures es[pos].op.Put? ==> Fold(es, 0, k, s) == Versions(Some(es[pos].op.value), operands)
    ensures es[pos].op.Delete? || es[pos].op.SingleDelete? ==> Fold(es, 0, k, s) == Versions(None, operands)
    ensures es[pos].op.Merge? ==> Fold(es, 0, k, s) == OnTop(Fold(es, pos + 1, k, s), [es[pos].op.operand] + operands)
  {
    assert [] + operands == operands;
    var older := Fold(es, pos + 1, k, s);
    assert es[pos].op.Merge? ==>
           older.operands + [es[pos].op.operand] + operands == older.operands + ([es[pos].op.operand] + operands);
  }

  /** The first operand collected is the newest version. */
  lemma First(es: seq<Entry>, c: Config, pos: nat)
    requires pos < |es| && es[pos].number <= c.snapshot && es[pos].op.Merge?
    requires forall i :: 0 <= i < pos ==> !Matches(es[i], es[pos].key, c.snapshot)
    ensures Fold(es, 0, es[pos].key, c.snapshot) == OnTop(Fold(es, pos + 1, es[pos].key, c.snapshot),
            [es[pos].op.operand])
  {
    Newest(es, c, pos);
  }

  /** Nothing is left under the operands at the end of the key. */
  lemma Oldest(es: seq<Entry>, k: Key, s: nat, operands: seq<Value>)
    requires Sorted(es) && Fold(es, 0, k, s) == OnTop(Fold(es, Hi(es, k), k, s), operands)
    ensures Fold(es, 0, k, s) == Versions(None, operands)
  {
    FoldEnd(es, k, s);
    assert [] + operands == operands;
  }

  // ---------------------------------------------------------------- scanning forward

  /** A forward scan at pos still has all rows from position g on before it. While it
      skips, g is past the saved key; otherwise the entries from g to pos cannot be seen. */
  ghost predicate Ready(es: seq<Entry>, c: Config, g: nat, pos: int, skipping: bool, saved: Key, numberZero: bool)
    requires Sorted(es)
  {
    && 0 <= pos <= |es| && g <= |es| && IsStart(es, g) && (g < |es| ==> !BelowLower(c, es[g].key))
    && if skipping then g == Hi(es, saved) && Lo(es, saved) <= pos <= g && (numberZero ==> pos == g)
       else g <= pos && forall i :: g <= i < pos ==> es[i].number > c.snapshot
  }

  /** A version with number zero is the last of its key. */
  lemma ZeroIsLast(es: seq<Entry>, pos: nat)
    requires Sorted(es) && pos < |es| && es[pos].number == 0
    ensures pos + 1 == Hi(es, es[pos].key)
  {
    assert pos + 1 < |es| ==> Precedes(es[pos], es[pos + 1]);
  }

  lemma SkipOne(es: seq<Entry>, c: Config, g: nat, pos: nat, saved: Key, numberZero: bool)
    requires Sorted(es) && pos < |es| && Ready(es, c, g, pos, true, saved, numberZero) && es[pos].key <= saved
    ensures es[pos].key == saved && Ready(es, c, g, pos + 1, true, saved, es[pos].number == 0)
  {
    if es[pos].number == 0 {
      ZeroIsLast(es, pos);
    }
  }

  /** What the scan knows at an entry that it does not skip. */
  lemma Unskipped(es: seq<Entry>, c: Config, g: nat, pos: nat, skipping: bool, saved: Key, numberZero: bool)
    requires Sorted(es) && pos < |es| && Ready(es, c, g, pos, skipping, saved, numberZero)
    requires !(skipping && es[pos].key <= saved)
    ensures g <= Lo(es, es[pos].key) <= pos < Hi(es, es[pos].key)
    ensures Rank(es, c, g) == Rank(es, c, Lo(es, es[pos].key))
    ensures !BelowLower(c, es[pos].key)
    ensures forall i :: 0 <= i < pos ==> !Matches(es[i], es[pos].key, c.snapshot)
    ensures Ready(es, c, g, pos, false, saved, numberZero)
  {
    Fresh(es, c, g, pos);
    assert g == pos || Precedes(es[g], es[pos]);
  }

  /** A deletion hides the rest of its key. */
  lemma SkipDeleted(es: seq<Entry>, c: Config, g: nat, pos: nat, saved: Key)
    requires Sorted(es) && pos < |es| && Ready(es, c, g, pos, false, saved, false)
    requires es[pos].number <= c.snapshot && (es[pos].op.Delete? || es[pos].op.SingleDelete?)
    ensures Ready(es, c, Hi(es, es[pos].key), pos + 1, true, es[pos].key, es[pos].number == 0)
    ensures Rank(es, c, g) == Rank(es, c, Hi(es, es[pos].key))
  {
    Unskipped(es, c, g, pos, false, saved, false);
    Newest(es, c, pos);
    RankOfKey(es, c, es[pos].key);
    if es[pos].number == 0 {
      ZeroIsLast(es, pos);
    }
  }

  /** Seeking past the versions of the skipped key moves forward, or nowhere. */
  lemma ReseekSkipped(es: seq<Entry>, c: Config, g: nat, pos: nat, saved: Key, pos': nat)
    requires Sorted(es) && pos < |es| && Ready(es, c, g, pos, true, saved, false) && es[pos].key <= saved
    requires SeeksTo(es, Target(saved, 0, 0), pos')
    ensures pos <= pos' && Ready(es, c, g, pos', true, saved, false)
  {
    assert pos' < pos ==> Precedes(es[pos'], es[pos]);
    assert g < |es| ==> !Before(es[g], Target(saved, 0, 0));
  }

  /** Seeking to the snapshot's version of a key moves forward over unseen versions. */
  lemma ReseekUnseen(es: seq<Entry>, c: Config, g: nat, pos: nat, pos': nat)
    requires Sorted(es) && pos < |es| && Ready(es, c, g, pos, false, es[pos].key, false) && es[pos].number > c.snapshot
    requires SeeksTo(es, Target(es[pos].key, c.snapshot, SEEK_RANK), pos')
    ensures pos < pos' && Ready(es, c, g, pos', false, es[pos].key, false)
  {
    var t := Target(es[pos].key, c.snapshot, SEEK_RANK);
    assert pos' < pos ==> Precedes(es[pos'], es[pos]);
    forall i | pos < i < pos' ensures es[i].number > c.snapshot {
      assert Before(es[i], t) && Precedes(es[pos], es[i]);
    }
  }

  lemma ScanOver(es: seq<Entry>, c: Config, g: nat, skipping: bool, saved: Key, numberZero: bool)
    requires Sorted(es) && Ready(es, c, g, |es|, skipping, saved, numberZero)
    ensures Rank(es, c, g) == Rank(es, c, |es|) && ShownAt(es, c, Rank(es, c, g)) == Invalid
  {
    RankEnds(es, c);
    if !skipping {
      RankInvisible(es, c, g, |es|);
    }
  }

  /** At a key beyond the upper bound no rows are left. */
  lemma ScanStops(es: seq<Entry>, c: Config, g: nat, pos: nat, skipping: bool, saved: Key, numberZero: bool)
    requires Sorted(es) && pos < |es| && Ready(es, c, g, pos, skipping, saved, numberZero) && AboveUpper(c, es[pos].key)
    ensures Rank(es, c, g) == Rank(es, c, |es|) && ShownAt(es, c, Rank(es, c, g)) == Invalid
  {
    RankEnds(es, c);
    if skipping && es[pos].key <= saved {
      if g < |es| {
        BeyondUpper(es, c, g);
      }
    } else {
      Unskipped(es, c, g, pos, skipping, saved, numberZero);
      BeyondUpper(es, c, Lo(es, es[pos].key));
    }
  }

  ghost predicate SeeksTo(es: seq<Entry>, t: Target, pos: nat) {
    pos <= |es| && (forall i :: 0 <= i < pos ==> Before(es[i], t)) && (pos < |es| ==> !Before(es[pos], t))
  }

  // ---------------------------------------------------------------- scanning backward

  /** The versions seen by a scan from old to new: the last that is not a merge, and the
      operands since, with the type of the last version. */
  ghost predicate Gathered(v: Versions, lastNotMerge: Op, operands: seq<Value>, lastEntry: Op) {
    && v == Versions(if lastNotMerge.Put? then Some(lastNotMerge.value) else None, operands)
    && !lastNotMerge.Merge? && (lastEntry.Merge? <==> operands != [])
       && (!lastEntry.Merge? ==> lastEntry == lastNotMerge)
  }

  /** One more version, newer than those gathered. */
  lemma GatherOne(es: seq<Entry>, k: Key, s: nat, pos: nat, lastNotMerge: Op, operands: seq<Value>, lastEntry: Op)
    requires pos < |es| && Matches(es[pos], k, s)
             && Gathered(Fold(es, pos + 1, k, s), lastNotMerge, operands, lastEntry)
    ensures es[pos].op.Merge? ==>
            Gathered(Fold(es, pos, k, s), lastNotMerge, operands + [es[pos].op.operand], es[pos].op)
    ensures !es[pos].op.Merge? ==> Gathered(Fold(es, pos, k, s), es[pos].op, [], es[pos].op)
  {
  }

  /** The scan is over at an entry of another key, or one that cannot be seen. */
  lemma GatheredAll(es: seq<Entry>, k: Key, s: nat, pos: int)
    requires Sorted(es) && -1 <= pos < |es|
             && (pos >= 0 ==> es[pos].key < k || (es[pos].key == k && es[pos].number > s))
    ensures Fold(es, 0, k, s) == Fold(es, pos + 1, k, s)
  {
    forall i | 0 <= i < pos + 1 ensures !Matches(es[i], k, s) {
      assert i == pos || Precedes(es[i], es[pos]);
    }
    FoldSkip(es, 0, pos + 1, k, s);
  }

  // ---------------------------------------------------------------- positions of seeks

  lemma SeeksStart(es: seq<Entry>, k: Key, pos: nat)
    requires Sorted(es) && SeeksTo(es, Target(k, MAX_SEQUENCE, SEEK_RANK), pos)
    ensures pos == Lo(es, k)
  {
    assert pos > 0 ==> Before(es[pos - 1], Target(k, MAX_SEQUENCE, SEEK_RANK));
  }

  /** A seek to the snapshot's version of a key passes only versions that cannot be seen. */
  lemma SeeksVisible(es: seq<Entry>, k: Key, s: nat, pos: nat)
    requires Sorted(es) && SeeksTo(es, Target(k, s, SEEK_RANK), pos)
    ensures Lo(es, k) <= pos <= Hi(es, k)
    ensures forall i :: Lo(es, k) <= i < pos ==> es[i].number > s
    ensures forall i :: pos <= i < Hi(es, k) ==> es[i].number <= s
  {
    var t := Target(k, s, SEEK_RANK);
    assert pos > 0 ==> Before(es[pos - 1], t);
    assert Lo(es, k) > 0 ==> Before(es[Lo(es, k) - 1], t);
    forall i | Lo(es, k) <= i < pos ensures es[i].number > s {
      assert Before(es[i], t);
    }
    forall i | pos <= i < Hi(es, k) ensures es[i].number <= s {
      assert i == pos || Precedes(es[pos], es[i]);
    }
  }

  ghost predicate SeeksBackTo(es: seq<Entry>, t: Target, pos: int) {
    && -1 <= pos < |es| && (forall i :: 0 <= i <= pos ==> NotAfter(es[i], t))
    && (pos + 1 < |es| ==> !NotAfter(es[pos + 1], t))
  }

  /** SeekForPrev with number and type zero finds the last version of a key at or before
      the target; with the largest number, of one before it. */
  lemma SeeksLast(es: seq<Entry>, k: Key, pos: int)
    requires Sorted(es) && -1 <= pos < |es|
    ensures SeeksBackTo(es, Target(k, 0, 0), pos) ==> pos == Hi(es, k) - 1
    ensures SeeksBackTo(es, Target(k, MAX_SEQUENCE, 0), pos) ==> pos == Lo(es, k) - 1
  {
    assert SeeksBackTo(es, Target(k, 0, 0), pos) && pos >= 0 ==> NotAfter(es[pos], Target(k, 0, 0));
    assert SeeksBackTo(es, Target(k, MAX_SEQUENCE, 0), pos) && pos >= 0 ==>
           NotAfter(es[pos], Target(k, MAX_SEQUENCE, 0));
  }

  // ---------------------------------------------------------------- the iterator

  class DBIter {
    const es: seq<Entry>
    const c: Config

    /** The inner iterator: an index among the entries, or -1 or |es|. */
    var pos: int
    var savedKey: Key
    var valid: bool
    var forward: bool
    /** current_entry_is_merged_ and is_key_seqnum_zero_ */
    var merged: bool
    var numberZero: bool
    var ok: bool
    var value: Value
    var context: MergeContext

    /** The row of the view that the iterator is on. */
    ghost var cursor: int

    predicate IterValid()
      reads this
    {
      0 <= pos < |es|
    }

    function Shown(): Shown
      reads this
    {
      if valid then At(savedKey, value) else if ok then Invalid else Error
    }

    ghost predicate Valid()
      reads this
    {
      && Sorted(es) && -1 <= pos <= |es| && (valid ==> ok && Located())
      && Shown() == ShownAt(es, c, cursor)
    }

    /** Where a valid iterator stands in the entries and in the view. */
    ghost predicate Located()
      requires Sorted(es)
      reads this
    {
      var lo, hi := Lo(es, savedKey), Hi(es, savedKey);
      && lo < hi && InBounds(c, savedKey)
      && Rank(es, c, lo) == cursor && Rank(es, c, hi) == cursor + 1
      && if !forward then pos == lo - 1
         else if merged then lo <= pos <= hi && (numberZero ==> pos == hi)
         else lo <= pos < hi && (numberZero ==> pos + 1 == hi)
    }

    /** The iterator has what became of a key. */
    ghost predicate Has(o: Outcome)
      reads this
    {
      match o
      case Absent => !valid && ok
      case Present(v) => valid && ok && value == v
      case Failed => !valid && !ok
    }

    constructor (es: seq<Entry>, c: Config)
      requires Sorted(es)
      ensures Valid() && this.es == es && this.c == c && cursor == -1
    {
      RankEnds(es, c);
      this.es, this.c := es, c;
      pos, savedKey, valid, forward, merged, numberZero, ok := -1, 0.0, false, true, false, false, true;
      value, context, cursor := "", MergeContext([], false), -1;
    }

    /** Runs the merge operator on the collected operands. */
    method MergeWith(base: Option<Value>) returns (r: bool)
      requires ok
      modifies this`valid, this`ok, this`value
      ensures Has(MergeOutcome(c.merge(savedKey, base, context.GetOperands()))) && r == ok
    {
      match c.merge(savedKey, base, context.GetOperands())
      case Some(v) =>
        value, valid := v, true;
        return true;
      case None =>
        valid, ok := false, false;
        return false;
    }

    /** Collects the operands of a key from new to old, starting at the newest visible
        version; stops at the put or deletion below them, or past the key. */
    method CollectOperands() returns (base: Option<Value>)
      requires Sorted(es) && IterValid() && es[pos].op.Merge? && es[pos].key == savedKey && es[pos].number <= c.snapshot
      requires forall i :: 0 <= i < pos ==> !Matches(es[i], savedKey, c.snapshot)
      modifies this`pos, this`context
      ensures context.GetOperands() != []
      ensures Fold(es, 0, savedKey, c.snapshot) == Versions(base, context.GetOperands())
      ensures old(pos) < pos <= Hi(es, savedKey) && (base.Some? ==> pos < Hi(es, savedKey) && es[pos].op.Put?)
    {
      ghost var start, k, s, ops := pos, savedKey, c.snapshot, [es[pos].op.operand];
      First(es, c, pos);
      context.Clear().PushedOlder(es[pos].op.operand);
      context := context.Clear().PushOperand(es[pos].op.operand);
      pos := pos + 1;
      while IterValid() && es[pos].key == savedKey
        invariant start < pos <= Hi(es, k) && context.GetOperands() == ops && ops != []
        invariant Fold(es, 0, k, s) == OnTop(Fold(es, pos, k, s), ops)
        decreases |es| - pos
      {
        var op := es[pos].op;
        assert Precedes(es[start], es[pos]);
        Older(es, k, s, pos, ops);
        if op.Delete? || op.SingleDelete? {
          return None;
        }
        if op.Put? {
          return Some(op.value);
        }
        context.PushedOlder(op.operand);
        context := context.PushOperand(op.operand);
        ops := [op.operand] + ops;
        pos := pos + 1;
      }
      Oldest(es, k, s, ops);
      base := None;
    }

    /** Merges from new to old and leaves the inner iterator behind what was merged. */
    method MergeValuesNewToOld() returns (r: bool)
      requires Sorted(es) && IterValid() && es[pos].op.Merge? && es[pos].key == savedKey && es[pos].number <= c.snapshot
      requires ok && forall i :: 0 <= i < pos ==> !Matches(es[i], savedKey, c.snapshot)
      modifies this`pos, this`valid, this`ok, this`value, this`context
      ensures Resolve(es, c, savedKey) != Absent && Has(Resolve(es, c, savedKey)) && r == ok
      ensures old(pos) < pos <= Hi(es, savedKey)
    {
      var base := CollectOperands();
      if IterValid() && es[pos].key == savedKey && !es[pos].op.Put? {
        pos := pos + 1;
      }
      r := MergeWith(base);
      if r && base.Some? {
        pos := pos + 1;
      }
    }

    /** InternalIterator::Seek */
    method IterSeek(t: Target)
      modifies this`pos
      ensures pos >= 0 && SeeksTo(es, t, pos)
    {
      pos := Leading(es, e => Before(e, t));
    }

    /** Looks at the entry under a forward scan: yields it, stops at it, or notes how to
        go on. */
    method Examine(skip: bool, skipped: nat, reseeked: bool, ghost g: nat)
      returns (done: bool, skipping: bool, numSkipped: nat, reseekDone: bool, ghost g': nat)
      requires Sorted(es) && ok && forward && !merged && IterValid() && Ready(es, c, g, pos, skip, savedKey, numberZero)
      modifies this
      ensures done ==> Valid() && cursor == Rank(es, c, g)
      ensures !done ==> ok && forward && !merged && pos == old(pos)
      ensures !done ==> Ready(es, c, g', pos + 1, skipping, savedKey, numberZero) && Rank(es, c, g') == Rank(es, c, g)
      ensures !done && numSkipped > 0 ==> reseekDone == reseeked && Ready(es, c, g', pos, skipping, savedKey, false)
      ensures !done && numSkipped > 0 ==>
                if skipping then es[pos].key <= savedKey else es[pos].key == savedKey && es[pos].number > c.snapshot
    {
      done, skipping, numSkipped, reseekDone, g' := false, skip, skipped, reseeked, g;
      var prevZero := numberZero;
      var e := es[pos];
      numberZero := e.number == 0;
      if AboveUpper(c, e.key) {
        ScanStops(es, c, g, pos, skipping, savedKey, prevZero);
        valid, cursor, done := false, Rank(es, c, |es|), true;
      } else if e.number <= c.snapshot {
        if !prevZero && skipping && e.key <= savedKey {
          SkipOne(es, c, g, pos, savedKey, prevZero);
          numSkipped := numSkipped + 1;
        } else {
          Unskipped(es, c, g, pos, skipping, savedKey, prevZero);
          numSkipped, reseekDone := 0, false;
          if e.op.Delete? || e.op.SingleDelete? {
            SkipDeleted(es, c, g, pos, savedKey);
            savedKey, skipping := e.key, true;
            g' := Hi(es, e.key);
          } else {
            Yield(g);
            done := true;
          }
        }
      } else if e.key == savedKey || (skipping && e.key < savedKey) {
        if skipping { SkipOne(es, c, g, pos, savedKey, prevZero); }
        numSkipped := numSkipped + 1;
      } else {
        savedKey, skipping, numSkipped, reseekDone := e.key, false, 0, false;
      }
    }

    /** The entry is the newest visible version of a live key. */
    method Yield(ghost g: nat)
      requires Sorted(es) && ok && forward && !merged && IterValid() && numberZero == (es[pos].number == 0)
      requires es[pos].number <= c.snapshot && (es[pos].op.Put? || es[pos].op.Merge?) && InBounds(c, es[pos].key)
      requires g <= |es| && Lo(es, es[pos].key) <= pos < Hi(es, es[pos].key)
      requires Rank(es, c, g) == Rank(es, c, Lo(es, es[pos].key))
      requires forall i :: 0 <= i < pos ==> !Matches(es[i], es[pos].key, c.snapshot)
      modifies this
      ensures Valid() && cursor == Rank(es, c, g)
    {
      var e := es[pos];
      if numberZero { ZeroIsLast(es, pos); }
      savedKey, valid, cursor := e.key, true, Rank(es, c, g);
      if e.op.Put? {
        Newest(es, c, pos);
        value := e.op.value;
      } else {
        merged := true;
        var _ := MergeValuesNewToOld();
      }
      RankOfKey(es, c, e.key);
    }

    /** Seeks over entries that a forward scan would only skip. */
    method Reseek(skipping: bool, ghost g: nat)
      requires Sorted(es) && IterValid() && Ready(es, c, g, pos, skipping, savedKey, false) && !numberZero
      requires if skipping then es[pos].key <= savedKey else es[pos].key == savedKey && es[pos].number > c.snapshot
      modifies this`pos
      ensures old(pos) <= pos && Ready(es, c, g, pos, skipping, savedKey, numberZero)
    {
      ghost var before := pos;
      if skipping {
        IterSeek(Target(savedKey, 0, 0));
        ReseekSkipped(es, c, g, before, savedKey, pos);
      } else {
        IterSeek(Target(savedKey, c.snapshot, SEEK_RANK));
        ReseekUnseen(es, c, g, before, pos);
      }
    }

    /** Scans forward to the next row, first past the saved key if told to. */
    method FindNextUserEntry(skippingSavedKey: bool, ghost f: nat)
      requires Sorted(es) && ok && forward && IterValid()
               && Ready(es, c, f, pos, skippingSavedKey, savedKey, numberZero)
      modifies this
      ensures Valid() && cursor == Rank(es, c, f)
    {
      merged := false;
      var skipping, reseekDone, numSkipped: nat := skippingSavedKey, false, 0;
      ghost var g := f;
      while IterValid()
        invariant ok && forward && !merged && Ready(es, c, g, pos, skipping, savedKey, numberZero)
        invariant Rank(es, c, g) == Rank(es, c, f)
        decreases |es| - pos, !reseekDone
      {
        var done;
        done, skipping, numSkipped, reseekDone, g := Examine(skipping, numSkipped, reseekDone, g);
        if done {
          return;
        }
        if numSkipped > c.maxSkip && !reseekDone {
          numberZero, numSkipped, reseekDone := false, 0, true;
          Reseek(skipping, g);
        } else {
          pos := pos + 1;
        }
      }
      ScanOver(es, c, g, skipping, savedKey, numberZero);
      valid, cursor := false, Rank(es, c, |es|);
    }

    /** InternalIterator::SeekForPrev */
    method IterSeekForPrev(t: Target)
      modifies this`pos
      ensures SeeksBackTo(es, t, pos)
    {
      pos := Leading(es, e => NotAfter(e, t)) - 1;
    }

    /** Turns a backward iterator around. */
    method ReverseToForward()
      requires Sorted(es) && -1 <= pos <= |es| && Lo(es, savedKey) < Hi(es, savedKey) && pos == Lo(es, savedKey) - 1
      modifies this`pos, this`forward
      ensures forward && pos == Lo(es, savedKey)
    {
      if !IterValid() {
        IterSeek(Target(savedKey, MAX_SEQUENCE, SEEK_RANK));
        SeeksStart(es, savedKey, pos);
      }
      forward := true;
      while IterValid()
        invariant forward && Lo(es, savedKey) - 1 <= pos <= Lo(es, savedKey)
        decreases |es| - pos
      {
        if es[pos].key >= savedKey {
          return;
        }
        pos := pos + 1;
      }
    }

    method Next()
      requires Valid() && valid
      modifies this
      ensures Valid() && cursor == old(cursor) + 1
    {
      if !forward {
        numberZero := false;
        ReverseToForward();
      } else if !merged {
        pos := pos + 1;
      }
      StartsAt(es, savedKey);
      if IterValid() {
        FindNextUserEntry(true, Hi(es, savedKey));
      } else {
        RankEnds(es, c);
        numberZero, valid, cursor := false, false, cursor + 1;
      }
    }

    method Seek(target: Key)
      requires Valid()
      modifies this
      ensures Valid() && cursor == RowsBelow(View(es, c), target)
    {
      ok, numberZero := true, false;
      savedKey := if BelowLower(c, target) then c.lower.value else target;
      RankByKey(es, c, target);
      if BelowLower(c, target) {
        RankLower(es, c, target);
        RankLower(es, c, savedKey);
      }
      ghost var g := Lo(es, savedKey);
      StartsAt(es, savedKey);
      IterSeek(Target(savedKey, c.snapshot, SEEK_RANK));
      SeeksVisible(es, savedKey, c.snapshot, pos);
      if !IterValid() {
        RankInvisible(es, c, g, |es|);
        RankEnds(es, c);
        valid, cursor := false, Rank(es, c, g);
        return;
      }
      forward := true;
      FindNextUserEntry(false, g);
    }

    method SeekToFirst()
      requires Valid()
      modifies this
      ensures Valid() && cursor == 0
    {
      if c.lower.Some? {
        RankByKey(es, c, c.lower.value);
        RankLower(es, c, c.lower.value);
        Seek(c.lower.value);
        return;
      }
      RankIs(es, c, 0);
      ok, forward, numberZero, pos := true, true, false, 0;
      if IterValid() {
        savedKey := es[pos].key;
        FindNextUserEntry(false, 0);
      } else {
        RankEnds(es, c);
        valid, cursor := false, 0;
      }
    }

    /** Goes back to the entry before the saved key. */
    method FindUserKeyBeforeSavedKey()
      requires Sorted(es) && -1 <= pos < |es| && Lo(es, savedKey) < Hi(es, savedKey)
      requires Lo(es, savedKey) - 1 <= pos <= Hi(es, savedKey)
      modifies this`pos
      ensures pos == Lo(es, savedKey) - 1
    {
      var numSkipped := 0;
      while IterValid()
        invariant Lo(es, savedKey) - 1 <= pos <= Hi(es, savedKey) && pos < |es|
        decreases pos
      {
        if es[pos].key < savedKey {
          return;
        }
        if numSkipped >= c.maxSkip {
          numSkipped := 0;
          IterSeek(Target(savedKey, MAX_SEQUENCE, SEEK_RANK));
          SeeksStart(es, savedKey, pos);
        } else {
          numSkipped := numSkipped + 1;
        }
        pos := pos - 1;
      }
    }

    /** The value of the saved key, looked for from its newest visible version. */
    method FindValueForCurrentKeyUsingSeek(ghost seen: nat) returns (r: bool)
      requires Sorted(es) && ok && Lo(es, savedKey) <= seen < Hi(es, savedKey) && es[seen].number <= c.snapshot
      modifies this`pos, this`valid, this`ok, this`value, this`context, this`merged
      ensures Has(Resolve(es, c, savedKey)) && r == ok
      ensures -1 <= pos <= |es| && (r ==> IterValid() && Lo(es, savedKey) <= pos <= Hi(es, savedKey))
    {
      var last := Target(savedKey, c.snapshot, SEEK_RANK);
      IterSeek(last);
      SeeksVisible(es, savedKey, c.snapshot, pos);
      assert es[pos].key == savedKey;
      ghost var newest := pos;
      var op := es[pos].op;
      if op.Merge? {
        merged := true;
        var base := CollectOperands();
        r := MergeWith(base);
        if r && base.None? && !IterValid() {
          IterSeek(last);
          SeeksVisible(es, savedKey, c.snapshot, pos);
          assert pos <= newest by { assert es[newest].number <= c.snapshot && newest < Hi(es, savedKey); }
        }
      } else {
        Newest(es, c, pos);
        valid, r := op.Put?, true;
        if op.Put? {
          value := op.value;
        }
      }
    }

    /** The value of the saved key, looked for from its oldest version. */
    method FindValueForCurrentKey() returns (r: bool)
      requires Sorted(es) && ok && IterValid() && pos == Hi(es, savedKey) - 1 && Lo(es, savedKey) <= pos
      modifies this`pos, this`valid, this`ok, this`value, this`context, this`merged
      ensures Has(Resolve(es, c, savedKey)) && r == ok
      ensures -1 <= pos <= |es| && (r ==> pos < |es| && Lo(es, savedKey) - 1 <= pos <= Hi(es, savedKey))
    {
      ghost var k, s := savedKey, c.snapshot;
      context, merged := context.Clear(), false;
      var lastNotMerge, lastEntry, numSkipped := Delete, Delete, 0;
      FoldEnd(es, k, s);
      while IterValid() && es[pos].key == savedKey && es[pos].number <= c.snapshot
        invariant ok && Lo(es, k) - 1 <= pos < Hi(es, k)
        invariant Gathered(Fold(es, pos + 1, k, s), lastNotMerge, context.GetOperands(), lastEntry)
        decreases pos
      {
        if numSkipped >= c.maxSkip {
          r := FindValueForCurrentKeyUsingSeek(pos);
          return;
        }
        GatherOne(es, k, s, pos, lastNotMerge, context.GetOperands(), lastEntry);
        lastEntry := es[pos].op;
        if lastEntry.Merge? {
          context := context.PushOperandBack(lastEntry.operand);
        } else {
          context, lastNotMerge := context.Clear(), lastEntry;
        }
        pos, numSkipped := pos - 1, numSkipped + 1;
      }
      GatheredAll(es, k, s, pos);
      if lastEntry.Merge? {
        merged := true;
        r := MergeWith(if lastNotMerge.Put? then Some(lastNotMerge.value) else None);
      } else {
        valid, r := lastEntry.Put?, true;
        if lastEntry.Put? {
          value := lastEntry.value;
        }
      }
    }

    /** Looks at one key of a backward scan: yields it, stops at it, or leaves the inner
        iterator before it. */
    method PrevKey() returns (done: bool)
      requires Sorted(es) && ok && !forward && IterValid() && IsStart(es, pos + 1) && !AboveUpper(c, es[pos].key)
      modifies this
      ensures done ==> Valid() && cursor == Rank(es, c, old(pos) + 1) - 1
      ensures !done ==> ok && !forward && -1 <= pos < old(pos) && IsStart(es, pos + 1)
      ensures !done && pos >= 0 ==> !AboveUpper(c, es[pos].key)
      ensures !done ==> Rank(es, c, pos + 1) == Rank(es, c, old(pos) + 1)
    {
      savedKey, cursor := es[pos].key, Rank(es, c, pos + 1) - 1;
      LastOfKey(es, pos);
      if BelowLower(c, savedKey) {
        BeforeLower(es, c, pos);
        RankEnds(es, c);
        valid := false;
        return true;
      }
      RankOfKey(es, c, savedKey);
      var r := FindValueForCurrentKey();
      if !r {
        return true;
      }
      FindUserKeyBeforeSavedKey();
      BelowUpper(es, c, pos, savedKey);
      done := valid;
    }

    /** Scans backward from the last version of a key to the nearest row. */
    method PrevInternal()
      requires Sorted(es) && ok && !forward && -1 <= pos < |es| && IsStart(es, pos + 1)
      requires pos >= 0 ==> !AboveUpper(c, es[pos].key)
      modifies this
      ensures Valid() && cursor == Rank(es, c, old(pos) + 1) - 1
    {
      ghost var rows := Rank(es, c, pos + 1);
      while IterValid()
        invariant ok && !forward && -1 <= pos < |es| && IsStart(es, pos + 1) && Rank(es, c, pos + 1) == rows
        invariant pos >= 0 ==> !AboveUpper(c, es[pos].key)
        decreases pos
      {
        var done := PrevKey();
        if done {
          return;
        }
      }
      RankIs(es, c, 0);
      RankEnds(es, c);
      valid, cursor := false, -1;
    }

    /** Turns a forward iterator around and goes back to the entry before the saved key. */
    method ReverseToBackward()
      requires Valid() && valid && forward
      modifies this`pos, this`forward
      ensures !forward && pos == Lo(es, savedKey) - 1
    {
      if merged && !IterValid() {
        IterSeek(Target(savedKey, MAX_SEQUENCE, SEEK_RANK));
        SeeksStart(es, savedKey, pos);
      }
      forward := false;
      FindUserKeyBeforeSavedKey();
    }

    method Prev()
      requires Valid() && valid
      modifies this
      ensures Valid() && cursor == old(cursor) - 1
    {
      if forward {
        ReverseToBackward();
      }
      StartsAt(es, savedKey);
      BelowUpper(es, c, pos, savedKey);
      PrevInternal();
    }

    method SeekForPrev(target: Key)
      requires Valid()
      modifies this
      ensures Valid() && cursor == RowsUpTo(View(es, c), target) - 1
    {
      ok, numberZero, savedKey := true, false, target;
      if AboveUpper(c, target) {
        savedKey := c.upper.value;
        IterSeekForPrev(Target(savedKey, MAX_SEQUENCE, 0));
      } else {
        IterSeekForPrev(Target(savedKey, 0, 0));
      }
      PrevTarget(es, c, target, savedKey, pos);
      if !IterValid() {
        RankIs(es, c, 0);
        RankEnds(es, c);
        valid, cursor := false, -1;
        return;
      }
      forward := false;
      PrevInternal();
    }

    method SeekToLast()
      requires Valid()
      modifies this
      ensures Valid() && cursor == |View(es, c)| - 1
    {
      if c.upper.Some? {
        RankUpper(es, c, c.upper.value);
        RankByKey(es, c, c.upper.value);
        SeekForPrev(c.upper.value);
        return;
      }
      RankIs(es, c, |es|);
      ok, forward, numberZero, pos := true, false, false, |es| - 1;
      PrevInternal();
    }
  }

  /** The entry that a backward seek starts from. */
  lemma PrevTarget(es: seq<Entry>, c: Config, target: Key, saved: Key, pos: int)
    requires Sorted(es) && saved == if AboveUpper(c, target) then c.upper.value else target
    requires SeeksBackTo(es, if AboveUpper(c, target) then Target(saved, MAX_SEQUENCE, 0) else Target(saved, 0, 0), pos)
    ensures IsStart(es, pos + 1) && Rank(es, c, pos + 1) == RowsUpTo(View(es, c), target)
    ensures pos >= 0 ==> !AboveUpper(c, es[pos].key)
  {
    SeeksLast(es, saved, pos);
    StartsAt(es, saved);
    RankByKey(es, c, target);
    if AboveUpper(c, target) {
      RankUpper(es, c, target);
    }
  }

  lemma LastOfKey(es: seq<Entry>, pos: nat)
    requires Sorted(es) && pos < |es| && IsStart(es, pos + 1)
    ensures Lo(es, es[pos].key) <= pos && pos + 1 == Hi(es, es[pos].key)
  {
    assert pos + 1 < |es| ==> Precedes(es[pos], es[pos + 1]);
  }

  lemma BelowUpper(es: seq<Entry>, c: Config, pos: int, k: Key)
    requires Sorted(es) && -1 <= pos < |es| && !AboveUpper(c, k)
    ensures pos >= 0 && es[pos].key <= k ==> !AboveUpper(c, es[pos].key)
  {
  }
}
