/** What a snapshot of a column family shows to an iterator: internal entries, their
    visible versions folded into values, and the sorted view of live user keys. */
module DbEntries {
  import opened Options

  /** User keys under an arbitrary dense total order; only comparisons are used. */
  type Key = real
  type Value = string

  datatype Op = Put(value: Value) | Delete | SingleDelete | Merge(operand: Value) {
    /** The value type, low byte of the packed sequence number. */
    function Rank(): nat {
      match this
      case Delete => 0
      case Put(_) => 1
      case Merge(_) => 2
      case SingleDelete => 7
    }
  }

  /** kValueTypeForSeek and kMaxSequenceNumber. */
  const SEEK_RANK: nat := 0x16
  const MAX_SEQUENCE: nat := 0xff_ffff_ffff_ffff

  datatype Entry = Entry(key: Key, number: nat, op: Op)

  /** User keys ascend; versions of a key go from new to old and no two share a number. */
  ghost predicate Sorted(es: seq<Entry>) {
    && (forall i :: 0 <= i < |es| ==> es[i].number < MAX_SEQUENCE)
    && forall i, j {:trigger Precedes(es[i], es[j])} :: 0 <= i < j < |es| ==> Precedes(es[i], es[j])
  }

  predicate Precedes(a: Entry, b: Entry) { a.key < b.key || (a.key == b.key && a.number > b.number) }

  /** An internal key to seek to. */
  datatype Target = Target(key: Key, number: nat, rank: nat)

  /** InternalKeyComparator: user key ascending, then packed number and type descending. */
  predicate Before(e: Entry, t: Target) {
    e.key < t.key || (e.key == t.key && (e.number > t.number || (e.number == t.number && e.op.Rank() > t.rank)))
  }

  predicate NotAfter(e: Entry, t: Target) {
    Before(e, t) || (e.key == t.key && e.number == t.number && e.op.Rank() == t.rank)
  }

  /** How many leading entries satisfy p. */
  function Leading(es: seq<Entry>, p: Entry -> bool): (r: nat)
    ensures r <= |es| && (forall i :: 0 <= i < r ==> p(es[i])) && (r < |es| ==> !p(es[r]))
  {
    if es == [] || !p(es[0]) then 0 else 1 + Leading(es[1..], p)
  }

  lemma PositionOf(es: seq<Entry>, k: Key)
    requires Sorted(es)
    ensures exists r: nat :: r <= |es| && IsLo(es, k, r)
    ensures exists r: nat :: r <= |es| && IsHi(es, k, r)
  {
    var lo, hi := Leading(es, (e: Entry) => e.key < k), Leading(es, (e: Entry) => e.key <= k);
    assert forall i :: lo < i < |es| ==> Precedes(es[lo], es[i]);
    assert forall i :: hi < i < |es| ==> Precedes(es[hi], es[i]);
    assert IsLo(es, k, lo) && IsHi(es, k, hi);
  }

  ghost predicate IsLo(es: seq<Entry>, k: Key, r: nat)
    requires r <= |es|
  {
    (forall i :: 0 <= i < r ==> es[i].key < k) && (forall i :: r <= i < |es| ==> es[i].key >= k)
  }

  ghost predicate IsHi(es: seq<Entry>, k: Key, r: nat)
    requires r <= |es|
  {
    (forall i :: 0 <= i < r ==> es[i].key <= k) && (forall i :: r <= i < |es| ==> es[i].key > k)
  }

  /** The position of the first entry of a user key, and one past its last. */
  ghost function Lo(es: seq<Entry>, k: Key): (r: nat)
    requires Sorted(es)
    ensures r <= |es| && IsLo(es, k, r)
  {
    PositionOf(es, k);
    var r: nat :| r <= |es| && IsLo(es, k, r);
    r
  }

  ghost function Hi(es: seq<Entry>, k: Key): (r: nat)
    requires Sorted(es)
    ensures Lo(es, k) <= r <= |es| && IsHi(es, k, r)
  {
    PositionOf(es, k);
    var r: nat :| r <= |es| && IsHi(es, k, r);
    assert Lo(es, k) > 0 ==> es[Lo(es, k) - 1].key < k;
    r
  }

  // ---------------------------------------------------------------- versions

  /** The state of a key after some of its versions: a base value, and operands merged
      on top of it, oldest first. */
  datatype Versions = Versions(base: Option<Value>, operands: seq<Value>)

  const NOTHING := Versions(None, [])

  function Apply(v: Versions, op: Op): Versions {
    match op
    case Put(x) => Versions(Some(x), [])
    case Delete => NOTHING
    case SingleDelete => NOTHING
    case Merge(m) => Versions(v.base, v.operands + [m])
  }

  /** The visible versions of a key from position i on, applied from the oldest to the newest. */
  ghost function Fold(es: seq<Entry>, i: nat, k: Key, snapshot: nat): Versions
    requires i <= |es|
    decreases |es| - i
  {
    if i == |es| then NOTHING
    else
      var older := Fold(es, i + 1, k, snapshot);
      if es[i].key == k && es[i].number <= snapshot then Apply(older, es[i].op) else older
  }

  /** A full merge of operands, oldest first, on a base value; it may fail. */
  type Merger = (Key, Option<Value>, seq<Value>) -> Option<Value>

  datatype Outcome = Absent | Present(value: Value) | Failed

  function MergeOutcome(r: Option<Value>): Outcome { if r.Some? then Present(r.value) else Failed }

  function Settle(k: Key, v: Versions, merge: Merger): Outcome {
    if v.operands != [] then MergeOutcome(merge(k, v.base, v.operands))
    else if v.base.Some? then Present(v.base.value)
    else Absent
  }

  // ---------------------------------------------------------------- the view

  datatype Config = Config(snapshot: nat, lower: Option<Key>, upper: Option<Key>, merge: Merger, maxSkip: nat)

  predicate InBounds(c: Config, k: Key) { !BelowLower(c, k) && !AboveUpper(c, k) }

  predicate BelowLower(c: Config, k: Key) { c.lower.Some? && k < c.lower.value }

  predicate AboveUpper(c: Config, k: Key) { c.upper.Some? && k >= c.upper.value }

  ghost function Resolve(es: seq<Entry>, c: Config, k: Key): Outcome { Settle(k, Fold(es, 0, k, c.snapshot), c.merge) }

  datatype Row = Row(key: Key, outcome: Outcome)

  /** The rows whose keys first occur among the first n entries. */
  ghost function ViewTo(es: seq<Entry>, c: Config, n: nat): (r: seq<Row>)
    requires n <= |es|
  {
    if n == 0 then []
    else
      var k := es[n - 1].key;
      ViewTo(es, c, n - 1) +
      (if IsStart(es, n - 1) && InBounds(c, k) && Resolve(es, c, k) != Absent then [Row(k, Resolve(es, c, k))] else [])
  }

  /** The entry is the newest one of its key, or the end. */
  ghost predicate IsStart(es: seq<Entry>, i: nat)
    requires i <= |es|
  {
    i == 0 || i == |es| || es[i - 1].key != es[i].key
  }

  /** What an iterator shows: the live user keys within the bounds, in order. */
  ghost function View(es: seq<Entry>, c: Config): seq<Row> { ViewTo(es, c, |es|) }

  // ---------------------------------------------------------------- a plain cursor over the view

  datatype Command = Next | Prev | Seek(key: Key) | SeekForPrev(key: Key) | SeekToFirst | SeekToLast

  /** What a user sees: Valid(), key(), value() and status(). */
  datatype Shown = Invalid | At(key: Key, value: Value) | Error

  ghost function Show(view: seq<Row>, i: int): Shown {
    if 0 <= i < |view| then
      match view[i].outcome
      case Present(v) => At(view[i].key, v)
      case _ => Error
    else Invalid
  }

  /** How many rows have smaller keys, and how many have keys up to k. */
  ghost function RowsBelow(view: seq<Row>, k: Key): nat {
    if view == [] || view[0].key >= k then 0 else 1 + RowsBelow(view[1..], k)
  }

  ghost function RowsUpTo(view: seq<Row>, k: Key): nat {
    if view == [] || view[0].key > k then 0 else 1 + RowsUpTo(view[1..], k)
  }

  ghost function Moved(view: seq<Row>, i: int, command: Command): int {
    match command
    case Next => if Show(view, i).At? then i + 1 else i
    case Prev => if Show(view, i).At? then i - 1 else i
    case Seek(k) => RowsBelow(view, k)
    case SeekForPrev(k) => RowsUpTo(view, k) - 1
    case SeekToFirst => 0
    case SeekToLast => |view| - 1
  }

  ghost function CursorRun(view: seq<Row>, i: int, commands: seq<Command>): seq<Shown>
    decreases |commands|
  {
    if commands == [] then []
    else
      var j := Moved(view, i, commands[0]);
      [Show(view, j)] + CursorRun(view, j, commands[1..])
  }
}
