/** A scan of an LRUHandleTable in steps, between which the table may change in any way
    and may double any number of times (ApplyToSomeEntries under ApplyToAllEntries). */
module HandleScan {
  import opened LinearHashing
  import opened HashPositions

  /** The table at one step: its length bits and the tags it holds. */
  datatype Step = Step(bits: nat, tags: set<Tag>)

  /** Tables start with 16 chains, never shrink, and stop doubling at 2^31. */
  ghost predicate Growing(steps: seq<Step>) {
    && (forall j :: 0 <= j < |steps| ==> 4 <= steps[j].bits <= 31)
    && (forall j :: 0 < j < |steps| ==> steps[j - 1].bits <= steps[j].bits)
  }

  /** The saved position before step j. */
  ghost function StateAt(steps: seq<Step>, count: nat, j: nat): nat
    requires Growing(steps) && j <= |steps|
  {
    if j == 0 then 0 else Advance(StateAt(steps, count, j - 1), steps[j - 1].bits, count)
  }

  /** Every step starts on a scan that is not over. */
  ghost predicate Scan(steps: seq<Step>, count: nat) {
    Growing(steps) && forall j :: 0 <= j < |steps| ==> StateAt(steps, count, j) != DONE
  }

  /** The tags that step j visits. */
  ghost predicate Visits(steps: seq<Step>, count: nat, j: nat, tag: Tag)
    requires Growing(steps) && j < |steps|
  {
    tag in steps[j].tags && Covered(tag.hash, StateAt(steps, count, j), steps[j].bits, count)
  }

  // ---------------------------------------------------------------- positions

  /** How far in 2^64 a saved position is. */
  function Position(state: nat): nat { if state == DONE then DONE + 1 else state }

  /** A position between two chains. */
  predicate Aligned(state: nat, bits: nat)
    requires bits <= STATE_BITS
  {
    state < DONE && state == Begin(state, bits) * Pow2(STATE_BITS - bits)
  }

  lemma QuotientAtLeast(h: nat, d: nat, x: nat)
    requires d > 0
    ensures x <= Quotient(h, d) <==> x * d <= h
  {
    QuotientIs(h, d);
    var q := h / d;
    var e := q - x;
    assert h == q * d + h % d;
    assert e * d == q * d - x * d;
    if e >= 0 {
      NonNegative(e, d);
    } else {
      NonNegative(-1 - e, d);
      Distribute(-1 - e, 1, d);
      assert (-e) * d == -(e * d);
    }
  }

  lemma QuotientOf(x: nat, d: nat)
    requires d > 0
    ensures Quotient(x * d, d) == x
  {
    NonNegative(x, d);
    ModOf(x * d, d, x, 0);
    QuotientIs(x * d, d);
  }

  lemma FinerBy(state: nat, x: nat, f: nat, d: nat)
    requires d > 0 && state == x * (f * d)
    ensures state == Quotient(state, d) * d
  {
    assert x * (f * d) == (x * f) * d;
    QuotientOf(x * f, d);
  }

  /** A position between two chains stays one when the table doubles. */
  lemma AlignedFiner(state: nat, bits: nat, bits': nat)
    requires bits <= bits' <= STATE_BITS && Aligned(state, bits)
    ensures Aligned(state, bits')
  {
    Pow2Sum(bits' - bits, STATE_BITS - bits');
    FinerBy(state, Begin(state, bits), Pow2(bits' - bits), Pow2(STATE_BITS - bits'));
  }

  lemma Scaled(a: nat, b: nat, k: nat)
    requires k > 0
    ensures a * k <= b * k <==> a <= b
  {
    if a <= b {
      NonNegative(b - a, k);
      Distribute(b - a, a, k);
    } else {
      NonNegative(a - b - 1, k);
      Distribute(a - b - 1, 1, k);
      Distribute(a - b, b, k);
    }
  }

  lemma BoundaryBy(h: nat, x: nat, d: nat)
    requires d > 0
    ensures x <= Quotient(h, d) <==> x * (d * 0x1_0000_0000) <= h * 0x1_0000_0000
  {
    QuotientAtLeast(h, d, x);
    assert x * (d * 0x1_0000_0000) == (x * d) * 0x1_0000_0000;
  }

  lemma WiderBy(bits: nat)
    requires bits <= HASH_BITS
    ensures Pow2(STATE_BITS - bits) == Pow2(HASH_BITS - bits) * 0x1_0000_0000
  {
    Widths();
    Pow2Sum(HASH_BITS - bits, HASH_BITS);
  }

  /** A chain boundary compared with a hash, in chains and in 2^64. */
  lemma Boundary(hash: Hash, bits: nat, x: nat)
    requires bits <= HASH_BITS
    ensures x <= Bucket(hash, bits) <==> x * Pow2(STATE_BITS - bits) <= hash * 0x1_0000_0000
  {
    WiderBy(bits);
    BoundaryBy(hash, x, Pow2(HASH_BITS - bits));
  }

  /** A step moves on to a boundary, and visits the hashes up to there. */
  lemma StepCovers(state: nat, bits: nat, count: nat, hash: Hash)
    requires bits <= 31 && count > 0 && Aligned(state, bits)
    ensures Covered(hash, state, bits, count) <==> state <= hash * 0x1_0000_0000 < Position(Advance(state, bits, count))
  {
    var x := Begin(state, bits);
    Boundary(hash, bits, x);
    Boundary(hash, bits, x + count);
    BucketInTable(hash, bits);
    EndBelow(state, bits, count);
  }

  /** Stepping over chains of width d in a table of n chains. */
  lemma EndBy(x: nat, count: nat, n: nat, d: nat)
    requires n * d == DONE + 1 && x < n && d > 1
    ensures x * d + d <= DONE + 1
    ensures x + count < n ==> (x + count) * d < DONE
    ensures count > 0 ==> (x + count) * d >= x * d + d
    ensures Quotient((x + count) * d, d) == x + count
  {
    QuotientOf(x + count, d);
    Scaled(x + 1, n, d);
    Distribute(x, 1, d);
    Scaled(x + count + 1, n, d);
    Distribute(x + count, 1, d);
    Distribute(x, count, d);
    Scaled(1, count, d);
  }

  lemma ChainWidth(bits: nat)
    requires bits <= 31
    ensures Pow2(bits) * Pow2(STATE_BITS - bits) == DONE + 1 && Pow2(STATE_BITS - bits) >= 0x2_0000_0000
  {
    Widths();
    Pow2Sum(bits, STATE_BITS - bits);
    Pow2Monotone(33, STATE_BITS - bits);
    assert Pow2(33) == 2 * Pow2(HASH_BITS);
  }

  /** The next position is between two chains too, and at least 2^33 further on. */
  lemma EndBelow(state: nat, bits: nat, count: nat)
    requires bits <= 31 && Aligned(state, bits)
    ensures Advance(state, bits, count) == DONE || Aligned(Advance(state, bits, count), bits)
    ensures Begin(state, bits) + count < Pow2(bits) <==> Advance(state, bits, count) != DONE
    ensures count > 0 ==> Position(Advance(state, bits, count)) >= state + 0x2_0000_0000
  {
    ChainWidth(bits);
    BeginInTable(state, bits);
    EndBy(Begin(state, bits), count, Pow2(bits), Pow2(STATE_BITS - bits));
  }

  // ---------------------------------------------------------------- whole scans

  lemma {:induction false} StateAligned(steps: seq<Step>, count: nat, j: nat)
    requires Scan(steps, count) && j < |steps|
    ensures Aligned(StateAt(steps, count, j), steps[j].bits)
    decreases j
  {
    if j == 0 {
    } else {
      StateAligned(steps, count, j - 1);
      EndBelow(StateAt(steps, count, j - 1), steps[j - 1].bits, count);
      AlignedFiner(StateAt(steps, count, j), steps[j - 1].bits, steps[j].bits);
    }
  }

  lemma {:induction false} PositionsGrow(steps: seq<Step>, count: nat, i: nat, j: nat)
    requires Scan(steps, count) && count > 0 && i <= j <= |steps|
    ensures Position(StateAt(steps, count, i)) + 0x2_0000_0000 * (j - i) <= Position(StateAt(steps, count, j))
    decreases j - i
  {
    if i < j {
      PositionsGrow(steps, count, i, j - 1);
      StateAligned(steps, count, j - 1);
      EndBelow(StateAt(steps, count, j - 1), steps[j - 1].bits, count);
    }
  }

  /** A scan ends: it never takes more than 2^31 steps. */
  lemma ScanEnds(steps: seq<Step>, count: nat)
    requires Scan(steps, count) && count > 0
    ensures |steps| <= 0x8000_0000
  {
    if |steps| > 0 {
      PositionsGrow(steps, count, 0, |steps| - 1);
      StateAligned(steps, count, |steps| - 1);
    }
  }

  lemma {:induction false} Locate(steps: seq<Step>, count: nat, hash: Hash, n: nat) returns (j: nat)
    requires Scan(steps, count) && count > 0 && n <= |steps|
             && Position(StateAt(steps, count, n)) > hash * 0x1_0000_0000
    ensures j < n && Covered(hash, StateAt(steps, count, j), steps[j].bits, count)
    decreases n
  {
    if Position(StateAt(steps, count, n - 1)) > hash * 0x1_0000_0000 {
      j := Locate(steps, count, hash, n - 1);
    } else {
      StateAligned(steps, count, n - 1);
      StepCovers(StateAt(steps, count, n - 1), steps[n - 1].bits, count, hash);
      j := n - 1;
    }
  }

  /** Nothing is visited twice, whatever happens to the table between the steps. */
  lemma VisitedAtMostOnce(steps: seq<Step>, count: nat, i: nat, j: nat, tag: Tag)
    requires Scan(steps, count) && count > 0 && i < |steps| && j < |steps|
    requires Visits(steps, count, i, tag) && Visits(steps, count, j, tag)
    ensures i == j
  {
    StateAligned(steps, count, i);
    StateAligned(steps, count, j);
    StepCovers(StateAt(steps, count, i), steps[i].bits, count, tag.hash);
    StepCovers(StateAt(steps, count, j), steps[j].bits, count, tag.hash);
    if i < j {
      PositionsGrow(steps, count, i + 1, j);
    } else if j < i {
      PositionsGrow(steps, count, j + 1, i);
    }
  }

  /** A scan that is over has visited, once, every entry that stayed in the table. */
  lemma StayingVisitedOnce(steps: seq<Step>, count: nat, tag: Tag) returns (j: nat)
    requires Scan(steps, count) && count > 0 && StateAt(steps, count, |steps|) == DONE
    requires forall i :: 0 <= i < |steps| ==> tag in steps[i].tags
    ensures j < |steps| && Visits(steps, count, j, tag)
    ensures forall i: nat :: i < |steps| && Visits(steps, count, i, tag) ==> i == j
  {
    j := Locate(steps, count, tag.hash, |steps|);
    forall i: nat | i < |steps| && Visits(steps, count, i, tag) ensures i == j {
      VisitedAtMostOnce(steps, count, i, j, tag);
    }
  }

  /** The count that ApplyToAllEntries passes on for the one it is asked for. */
  function CountPerStep(averageEntriesPerLock: nat): nat {
    if averageEntriesPerLock < 1 then averageEntriesPerLock else 1
  }

  // ---------------------------------------------------------------- all shards in rotation

  /** What the scan finds in a shard in each round: the table of shard i in round r. */
  type Tables = (nat, nat) -> Step

  /** The first r of them. */
  function Steps(tables: Tables, i: nat, r: nat): (steps: seq<Step>)
    ensures |steps| == r && forall j :: 0 <= j < r ==> steps[j] == tables(j, i)
  {
    seq(r, (j: nat) => tables(j, i))
  }

  ghost predicate ShardsGrow(tables: Tables) { forall i, r :: Growing(Steps(tables, i, r)) }

  lemma TableBits(tables: Tables, i: nat, r: nat)
    requires ShardsGrow(tables)
    ensures 4 <= tables(r, i).bits <= 31
  {
    assert Growing(Steps(tables, i, r + 1)) && Steps(tables, i, r + 1)[r] == tables(r, i);
  }

  /** states[i] before round r. A shard whose scan is over is passed over. */
  function StateOf(tables: Tables, i: nat, count: nat, r: nat): nat
    requires ShardsGrow(tables)
  {
    if r == 0 then 0
    else
      var s := StateOf(tables, i, count, r - 1);
      TableBits(tables, i, r - 1);
      if s == DONE then DONE else Advance(s, tables(r - 1, i).bits, count)
  }

  /** Round r visits the tag in shard i. */
  predicate VisitsIn(tables: Tables, i: nat, count: nat, r: nat, tag: Tag)
    requires ShardsGrow(tables)
  {
    var step, s := tables(r, i), StateOf(tables, i, count, r);
    TableBits(tables, i, r);
    s != DONE && tag in step.tags && Covered(tag.hash, s, step.bits, count)
  }

  /** As long as shard i is not done, the rounds are the steps of a scan of it. */
  lemma {:induction false} RoundState(tables: Tables, i: nat, count: nat, r: nat, j: nat)
    requires ShardsGrow(tables) && j <= r && (j > 0 ==> StateOf(tables, i, count, j - 1) != DONE)
    ensures Growing(Steps(tables, i, r)) && StateAt(Steps(tables, i, r), count, j) == StateOf(tables, i, count, j)
    decreases j
  {
    if j > 0 {
      RoundState(tables, i, count, r, j - 1);
    }
  }

  lemma {:induction false} NotDoneBefore(tables: Tables, i: nat, count: nat, r: nat, j: nat)
    requires ShardsGrow(tables) && j <= r && StateOf(tables, i, count, r) != DONE
    ensures StateOf(tables, i, count, j) != DONE
    decreases r
  {
    if j < r {
      NotDoneBefore(tables, i, count, r - 1, j);
    }
  }

  lemma RoundNotDone(tables: Tables, i: nat, count: nat, r: nat, j: nat)
    requires ShardsGrow(tables) && j <= r && StateOf(tables, i, count, r) != DONE
    ensures Growing(Steps(tables, i, r + 1))
    ensures StateAt(Steps(tables, i, r + 1), count, j) == StateOf(tables, i, count, j) != DONE
  {
    NotDoneBefore(tables, i, count, r, j);
    if j > 0 {
      NotDoneBefore(tables, i, count, r, j - 1);
    }
    RoundState(tables, i, count, r + 1, j);
  }

  lemma RoundsAreScan(tables: Tables, i: nat, count: nat, r: nat)
    requires ShardsGrow(tables) && StateOf(tables, i, count, r) != DONE
    ensures Scan(Steps(tables, i, r + 1), count)
  {
    var steps := Steps(tables, i, r + 1);
    assert Growing(steps);
    forall j: nat | j <= r ensures StateAt(steps, count, j) != DONE { RoundNotDone(tables, i, count, r, j); }
  }

  /** In how many of the first r rounds the tag is visited in shard i. */
  ghost function VisitCount(tables: Tables, i: nat, count: nat, r: nat, tag: Tag): nat
    requires ShardsGrow(tables)
  {
    if r == 0 then 0
    else VisitCount(tables, i, count, r - 1, tag) + if VisitsIn(tables, i, count, r - 1, tag) then 1 else 0
  }

  lemma RoundVisits(tables: Tables, i: nat, count: nat, q: nat, r: nat, tag: Tag)
    requires ShardsGrow(tables) && StateOf(tables, i, count, r) != DONE && q <= r
    ensures Growing(Steps(tables, i, r + 1))
    ensures VisitsIn(tables, i, count, q, tag) <==> Visits(Steps(tables, i, r + 1), count, q, tag)
  {
    RoundNotDone(tables, i, count, r, q);
  }

  lemma {:induction false} CountedRound(tables: Tables, i: nat, count: nat, r: nat, tag: Tag) returns (q: nat)
    requires ShardsGrow(tables) && VisitCount(tables, i, count, r, tag) > 0
    ensures q < r && VisitsIn(tables, i, count, q, tag)
    decreases r
  {
    if VisitsIn(tables, i, count, r - 1, tag) {
      q := r - 1;
    } else {
      q := CountedRound(tables, i, count, r - 1, tag);
    }
  }

  lemma VisitsInOnce(tables: Tables, i: nat, count: nat, q: nat, r: nat, tag: Tag)
    requires ShardsGrow(tables) && count > 0 && q <= r
    requires VisitsIn(tables, i, count, q, tag) && VisitsIn(tables, i, count, r, tag)
    ensures q == r
  {
    RoundsAreScan(tables, i, count, r);
    RoundVisits(tables, i, count, q, r, tag);
    RoundVisits(tables, i, count, r, r, tag);
    VisitedAtMostOnce(Steps(tables, i, r + 1), count, q, r, tag);
  }

  lemma {:induction false} CountAtMostOne(tables: Tables, i: nat, count: nat, r: nat, tag: Tag)
    requires ShardsGrow(tables) && count > 0
    ensures VisitCount(tables, i, count, r, tag) <= 1
    decreases r
  {
    if r > 0 {
      CountAtMostOne(tables, i, count, r - 1, tag);
      if VisitsIn(tables, i, count, r - 1, tag) && VisitCount(tables, i, count, r - 1, tag) > 0 {
        var q := CountedRound(tables, i, count, r - 1, tag);
        VisitsInOnce(tables, i, count, q, r - 1, tag);
      }
    }
  }

  lemma {:induction false} CountGrows(tables: Tables, i: nat, count: nat, q: nat, r: nat, tag: Tag)
    requires ShardsGrow(tables) && q < r && VisitsIn(tables, i, count, q, tag)
    ensures VisitCount(tables, i, count, r, tag) > 0
    decreases r
  {
    if q < r - 1 {
      CountGrows(tables, i, count, q, r - 1, tag);
    }
  }

  lemma {:induction false} LastRound(tables: Tables, i: nat, count: nat, r: nat) returns (q: nat)
    requires ShardsGrow(tables) && StateOf(tables, i, count, r) == DONE
    ensures q < r && StateOf(tables, i, count, q) != DONE && StateOf(tables, i, count, q + 1) == DONE
    decreases r
  {
    if StateOf(tables, i, count, r - 1) == DONE {
      q := LastRound(tables, i, count, r - 1);
    } else {
      q := r - 1;
    }
  }

  /** Once shard i is done, an entry that stayed in it has been visited exactly once. */
  lemma StayingCountedOnce(tables: Tables, i: nat, count: nat, r: nat, tag: Tag)
    requires ShardsGrow(tables) && count > 0 && StateOf(tables, i, count, r) == DONE
    requires forall q: nat :: q < r ==> tag in tables(q, i).tags
    ensures VisitCount(tables, i, count, r, tag) == 1
  {
    var q := LastRound(tables, i, count, r);
    RoundsAreScan(tables, i, count, q);
    RoundState(tables, i, count, q + 1, q + 1);
    var j := StayingVisitedOnce(Steps(tables, i, q + 1), count, tag);
    RoundVisits(tables, i, count, j, q, tag);
    CountGrows(tables, i, count, j, r, tag);
    CountAtMostOne(tables, i, count, r, tag);
  }

  /** A rotation of r rounds: before each round but the first some shard is not done. */
  ghost predicate Rotation(tables: Tables, n: nat, count: nat, r: nat)
    requires ShardsGrow(tables)
  {
    forall q: nat :: 0 < q < r ==> !AllDone(tables, n, count, q)
  }

  ghost predicate AllDone(tables: Tables, n: nat, count: nat, r: nat)
    requires ShardsGrow(tables)
  {
    forall i: nat :: i < n ==> StateOf(tables, i, count, r) == DONE
  }

  lemma RoundsBounded(tables: Tables, i: nat, count: nat, r: nat)
    requires ShardsGrow(tables) && count > 0 && StateOf(tables, i, count, r) != DONE
    ensures r < 0x8000_0000
  {
    RoundsAreScan(tables, i, count, r);
    ScanEnds(Steps(tables, i, r + 1), count);
  }

  lemma RotationEnds(tables: Tables, n: nat, count: nat, r: nat)
    requires ShardsGrow(tables) && Rotation(tables, n, count, r) && count > 0
    ensures r <= 0x8000_0000
  {
    if r > 1 {
      assert !AllDone(tables, n, count, r - 1);
      var i: nat :| i < n && StateOf(tables, i, count, r - 1) != DONE;
      RoundsBounded(tables, i, count, r - 1);
    }
  }

  /** The calls so far: all of the first r rounds, and in round r the first m shards. */
  ghost predicate Tally(visited: multiset<(nat, Tag)>, tables: Tables, n: nat, count: nat, r: nat, m: nat)
    requires ShardsGrow(tables)
  {
    forall i: nat, tag ::
      visited[(i, tag)] == if i < n then VisitCount(tables, i, count, if i < m then r + 1 else r, tag) else 0
  }

  /** The callbacks of one step: the shard's number with each tag visited. */
  function Calls(i: nat, step: Step, state: nat, count: nat): set<(nat, Tag)>
    requires step.bits <= HASH_BITS
  {
    set tag | tag in step.tags && Covered(tag.hash, state, step.bits, count) :: (i, tag)
  }

  lemma TallyStep(visited: multiset<(nat, Tag)>, tables: Tables, n: nat, count: nat, r: nat, m: nat)
    requires ShardsGrow(tables) && m < n && tables(r, m).bits <= HASH_BITS && Tally(visited, tables, n, count, r, m)
    ensures var s := StateOf(tables, m, count, r);
            var more := if s == DONE then visited else visited + multiset(Calls(m, tables(r, m), s, count));
            Tally(more, tables, n, count, r, m + 1)
  {
    var s := StateOf(tables, m, count, r);
    var more := if s == DONE then visited else visited + multiset(Calls(m, tables(r, m), s, count));
    forall i: nat, tag
      ensures more[(i, tag)] == if i < n then VisitCount(tables, i, count, if i < m + 1 then r + 1 else r, tag) else 0
    {
      assert visited[(i, tag)] == if i < n then VisitCount(tables, i, count, if i < m then r + 1 else r, tag) else 0;
      assert s != DONE ==> ((i, tag) in Calls(m, tables(r, m), s, count) <==>
             i == m && VisitsIn(tables, m, count, r, tag));
    }
  }

  /** One round over the shards: tells whether any is left, and what has been called back. */
  method Round(states: array<nat>, count: nat, tables: Tables, r: nat, visited: multiset<(nat, Tag)>)
      returns (remaining: bool, visited': multiset<(nat, Tag)>)
    requires ShardsGrow(tables) && forall i :: 0 <= i < states.Length ==> states[i] == StateOf(tables, i, count, r)
    requires Tally(visited, tables, states.Length, count, r, 0)
    modifies states
    ensures forall i :: 0 <= i < states.Length ==> states[i] == StateOf(tables, i, count, r + 1)
    ensures remaining <==> !AllDone(tables, states.Length, count, r + 1)
    ensures Tally(visited', tables, states.Length, count, r + 1, 0)
  {
    remaining, visited' := false, visited;
    for i := 0 to states.Length
      invariant forall j :: 0 <= j < states.Length ==>
                states[j] == StateOf(tables, j, count, if j < i then r + 1 else r)
      invariant remaining <==> !AllDone(tables, i, count, r + 1)
      invariant Tally(visited', tables, states.Length, count, r, i)
    {
      TableBits(tables, i, r);
      TallyStep(visited', tables, states.Length, count, r, i);
      if states[i] != DONE {
        visited' := visited' + multiset(Calls(i, tables(r, i), states[i], count));
        states[i] := Advance(states[i], tables(r, i).bits, count);
        remaining := remaining || states[i] != DONE;
      }
    }
  }

  /** ApplyToAllEntries on n shards whose tables change between any two steps. It never
      calls back twice for an entry, and calls back once for an entry that stays. */
  method ApplyToAllEntries(n: nat, averageEntriesPerLock: nat, tables: Tables)
      returns (visited: multiset<(nat, Tag)>, rounds: nat)
    requires ShardsGrow(tables) && averageEntriesPerLock > 0
    ensures 1 <= rounds <= 0x8000_0000
    ensures forall i: nat, tag :: visited[(i, tag)] <= 1
    ensures forall i: nat, tag :: i < n && (forall r: nat :: r < rounds ==> tag in tables(r, i).tags) ==>
            visited[(i, tag)] == 1
    ensures forall i: nat, tag :: (i, tag) in visited ==>
            i < n && exists r: nat :: r < rounds && tag in tables(r, i).tags
  {
    var count := CountPerStep(averageEntriesPerLock);
    var states := new nat[n](_ => 0);
    var remaining := true;
    visited, rounds := multiset{}, 0;
    while remaining
      invariant forall i :: 0 <= i < n ==> states[i] == StateOf(tables, i, count, rounds)
      invariant Rotation(tables, n, count, rounds) && (remaining <==> rounds == 0 || !AllDone(tables, n, count, rounds))
      invariant rounds <= 0x8000_0000 && Tally(visited, tables, n, count, rounds, 0)
      decreases 0x8000_0000 - rounds
    {
      RotationEnds(tables, n, count, rounds + 1);
      remaining, visited := Round(states, count, tables, rounds, visited);
      rounds := rounds + 1;
    }
    VisitedOnce(visited, tables, n, count, rounds);
  }

  lemma VisitedOnce(visited: multiset<(nat, Tag)>, tables: Tables, n: nat, count: nat, r: nat)
    requires ShardsGrow(tables) && count > 0 && Tally(visited, tables, n, count, r, 0) && AllDone(tables, n, count, r)
    ensures forall i: nat, tag :: visited[(i, tag)] <= 1
    ensures forall i: nat, tag :: i < n && (forall q: nat :: q < r ==> tag in tables(q, i).tags) ==>
            visited[(i, tag)] == 1
    ensures forall i: nat, tag :: (i, tag) in visited ==> i < n && exists q: nat :: q < r && tag in tables(q, i).tags
  {
    forall i: nat, tag ensures visited[(i, tag)] <= 1 { CountAtMostOne(tables, i, count, r, tag); }
    forall i: nat, tag | i < n && (forall q: nat :: q < r ==> tag in tables(q, i).tags) ensures visited[(i, tag)] == 1 {
      StayingCountedOnce(tables, i, count, r, tag);
    }
    forall i: nat, tag | (i, tag) in visited ensures i < n && exists q: nat :: q < r && tag in tables(q, i).tags {
      var q := CountedRound(tables, i, count, r, tag);
    }
  }

  /** With no chains to a step the scans do not move. */
  lemma {:induction false} StuckRounds(tables: Tables, i: nat, r: nat)
    requires ShardsGrow(tables)
    ensures StateOf(tables, i, 0, r) == 0
  {
    if r > 0 {
      StuckRounds(tables, i, r - 1);
    }
  }

  /** The rotation is bounded exactly if it is asked for at least one entry per lock: never
      more than 2^31 rounds, against rotations of any length. */
  lemma RotationEndsExactly(n: nat, averageEntriesPerLock: nat)
    requires n > 0
    ensures averageEntriesPerLock > 0 <==>
              forall tables, r ::
                ShardsGrow(tables) && Rotation(tables, n, CountPerStep(averageEntriesPerLock), r) ==> r <= 0x8000_0000
  {
    var count := CountPerStep(averageEntriesPerLock);
    if averageEntriesPerLock > 0 {
      forall tables, r | ShardsGrow(tables) && Rotation(tables, n, count, r) ensures r <= 0x8000_0000 {
        RotationEnds(tables, n, count, r);
      }
    } else {
      var tables: Tables := (r, i) => Step(4, {});
      var r := 0x8000_0001;
      forall i, q ensures Growing(Steps(tables, i, q)) { }
      forall q: nat | 0 < q < r ensures !AllDone(tables, n, count, q) { StuckRounds(tables, 0, q); }
      assert Rotation(tables, n, count, r);
    }
  }
}
