/** AutoHyperClockTable::Evict, run by one thread on a table that does not grow:
    the clock pointer sweeps groups of chains, four passes at most. */
module AutoEvict {
  import opened ClockEntries
  import opened Options

  type Chain = seq<Entry>

  /** A chain after a clock update of each of its entries (PurgeImpl). */
  function Sweep(c: Chain): Chain {
    if c == [] then []
    else match ClockUpdate(c[0])
         case Some(e) => [e] + Sweep(c[1..])
         case None => Sweep(c[1..])
  }

  /** A chain after n sweeps. */
  function SweepN(c: Chain, n: nat): Chain {
    if n == 0 then c else Sweep(SweepN(c, n - 1))
  }

  /** The referenced entries of a chain, in order. */
  function Pinned(c: Chain): Chain {
    if c == [] then [] else if c[0].Refs() != 0 then [c[0]] + Pinned(c[1..]) else Pinned(c[1..])
  }

  function ChargeOf(c: Chain): nat {
    if c == [] then 0 else c[0].charge + ChargeOf(c[1..])
  }

  /** Unreferenced entries have less than this left on their clock. */
  ghost predicate Younger(c: Chain, bound: int) {
    forall i :: 0 <= i < |c| && c[i].Refs() == 0 ==> c[i].acquire < bound
  }

  /** Whatever the clocks were, one sweep leaves less than kMaxCountdown on them, and
      every further sweep at least one less. */
  lemma {:induction false} SweepAges(c: Chain, bound: int)
    ensures Younger(Sweep(c), MAX_COUNTDOWN)
    ensures Younger(c, bound) ==> Younger(Sweep(c), bound - 1)
    ensures forall i :: 0 <= i < |Sweep(c)| && Sweep(c)[i].Refs() == 0 ==> Sweep(c)[i].acquire >= 0
    decreases |c|
  {
    if c != [] {
      SweepAges(c[1..], bound);
      assert Younger(c, bound) ==> Younger(c[1..], bound);
    }
  }

  lemma {:induction false} SweepNAges(c: Chain, n: nat)
    requires n >= 1
    ensures Younger(SweepN(c, n), MAX_COUNTDOWN + 1 - n)
    decreases n
  {
    if n == 1 {
      SweepAges(c, 0);
    } else {
      SweepNAges(c, n - 1);
      SweepAges(SweepN(c, n - 1), MAX_COUNTDOWN + 2 - n);
    }
  }

  /** After kMaxCountdown + 1 sweeps only referenced entries are left. */
  lemma FourSweepsSuffice(c: Chain, i: nat)
    requires i < |SweepN(c, MAX_COUNTDOWN + 1)|
    ensures SweepN(c, MAX_COUNTDOWN + 1)[i].Refs() != 0
  {
    SweepNAges(c, MAX_COUNTDOWN + 1);
    SweepAges(SweepN(c, MAX_COUNTDOWN), 0);
  }

  /** A sweep never touches a referenced entry. */
  lemma {:induction false} SweepKeepsPinned(c: Chain)
    ensures Pinned(Sweep(c)) == Pinned(c)
    decreases |c|
  {
    if c != [] {
      SweepKeepsPinned(c[1..]);
      match ClockUpdate(c[0])
      case Some(e) => assert ([e] + Sweep(c[1..]))[1..] == Sweep(c[1..]);
      case None =>
    }
  }

  lemma {:induction false} SweepNKeepsPinned(c: Chain, n: nat)
    ensures Pinned(SweepN(c, n)) == Pinned(c)
  {
    if n > 0 {
      SweepNKeepsPinned(c, n - 1);
      SweepKeepsPinned(SweepN(c, n - 1));
    }
  }

  lemma {:induction false} SweepAppend(c: Chain, e: Entry)
    ensures Sweep(c + [e]) == Sweep(c) + Sweep([e])
    ensures ChargeOf(c + [e]) == ChargeOf(c) + e.charge
    decreases |c|
  {
    if c == [] {
      assert c + [e] == [e];
    } else {
      assert (c + [e])[1..] == c[1..] + [e];
      SweepAppend(c[1..], e);
    }
  }

  // ---------------------------------------------------------------- all chains

  function TotalCharge(cs: seq<Chain>): nat {
    if cs == [] then 0 else ChargeOf(cs[0]) + TotalCharge(cs[1..])
  }

  function TotalCount(cs: seq<Chain>): nat {
    if cs == [] then 0 else |cs[0]| + TotalCount(cs[1..])
  }

  lemma {:induction false} TotalUpdate(cs: seq<Chain>, h: nat, c: Chain)
    requires h < |cs|
    ensures TotalCharge(cs[h := c]) == TotalCharge(cs) - ChargeOf(cs[h]) + ChargeOf(c)
    ensures TotalCount(cs[h := c]) == TotalCount(cs) - |cs[h]| + |c|
  {
    if h == 0 {
      assert cs[h := c][1..] == cs[1..];
    } else {
      assert cs[h := c][1..] == cs[1..][h - 1 := c];
      TotalUpdate(cs[1..], h - 1, c);
    }
  }

  /** The first of the four homes of the group that a home is swept with. */
  function Group(home: nat, major: nat): int {
    var h := if home < major then home else home - major;
    h - h % 4
  }

  /** How far the clock pointer moves, from the start of a pass at offset s, before it
      sweeps a home. */
  function Distance(home: nat, major: nat, s: nat): int {
    if Group(home, major) >= s then Group(home, major) - s else Group(home, major) + major - s
  }

  class Table {
    /** 2^min_shift and the number of homes in use. */
    const major: nat
    const used: nat
    const chains: array<Chain>
    var clockPointer: nat

    /** The clock pointer moves in steps of four; the smallest table has four homes. */
    ghost predicate Valid()
      reads this
    {
      && major > 0 && major % 4 == 0 && major <= used < 2 * major && chains.Length == used
      && clockPointer % 4 == 0
    }

    constructor (major: nat, used: nat)
      requires major > 0 && major % 4 == 0 && major <= used < 2 * major
      ensures Valid() && fresh(chains) && this.used == used && forall h :: 0 <= h < used ==> chains[h] == []
    {
      this.major, this.used, clockPointer := major, used, 0;
      chains := new Chain[used](_ => []);
    }

    /** PurgeImpl with clock updates on one chain. */
    method PurgeChain(home: nat, data: EvictionData) returns (data': EvictionData)
      requires home < chains.Length
      modifies chains
      ensures chains[..] == old(chains[..])[home := Sweep(old(chains[home]))]
      ensures data'.freedCharge == data.freedCharge + ChargeOf(old(chains[home])) - ChargeOf(chains[home])
      ensures data'.freedCount == data.freedCount + |old(chains[home])| - |chains[home]|
    {
      var c := chains[home];
      var kept: Chain := [];
      data' := data;
      for i := 0 to |c|
        invariant kept == Sweep(c[..i]) && chains[..] == old(chains[..])
        invariant data'.freedCharge == data.freedCharge + ChargeOf(c[..i]) - ChargeOf(kept)
        invariant data'.freedCount == data.freedCount + i - |kept|
      {
        assert c[..i + 1] == c[..i] + [c[i]];
        SweepAppend(c[..i], c[i]);
        data' := Counted(c[i], data');
        match ClockUpdate(c[i]) {
          case Some(e) =>
            assert Sweep([c[i]]) == [e] + Sweep([c[i]][1..]) == [e];
            SweepAppend(kept, e);
            kept := kept + [e];
          case None =>
            assert Sweep([c[i]]) == Sweep([c[i]][1..]) == [];
        }
      }
      assert c[..|c|] == c;
      chains[home] := kept;
    }

    /** The homes base .. base+3, as far as they are in use. */
    method SweepFour(base: nat, data: EvictionData) returns (data': EvictionData)
      requires chains.Length == used && base < used
      modifies chains
      ensures forall h :: 0 <= h < used ==>
                chains[h] == if base <= h < base + 4 then Sweep(old(chains[h])) else old(chains[h])
      ensures Freed(old(chains[..]), chains[..], data, data')
    {
      data' := data;
      var i := 0;
      while i < 4 && base + i < used
        invariant 0 <= i <= 4
        invariant forall h :: 0 <= h < used ==>
                    chains[h] == if base <= h < base + i then Sweep(old(chains[h])) else old(chains[h])
        invariant Freed(old(chains[..]), chains[..], data, data')
      {
        ghost var cs := chains[..];
        TotalUpdate(cs, base + i, Sweep(cs[base + i]));
        data' := PurgeChain(base + i, data');
        i := i + 1;
      }
    }

    /** One turn of the clock: sweeps the homes first .. first+3, and those one major
        step further if they are in use. */
    method SweepGroup(first: nat, data: EvictionData) returns (data': EvictionData)
      requires Valid() && first < major && first % 4 == 0
      modifies chains
      ensures forall h :: 0 <= h < used ==>
                chains[h] == if Group(h, major) == first then Sweep(old(chains[h])) else old(chains[h])
      ensures Freed(old(chains[..]), chains[..], data, data')
    {
      ghost var cs := chains[..];
      data' := data;
      var base := first;
      while base < used
        invariant base == first || base == first + major || base == first + 2 * major
        invariant forall h :: 0 <= h < used ==> chains[h] == if SweptBelow(h, first, major, base) then Sweep(cs[h])
                  else cs[h]
        invariant Freed(cs, chains[..], data, data')
        decreases used - base
      {
        ghost var before := chains[..];
        data' := SweepFour(base, data');
        forall h | 0 <= h < used
          ensures chains[h] == if SweptBelow(h, first, major, base + major) then Sweep(cs[h]) else cs[h]
        {
          SweptStep(h, first, major, base);
          assert before[h] == if SweptBelow(h, first, major, base) then Sweep(cs[h]) else cs[h];
        }
        base := base + major;
      }
      forall h | 0 <= h < used
        ensures chains[h] == if Group(h, major) == first then Sweep(cs[h]) else cs[h]
      {
        GroupRange(h, first, major);
      }
    }

    /** One turn: takes the next group off the clock and sweeps it. */
    method Turn(data: EvictionData, ghost cs: seq<Chain>, ghost w: Clock, ghost s: nat, ghost start: nat)
      returns (data': EvictionData)
      requires Valid() && w.pass <= MAX_COUNTDOWN && Progress(cs, chains[..], w, major, s, start, clockPointer)
      requires Freed(cs, chains[..], EvictionData(0, 0, 0), data)
      modifies chains, this`clockPointer
      ensures Valid() && clockPointer == old(clockPointer) + 4
      ensures Progress(cs, chains[..], w.Next(major), major, s, start, clockPointer)
      ensures start < clockPointer <= start + 4 * major
      ensures w.Next(major).pass <= if clockPointer < start + 4 * major then MAX_COUNTDOWN else MAX_COUNTDOWN + 1
      ensures clockPointer == start + 4 * major ==> w.Next(major).pass == MAX_COUNTDOWN + 1 && w.Next(major).offset == 0
      ensures Freed(cs, chains[..], EvictionData(0, 0, 0), data')
    {
      var pointer := clockPointer;
      ghost var before := chains[..];
      clockPointer := clockPointer + 4;
      w.StepOk(major, s, start, pointer);
      w.InPasses(major, s, start, pointer);
      data' := SweepGroup(Masked(pointer, major), data);
      SweptAgain(cs, before, chains[..], w, major, s);
    }

    /** Sweeps until enough is freed, four passes are over, or too many entries turn
        out to be pinned. `visits` counts the sweeps of each home. */
    method Evict(requested: nat, effortCap: nat) returns (data: EvictionData, ghost visits: seq<nat>)
      requires Valid() && requested > 0
      modifies chains, this`clockPointer
      ensures Valid() && SweptBy(old(chains[..]), chains[..], visits)
      ensures clockPointer <= old(clockPointer) + 4 * major
      ensures Freed(old(chains[..]), chains[..], EvictionData(0, 0, 0), data)
      ensures SamePinned(old(chains[..]), chains[..])
      ensures data.freedCharge < requested && !EffortExceeded(data, effortCap) ==> AllPinned(chains[..])
    {
      ghost var cs := chains[..];
      ghost var start := clockPointer;
      ghost var s := Masked(start, major);
      StartsAtFour(start, major);
      ghost var w := Clock(s, 0, 0);
      data := EvictionData(0, 0, 0);
      var maxPointer := 0;
      while true
        invariant Valid() && Progress(cs, chains[..], w, major, s, start, clockPointer) && w.pass <= MAX_COUNTDOWN
        invariant start <= clockPointer < start + 4 * major
        invariant maxPointer == if clockPointer == start then 0 else start + 4 * major
        invariant Freed(cs, chains[..], EvictionData(0, 0, 0), data)
        decreases start + 4 * major - clockPointer
      {
        var pointer := clockPointer;
        data := Turn(data, cs, w, s, start);
        w := w.Next(major);
        if data.freedCharge >= requested {
          break;
        }
        if maxPointer == 0 {
          maxPointer := pointer + 4 * major;  // kMaxCountdown + 1 passes
        }
        if pointer + 4 >= maxPointer {
          break;
        }
        if EffortExceeded(data, effortCap) {
          break;
        }
      }
      visits := Outcome(cs, chains[..], w, major, s, start, clockPointer);
    }
  }

  /** Every home has been swept as often as told, and at most four times. */
  ghost predicate SweptBy(cs: seq<Chain>, now: seq<Chain>, visits: seq<nat>) {
    && |cs| == |now| == |visits|
    && forall h :: 0 <= h < |cs| ==> visits[h] <= MAX_COUNTDOWN + 1 && now[h] == SweepN(cs[h], visits[h])
  }

  ghost predicate SamePinned(cs: seq<Chain>, now: seq<Chain>) {
    |cs| == |now| && forall h :: 0 <= h < |cs| ==> Pinned(now[h]) == Pinned(cs[h])
  }

  ghost predicate AllPinned(cs: seq<Chain>) {
    forall h, i :: 0 <= h < |cs| && 0 <= i < |cs[h]| ==> cs[h][i].Refs() != 0
  }

  ghost predicate Progress(cs: seq<Chain>, now: seq<Chain>, w: Clock, major: nat, s: nat, start: nat, pointer: nat) {
    && w.Ok(major, s, start, pointer) && |cs| == |now| <= 2 * major
    && forall h :: 0 <= h < |cs| ==> now[h] == SweepN(cs[h], w.Visits(h, major, s))
  }

  lemma Outcome(cs: seq<Chain>, now: seq<Chain>, w: Clock, major: nat, s: nat, start: nat, pointer: nat)
    returns (visits: seq<nat>)
    requires Progress(cs, now, w, major, s, start, pointer)
    requires w.pass <= MAX_COUNTDOWN || (w.pass == MAX_COUNTDOWN + 1 && w.offset == 0)
    ensures SweptBy(cs, now, visits) && SamePinned(cs, now)
    ensures w.pass == MAX_COUNTDOWN + 1 ==> AllPinned(now)
  {
    visits := seq(|cs|, (h: nat) => w.Visits(h, major, s));
    forall h | 0 <= h < |cs|
      ensures visits[h] <= MAX_COUNTDOWN + 1 && Pinned(now[h]) == Pinned(cs[h])
      ensures w.pass == MAX_COUNTDOWN + 1 ==> visits[h] == MAX_COUNTDOWN + 1
    {
      GroupOk(h, major);
      SweepNKeepsPinned(cs[h], visits[h]);
    }
    if w.pass == MAX_COUNTDOWN + 1 {
      forall h, i | 0 <= h < |cs| && 0 <= i < |now[h]| ensures now[h][i].Refs() != 0 {
        FourSweepsSuffice(cs[h], i);
      }
    }
  }

  /** Where the clock is: at `base` of the table, and since the start of the eviction
      it has made `pass` full passes and moved by `offset` in the next. */
  datatype Clock = Clock(base: nat, pass: nat, offset: nat) {
    ghost predicate At(major: nat, s: nat) {
      && major % 4 == 0 && s < major && s % 4 == 0 && offset < major && offset % 4 == 0 && base % 4 == 0
      && base == if s + offset < major then s + offset else s + offset - major
    }

    ghost predicate Ok(major: nat, s: nat, start: nat, pointer: nat) {
      major > 0 && At(major, s) && Masked(pointer, major) == base && pointer == start + Span(pass, major) + offset
    }

    function Next(major: nat): Clock {
      var b := if base + 4 == major then 0 else base + 4;
      if offset + 4 == major then Clock(b, pass + 1, 0) else Clock(b, pass, offset + 4)
    }

    /** How often a home has been swept. */
    function Visits(h: nat, major: nat, s: nat): nat { pass + One(Distance(h, major, s) < offset) }

    /** What this turn makes of a chain. */
    function Swept(h: nat, major: nat, c: Chain): Chain { if Group(h, major) == base then Sweep(c) else c }

    lemma NextAt(major: nat, s: nat)
      requires At(major, s)
      ensures Next(major).At(major, s)
    {
      FourApart(base, major);
      FourApart(offset, major);
    }

    lemma StepOk(major: nat, s: nat, start: nat, pointer: nat)
      requires Ok(major, s, start, pointer)
      ensures Next(major).Ok(major, s, start, pointer + 4)
    {
      NextAt(major, s);
      MaskedStep(pointer, major);
    }

    /** The clock sweeps exactly the homes whose turn it is in this pass. */
    lemma VisitsStep(h: nat, major: nat, s: nat)
      requires At(major, s) && h < 2 * major
      ensures Next(major).Visits(h, major, s) == Visits(h, major, s) + One(Group(h, major) == base)
    {
      var d := Distance(h, major, s);
      GroupOk(h, major);
      DistanceOk(Group(h, major), major, s);
      if d < offset {
        FourApart(d, offset);
      } else if offset < d {
        FourApart(offset, d);
      }
      FourApart(d, major);
    }

    /** How far the pointer is, in terms of the passes made. */
    lemma InPasses(major: nat, s: nat, start: nat, pointer: nat)
      requires Ok(major, s, start, pointer) && pass <= MAX_COUNTDOWN
      ensures pointer + 4 <= start + 4 * major
      ensures pointer + 4 == start + 4 * major ==> Next(major).pass == MAX_COUNTDOWN + 1 && Next(major).offset == 0
      ensures pointer + 4 < start + 4 * major ==> Next(major).pass <= MAX_COUNTDOWN
    {
      FourApart(offset, major);
      SpanFour(pass, major);
    }
  }

  /** The length of n passes. */
  function Span(n: nat, major: nat): nat { if n == 0 then 0 else major + Span(n - 1, major) }

  lemma SpanFour(n: nat, major: nat)
    requires n <= 3
    ensures Span(n, major) == if n == 0 then 0 else if n == 1 then major else if n == 2 then 2 * major else 3 * major
  {
    assert n == 3 ==> Span(3, major) == major + Span(2, major);
  }

  /** pointer & (major - 1), by counting. */
  function Masked(pointer: nat, major: nat): (r: nat)
    requires major > 0
    ensures r < major
    decreases pointer
  {
    if pointer < major then pointer else Masked(pointer - major, major)
  }

  lemma {:induction false} MaskedStep(x: nat, m: nat)
    requires m > 0
    ensures Masked(x, m) + 4 < m ==> Masked(x + 4, m) == Masked(x, m) + 4
    ensures Masked(x, m) + 4 == m ==> Masked(x + 4, m) == 0
    decreases x
  {
    if x >= m {
      MaskedStep(x - m, m);
    }
  }

  lemma FourApart(x: nat, y: nat)
    requires x % 4 == 0 && y % 4 == 0
    ensures x < y ==> x + 4 <= y
  {
  }

  lemma GroupOk(h: nat, major: nat)
    requires major % 4 == 0 && h < 2 * major
    ensures 0 <= Group(h, major) < major && Group(h, major) % 4 == 0
  {
  }

  lemma DistanceOk(g: nat, major: nat, s: nat)
    requires g % 4 == 0 && major % 4 == 0 && s % 4 == 0 && g < major && s < major
    ensures (if g >= s then g - s else g + major - s) % 4 == 0
  {
  }

  /** Sweeping adds to the number of sweeps. */
  lemma SweptAgain(cs: seq<Chain>, before: seq<Chain>, after: seq<Chain>, w: Clock, major: nat, s: nat)
    requires |cs| == |before| == |after| <= 2 * major && w.At(major, s)
    requires forall h :: 0 <= h < |cs| ==> before[h] == SweepN(cs[h], w.Visits(h, major, s))
    requires forall h :: 0 <= h < |cs| ==> after[h] == w.Swept(h, major, before[h])
    ensures forall h :: 0 <= h < |cs| ==> after[h] == SweepN(cs[h], w.Next(major).Visits(h, major, s))
  {
    forall h | 0 <= h < |cs| ensures after[h] == SweepN(cs[h], w.Next(major).Visits(h, major, s)) {
      w.VisitsStep(h, major, s);
    }
  }

  lemma {:induction false} StartsAtFour(start: nat, major: nat)
    requires start % 4 == 0 && major % 4 == 0 && major > 0
    ensures Masked(start, major) % 4 == 0
    decreases start
  {
    if start >= major {
      StartsAtFour(start - major, major);
    }
  }

  /** The home lies in the part of a group before the given base. */
  predicate SweptBelow(h: nat, first: nat, major: nat, base: nat) {
    (first < base && first <= h < first + 4) || (first + major < base && first + major <= h < first + major + 4)
  }

  lemma SweptStep(h: nat, first: nat, major: nat, base: nat)
    requires major >= 4 && first < major && (base == first || base == first + major)
    ensures SweptBelow(h, first, major, base + major) <==> SweptBelow(h, first, major, base) || base <= h < base + 4
    ensures !(SweptBelow(h, first, major, base) && base <= h < base + 4)
  {
  }

  lemma GroupRange(h: nat, first: nat, major: nat)
    requires major % 4 == 0 && first < major && first % 4 == 0 && h < 2 * major
    ensures Group(h, major) == first <==> first <= h < first + 4 || first + major <= h < first + major + 4
  {
  }

  /** The data accounts for everything that has left the chains. */
  ghost predicate Freed(cs: seq<Chain>, cs': seq<Chain>, data: EvictionData, data': EvictionData) {
    && data'.freedCharge == data.freedCharge + TotalCharge(cs) - TotalCharge(cs')
    && data'.freedCount == data.freedCount + TotalCount(cs) - TotalCount(cs')
  }
}
