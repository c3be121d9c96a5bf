/** The converse of ChainLookup: whenever an entry out of reach of the first pass is
    overtaken by an entry under construction, some interleaving of the split and a
    lookup really misses it. */
module ChainMiss {
  import opened LinearHashing
  import opened ChainPointers
  import opened ChainSplit
  import opened ChainLookup

  /** A schedule of the splitting thread (false) and the lookup (true). */
  type Schedule = seq<bool>

  function Turn(look: bool): Move { if look then Look else Table(Split) }

  /** The system after a schedule. */
  function Play(g: Grow, k: Key, s: System, mv: Schedule): System
    decreases |mv|
  {
    if mv == [] then s else Play(g, k, Moved(g, k, s, Turn(mv[0])), mv[1..])
  }

  lemma {:induction false} PlayConcat(g: Grow, k: Key, s: System, a: Schedule, b: Schedule)
    ensures Play(g, k, s, a + b) == Play(g, k, Play(g, k, s, a), b)
    decreases |a|
  {
    if a == [] {
      assert a + b == b;
    } else {
      assert (a + b)[1..] == a[1..] + b;
      PlayConcat(g, k, Moved(g, k, s, Turn(a[0])), a[1..], b);
    }
  }

  /** The chains are consistent, and only links have changed since s0. */
  ghost predicate SyncDef(g: Grow, s0: State, st: State, v: View) {
    && NoDup(st.sh.log) && Stage(g, st.sh, Classes(g, s0.sh), st.pc, v)
    && st.sh.log == s0.sh.log && st.sh.keys == s0.sh.keys && st.sh.marks == s0.sh.marks
  }

  // Sync is SyncDef, chosen so that its definition comes into play only where Synced is
  // mentioned.

  ghost predicate Synced(t: int) { true }

  ghost predicate IsSync(g: Grow, s0: State, st: State, v: View, r: bool) {
    forall t {:trigger Synced(t)} :: Synced(t) ==> (r <==> SyncDef(g, s0, st, v))
  }

  ghost predicate Sync(g: Grow, s0: State, st: State, v: View) {
    assert IsSync(g, s0, st, v, SyncDef(g, s0, st, v));
    var r: bool :| IsSync(g, s0, st, v, r);
    r
  }

  lemma SyncIs(g: Grow, s0: State, st: State, v: View)
    ensures Sync(g, s0, st, v) <==> SyncDef(g, s0, st, v)
  {
    assert Synced(0);
  }

  lemma SameClasses(g: Grow, s0: State, st: State)
    requires st.sh.log == s0.sh.log && st.sh.keys == s0.sh.keys
    ensures Classes(g, st.sh) == Classes(g, s0.sh)
  {
  }

  lemma SplitKeepsRest(g: Grow, s0: State, st: State, v: View)
    requires Sync(g, s0, st, v)
    ensures var st' := SplitStep(g, st);
            st'.sh.log == s0.sh.log && st'.sh.keys == s0.sh.keys && st'.sh.marks == s0.sh.marks
  {
    assert Synced(0);
    SameClasses(g, s0, st);
    SplitTouchesLinks(g, st, v);
    SplitKeepsMarks(g, st);
  }

  // ---------------------------------------------------------------- the splitting thread alone

  /** Both frontiers sit on the boundary between log[b] and log[b-1]. */
  function BoundaryAt(c: seq<bool>, b: nat): Progress
    requires b < |c|
  {
    if c[b] then Progress(b, b + 1) else Progress(b + 1, b)
  }

  /** The migration loop is about to look past such a boundary. */
  ghost predicate AtBoundary(g: Grow, s0: State, st: State, b: nat, k: nat) {
    var c := Classes(g, s0.sh);
    && 1 <= b < |c| && c[b] != c[b - 1]
    && st.pc.Migrate? && (st.pc.f.first == 1) == c[b]
    && Sync(g, s0, st, Post(BoundaryAt(c, b), k))
  }

  /** The earlier frontier has just skipped to log[b'-1]. */
  ghost predicate AtSkip(g: Grow, s0: State, st: State, b: nat, b': nat) {
    var c := Classes(g, s0.sh);
    && 1 <= b' < b < |c| && st.pc.Upgrade? && st.pc.one != c[b]
    && Sync(g, s0, st, Post(BoundaryAt(c, b).Set(c[b], b'), 0))
  }

  lemma UpgradeMeets(g: Grow, s0: State, st: State, p: Progress)
    requires st.pc.Upgrade? && Sync(g, s0, st, Post(p, 0)) && p.At(!st.pc.one) > 0
    requires 0 < p.At(st.pc.one) <= |st.sh.log| && st.sh.Next(st.sh.log[p.At(st.pc.one) - 1]) == st.pc.stop
    ensures var st', c, b := SplitStep(g, st), Classes(g, s0.sh), p.At(!st.pc.one);
            && 1 <= b < |c| && c[b] == st.pc.one && c[b - 1] != c[b] && p == BoundaryAt(c, b)
            && st'.pc.Migrate? && (st'.pc.f.first == 1) == c[b] && Stage(g, st'.sh, c, st'.pc, Post(p, b))
  {
    assert Synced(0);
    var sh, c, pc := st.sh, Classes(g, s0.sh), st.pc;
    UnmigratedLink(g, sh, c, p, p.At(pc.one) - 1);
    UpgradeStops(g, sh, c, pc, p);
  }

  lemma UpgradeArrives(g: Grow, s0: State, st: State, p: Progress)
    requires st.pc.Upgrade? && Sync(g, s0, st, Post(p, 0)) && p.At(!st.pc.one) > 0
    requires 0 < p.At(st.pc.one) <= |st.sh.log| && st.sh.Next(st.sh.log[p.At(st.pc.one) - 1]) == st.pc.stop
    ensures AtBoundary(g, s0, SplitStep(g, st), p.At(!st.pc.one), p.At(!st.pc.one))
  {
    UpgradeMeets(g, s0, st, p);
    SyncTurn(g, s0, st, Post(p, 0), Post(p, p.At(!st.pc.one)));
  }

  lemma UpgradeMovesOn(g: Grow, s0: State, st: State, p: Progress)
    requires st.pc.Upgrade? && Sync(g, s0, st, Post(p, 0)) && p.At(!st.pc.one) > 0
    requires 0 < p.At(st.pc.one) <= |st.sh.log| && st.sh.Next(st.sh.log[p.At(st.pc.one) - 1]) != st.pc.stop
    ensures var q, r := p.At(st.pc.one), UpgradeStep(st.sh, st.pc.one, st.pc.stop, st.pc.f, st.pc.after);
            && q > 1 && r.1.Upgrade? && r.1.one == st.pc.one
            && Stage(g, r.0, Classes(g, s0.sh), r.1, Post(p.Set(st.pc.one, q - 1), 0))
  {
    var sh, c, pc, q := st.sh, Classes(g, s0.sh), st.pc, p.At(st.pc.one);
    SyncIs(g, s0, st, Post(p, 0));
    UnmigratedLink(g, sh, c, p, q - 1);
    StageMoves(g, sh, c, pc, p, q);
  }

  lemma UpgradeOnce(g: Grow, s0: State, st: State, p: Progress)
    requires st.pc.Upgrade? && Sync(g, s0, st, Post(p, 0)) && p.At(!st.pc.one) > 0
    requires 0 < p.At(st.pc.one) <= |st.sh.log| && st.sh.Next(st.sh.log[p.At(st.pc.one) - 1]) != st.pc.stop
    ensures SplitStep(g, st).pc.Upgrade? && SplitStep(g, st).pc.one == st.pc.one
    ensures p.At(st.pc.one) > 1 && Sync(g, s0, SplitStep(g, st), Post(p.Set(st.pc.one, p.At(st.pc.one) - 1), 0))
  {
    UpgradeMovesOn(g, s0, st, p);
    MigrationSteps(g, st);
    SyncTurn(g, s0, st, Post(p, 0), Post(p.Set(st.pc.one, p.At(st.pc.one) - 1), 0));
  }

  lemma UpgradeInRange(g: Grow, s0: State, st: State, p: Progress)
    requires st.pc.Upgrade? && Sync(g, s0, st, Post(p, 0))
    ensures 0 < p.At(st.pc.one) <= |st.sh.log|
  {
    assert Synced(0);
  }

  /** The upgrade loop runs until it meets the other frontier. */
  lemma {:induction false} UpgradeRun(g: Grow, k: Key, s0: State, s: System, p: Progress) returns (mv: Schedule)
    requires s.st.pc.Upgrade? && Sync(g, s0, s.st, Post(p, 0)) && p.At(!s.st.pc.one) > 0
    ensures var s' := Play(g, k, s, mv);
            s'.rd == s.rd && AtBoundary(g, s0, s'.st, p.At(!s.st.pc.one), p.At(!s.st.pc.one))
    decreases p.At(s.st.pc.one)
  {
    var one := s.st.pc.one;
    var q := p.At(one);
    var s1 := s.(st := SplitStep(g, s.st));
    OneTurn(g, k, s);
    UpgradeInRange(g, s0, s.st, p);
    if s.st.sh.Next(s.st.sh.log[q - 1]) == s.st.pc.stop {
      UpgradeArrives(g, s0, s.st, p);
      mv := [false];
    } else {
      UpgradeOnce(g, s0, s.st, p);
      var mv' := UpgradeRun(g, k, s0, s1, p.Set(one, q - 1));
      PlayConcat(g, k, s, [false], mv');
      mv := [false] + mv';
    }
  }

  lemma OneTurn(g: Grow, k: Key, s: System)
    ensures Play(g, k, s, [false]) == s.(st := SplitStep(g, s.st))
    ensures Play(g, k, s, [true]) == s.(rd := ReaderStep(g, s.st.sh, k, s.rd))
  {
    assert [false][1..] == [] && [true][1..] == [];
  }

  /** The migration loop looks at one more entry of the other chain. */
  lemma MigrateOnce(g: Grow, s0: State, st: State, p: Progress, k: nat, one: bool)
    requires st.pc.Migrate? && Sync(g, s0, st, Post(p, k)) && one == (st.pc.f.first == 1)
    requires 2 <= k <= |Classes(g, s0.sh)| && Classes(g, s0.sh)[k - 2] != one
    ensures SplitStep(g, st).pc.Migrate? && SplitStep(g, st).pc.f.first == st.pc.f.first
    ensures Sync(g, s0, SplitStep(g, st), Post(p, k - 1))
  {
    var sh, c := st.sh, Classes(g, s0.sh);
    SyncIs(g, s0, st, Post(p, k));
    SameClasses(g, s0, st);
    UnmigratedLink(g, sh, c, p, k - 1);
    StageScans(g, sh, c, st.pc.f, p, k, one);
    MigrationSteps(g, st);
    SyncTurn(g, s0, st, Post(p, k), Post(p, k - 1));
  }

  lemma JumpStage(g: Grow, s0: State, st: State, p: Progress, k: nat, one: bool)
    requires st.pc.Migrate? && Sync(g, s0, st, Post(p, k)) && one == (st.pc.f.first == 1)
    requires 2 <= k <= |Classes(g, s0.sh)| && Classes(g, s0.sh)[k - 2] == one
    ensures var r := MigrateStep(g, st.sh, st.pc.f);
            && r.1.Upgrade? && r.1.one == !one && r.1.after.ThenSwap?
            && Stage(g, r.0, Classes(g, s0.sh), r.1, Post(p.Set(one, k - 1), 0))
  {
    var sh, c := st.sh, Classes(g, s0.sh);
    SyncIs(g, s0, st, Post(p, k));
    SameClasses(g, s0, st);
    UnmigratedLink(g, sh, c, p, k - 1);
    StageSkips(g, sh, c, st.pc.f, p, k, one);
  }

  /** The migration loop finds the next entry of the earlier frontier's chain. */
  lemma MigrateJumps(g: Grow, s0: State, st: State, p: Progress, k: nat, one: bool)
    requires st.pc.Migrate? && Sync(g, s0, st, Post(p, k)) && one == (st.pc.f.first == 1)
    requires 2 <= k <= |Classes(g, s0.sh)| && Classes(g, s0.sh)[k - 2] == one
    ensures SplitStep(g, st).pc.Upgrade? && SplitStep(g, st).pc.one == !one && SplitStep(g, st).pc.after.ThenSwap?
    ensures Sync(g, s0, SplitStep(g, st), Post(p.Set(one, k - 1), 0))
  {
    JumpStage(g, s0, st, p, k, one);
    MigrationSteps(g, st);
    SyncTurn(g, s0, st, Post(p, k), Post(p.Set(one, k - 1), 0));
  }

  /** One turn of the scan from a boundary: one more entry of the other chain, */
  lemma SkipOnce(g: Grow, k: Key, s0: State, s: System, b: nat, m: nat)
    requires AtBoundary(g, s0, s.st, b, m) && 2 <= m <= b
    requires var c := Classes(g, s0.sh); b < |c| && c[m - 2] != c[b]
    ensures var s' := Play(g, k, s, [false]);
            s' == s.(st := SplitStep(g, s.st)) && AtBoundary(g, s0, s'.st, b, m - 1)
  {
    var c := Classes(g, s0.sh);
    OneTurn(g, k, s);
    MigrateOnce(g, s0, s.st, BoundaryAt(c, b), m, c[b]);
  }

  /** or the skip to the next entry of its own. */
  lemma SkipLast(g: Grow, k: Key, s0: State, s: System, b: nat, m: nat)
    requires AtBoundary(g, s0, s.st, b, m) && 2 <= m <= b
    requires var c := Classes(g, s0.sh); OnlyBetween(c, !c[b], m - 1, b) && c[m - 2] == c[b]
    ensures var s' := Play(g, k, s, [false]); s'.rd == s.rd && AtSkip(g, s0, s'.st, b, m - 1)
  {
    var c := Classes(g, s0.sh);
    OneTurn(g, k, s);
    MigrateJumps(g, s0, s.st, BoundaryAt(c, b), m, c[b]);
  }

  /** From a boundary, scan the other chain's entries down to log[b'] and skip to log[b'-1]. */
  lemma {:induction false} SkipRun(g: Grow, k: Key, s0: State, s: System, b: nat, m: nat, b': nat)
      returns (mv: Schedule)
    requires AtBoundary(g, s0, s.st, b, m) && 1 <= b' < m <= b
    requires var c := Classes(g, s0.sh); OnlyBetween(c, !c[b], b', b) && c[b' - 1] == c[b]
    ensures var s' := Play(g, k, s, mv); s'.rd == s.rd && AtSkip(g, s0, s'.st, b, b')
    decreases m
  {
    if m - 1 == b' {
      SkipLast(g, k, s0, s, b, m);
      mv := [false];
    } else {
      SkipOnce(g, k, s0, s, b, m);
      var mv' := SkipRun(g, k, s0, s.(st := SplitStep(g, s.st)), b, m - 1, b');
      PlayConcat(g, k, s, [false], mv');
      mv := [false] + mv';
    }
  }

  /** From one boundary to the next. */
  lemma Cross(g: Grow, k: Key, s0: State, s: System, b: nat, b': nat) returns (mv: Schedule)
    requires AtBoundary(g, s0, s.st, b, b) && 1 <= b' < b
    requires var c := Classes(g, s0.sh); OnlyBetween(c, !c[b], b', b) && c[b' - 1] == c[b]
    ensures var s' := Play(g, k, s, mv); s'.rd == s.rd && AtBoundary(g, s0, s'.st, b', b')
  {
    var c := Classes(g, s0.sh);
    var mv1 := SkipRun(g, k, s0, s, b, b, b');
    var s1 := Play(g, k, s, mv1);
    var mv2 := UpgradeRun(g, k, s0, s1, BoundaryAt(c, b).Set(c[b], b'));
    PlayConcat(g, k, s, mv1, mv2);
    mv := mv1 + mv2;
  }

  // ---------------------------------------------------------------- up to the first boundary

  /** The scan runs until it has found an entry of each chain. */
  lemma {:induction false} ScanRun(g: Grow, k: Key, s0: State, s: System, m: nat) returns (mv: Schedule)
    requires s.st.pc.Scan? && Sync(g, s0, s.st, Pre(|s0.sh.log|, m))
    requires s.st.sh.zero == s.st.pc.saved
    ensures var s' := Play(g, k, s, mv);
            && s'.rd == s.rd && s'.st.pc.StoreOne? && Sync(g, s0, s'.st, Pre(|s0.sh.log|, 0))
            && s'.st.sh.zero == s'.st.pc.saved
    decreases m
  {
    OneTurn(g, k, s);
    var s1 := s.(st := SplitStep(g, s.st));
    ScanOnce(g, s0, s.st, m);
    if s1.st.pc.StoreOne? {
      mv := [false];
    } else {
      var mv' := ScanRun(g, k, s0, s1, m - 1);
      PlayConcat(g, k, s, [false], mv');
      mv := [false] + mv';
    }
  }

  lemma ScanStage(g: Grow, sh: Shared, c: seq<bool>, pc: Pc, n: nat, m: nat)
    requires pc.Scan? && c == Classes(g, sh) && Stage(g, sh, c, pc, Pre(n, m))
    ensures var pc' := ScanStep(g, sh, pc.saved, pc.at, pc.f);
            && (pc'.Scan? || pc'.StoreOne?) && pc'.saved == pc.saved
            && (pc'.StoreOne? ==> Stage(g, sh, c, pc', Pre(n, 0)))
            && (pc'.Scan? ==> m > 0 && Stage(g, sh, c, pc', Pre(n, m - 1)))
  {
    var _ := ScanPreserves(g, sh, c, pc, Pre(n, m));
    if m > 0 {
      assert OldLink(g, sh, m - 1);
    }
  }

  lemma ScanOnce(g: Grow, s0: State, st: State, m: nat)
    requires st.pc.Scan? && Sync(g, s0, st, Pre(|s0.sh.log|, m))
    ensures var pc' := SplitStep(g, st).pc;
            && (pc'.Scan? || pc'.StoreOne?) && pc'.saved == st.pc.saved && SplitStep(g, st).sh == st.sh
            && (pc'.StoreOne? ==> Sync(g, s0, SplitStep(g, st), Pre(|s0.sh.log|, 0)))
            && (pc'.Scan? ==> m > 0 && Sync(g, s0, SplitStep(g, st), Pre(|s0.sh.log|, m - 1)))
  {
    var n, pc' := |s0.sh.log|, SplitStep(g, st).pc;
    SyncIs(g, s0, st, Pre(n, m));
    SameClasses(g, s0, st);
    ScanStage(g, st.sh, Classes(g, s0.sh), st.pc, n, m);
    if pc'.StoreOne? {
      SyncTurn(g, s0, st, Pre(n, m), Pre(n, 0));
    } else {
      SyncTurn(g, s0, st, Pre(n, m), Pre(n, m - 1));
    }
  }

  lemma SyncTurn(g: Grow, s0: State, st: State, v: View, v': View)
    requires Sync(g, s0, st, v) && Stage(g, SplitStep(g, st).sh, Classes(g, s0.sh), SplitStep(g, st).pc, v')
    ensures Sync(g, s0, SplitStep(g, st), v')
  {
    assert Synced(0);
    SplitKeepsRest(g, s0, st, v);
  }

  /** Acquiring the lock and scanning. */
  lemma ScanPhase(g: Grow, k: Key, s0: State, rd: Reader) returns (mv: Schedule)
    requires Init(g, s0) && |s0.sh.log| > 0
    ensures var s' := Play(g, k, System(s0, rd), mv);
            && s'.rd == rd && s'.st.pc.StoreOne? && Sync(g, s0, s'.st, Pre(|s0.sh.log|, 0))
            && s'.st.sh.zero == s'.st.pc.saved
  {
    assert Synced(0);
    var s, n := System(s0, rd), |s0.sh.log|;
    OneTurn(g, k, s);
    var v' := StageBegins(g, s0.sh, Classes(g, s0.sh), s0, Pre(0, 0));
    SyncTurn(g, s0, s0, Pre(0, 0), Pre(n, n));
    var s1 := System(SplitStep(g, s0), rd);
    var mv' := ScanRun(g, k, s0, s1, n);
    PlayConcat(g, k, s, [false], mv');
    mv := [false] + mv';
  }

  /** Publishing the new shift on the one head, */
  lemma OneHead(g: Grow, s0: State, st: State)
    requires st.pc.StoreOne? && Sync(g, s0, st, Pre(|s0.sh.log|, 0)) && st.sh.zero == st.pc.saved
    ensures var st' := SplitStep(g, st);
            st'.pc.CasZero? && st'.sh.zero == st'.pc.saved && Sync(g, s0, st', Pre(|s0.sh.log|, 0))
  {
    assert Synced(0);
    StageStores(g, st, Classes(g, s0.sh), Pre(|s0.sh.log|, 0));
  }

  /** and on the zero head. */
  lemma ZeroHead(g: Grow, s0: State, st: State)
    requires st.pc.CasZero? && Sync(g, s0, st, Pre(|s0.sh.log|, 0)) && st.sh.zero == st.pc.saved && |s0.sh.log| > 0
    ensures var st', c := SplitStep(g, st), Classes(g, s0.sh);
            && st'.pc.Upgrade? && st'.pc.one == c[|c| - 1]
            && Sync(g, s0, st', Post(FirstProgress(c), 0))
  {
    var c := Classes(g, s0.sh);
    ZeroHeadStage(g, s0, st);
    SyncTurn(g, s0, st, Pre(|s0.sh.log|, 0), Post(FirstProgress(c), 0));
  }

  lemma ZeroHeadStage(g: Grow, s0: State, st: State)
    requires st.pc.CasZero? && Sync(g, s0, st, Pre(|s0.sh.log|, 0)) && st.sh.zero == st.pc.saved && |s0.sh.log| > 0
    ensures var st', c := SplitStep(g, st), Classes(g, s0.sh);
            && st'.pc.Upgrade? && st'.pc.one == c[|c| - 1]
            && Stage(g, st'.sh, c, st'.pc, Post(FirstProgress(c), 0))
  {
    SyncIs(g, s0, st, Pre(|s0.sh.log|, 0));
    var v' := BigStep(g, st.sh, Classes(g, s0.sh), st.pc, Pre(|s0.sh.log|, 0));
    CasZeroStep(g, st);
    FirstFound(g, st.sh, Classes(g, s0.sh), st.pc);
  }

  lemma CasZeroStep(g: Grow, st: State)
    requires st.pc.CasZero? && st.sh.zero == st.pc.saved
    ensures SplitStep(g, st).sh == st.sh.(zero := HeadPtr(g, false, st.pc.f.zero, true))
    ensures SplitStep(g, st).pc == AfterBigStep(g, st.pc.f)
  {
  }

  lemma FirstFound(g: Grow, sh: Shared, c: seq<bool>, pc: Pc)
    requires pc.CasZero? && |c| > 0 && Found(sh.log, c, pc.f, |c|)
    ensures AfterBigStep(g, pc.f).Upgrade? && AfterBigStep(g, pc.f).one == c[|c| - 1]
  {
  }

  lemma HeadsPhase(g: Grow, k: Key, s0: State, s: System) returns (mv: Schedule)
    requires s.st.pc.StoreOne? && Sync(g, s0, s.st, Pre(|s0.sh.log|, 0)) && s.st.sh.zero == s.st.pc.saved
    requires |s0.sh.log| > 0
    ensures var s', c := Play(g, k, s, mv), Classes(g, s0.sh);
            && s'.rd == s.rd && s'.st.pc.Upgrade? && s'.st.pc.one == c[|c| - 1]
            && Sync(g, s0, s'.st, Post(FirstProgress(c), 0))
  {
    var s1 := s.(st := SplitStep(g, s.st));
    OneHead(g, s0, s.st);
    ZeroHead(g, s0, s1.st);
    OneTurn(g, k, s);
    OneTurn(g, k, s1);
    PlayConcat(g, k, s, [false], [false]);
    mv := [false] + [false];
  }

  /** Up to the first upgrade. */
  lemma OpeningPhase(g: Grow, k: Key, s0: State, rd: Reader) returns (mv: Schedule)
    requires Init(g, s0) && |s0.sh.log| > 0
    ensures var s', c := Play(g, k, System(s0, rd), mv), Classes(g, s0.sh);
            && s'.rd == rd && s'.st.pc.Upgrade? && s'.st.pc.one == c[|c| - 1]
            && Sync(g, s0, s'.st, Post(FirstProgress(c), 0))
  {
    var mv1 := ScanPhase(g, k, s0, rd);
    var s1 := Play(g, k, System(s0, rd), mv1);
    var mv2 := HeadsPhase(g, k, s0, s1);
    PlayConcat(g, k, System(s0, rd), mv1, mv2);
    mv := mv1 + mv2;
  }

  /** From the start to the newest boundary. */
  lemma FirstBoundary(g: Grow, k: Key, s0: State, rd: Reader, b: nat) returns (mv: Schedule)
    requires Init(g, s0)
    requires var c := Classes(g, s0.sh); 1 <= b < |c| && b - 1 == Below(c, !c[|c| - 1], |c|)
    ensures var s' := Play(g, k, System(s0, rd), mv); s'.rd == rd && AtBoundary(g, s0, s'.st, b, b)
  {
    var c := Classes(g, s0.sh);
    var mv1 := OpeningPhase(g, k, s0, rd);
    var s1 := Play(g, k, System(s0, rd), mv1);
    var mv2 := UpgradeRun(g, k, s0, s1, FirstProgress(c));
    PlayConcat(g, k, System(s0, rd), mv1, mv2);
    mv := mv1 + mv2;
  }

  /** From a boundary down to any older one. */
  lemma {:induction false} BoundaryRun(g: Grow, k: Key, s0: State, s: System, t: nat, b: nat) returns (mv: Schedule)
    requires AtBoundary(g, s0, s.st, t, t) && 1 <= b <= t && Classes(g, s0.sh)[b] != Classes(g, s0.sh)[b - 1]
    ensures var s' := Play(g, k, s, mv); s'.rd == s.rd && AtBoundary(g, s0, s'.st, b, b)
    decreases t
  {
    var c := Classes(g, s0.sh);
    if b == t {
      mv := [];
    } else {
      var b' := Below(c, c[t], t) + 1;
      assert b <= b' < t by { assert c[b] == c[t] || c[b - 1] == c[t]; }
      var mv1 := Cross(g, k, s0, s, t, b');
      var s1 := Play(g, k, s, mv1);
      var mv2 := BoundaryRun(g, k, s0, s1, b', b);
      PlayConcat(g, k, s, mv1, mv2);
      mv := mv1 + mv2;
    }
  }

  /** The splitting thread, running alone, reaches every boundary. */
  lemma ReachBoundary(g: Grow, k: Key, s0: State, rd: Reader, b: nat) returns (mv: Schedule)
    requires Init(g, s0)
    requires var c := Classes(g, s0.sh); 1 <= b < |c| && c[b] != c[b - 1]
    ensures var s' := Play(g, k, System(s0, rd), mv); s'.rd == rd && AtBoundary(g, s0, s'.st, b, b)
  {
    var c := Classes(g, s0.sh);
    var t := Below(c, !c[|c| - 1], |c|) + 1;
    assert b <= t < |c| && t >= 1 by { assert c[b] != c[|c| - 1] || c[b - 1] != c[|c| - 1]; }
    var mv1 := FirstBoundary(g, k, s0, rd, t);
    var s1 := Play(g, k, System(s0, rd), mv1);
    var mv2 := BoundaryRun(g, k, s0, s1, t, b);
    PlayConcat(g, k, System(s0, rd), mv1, mv2);
    mv := mv1 + mv2;
  }

  // ---------------------------------------------------------------- the lookup alone

  /** The lookup uses the new shift and stands on log[i], or on the head if i is |log|. */
  ghost predicate Standing(log: seq<nat>, r: Reader, i: nat) {
    i <= |log| && r.Read? && r.fine && r.h == if i == |log| then NONE else log[i]
  }

  /** Entries other than e do not have the key that is looked up. */
  ghost predicate OnlyTarget(g: Grow, sh: Shared, k: Key, e: nat) {
    && g.Valid() && g.Owns(k)
    && forall i :: 0 <= i < |sh.log| && i != e ==> sh.KeyOf(sh.log[i]) != k && g.Owns(sh.KeyOf(sh.log[i]))
  }

  lemma TwoLooks(g: Grow, k: Key, s: System)
    ensures Play(g, k, s, [true, true]) == s.(rd := ReaderStep(g, s.st.sh, k, ReaderStep(g, s.st.sh, k, s.rd)))
  {
    assert [true, true] == [true] + [true];
    PlayConcat(g, k, s, [true], [true]);
    OneTurn(g, k, s);
    OneTurn(g, k, s.(rd := ReaderStep(g, s.st.sh, k, s.rd)));
  }

  /** The home that a pointer with this shift must lead to. */
  function HomeAt(g: Grow, k: Key, fine: bool): nat { if fine then g.HeadHome(g.One(k)) else g.oldHome }

  lemma FollowLink(g: Grow, sh: Shared, k: Key, r: Reader, w: Ptr, fine: bool)
    requires g.Valid() && g.Owns(k) && r.Read? && r.fine && w.Link? && w.shift == ShiftFor(g, fine)
    requires Unlocked(PtrAt(g, sh, k, r.h, true)) == Unlocked(w)
    ensures ReaderStep(g, sh, k, r) == Match(w.slot, r.rr, true, w.shift, HomeAt(g, k, fine))
  {
    HomeOfKey(g, k);
  }

  /** The lookup goes on from an entry that is under construction, or has another key and
      belongs where it was found. */
  lemma PassEntry(g: Grow, sh: Shared, k: Key, r: Reader, fine: bool)
    requires g.Valid() && g.Owns(k) && r.Match? && r.fine && r.shift == ShiftFor(g, fine) && r.eff == HomeAt(g, k, fine)
    requires sh.MarkOf(r.at).Construction?
             || (sh.KeyOf(r.at) != k && g.Owns(sh.KeyOf(r.at)) && (fine ==> g.One(sh.KeyOf(r.at)) == g.One(k)))
    ensures var r' := ReaderStep(g, sh, k, r); r'.Read? && r'.fine && r'.h == r.at
  {
    HomeOfKey(g, k);
    if g.Owns(sh.KeyOf(r.at)) {
      HomeOfKey(g, sh.KeyOf(r.at));
    }
  }

  lemma StepOver(g: Grow, k: Key, s: System, w: Ptr, fine: bool)
    requires g.Valid() && g.Owns(k) && s.rd.Read? && s.rd.fine && w.Link? && w.shift == ShiftFor(g, fine)
    requires Unlocked(PtrAt(g, s.st.sh, k, s.rd.h, true)) == Unlocked(w)
    requires var sh := s.st.sh;
             || sh.MarkOf(w.slot).Construction?
             || (sh.KeyOf(w.slot) != k && g.Owns(sh.KeyOf(w.slot)) && (fine ==> g.One(sh.KeyOf(w.slot)) == g.One(k)))
    ensures var s' := Play(g, k, s, [true, true]); s'.st == s.st && s'.rd.Read? && s'.rd.fine && s'.rd.h == w.slot
  {
    TwoLooks(g, k, s);
    FollowLink(g, s.st.sh, k, s.rd, w, fine);
    PassEntry(g, s.st.sh, k, ReaderStep(g, s.st.sh, k, s.rd), fine);
  }

  /** An original link takes the lookup to the next older entry. */
  lemma LookOld(g: Grow, k: Key, s: System, e: nat, i: nat)
    requires OnlyTarget(g, s.st.sh, k, e) && Standing(s.st.sh.log, s.rd, i) && 1 <= i < |s.st.sh.log| && i - 1 != e
    requires s.st.sh.Next(s.st.sh.log[i]) == OldPtr(g, s.st.sh.log, i)
    ensures var s' := Play(g, k, s, [true, true]); s'.st == s.st && Standing(s.st.sh.log, s'.rd, i - 1)
  {
    StepOver(g, k, s, OldPtr(g, s.st.sh.log, i), false);
  }

  /** A migrated link, or the head, takes the lookup to the next entry of its own chain. */
  lemma LookNew(g: Grow, k: Key, s: System, c: seq<bool>, e: nat, i: nat)
    requires OnlyTarget(g, s.st.sh, k, e) && Standing(s.st.sh.log, s.rd, i) && c == Classes(g, s.st.sh)
    requires Below(c, g.One(k), i) >= 0 && Below(c, g.One(k), i) != e
    requires Unlocked(if i == |c| then s.st.sh.Head(g.One(k)) else s.st.sh.Next(s.st.sh.log[i]))
             == NewPtr(g, s.st.sh.log, c, g.One(k), i)
    ensures var s' := Play(g, k, s, [true, true]);
            s'.st == s.st && Standing(s.st.sh.log, s'.rd, Below(c, g.One(k), i))
  {
    HomeOfKey(g, k);
    var j := Below(c, g.One(k), i);
    assert s.st.sh.KeyOf(s.st.sh.log[j]) != k && g.One(s.st.sh.KeyOf(s.st.sh.log[j])) == g.One(k);
    StepOver(g, k, s, NewPtr(g, s.st.sh.log, c, g.One(k), i), true);
  }

  /** Down a stretch of original links. */
  lemma {:induction false} LookOldRun(g: Grow, k: Key, s: System, e: nat, i: nat, j: nat) returns (mv: Schedule)
    requires OnlyTarget(g, s.st.sh, k, e) && Standing(s.st.sh.log, s.rd, i) && j <= i < |s.st.sh.log|
    requires e < j || i <= e
    requires forall m :: j < m <= i ==> OldLink(g, s.st.sh, m)
    ensures var s' := Play(g, k, s, mv); s'.st == s.st && Standing(s.st.sh.log, s'.rd, j)
    decreases i - j
  {
    if i == j {
      mv := [];
    } else {
      assert OldLink(g, s.st.sh, i);
      LookOld(g, k, s, e, i);
      var s1 := Play(g, k, s, [true, true]);
      var mv' := LookOldRun(g, k, s1, e, i - 1, j);
      PlayConcat(g, k, s, [true, true], mv');
      mv := [true, true] + mv';
    }
  }

  /** Down the migrated part of its own chain. */
  lemma {:induction false} LookNewRun(g: Grow, k: Key, s: System, c: seq<bool>, p: Progress, e: nat, i: nat, j: nat)
      returns (mv: Schedule)
    requires OnlyTarget(g, s.st.sh, k, e) && Standing(s.st.sh.log, s.rd, i) && c == Classes(g, s.st.sh)
    requires Migrating(g, s.st.sh, c, p) && e < j <= i <= |c| && j < |c|
    requires c[j] == g.One(k) && (i < |c| ==> c[i] == g.One(k)) && p.At(g.One(k)) <= j + 1
    ensures var s' := Play(g, k, s, mv); s'.st == s.st && Standing(s.st.sh.log, s'.rd, j)
    decreases i - j
  {
    if i == j {
      mv := [];
    } else {
      if i < |c| {
        assert LinkOk(g, s.st.sh, c, p, i);
      }
      var b := Below(c, g.One(k), i);
      LookNew(g, k, s, c, e, i);
      var s1 := Play(g, k, s, [true, true]);
      var mv' := LookNewRun(g, k, s1, c, p, e, b, j);
      PlayConcat(g, k, s, [true, true], mv');
      mv := [true, true] + mv';
    }
  }

  // ---------------------------------------------------------------- putting it together

  lemma OnlyTargetStays(g: Grow, sh: Shared, sh': Shared, k: Key, e: nat)
    requires OnlyTarget(g, sh, k, e) && sh'.log == sh.log && sh'.keys == sh.keys
    ensures OnlyTarget(g, sh', k, e) && Classes(g, sh') == Classes(g, sh)
  {
    forall i | 0 <= i < |sh'.log| && i != e
      ensures sh'.KeyOf(sh'.log[i]) != k && g.Owns(sh'.KeyOf(sh'.log[i]))
    {
      assert sh.KeyOf(sh.log[i]) != k && g.Owns(sh.KeyOf(sh.log[i]));
    }
  }

  /** Entries below their frontier have their original links. */
  lemma OldLinksBelow(g: Grow, sh: Shared, c: seq<bool>, p: Progress, m: nat)
    requires Migrating(g, sh, c, p) && m < |c| && m < p.At(c[m])
    ensures OldLink(g, sh, m)
  {
    UnmigratedLink(g, sh, c, p, m);
  }

  /** The lookup waits on log[y] while the splitting thread is at the boundary below it. */
  lemma ToBoundary(g: Grow, k: Key, s0: State, e: nat, y: nat) returns (mv: Schedule)
    requires Init(g, s0) && OnlyTarget(g, s0.sh, k, e)
    requires var c := Classes(g, s0.sh); e < y < |c| && c[y] == g.One(k) && c[y] != c[y - 1]
    ensures var s := Play(g, k, System(s0, Read(NONE, NONE, false)), mv);
            AtBoundary(g, s0, s.st, y, y) && Standing(s0.sh.log, s.rd, y)
  {
    assert Synced(0);
    var c := Classes(g, s0.sh);
    var start := System(s0, Read(NONE, NONE, false));
    var mv1 := ReachBoundary(g, k, s0, start.rd, y);
    var s1 := Play(g, k, start, mv1);
    OnlyTargetStays(g, s0.sh, s1.st.sh, k, e);
    HomeOfKey(g, k);
    HeadShift(g, s1.st.sh, c, Post(BoundaryAt(c, y), y), false);
    OneTurn(g, k, s1);
    var s2 := Play(g, k, s1, [true]);
    assert s2 == s1.(rd := Read(NONE, NONE, true));
    var mv3 := LookNewRun(g, k, s2, c, BoundaryAt(c, y), e, |c|, y);
    PlayConcat(g, k, start, mv1, [true]);
    PlayConcat(g, k, start, mv1 + [true], mv3);
    mv := mv1 + [true] + mv3;
  }

  /** The lookup walks onto the other chain's entries, down to log[w0]. */
  lemma ToOther(g: Grow, k: Key, s0: State, s: System, e: nat, w0: nat, y: nat) returns (mv: Schedule)
    requires OnlyTarget(g, s0.sh, k, e) && AtBoundary(g, s0, s.st, y, y) && Standing(s0.sh.log, s.rd, y)
    requires var c := Classes(g, s0.sh); e < w0 < y && OnlyBetween(c, !c[y], w0, y)
    ensures var s' := Play(g, k, s, mv); s'.st == s.st && Standing(s0.sh.log, s'.rd, w0)
  {
    assert Synced(0);
    var c := Classes(g, s0.sh);
    OnlyTargetStays(g, s0.sh, s.st.sh, k, e);
    forall m | w0 < m <= y ensures OldLink(g, s.st.sh, m) {
      OldLinksBelow(g, s.st.sh, c, BoundaryAt(c, y), m);
    }
    mv := LookOldRun(g, k, s, e, y, w0);
  }

  /** From log[w0] the lookup is carried over the target to log[w1]. */
  lemma JumpOver(g: Grow, k: Key, s0: State, s: System, e: nat, w1: nat, w0: nat, y: int)
    requires OnlyTarget(g, s0.sh, k, e) && AtSkip(g, s0, s.st, w0, w1 + 1) && Standing(s0.sh.log, s.rd, w0)
    requires Overtaken(Classes(g, s0.sh), e, w1, w0, y) && Classes(g, s0.sh)[e] == g.One(k)
    requires s0.sh.MarkOf(s0.sh.log[w1]).Construction?
    ensures var s' := Play(g, k, s, [true, true]); s'.st == s.st && Standing(s0.sh.log, s'.rd, w1)
  {
    assert Synced(0);
    var sh, c := s.st.sh, Classes(g, s0.sh);
    assert LinkOk(g, sh, c, BoundaryAt(c, w0).Set(c[w0], w1 + 1), w0);
    assert Below(c, c[w0], w0) == w1;
    StepOver(g, k, s, NewPtr(g, sh.log, c, c[w0], w0), true);
  }

  /** The end marker of the old chain is where the lookup expects it. */
  lemma LookEnd(g: Grow, k: Key, s: System)
    requires g.Valid() && g.Owns(k) && s.rd.Read? && s.rd.fine && s.rd.h >= 0
    requires s.st.sh.Next(s.rd.h) == End(g.oldHome, g.oldShift)
    ensures Play(g, k, s, [true]) == s.(rd := Miss)
  {
    HomeOfKey(g, k);
    OneTurn(g, k, s);
  }

  /** From log[w1] the lookup follows original links to the end of the old chain. */
  lemma ToEnd(g: Grow, k: Key, s0: State, s: System, e: nat, w1: nat, w0: nat) returns (mv: Schedule)
    requires OnlyTarget(g, s0.sh, k, e) && AtSkip(g, s0, s.st, w0, w1 + 1) && Standing(s0.sh.log, s.rd, w1)
    requires w1 < e < w0 && Classes(g, s0.sh)[w1] == Classes(g, s0.sh)[w0]
    ensures var s' := Play(g, k, s, mv); s'.st == s.st && s'.rd == Miss
  {
    assert Synced(0);
    var c := Classes(g, s0.sh);
    var p := BoundaryAt(c, w0).Set(c[w0], w1 + 1);
    OnlyTargetStays(g, s0.sh, s.st.sh, k, e);
    forall m | 0 <= m <= w1 ensures OldLink(g, s.st.sh, m) { OldLinksBelow(g, s.st.sh, c, p, m); }
    var mv1 := LookOldRun(g, k, s, e, w1, 0);
    var s1 := Play(g, k, s, mv1);
    assert OldLink(g, s.st.sh, 0);
    LookEnd(g, k, s1);
    PlayConcat(g, k, s, mv1, [true]);
    mv := mv1 + [true];
  }

  /** The newest y can be taken to be the first entry of e's chain above w0. */
  lemma {:induction false} NearestAbove(c: seq<bool>, one: bool, w0: nat, y: nat) returns (y': nat)
    requires w0 < y < |c| && c[y] == one && c[w0] != one
    ensures w0 < y' <= y && c[y'] == one && OnlyBetween(c, !one, w0, y')
  {
    y' := w0 + 1;
    while c[y'] != one
      invariant w0 < y' <= y && OnlyBetween(c, !one, w0, y')
      decreases y - y'
    {
      y' := y' + 1;
    }
  }

  /** First half: the lookup stands on log[w0] while the splitting thread is at the boundary below it. */
  lemma ToWait(g: Grow, k: Key, s0: State, e: nat, w1: nat, w0: nat, y: nat) returns (mv: Schedule)
    requires Init(g, s0) && OnlyTarget(g, s0.sh, k, e) && Target(g, s0.sh, k, e)
    requires Overtaken(Classes(g, s0.sh), e, w1, w0, y)
    ensures var s := Play(g, k, System(s0, Read(NONE, NONE, false)), mv);
            AtBoundary(g, s0, s.st, w0, w0) && Standing(s0.sh.log, s.rd, w0)
  {
    var c := Classes(g, s0.sh);
    var start := System(s0, Read(NONE, NONE, false));
    var b := NearestAbove(c, c[e], w0, y);
    var mv1 := ToBoundary(g, k, s0, e, b);
    var s1 := Play(g, k, start, mv1);
    var mv2 := ToOther(g, k, s0, s1, e, w0, b);
    var s2 := Play(g, k, s1, mv2);
    var mv3 := Cross(g, k, s0, s2, b, w0);
    PlayConcat(g, k, start, mv1, mv2);
    PlayConcat(g, k, start, mv1 + mv2, mv3);
    mv := mv1 + mv2 + mv3;
  }

  lemma TargetStays(g: Grow, k: Key, s0: State, st: State, v: View, e: nat)
    requires Sync(g, s0, st, v) && Target(g, s0.sh, k, e)
    ensures Target(g, st.sh, k, e)
  {
    assert Synced(0);
  }

  /** Second half: the split skips from log[w0] to log[w1] under the lookup. */
  lemma ToMiss(g: Grow, k: Key, s0: State, s: System, e: nat, w1: nat, w0: nat, y: nat) returns (mv: Schedule)
    requires OnlyTarget(g, s0.sh, k, e) && Target(g, s0.sh, k, e)
    requires Overtaken(Classes(g, s0.sh), e, w1, w0, y) && s0.sh.MarkOf(s0.sh.log[w1]).Construction?
    requires AtBoundary(g, s0, s.st, w0, w0) && Standing(s0.sh.log, s.rd, w0)
    ensures var s' := Play(g, k, s, mv); s'.rd == Miss && Target(g, s'.st.sh, k, e)
  {
    var c := Classes(g, s0.sh);
    var mv1 := SkipRun(g, k, s0, s, w0, w0, w1 + 1);
    var s1 := Play(g, k, s, mv1);
    TargetStays(g, k, s0, s1.st, Post(BoundaryAt(c, w0).Set(c[w0], w1 + 1), 0), e);
    JumpOver(g, k, s0, s1, e, w1, w0, y);
    var s2 := Play(g, k, s1, [true, true]);
    var mv2 := ToEnd(g, k, s0, s2, e, w1, w0);
    PlayConcat(g, k, s, mv1, [true, true]);
    PlayConcat(g, k, s, mv1 + [true, true], mv2);
    mv := mv1 + [true, true] + mv2;
  }

  /** On the unsplit chain, the first pass looks at one entry after the other. */
  lemma {:induction false} FirstPassFrom(g: Grow, k: Key, s0: State, e: nat, n: nat) returns (mv: Schedule)
    requires Init(g, s0) && OnlyTarget(g, s0.sh, k, e) && 1 <= n <= FIRST_PASS <= |s0.sh.log| - 1 - e
    ensures var log := s0.sh.log;
            Play(g, k, System(s0, Peek(log[|log| - n], n, false)), mv) == System(s0, Read(NONE, NONE, false))
    decreases FIRST_PASS - n
  {
    var sh, i := s0.sh, |s0.sh.log| - n;
    var s := System(s0, Peek(sh.log[i], n, false));
    assert OldLink(g, sh, i);
    OneTurn(g, k, s);
    if n == FIRST_PASS {
      mv := [true];
    } else {
      TwoLooks(g, k, s);
      var mv' := FirstPassFrom(g, k, s0, e, n + 1);
      PlayConcat(g, k, s, [true, true], mv');
      mv := [true, true] + mv';
    }
  }

  /** The whole first pass before the split begins: it does not get as far as e. */
  lemma FirstPass(g: Grow, k: Key, s0: State, e: nat) returns (mv: Schedule)
    requires Init(g, s0) && OnlyTarget(g, s0.sh, k, e) && e < |s0.sh.log| && !WithinReach(s0.sh, e)
    ensures Play(g, k, System(s0, Peek(NONE, 0, false)), mv) == System(s0, Read(NONE, NONE, false))
  {
    var s := System(s0, Peek(NONE, 0, false));
    HomeOfKey(g, k);
    TwoLooks(g, k, s);
    var mv' := FirstPassFrom(g, k, s0, e, 1);
    PlayConcat(g, k, s, [true, true], mv');
    mv := [true, true] + mv';
  }

  /** Every overtaken entry that the first pass does not reach is missed by some
      lookup: there is a schedule of the splitting thread and one lookup for its
      key, both starting on the unsplit chain, at the end of which the lookup
      reports a miss although the entry is still in the table and visible. */
  lemma OvertakenCanBeMissed(g: Grow, k: Key, s0: State, e: nat, w1: nat, w0: nat, y: nat) returns (mv: Schedule)
    requires Init(g, s0) && OnlyTarget(g, s0.sh, k, e) && Target(g, s0.sh, k, e) && !WithinReach(s0.sh, e)
    requires Overtaken(Classes(g, s0.sh), e, w1, w0, y) && s0.sh.MarkOf(s0.sh.log[w1]).Construction?
    ensures var s := Play(g, k, System(s0, Peek(NONE, 0, false)), mv);
            s.rd == Miss && Target(g, s.st.sh, k, e)
  {
    var start, full := System(s0, Peek(NONE, 0, false)), System(s0, Read(NONE, NONE, false));
    var mv0 := FirstPass(g, k, s0, e);
    var mv1 := ToWait(g, k, s0, e, w1, w0, y);
    var mv2 := ToMiss(g, k, s0, Play(g, k, full, mv1), e, w1, w0, y);
    PlayConcat(g, k, start, mv0, mv1);
    PlayConcat(g, k, start, mv0 + mv1, mv2);
    mv := mv0 + mv1 + mv2;
  }

  /** The states a schedule goes through. */
  function Trace(g: Grow, k: Key, s: System, mv: Schedule): (tr: seq<System>)
    ensures |tr| == |mv| + 1 && tr[0] == s && tr[|mv|] == Play(g, k, s, mv)
    ensures forall i :: 0 <= i < |mv| ==> tr[i + 1] == Moved(g, k, tr[i], Turn(mv[i]))
    decreases |mv|
  {
    if mv == [] then [s] else [s] + Trace(g, k, Moved(g, k, s, Turn(mv[0])), mv[1..])
  }

  lemma TurnKeepsEntries(g: Grow, k: Key, s: System, m: Move, v: View)
    requires Inv(g, s.st, v) && (m == Look || m == Table(Split))
    ensures var sh, sh' := s.st.sh, Moved(g, k, s, m).st.sh;
            sh'.log == sh.log && sh'.keys == sh.keys && sh'.marks == sh.marks
  {
    SplitTouchesLinks(g, s.st, v);
    SplitKeepsMarks(g, s.st);
  }

  lemma {:induction false} PlayKeepsEntries(g: Grow, k: Key, tr: seq<System>, mv: seq<Move>, i: nat)
    requires LookupRun(g, k, tr, mv) && i < |tr| && forall j :: 0 <= j < |mv| ==> mv[j] == Look || mv[j] == Table(Split)
    ensures var sh, sh0 := tr[i].st.sh, tr[0].st.sh;
            sh.log == sh0.log && sh.keys == sh0.keys && sh.marks == sh0.marks
  {
    if i > 0 {
      PlayKeepsEntries(g, k, tr, mv, i - 1);
      var v := RunInv(g, k, tr, mv, i - 1);
      TurnKeepsEntries(g, k, tr[i - 1], mv[i - 1], v);
    }
  }

  /** A schedule that misses the entry shows that it is overtaken and out of reach. */
  lemma MissedIsOvertaken(g: Grow, k: Key, s0: State, e: nat, mv: Schedule)
    requires g.Valid() && Init(g, s0) && Target(g, s0.sh, k, e)
    requires Play(g, k, System(s0, Peek(NONE, 0, false)), mv).rd == Miss
    ensures Missable(g, s0.sh, e) && !WithinReach(s0.sh, e)
  {
    var tr := Trace(g, k, System(s0, Peek(NONE, 0, false)), mv);
    var ms := seq(|mv|, i requires 0 <= i < |mv| => Turn(mv[i]));
    assert Inv(g, s0, Pre(0, 0));
    assert LookupRun(g, k, tr, ms);
    PlayKeepsEntries(g, k, tr, ms, |ms|);
    LookupMissesOnlyOvertaken(g, k, tr, ms, e);
    SameMissable(g, tr[|ms|].st.sh, s0.sh, e);
  }

  lemma SameMissable(g: Grow, sh: Shared, sh': Shared, e: nat)
    requires sh'.log == sh.log && sh'.keys == sh.keys && sh'.marks == sh.marks && Missable(g, sh, e)
    ensures Missable(g, sh', e)
  {
    assert Classes(g, sh') == Classes(g, sh);
    var w1, w0, y :| Overtaken(Classes(g, sh), e, w1, w0, y) && sh.MarkOf(sh.log[w1]).Construction?;
    assert Overtaken(Classes(g, sh'), e, w1, w0, y) && sh'.MarkOf(sh'.log[w1]).Construction?;
  }

  /** A lookup running against a split can miss an entry that is in the table
      throughout if and only if that entry is overtaken by one under construction
      and at least as many entries are newer as the first pass looks at. */
  lemma LookupCanMissIffOvertaken(g: Grow, k: Key, s0: State, e: nat)
    requires Init(g, s0) && OnlyTarget(g, s0.sh, k, e) && Target(g, s0.sh, k, e)
    ensures (exists mv :: Play(g, k, System(s0, Peek(NONE, 0, false)), mv).rd == Miss)
            <==> Missable(g, s0.sh, e) && |s0.sh.log| - 1 - e >= FIRST_PASS
  {
    if Missable(g, s0.sh, e) && !WithinReach(s0.sh, e) {
      var w1, w0, y :| Overtaken(Classes(g, s0.sh), e, w1, w0, y) && s0.sh.MarkOf(s0.sh.log[w1]).Construction?;
      var mv := OvertakenCanBeMissed(g, k, s0, e, w1, w0, y);
    }
    forall mv | Play(g, k, System(s0, Peek(NONE, 0, false)), mv).rd == Miss
      ensures Missable(g, s0.sh, e) && !WithinReach(s0.sh, e)
    {
      MissedIsOvertaken(g, k, s0, e, mv);
    }
  }

  /** The number of entries of the example chain. */
  const ENTRIES: nat := 12

  /** The hash of each entry: homes 2 and 0 with two bits, 0 with one. */
  function ExampleHash(x: nat): nat { if x == 0 then 6 else if x == 2 then 2 else 4 * (x - 1) }

  function ExampleLink(x: nat): Ptr { if x == 0 then End(0, 1) else Link(x - 1, 1, false) }

  function ExampleMark(x: nat): Mark { if x == 0 then Construction else Visible }

  /** A chain of twelve entries, split from home 0 with one hash bit to homes 0 and
      2 with two. Oldest first the new homes are 2, 0, 2, 0, and 0 from there on;
      the oldest entry is under construction. */
  function ExampleState(): State {
    State(Shared(Link(ENTRIES - 1, 1, false), Unused,
                 map x: nat | x < ENTRIES :: ExampleLink(x),
                 map x: nat | x < ENTRIES :: Key(0, ExampleHash(x)),
                 map x: nat | x < ENTRIES :: ExampleMark(x),
                 seq(ENTRIES, x => x)),
          Acquire, false, false, map[])
  }

  lemma ExampleHomes(x: nat)
    requires x < ENTRIES
    ensures BottomBits(ExampleHash(x), 1) == 0
    ensures BottomBits(ExampleHash(x), 2) == (if x == 0 || x == 2 then 2 else 0)
  {
    assert Pow2(1) == 2 && Pow2(2) == 4;
  }

  /** On that chain, with ten entries newer than the second oldest, a lookup for that entry can miss it. */
  lemma ExampleMiss()
    ensures var g, s0, k := GrowOf(0, 1), ExampleState(), Key(0, 0);
            && g.Valid() && Init(g, s0) && Target(g, s0.sh, k, 1)
            && exists mv :: Play(g, k, System(s0, Peek(NONE, 0, false)), mv).rd == Miss
  {
    var g, s0, k := GrowOf(0, 1), ExampleState(), Key(0, 0);
    var sh := s0.sh;
    assert Pow2(1) == 2 && Pow2(2) == 4;
    GrowOfValid(0, 1);
    forall x: nat | x < ENTRIES
      ensures sh.log[x] == x && g.Owns(sh.KeyOf(x)) && g.One(sh.KeyOf(x)) == (x == 0 || x == 2)
    {
      ExampleHomes(x);
    }
    forall i ensures OldLink(g, sh, i) { }
    assert Overtaken(Classes(g, sh), 1, 0, 2, 3);
    var mv := OvertakenCanBeMissed(g, k, s0, 1, 0, 2, 3);
  }
}
