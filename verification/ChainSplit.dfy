/** SplitForGrow: the step-by-step split of one chain of AutoHyperClockTable
    into a "zero" and a "one" chain, interleaved with any number of threads
    inserting at the chain heads. Each step is one atomic access to the table. */
module ChainSplit {
  import opened LinearHashing
  import opened ChainPointers

  /** The chain being split: its home, the head of the new chain, the number of
      hash bits used before the split, and GetHomeIndex(hash, shift). */
  datatype Grow = Grow(oldHome: nat, growHome: nat, oldShift: nat, bits: (nat, nat) -> nat) {
    function NewShift(): nat { oldShift + 1 }
    /** The head of the zero (false) or one (true) chain. */
    function HeadHome(one: bool): nat { if one then growHome else oldHome }
    /** Keys that live on the chain being split. */
    predicate Owns(k: Key) { bits(k.k1, oldShift) == oldHome }
    /** Which of the two output chains a key goes to. */
    predicate One(k: Key) { bits(k.k1, NewShift()) != oldHome }
    /** What the split relies on: one more bit leads to one of the two heads. */
    ghost predicate Valid() {
      && oldHome != growHome
      && bits(oldHome, oldShift) == oldHome && bits(growHome, oldShift) == oldHome
      && forall h :: bits(h, oldShift) == oldHome ==> bits(h, NewShift()) == oldHome || bits(h, NewShift()) == growHome
    }
  }

  /** The split performed by Grow() for the chain at oldHome. */
  function GrowOf(oldHome: nat, oldShift: nat): Grow {
    Grow(oldHome, oldHome + Pow2(oldShift), oldShift, (h, n) => BottomBits(h, n))
  }

  lemma GrowOfValid(oldHome: nat, oldShift: nat)
    requires oldHome < Pow2(oldShift)
    ensures GrowOf(oldHome, oldShift).Valid()
  {
    var g := GrowOf(oldHome, oldShift);
    ModOf(oldHome, Pow2(oldShift), 0, oldHome);
    ModOf(oldHome + Pow2(oldShift), Pow2(oldShift), 1, oldHome);
    forall h: nat | g.bits(h, oldShift) == oldHome
      ensures g.bits(h, g.NewShift()) == oldHome || g.bits(h, g.NewShift()) == g.growHome
    {
      NextBit(h, oldShift);
    }
  }

  /** The part of the table the split touches. `log` is a history of the
      successful head insertions, oldest first: the entries of the chain(s). */
  datatype Shared = Shared(zero: Ptr, one: Ptr, next: map<nat, Ptr>, keys: map<nat, Key>,
                           marks: map<nat, Mark>, log: seq<nat>) {
    function Next(x: nat): Ptr { NextIn(next, x) }
    function KeyOf(x: nat): Key { if x in keys then keys[x] else Key(0, 0) }
    function MarkOf(x: nat): Mark { if x in marks then marks[x] else Construction }
    function Head(one: bool): Ptr { if one then this.one else zero }
    function SetHead(one: bool, p: Ptr): Shared { if one then this.(one := p) else this.(zero := p) }
    function SetNext(x: nat, p: Ptr): Shared { this.(next := next[x := p]) }
    predicate OnOne(g: Grow, x: nat) { g.One(KeyOf(x)) }
  }

  /** Local variables of SplitForGrow: the two frontiers, the last entry looked
      at, and which frontier is earlier on the original chain (NONE: unknown). */
  datatype Front = Front(zero: int, one: int, cur: int, first: int) {
    function At(one: bool): int { if one then this.one else zero }
    function Set(one: bool, x: int): Front { if one then this.(one := x) else this.(zero := x) }
  }

  const FRESH_FRONT: Front := Front(NONE, NONE, NONE, NONE)

  /** What follows a call of UpgradeShiftsOnRange. */
  datatype After = ThenMigrate | ThenSwap | ThenUnlock

  /** Program counter of the splitting thread. */
  datatype Pc =
    | Acquire
    | Scan(saved: Ptr, at: Ptr, f: Front)
    | StoreOne(saved: Ptr, f: Front)
    | CasZero(saved: Ptr, f: Front)
    | Upgrade(one: bool, stop: Ptr, f: Front, after: After)
    | Migrate(f: Front)
    | UnlockOne
    | UnlockZero
    | Done

  /** Program counter of an inserting thread that already owns `slot`. `fine`
      says that it uses the new shift. */
  datatype InsPc =
    | Load(slot: nat, fine: bool)
    | Store(slot: nat, fine: bool, word: Ptr)
    | Cas(slot: nat, fine: bool, word: Ptr)

  /** ownsZero and ownsOne: the splitting thread's rewrite locks are on non-empty chains. */
  datatype State = State(sh: Shared, pc: Pc, ownsZero: bool, ownsOne: bool, ins: map<nat, InsPc>)

  // ---------------------------------------------------------------- steps

  /** The pointer stored in a head for a frontier that may be missing. */
  function HeadPtr(g: Grow, one: bool, x: int, locked: bool): Ptr {
    if x >= 0 then Link(x, g.NewShift(), locked) else End(g.HeadHome(one), g.NewShift())
  }

  /** One iteration of the scan for the first entry of each output chain. */
  function ScanStep(g: Grow, sh: Shared, saved: Ptr, at: Ptr, f: Front): Pc {
    if !at.Link? then StoreOne(saved, f.(cur := NONE))
    else
      var one := sh.OnOne(g, at.slot);
      var f := f.(cur := at.slot);
      if f.At(one) != NONE then Scan(saved, sh.Next(at.slot), f)
      else
        var f := f.Set(one, at.slot);
        if f.At(!one) != NONE then StoreOne(saved, f)
        else Scan(saved, sh.Next(at.slot), f.(first := if one then 1 else 0))
  }

  /** Control flow once both heads carry the new shift. */
  function AfterBigStep(g: Grow, f: Front): Pc {
    if f.first < 0 then UnlockOne
    else
      var one := f.first == 1;
      var other := f.At(!one);
      var stop := if other >= 0 then Link(other, g.oldShift, false)
                  else End(g.HeadHome(one), g.NewShift());
      Upgrade(one, stop, f, ThenMigrate)
  }

  function Resume(f: Front, after: After): Pc {
    match after
    case ThenMigrate => if f.zero == NONE then UnlockOne else Migrate(f)
    case ThenSwap => Migrate(f.(first := 1 - f.first))
    case ThenUnlock => UnlockOne
  }

  /** One iteration of UpgradeShiftsOnRange: at most one atomic write. */
  function UpgradeStep(sh: Shared, one: bool, stop: Ptr, f: Front, after: After): (Shared, Pc) {
    var x := f.At(one);
    if x < 0 then (sh, Upgrade(one, stop, f, after))
    else
      var nx := sh.Next(x);
      if nx == stop then (sh, Resume(f, after))
      else if nx.Link? then
        (sh.SetNext(x, nx.(shift := nx.shift + 1)), Upgrade(one, stop, f.Set(one, nx.slot), after))
      else (sh.SetNext(x, stop), Resume(f.Set(one, NONE), after))
  }

  /** One iteration of the migration loop: at most one atomic write. */
  function MigrateStep(g: Grow, sh: Shared, f: Front): (Shared, Pc) {
    var one := f.first == 1;
    if f.cur < 0 || f.At(one) < 0 then (sh, Migrate(f))
    else
      var nx := sh.Next(f.cur);
      if !nx.Link? then
        (sh.SetNext(f.At(one), End(g.HeadHome(one), g.NewShift())),
         Upgrade(!one, End(g.HeadHome(!one), g.NewShift()), f.Set(one, NONE), ThenUnlock))
      else
        var f' := f.(cur := nx.slot);
        if sh.OnOne(g, nx.slot) == one then
          (sh.SetNext(f.At(one), Link(nx.slot, g.NewShift(), false)),
           Upgrade(!one, nx, f'.Set(one, nx.slot), ThenSwap))
        else (sh, Migrate(f'))
  }

  /** The next atomic step of the splitting thread. */
  function SplitStep(g: Grow, s: State): State {
    var sh := s.sh;
    match s.pc
    case Acquire =>
      // FetchOr(kHeadLocked): no effect on an end, and a retry if already locked
      if sh.zero.Link? then
        if sh.zero.locked then s
        else
          var w := sh.zero.(locked := true);
          s.(sh := sh.(zero := w), pc := Scan(w, w, FRESH_FRONT), ownsZero := true)
      else s.(pc := Scan(sh.zero, sh.zero, FRESH_FRONT), ownsZero := false)
    case Scan(saved, at, f) => s.(pc := ScanStep(g, sh, saved, at, f))
    case StoreOne(saved, f) => s.(sh := sh.(one := HeadPtr(g, true, f.one, true)), pc := CasZero(saved, f))
    case CasZero(saved, f) =>
      if sh.zero == saved then
        s.(sh := sh.(zero := HeadPtr(g, false, f.zero, true)), pc := AfterBigStep(g, f),
           ownsZero := f.zero >= 0, ownsOne := f.one >= 0)
      else if saved.Link? || !sh.zero.Link? then s.(pc := Scan(sh.zero, sh.zero, FRESH_FRONT))
      else s.(pc := Acquire)
    case Upgrade(one, stop, f, after) =>
      var (sh', pc') := UpgradeStep(sh, one, stop, f, after);
      s.(sh := sh', pc := pc')
    case Migrate(f) =>
      var (sh', pc') := MigrateStep(g, sh, f);
      s.(sh := sh', pc := pc')
    case UnlockOne =>
      s.(sh := if s.ownsOne then sh.(one := Unlocked(sh.one)) else sh, ownsOne := false, pc := UnlockZero)
    case UnlockZero =>
      s.(sh := if s.ownsZero then sh.(zero := Unlocked(sh.zero)) else sh, ownsZero := false, pc := Done)
    case Done => s
  }

  /** A thread claims a free slot for `key` (TryInsert) and is about to link it.
      Its length_info_ may be stale; a fresh one is published only after both
      heads carry the new shift. */
  predicate CanStart(g: Grow, s: State, t: nat, slot: nat, key: Key, fine: bool) {
    && t !in s.ins && slot !in s.sh.log && g.Owns(key)
    && (forall u :: u in s.ins ==> s.ins[u].slot != slot)
    && (fine ==> ShiftOf(s.sh.zero) == g.NewShift())
  }

  function StartStep(s: State, t: nat, slot: nat, key: Key, fine: bool): State {
    s.(sh := s.sh.(keys := s.sh.keys[slot := key], marks := s.sh.marks[slot := Visible]),
       ins := s.ins[t := Load(slot, fine)])
  }

  /** The next atomic step of inserting thread t; `weak` lets CasWeak fail spuriously. */
  function InsertStep(g: Grow, s: State, t: nat, weak: bool): State
    requires t in s.ins
  {
    var sh := s.sh;
    match s.ins[t]
    case Load(slot, fine) =>
      var w := sh.Head(fine && sh.OnOne(g, slot));
      if !fine && ShiftOf(w) > g.oldShift then s.(ins := s.ins[t := Load(slot, true)])
      else s.(ins := s.ins[t := Store(slot, fine, w)])
    case Store(slot, fine, word) =>
      s.(sh := sh.SetNext(slot, Unlocked(word)), ins := s.ins[t := Cas(slot, fine, word)])
    case Cas(slot, fine, word) =>
      var one := fine && sh.OnOne(g, slot);
      if sh.Head(one) == word && !weak then
        var w := Link(slot, if fine then g.NewShift() else g.oldShift, word.Link? && word.locked);
        s.(sh := sh.SetHead(one, w).(log := sh.log + [slot]), ins := s.ins - {t})
      else s.(ins := s.ins[t := Load(slot, fine)])
  }

  /** Erase makes an entry invisible; taking ownership puts it under construction.
      No entry on the chain leaves that state while the rewrite lock is held. */
  predicate CanMark(s: State, x: nat, m: Mark) {
    x in s.sh.log && (s.sh.MarkOf(x).Visible? || (s.sh.MarkOf(x).Invisible? && m.Construction?))
  }

  function MarkStep(s: State, x: nat, m: Mark): State { s.(sh := s.sh.(marks := s.sh.marks[x := m])) }

  /** One step of the whole system except readers. */
  datatype Action =
    | Split
    | Start(t: nat, slot: nat, key: Key, fine: bool)
    | Insert(t: nat, weak: bool)
    | SetMark(x: nat, m: Mark)

  predicate Enabled(g: Grow, s: State, a: Action) {
    match a
    case Split => true
    case Start(t, slot, key, fine) => CanStart(g, s, t, slot, key, fine)
    case Insert(t, _) => t in s.ins
    case SetMark(x, m) => CanMark(s, x, m)
  }

  function Step(g: Grow, s: State, a: Action): State
    requires Enabled(g, s, a)
  {
    match a
    case Split => SplitStep(g, s)
    case Start(t, slot, key, fine) => StartStep(s, t, slot, key, fine)
    case Insert(t, weak) => InsertStep(g, s, t, weak)
    case SetMark(x, m) => MarkStep(s, x, m)
  }

  // ---------------------------------------------------------------- invariant

  /** For each entry in the log, which output chain it goes to. */
  function Classes(g: Grow, sh: Shared): (c: seq<bool>)
    ensures |c| == |sh.log| && forall i :: 0 <= i < |c| ==> c[i] == sh.OnOne(g, sh.log[i])
  {
    seq(|sh.log|, i requires 0 <= i < |sh.log| => sh.OnOne(g, sh.log[i]))
  }

  /** The pointer, before the split, to the chain made of log[..i]. */
  function OldPtr(g: Grow, log: seq<nat>, i: nat): Ptr
    requires i <= |log|
  {
    if i == 0 then End(g.oldHome, g.oldShift) else Link(log[i - 1], g.oldShift, false)
  }

  /** The newest entry of an output chain among the oldest i, or -1. */
  function Below(c: seq<bool>, one: bool, i: nat): (j: int)
    requires i <= |c|
    ensures -1 <= j < i
    ensures j >= 0 ==> c[j] == one
    ensures forall m :: j < m < i ==> c[m] != one
  {
    if i == 0 then -1 else if c[i - 1] == one then i - 1 else Below(c, one, i - 1)
  }

  /** The pointer, after the split, to the part of an output chain within log[..i]. */
  function NewPtr(g: Grow, log: seq<nat>, c: seq<bool>, one: bool, i: nat): Ptr
    requires i <= |c| == |log|
  {
    var j := Below(c, one, i);
    if j < 0 then End(g.HeadHome(one), g.NewShift()) else Link(log[j], g.NewShift(), false)
  }

  /** How far each output chain has been migrated: entries of a chain at log
      positions at or above its mark have their final link. */
  datatype Progress = Progress(zero: nat, one: nat) {
    function At(one: bool): nat { if one then this.one else zero }
    function Set(one: bool, q: nat): Progress { if one then this.(one := q) else this.(zero := q) }
  }

  /** Facts that no step changes: entries are distinct and belong here, and
      slots being inserted are not yet on any chain. */
  ghost predicate Basic(g: Grow, s: State) {
    && NoDup(s.sh.log)
    && (forall i :: 0 <= i < |s.sh.log| ==> g.Owns(s.sh.KeyOf(s.sh.log[i])))
    && (forall t :: t in s.ins ==> s.ins[t].slot !in s.sh.log && g.Owns(s.sh.KeyOf(s.ins[t].slot)))
    && (forall t, u :: t in s.ins && u in s.ins && t != u ==> s.ins[t].slot != s.ins[u].slot)
  }

  ghost predicate OldLink(g: Grow, sh: Shared, i: int) {
    0 <= i < |sh.log| ==> sh.Next(sh.log[i]) == OldPtr(g, sh.log, i)
  }

  /** The chain before the big step. */
  ghost predicate Whole(g: Grow, sh: Shared) {
    && Unlocked(sh.zero) == OldPtr(g, sh.log, |sh.log|)
    && forall i :: OldLink(g, sh, i)
  }

  /** A frontier is the newest unmigrated entry of its chain, and the chain never
      runs, past it, over a migrated entry of the other chain. */
  ghost predicate FrontierOk(c: seq<bool>, p: Progress, one: bool) {
    && p.At(one) <= |c|
    && (p.At(one) > 0 ==> c[p.At(one) - 1] == one)
    && forall i :: 0 <= i < p.At(one) && c[i] != one ==> i < p.At(!one)
  }

  /** The link an entry carries at this stage of the migration. */
  function LinkAt(g: Grow, log: seq<nat>, c: seq<bool>, p: Progress, i: nat): Ptr
    requires i < |c| == |log|
  {
    if i >= p.At(c[i]) then NewPtr(g, log, c, c[i], i) else OldPtr(g, log, i)
  }

  ghost predicate LinkOk(g: Grow, sh: Shared, c: seq<bool>, p: Progress, i: int) {
    0 <= i < |c| == |sh.log| ==> sh.Next(sh.log[i]) == LinkAt(g, sh.log, c, p, i)
  }

  /** The two partially migrated chains after the big step. */
  ghost predicate Migrating(g: Grow, sh: Shared, c: seq<bool>, p: Progress) {
    && |c| == |sh.log|
    && FrontierOk(c, p, false) && FrontierOk(c, p, true)
    && Unlocked(sh.zero) == NewPtr(g, sh.log, c, false, |c|)
    && Unlocked(sh.one) == NewPtr(g, sh.log, c, true, |c|)
    && forall i :: LinkOk(g, sh, c, p, i)
  }

  /** Slot of the frontier entry of one output chain. */
  function FrontSlot(log: seq<nat>, q: nat): int
    requires q <= |log|
  {
    if q == 0 then NONE else log[q - 1]
  }

  /** What the saved head of the zero chain says about the k entries known to the scan. */
  ghost predicate SavedHead(g: Grow, sh: Shared, saved: Ptr, k: nat) {
    && k <= |sh.log|
    && saved == (if k == 0 then End(g.oldHome, g.oldShift) else Link(sh.log[k - 1], g.oldShift, true))
    && (k > 0 ==> sh.zero.Link? && sh.zero.locked)
  }

  function FirstOf(c: seq<bool>, k: nat): int
    requires k <= |c|
  {
    if k == 0 then NONE else if c[k - 1] then 1 else 0
  }

  /** The frontier the scan has found for one chain once it has looked at log[m..k]. */
  function SeenFront(log: seq<nat>, c: seq<bool>, one: bool, k: nat, m: nat): int
    requires k <= |c| == |log|
  {
    if Below(c, one, k) >= m then FrontSlot(log, Below(c, one, k) + 1) else NONE
  }

  ghost predicate Scanned(log: seq<nat>, c: seq<bool>, f: Front, k: nat, m: nat) {
    && m <= k <= |c| == |log|
    && f.zero == SeenFront(log, c, false, k, m) && f.one == SeenFront(log, c, true, k, m)
    && f.first == (if m == k then NONE else FirstOf(c, k))
    && !(f.zero != NONE && f.one != NONE)
  }

  /** The scan is complete: it found the newest entry of each output chain. */
  ghost predicate Found(log: seq<nat>, c: seq<bool>, f: Front, k: nat) {
    && k <= |c| == |log|
    && f.zero == SeenFront(log, c, false, k, 0) && f.one == SeenFront(log, c, true, k, 0)
    && f.first == FirstOf(c, k)
    && (k > 0 ==> f.cur == f.At(f.first != 1))
  }

  /** All entries at log positions lo..hi go to the given output chain. */
  ghost predicate OnlyBetween(c: seq<bool>, one: bool, lo: nat, hi: nat) {
    hi <= |c| && forall i :: lo <= i < hi ==> c[i] == one
  }

  ghost predicate FrontsMatch(log: seq<nat>, f: Front, p: Progress) {
    && p.zero <= |log| && p.one <= |log|
    && f.zero == FrontSlot(log, p.zero) && f.one == FrontSlot(log, p.one)
  }

  /** The chain of `one` is being upgraded down to the other frontier, or to the end. */
  ghost predicate UpgradeOk(g: Grow, log: seq<nat>, c: seq<bool>, pc: Pc, p: Progress)
    requires pc.Upgrade?
  {
    var one := pc.one;
    && FrontsMatch(log, pc.f, p)
    && p.At(!one) < p.At(one)
    && OnlyBetween(c, one, p.At(!one), p.At(one))
    && (if p.At(!one) > 0
        then && pc.stop == OldPtr(g, log, p.At(!one)) && !pc.after.ThenUnlock?
             && pc.f.cur == pc.f.At(!one)
             && pc.f.first == (if one == pc.after.ThenMigrate? then 1 else 0)
        else pc.stop == End(g.HeadHome(one), g.NewShift()) && !pc.after.ThenSwap?)
  }

  /** The earlier frontier sits right before the other, and cur (at log[k-1]) is
      reached from there through entries of the other chain only. */
  ghost predicate MigrateOk(log: seq<nat>, c: seq<bool>, f: Front, p: Progress, k: nat) {
    var one := f.first == 1;
    && FrontsMatch(log, f, p) && 0 <= f.first <= 1
    && p.At(one) == p.At(!one) + 1
    && 1 <= k <= p.At(!one)
    && f.cur == log[k - 1]
    && OnlyBetween(c, !one, k - 1, p.At(!one))
  }

  /** Proof view of a state: how much the scan has seen, or how far the migration is. */
  datatype View = Pre(k: nat, m: nat) | Post(p: Progress, k: nat)

  /** The migration only moves forward. */
  ghost predicate Forward(v: View, v': View) {
    v.Post? ==> v'.Post? && v'.p.zero <= v.p.zero && v'.p.one <= v.p.one
  }

  ghost predicate PcOk(g: Grow, sh: Shared, c: seq<bool>, pc: Pc, v: View) {
    match pc
    case Acquire => v.Pre?
    case Scan(saved, at, f) =>
      && v.Pre? && SavedHead(g, sh, saved, v.k) && Scanned(sh.log, c, f, v.k, v.m)
      && Unlocked(at) == OldPtr(g, sh.log, v.m)
    case StoreOne(saved, f) => v.Pre? && SavedHead(g, sh, saved, v.k) && Found(sh.log, c, f, v.k)
    case CasZero(saved, f) =>
      v.Pre? && SavedHead(g, sh, saved, v.k) && Found(sh.log, c, f, v.k) && sh.one == HeadPtr(g, true, f.one, true)
    case Upgrade(_, _, _, _) => v.Post? && UpgradeOk(g, sh.log, c, pc, v.p)
    case Migrate(f) => v.Post? && MigrateOk(sh.log, c, f, v.p, v.k)
    case UnlockOne => v.Post? && v.p == Progress(0, 0)
    case UnlockZero => v.Post? && v.p == Progress(0, 0)
    case Done => v.Post? && v.p == Progress(0, 0)
  }

  ghost predicate InsOk(g: Grow, sh: Shared, post: bool, i: InsPc) {
    && (i.fine ==> post)
    && (!i.Load? ==> !i.word.Unused? && i.word.shift == if i.fine then g.NewShift() else g.oldShift)
    && (i.Cas? ==> sh.Next(i.slot) == Unlocked(i.word))
  }

  ghost predicate ChainOk(g: Grow, sh: Shared, c: seq<bool>, v: View) {
    if v.Pre? then Whole(g, sh) else Migrating(g, sh, c, v.p)
  }

  /** The chains and the splitting thread's program counter agree. */
  ghost predicate Stage(g: Grow, sh: Shared, c: seq<bool>, pc: Pc, v: View) {
    ChainOk(g, sh, c, v) && PcOk(g, sh, c, pc, v)
  }

  ghost predicate AllInsOk(g: Grow, s: State, post: bool) {
    forall t :: t in s.ins ==> InsOk(g, s.sh, post, s.ins[t])
  }

  ghost predicate Inv(g: Grow, s: State, v: View) {
    Basic(g, s) && AllInsOk(g, s, v.Post?) && Stage(g, s.sh, Classes(g, s.sh), s.pc, v)
  }

  // ---------------------------------------------------------------- preservation

  lemma FrontiersAfterAdvance(c: seq<bool>, p: Progress, one: bool, q': nat)
    requires FrontierOk(c, p, one) && FrontierOk(c, p, !one)
    requires p.At(!one) < p.At(one) && Below(c, one, p.At(one) - 1) == q' - 1
    ensures FrontierOk(c, p.Set(one, q'), one) && FrontierOk(c, p.Set(one, q'), !one)
  {
  }

  lemma LinkAfterAdvance(g: Grow, sh: Shared, c: seq<bool>, p: Progress, one: bool, q': nat, i: nat)
    requires NoDup(sh.log) && |c| == |sh.log| && LinkOk(g, sh, c, p, i) && i < |c|
    requires 0 < p.At(one) <= |c| && c[p.At(one) - 1] == one && Below(c, one, p.At(one) - 1) == q' - 1
    ensures LinkOk(g, sh.SetNext(sh.log[p.At(one) - 1], NewPtr(g, sh.log, c, one, p.At(one) - 1)), c, p.Set(one, q'), i)
  {
    if i != p.At(one) - 1 {
      assert sh.log[i] != sh.log[p.At(one) - 1];
    }
  }

  /** Giving the frontier entry its final link moves the frontier to the next
      entry of its chain, and keeps both chains consistent. */
  lemma AdvanceFrontier(g: Grow, sh: Shared, c: seq<bool>, p: Progress, one: bool, q': nat)
    requires NoDup(sh.log) && Migrating(g, sh, c, p)
    requires p.At(!one) < p.At(one) && Below(c, one, p.At(one) - 1) == q' - 1
    ensures Migrating(g, sh.SetNext(sh.log[p.At(one) - 1], NewPtr(g, sh.log, c, one, p.At(one) - 1)), c, p.Set(one, q'))
  {
    FrontiersAfterAdvance(c, p, one, q');
    var sh' := sh.SetNext(sh.log[p.At(one) - 1], NewPtr(g, sh.log, c, one, p.At(one) - 1));
    forall i | 0 <= i < |c|
      ensures LinkOk(g, sh', c, p.Set(one, q'), i)
    {
      LinkAfterAdvance(g, sh, c, p, one, q', i);
    }
  }

  lemma ScanPreserves(g: Grow, sh: Shared, c: seq<bool>, pc: Pc, v: View) returns (v': View)
    requires pc.Scan? && c == Classes(g, sh) && Whole(g, sh) && PcOk(g, sh, c, pc, v)
    ensures v' == Pre(v.k, if pc.at.Link? then v.m - 1 else v.m)
    ensures PcOk(g, sh, c, ScanStep(g, sh, pc.saved, pc.at, pc.f), v')
  {
    var k, m := v.k, v.m;
    if !pc.at.Link? {
      v' := v;
    } else {
      v' := Pre(k, m - 1);
      assert OldLink(g, sh, m - 1);
      var one := c[m - 1];
      if m < k {
        assert Below(c, c[k - 1], k) == k - 1;
      }
    }
  }

  /** Where the migration starts: at the newest entry of each chain. */
  function FirstProgress(c: seq<bool>): Progress { Progress(Below(c, false, |c|) + 1, Below(c, true, |c|) + 1) }

  lemma BigStepLinks(g: Grow, sh: Shared, c: seq<bool>, f: Front)
    requires |c| == |sh.log| && Whole(g, sh) && Found(sh.log, c, f, |c|) && sh.one == HeadPtr(g, true, f.one, true)
    ensures Migrating(g, sh.(zero := HeadPtr(g, false, f.zero, true)), c, FirstProgress(c))
  {
    var sh', p := sh.(zero := HeadPtr(g, false, f.zero, true)), FirstProgress(c);
    forall i | 0 <= i < |c|
      ensures LinkOk(g, sh', c, p, i)
    {
      assert OldLink(g, sh, i);
    }
  }

  lemma BigStepPc(g: Grow, sh: Shared, c: seq<bool>, f: Front)
    requires |c| == |sh.log| && NoDup(sh.log) && Found(sh.log, c, f, |c|)
    ensures PcOk(g, sh.(zero := HeadPtr(g, false, f.zero, true)), c, AfterBigStep(g, f), Post(FirstProgress(c), 0))
  {
  }

  lemma BigStep(g: Grow, sh: Shared, c: seq<bool>, pc: Pc, v: View) returns (v': View)
    requires pc.CasZero? && NoDup(sh.log) && Whole(g, sh) && PcOk(g, sh, c, pc, v) && sh.zero == pc.saved
    ensures v' == Post(FirstProgress(c), 0)
    ensures Stage(g, sh.(zero := HeadPtr(g, false, pc.f.zero, true)), c, AfterBigStep(g, pc.f), v')
  {
    assert v.k == |c|;
    v' := Post(FirstProgress(c), 0);
    BigStepLinks(g, sh, c, pc.f);
    BigStepPc(g, sh, c, pc.f);
  }

  /** An entry below its frontier still carries its original link. */
  lemma UnmigratedLink(g: Grow, sh: Shared, c: seq<bool>, p: Progress, i: nat)
    requires Migrating(g, sh, c, p) && i < |c| && i < p.At(c[i])
    ensures sh.Next(sh.log[i]) == OldPtr(g, sh.log, i)
  {
    assert LinkOk(g, sh, c, p, i);
  }

  /** One upgrade in the middle of a chain, as a link write and a new program counter. */
  lemma UpgradeMoves(g: Grow, sh: Shared, c: seq<bool>, pc: Pc, p: Progress, q: nat)
    requires pc.Upgrade? && |sh.log| == |c| && UpgradeOk(g, sh.log, c, pc, p)
    requires q == p.At(pc.one) >= 2
    requires sh.Next(sh.log[q - 1]) == OldPtr(g, sh.log, q - 1) != pc.stop
    ensures Below(c, pc.one, q - 1) == q - 2
    ensures UpgradeStep(sh, pc.one, pc.stop, pc.f, pc.after) ==
            (sh.SetNext(sh.log[q - 1], NewPtr(g, sh.log, c, pc.one, q - 1)),
             Upgrade(pc.one, pc.stop, pc.f.Set(pc.one, sh.log[q - 2]), pc.after))
    ensures UpgradeOk(g, sh.log, c, Upgrade(pc.one, pc.stop, pc.f.Set(pc.one, sh.log[q - 2]), pc.after),
            p.Set(pc.one, q - 1))
  {
    assert c[q - 2] == pc.one;
  }

  /** The last unmigrated entry gets the end marker of its own chain. */
  lemma UpgradeEnds(g: Grow, sh: Shared, c: seq<bool>, pc: Pc, p: Progress)
    requires pc.Upgrade? && |sh.log| == |c| && UpgradeOk(g, sh.log, c, pc, p) && p.At(pc.one) == 1
    requires sh.Next(sh.log[0]) == OldPtr(g, sh.log, 0)
    ensures p.Set(pc.one, 0) == Progress(0, 0)
    ensures UpgradeStep(sh, pc.one, pc.stop, pc.f, pc.after) ==
            (sh.SetNext(sh.log[0], NewPtr(g, sh.log, c, pc.one, 0)), UnlockOne)
  {
  }

  /** The upgrade has reached the other frontier: the migration loop takes over. */
  lemma UpgradeStops(g: Grow, sh: Shared, c: seq<bool>, pc: Pc, p: Progress)
    requires pc.Upgrade? && NoDup(sh.log) && |sh.log| == |c| && UpgradeOk(g, sh.log, c, pc, p)
    requires FrontierOk(c, p, !pc.one)
    requires sh.Next(sh.log[p.At(pc.one) - 1]) == OldPtr(g, sh.log, p.At(pc.one) - 1) == pc.stop
    ensures var (sh', pc') := UpgradeStep(sh, pc.one, pc.stop, pc.f, pc.after);
            sh' == sh && pc'.Migrate? && MigrateOk(sh.log, c, pc'.f, p, p.At(!pc.one))
  {
    assert p.At(pc.one) == p.At(!pc.one) + 1;
  }

  /** A skip, as a link write and a new program counter: the earlier frontier
      jumps over the other chain's entries and becomes the later one. */
  lemma MigrateSkips(g: Grow, sh: Shared, c: seq<bool>, f: Front, p: Progress, k: nat, one: bool)
    requires c == Classes(g, sh) && 2 <= k && MigrateOk(sh.log, c, f, p, k) && c[k - 2] == one == (f.first == 1)
    requires sh.Next(sh.log[k - 1]) == OldPtr(g, sh.log, k - 1)
    ensures Below(c, one, p.At(one) - 1) == k - 2
    ensures MigrateStep(g, sh, f) ==
            (sh.SetNext(sh.log[p.At(one) - 1], NewPtr(g, sh.log, c, one, p.At(one) - 1)),
             Upgrade(!one, OldPtr(g, sh.log, k - 1), f.(cur := sh.log[k - 2]).Set(one, sh.log[k - 2]), ThenSwap))
    ensures UpgradeOk(g, sh.log, c,
            Upgrade(!one, OldPtr(g, sh.log, k - 1), f.(cur := sh.log[k - 2]).Set(one, sh.log[k - 2]), ThenSwap),
                      p.Set(one, k - 1))
  {
  }

  /** No entry of the earlier frontier's chain is left: its chain is closed. */
  lemma MigrateEnds(g: Grow, sh: Shared, c: seq<bool>, f: Front, p: Progress, one: bool)
    requires |c| == |sh.log| && MigrateOk(sh.log, c, f, p, 1) && one == (f.first == 1)
    requires sh.Next(sh.log[0]) == OldPtr(g, sh.log, 0)
    ensures Below(c, one, p.At(one) - 1) == -1
    ensures MigrateStep(g, sh, f) ==
            (sh.SetNext(sh.log[p.At(one) - 1], NewPtr(g, sh.log, c, one, p.At(one) - 1)),
             Upgrade(!one, End(g.HeadHome(!one), g.NewShift()), f.Set(one, NONE), ThenUnlock))
    ensures UpgradeOk(g, sh.log, c, Upgrade(!one, End(g.HeadHome(!one), g.NewShift()), f.Set(one, NONE), ThenUnlock),
                      p.Set(one, 0))
  {
  }

  lemma MigrateScans(g: Grow, sh: Shared, c: seq<bool>, f: Front, p: Progress, k: nat, one: bool)
    requires c == Classes(g, sh) && 2 <= k && MigrateOk(sh.log, c, f, p, k) && c[k - 2] != one == (f.first == 1)
    requires sh.Next(sh.log[k - 1]) == OldPtr(g, sh.log, k - 1)
    ensures MigrateStep(g, sh, f) == (sh, Migrate(f.(cur := sh.log[k - 2])))
    ensures MigrateOk(sh.log, c, f.(cur := sh.log[k - 2]), p, k - 1)
  {
  }

  lemma StageMoves(g: Grow, sh: Shared, c: seq<bool>, pc: Pc, p: Progress, q: nat)
    requires NoDup(sh.log) && pc.Upgrade? && Migrating(g, sh, c, p) && UpgradeOk(g, sh.log, c, pc, p)
    requires q == p.At(pc.one) >= 2
    requires sh.Next(sh.log[q - 1]) == OldPtr(g, sh.log, q - 1) != pc.stop
    ensures var r := UpgradeStep(sh, pc.one, pc.stop, pc.f, pc.after);
            r.1.Upgrade? && r.1.one == pc.one && Stage(g, r.0, c, r.1, Post(p.Set(pc.one, q - 1), 0))
  {
    UpgradeMoves(g, sh, c, pc, p, q);
    AdvanceFrontier(g, sh, c, p, pc.one, q - 1);
    StageOfUpgrade(g, sh.SetNext(sh.log[q - 1], NewPtr(g, sh.log, c, pc.one, q - 1)), c,
                   Upgrade(pc.one, pc.stop, pc.f.Set(pc.one, sh.log[q - 2]), pc.after), p.Set(pc.one, q - 1));
  }

  lemma StageEnds(g: Grow, sh: Shared, c: seq<bool>, pc: Pc, p: Progress)
    requires NoDup(sh.log) && pc.Upgrade? && Migrating(g, sh, c, p) && UpgradeOk(g, sh.log, c, pc, p)
    requires p.At(pc.one) == 1 && sh.Next(sh.log[0]) == OldPtr(g, sh.log, 0)
    ensures var r := UpgradeStep(sh, pc.one, pc.stop, pc.f, pc.after);
            Stage(g, r.0, c, r.1, Post(Progress(0, 0), 0))
  {
    UpgradeEnds(g, sh, c, pc, p);
    AdvanceFrontier(g, sh, c, p, pc.one, 0);
  }

  lemma StageSkips(g: Grow, sh: Shared, c: seq<bool>, f: Front, p: Progress, k: nat, one: bool)
    requires c == Classes(g, sh) && NoDup(sh.log) && Migrating(g, sh, c, p)
    requires 2 <= k && MigrateOk(sh.log, c, f, p, k) && c[k - 2] == one == (f.first == 1)
    requires sh.Next(sh.log[k - 1]) == OldPtr(g, sh.log, k - 1)
    ensures var r := MigrateStep(g, sh, f);
            && r.1.Upgrade? && r.1.one == !one && r.1.after.ThenSwap?
            && Stage(g, r.0, c, r.1, Post(p.Set(one, k - 1), 0))
  {
    MigrateSkips(g, sh, c, f, p, k, one);
    AdvanceFrontier(g, sh, c, p, one, k - 1);
    var pc := Upgrade(!one, OldPtr(g, sh.log, k - 1), f.(cur := sh.log[k - 2]).Set(one, sh.log[k - 2]), ThenSwap);
    StageOfUpgrade(g, sh.SetNext(sh.log[p.At(one) - 1], NewPtr(g, sh.log, c, one, p.At(one) - 1)), c, pc,
      p.Set(one, k - 1));
  }

  lemma StageOfUpgrade(g: Grow, sh: Shared, c: seq<bool>, pc: Pc, p: Progress)
    requires pc.Upgrade? && Migrating(g, sh, c, p) && UpgradeOk(g, sh.log, c, pc, p)
    ensures Stage(g, sh, c, pc, Post(p, 0))
  {
  }

  lemma StageCloses(g: Grow, sh: Shared, c: seq<bool>, f: Front, p: Progress, one: bool)
    requires NoDup(sh.log) && Migrating(g, sh, c, p) && MigrateOk(sh.log, c, f, p, 1) && one == (f.first == 1)
    requires sh.Next(sh.log[0]) == OldPtr(g, sh.log, 0)
    ensures var r := MigrateStep(g, sh, f); Stage(g, r.0, c, r.1, Post(p.Set(one, 0), 0))
  {
    MigrateEnds(g, sh, c, f, p, one);
    AdvanceFrontier(g, sh, c, p, one, 0);
  }

  lemma StageScans(g: Grow, sh: Shared, c: seq<bool>, f: Front, p: Progress, k: nat, one: bool)
    requires c == Classes(g, sh) && Migrating(g, sh, c, p)
    requires 2 <= k && MigrateOk(sh.log, c, f, p, k) && c[k - 2] != one == (f.first == 1)
    requires sh.Next(sh.log[k - 1]) == OldPtr(g, sh.log, k - 1)
    ensures var r := MigrateStep(g, sh, f);
            r.1.Migrate? && r.1.f.first == f.first && Stage(g, r.0, c, r.1, Post(p, k - 1))
  {
    MigrateScans(g, sh, c, f, p, k, one);
  }

  lemma StageUpgrade(g: Grow, sh: Shared, c: seq<bool>, pc: Pc, p: Progress) returns (v': View)
    requires NoDup(sh.log) && pc.Upgrade? && Migrating(g, sh, c, p) && UpgradeOk(g, sh.log, c, pc, p)
    ensures Forward(Post(p, 0), v')
    ensures var r := UpgradeStep(sh, pc.one, pc.stop, pc.f, pc.after); v'.Post? && Stage(g, r.0, c, r.1, v')
  {
    var q := p.At(pc.one);
    UnmigratedLink(g, sh, c, p, q - 1);
    if sh.Next(sh.log[q - 1]) == pc.stop {
      UpgradeStops(g, sh, c, pc, p);
      v' := Post(p, p.At(!pc.one));
    } else if q == 1 {
      StageEnds(g, sh, c, pc, p);
      v' := Post(Progress(0, 0), 0);
    } else {
      StageMoves(g, sh, c, pc, p, q);
      v' := Post(p.Set(pc.one, q - 1), 0);
    }
  }

  lemma StageMigrate(g: Grow, sh: Shared, c: seq<bool>, f: Front, p: Progress, k: nat) returns (v': View)
    requires c == Classes(g, sh) && NoDup(sh.log) && Migrating(g, sh, c, p) && MigrateOk(sh.log, c, f, p, k)
    ensures Forward(Post(p, k), v')
    ensures var r := MigrateStep(g, sh, f); v'.Post? && Stage(g, r.0, c, r.1, v')
  {
    var one := f.first == 1;
    UnmigratedLink(g, sh, c, p, k - 1);
    if k == 1 {
      StageCloses(g, sh, c, f, p, one);
      v' := Post(p.Set(one, 0), 0);
    } else if c[k - 2] == one {
      StageSkips(g, sh, c, f, p, k, one);
      v' := Post(p.Set(one, k - 1), 0);
    } else {
      StageScans(g, sh, c, f, p, k, one);
      v' := Post(p, k - 1);
    }
  }

  /** The splitting thread writes only heads and links of entries on the chain. */
  ghost predicate OnlyLinksOf(sh: Shared, sh': Shared) {
    && sh'.log == sh.log && sh'.keys == sh.keys
    && forall x :: x !in sh.log ==> sh'.Next(x) == sh.Next(x)
  }

  ghost predicate OnlyLinks(s: State, s': State) {
    s'.ins == s.ins && OnlyLinksOf(s.sh, s'.sh)
  }

  lemma OthersUndisturbed(g: Grow, s: State, s': State, post: bool, post': bool)
    requires Basic(g, s) && AllInsOk(g, s, post) && OnlyLinks(s, s') && (post ==> post')
    ensures Basic(g, s') && AllInsOk(g, s', post') && Classes(g, s'.sh) == Classes(g, s.sh)
  {
    forall t | t in s'.ins
      ensures InsOk(g, s'.sh, post', s'.ins[t])
    {
      assert InsOk(g, s.sh, post, s.ins[t]);
    }
  }

  lemma StageBegins(g: Grow, sh: Shared, c: seq<bool>, s: State, v: View) returns (v': View)
    requires s.sh == sh && c == Classes(g, sh) && NoDup(sh.log) && Stage(g, sh, c, s.pc, v)
    requires s.pc.Acquire? || (s.pc.CasZero? && sh.zero != s.pc.saved)
    ensures v' == Pre(|sh.log|, |sh.log|) && Stage(g, SplitStep(g, s).sh, c, SplitStep(g, s).pc, v')
  {
    v' := Pre(|sh.log|, |sh.log|);
    var sh' := SplitStep(g, s).sh;
    forall i ensures OldLink(g, sh', i) { assert OldLink(g, sh, i); }
  }

  lemma StageUnlocks(g: Grow, s: State, c: seq<bool>, v: View)
    requires Stage(g, s.sh, c, s.pc, v) && (s.pc.UnlockOne? || s.pc.UnlockZero? || s.pc.Done?)
    ensures Stage(g, SplitStep(g, s).sh, c, SplitStep(g, s).pc, v)
  {
    var sh' := SplitStep(g, s).sh;
    forall i ensures LinkOk(g, sh', c, v.p, i) { assert LinkOk(g, s.sh, c, v.p, i); }
  }

  lemma StageStores(g: Grow, s: State, c: seq<bool>, v: View)
    requires Stage(g, s.sh, c, s.pc, v) && s.pc.StoreOne?
    ensures Stage(g, SplitStep(g, s).sh, c, SplitStep(g, s).pc, v)
  {
    var sh' := SplitStep(g, s).sh;
    forall i ensures OldLink(g, sh', i) { assert OldLink(g, s.sh, i); }
  }

  lemma StageSplitPre(g: Grow, s: State, v: View) returns (v': View)
    requires NoDup(s.sh.log) && v.Pre? && Stage(g, s.sh, Classes(g, s.sh), s.pc, v)
    ensures Stage(g, SplitStep(g, s).sh, Classes(g, s.sh), SplitStep(g, s).pc, v')
  {
    var sh, c := s.sh, Classes(g, s.sh);
    if s.pc.Scan? {
      v' := ScanPreserves(g, sh, c, s.pc, v);
    } else if s.pc.StoreOne? {
      StageStores(g, s, c, v);
      v' := v;
    } else if s.pc.CasZero? && sh.zero == s.pc.saved {
      v' := BigStep(g, sh, c, s.pc, v);
    } else {
      v' := StageBegins(g, sh, c, s, v);
    }
  }

  lemma StageSplitPost(g: Grow, s: State, v: View) returns (v': View)
    requires NoDup(s.sh.log) && v.Post? && Stage(g, s.sh, Classes(g, s.sh), s.pc, v)
    ensures Forward(v, v') && Stage(g, SplitStep(g, s).sh, Classes(g, s.sh), SplitStep(g, s).pc, v')
  {
    var sh, c := s.sh, Classes(g, s.sh);
    if s.pc.Upgrade? {
      v' := StageUpgrade(g, sh, c, s.pc, v.p);
    } else if s.pc.Migrate? {
      v' := StageMigrate(g, sh, c, s.pc.f, v.p, v.k);
    } else {
      StageUnlocks(g, s, c, v);
      v' := v;
    }
  }

  /** Every step of the splitting thread keeps the invariant. */
  lemma SplitPreserves(g: Grow, s: State, v: View) returns (v': View)
    requires Inv(g, s, v)
    ensures Forward(v, v') && Inv(g, SplitStep(g, s), v')
  {
    if v.Pre? {
      v' := StageSplitPre(g, s, v);
    } else {
      v' := StageSplitPost(g, s, v);
    }
    SplitTouchesLinks(g, s, v);
    OthersUndisturbed(g, s, SplitStep(g, s), v.Post?, v'.Post?);
  }

  lemma UpgradeTouchesLinks(g: Grow, sh: Shared, c: seq<bool>, pc: Pc, p: Progress)
    requires pc.Upgrade? && UpgradeOk(g, sh.log, c, pc, p)
    ensures OnlyLinksOf(sh, UpgradeStep(sh, pc.one, pc.stop, pc.f, pc.after).0)
  {
    assert pc.f.At(pc.one) == sh.log[p.At(pc.one) - 1];
  }

  lemma MigrateTouchesLinks(g: Grow, sh: Shared, c: seq<bool>, f: Front, p: Progress, k: nat)
    requires MigrateOk(sh.log, c, f, p, k)
    ensures OnlyLinksOf(sh, MigrateStep(g, sh, f).0)
  {
    assert f.At(f.first == 1) == sh.log[p.At(f.first == 1) - 1];
  }

  /** Before and after the migration the splitting thread writes only heads. */
  lemma HeadStepsTouchNoLinks(g: Grow, s: State)
    requires !s.pc.Upgrade? && !s.pc.Migrate?
    ensures OnlyLinks(s, SplitStep(g, s))
  {
    match s.pc
    case Acquire =>
    case Scan(_, _, _) =>
    case StoreOne(_, _) =>
    case CasZero(_, _) =>
    case UnlockOne =>
    case UnlockZero =>
    case Done =>
  }

  lemma MigrationSteps(g: Grow, s: State)
    ensures s.pc.Upgrade? ==>
              var r := UpgradeStep(s.sh, s.pc.one, s.pc.stop, s.pc.f, s.pc.after);
              SplitStep(g, s).ins == s.ins && SplitStep(g, s).sh == r.0 && SplitStep(g, s).pc == r.1
    ensures s.pc.Migrate? ==>
              var r := MigrateStep(g, s.sh, s.pc.f);
              SplitStep(g, s).ins == s.ins && SplitStep(g, s).sh == r.0 && SplitStep(g, s).pc == r.1
  {
  }

  lemma SplitTouchesLinks(g: Grow, s: State, v: View)
    requires PcOk(g, s.sh, Classes(g, s.sh), s.pc, v)
    ensures OnlyLinks(s, SplitStep(g, s))
  {
    var c := Classes(g, s.sh);
    if s.pc.Upgrade? {
      UpgradeTouchesLinks(g, s.sh, c, s.pc, v.p);
      MigrationSteps(g, s);
    } else if s.pc.Migrate? {
      MigrateTouchesLinks(g, s.sh, c, s.pc.f, v.p, v.k);
      MigrationSteps(g, s);
    } else {
      HeadStepsTouchNoLinks(g, s);
    }
  }

  lemma {:induction false} BelowAppend(c: seq<bool>, b: bool, one: bool, i: nat)
    requires i <= |c|
    ensures Below(c + [b], one, i) == Below(c, one, i)
  {
    if i > 0 {
      BelowAppend(c, b, one, i - 1);
    }
  }

  lemma FoundAppend(log: seq<nat>, c: seq<bool>, b: bool, x: nat, f: Front, k: nat, m: nat)
    requires k <= |c| == |log|
    ensures Found(log, c, f, k) ==> Found(log + [x], c + [b], f, k)
    ensures Scanned(log, c, f, k, m) ==> Scanned(log + [x], c + [b], f, k, m)
  {
    BelowAppend(c, b, false, k);
    BelowAppend(c, b, true, k);
  }

  lemma PcAppendPre(g: Grow, sh: Shared, sh': Shared, c: seq<bool>, b: bool, x: nat, pc: Pc, v: View)
    requires v.Pre? && |c| == |sh.log| && PcOk(g, sh, c, pc, v) && sh'.log == sh.log + [x]
    requires sh'.one == sh.one && (sh.zero.Link? && sh.zero.locked ==> sh'.zero.Link? && sh'.zero.locked)
    ensures PcOk(g, sh', c + [b], pc, v)
  {
    if v.k <= |c| {
      FoundAppend(sh.log, c, b, x, if pc.Acquire? then FRESH_FRONT else pc.f, v.k, v.m);
    }
  }

  lemma PcAppendPost(g: Grow, sh: Shared, sh': Shared, c: seq<bool>, b: bool, x: nat, pc: Pc, v: View)
    requires v.Post? && |c| == |sh.log| && PcOk(g, sh, c, pc, v) && sh'.log == sh.log + [x]
    ensures PcOk(g, sh', c + [b], pc, v)
  {
  }

  /** Inserting a new head entry leaves the splitting thread's knowledge true. */
  lemma PcAppend(g: Grow, sh: Shared, sh': Shared, c: seq<bool>, b: bool, x: nat, pc: Pc, v: View)
    requires |c| == |sh.log| && PcOk(g, sh, c, pc, v) && sh'.log == sh.log + [x]
    requires v.Pre? ==> sh'.one == sh.one && (sh.zero.Link? && sh.zero.locked ==> sh'.zero.Link? && sh'.zero.locked)
    ensures PcOk(g, sh', c + [b], pc, v)
  {
    if v.Pre? {
      PcAppendPre(g, sh, sh', c, b, x, pc, v);
    } else {
      PcAppendPost(g, sh, sh', c, b, x, pc, v);
    }
  }

  /** A new entry in front of the unsplit chain. */
  lemma WholeAppend(g: Grow, sh: Shared, x: nat, locked: bool)
    requires Whole(g, sh) && x !in sh.log && sh.Next(x) == Unlocked(sh.zero)
    ensures Whole(g, sh.(zero := Link(x, g.oldShift, locked), log := sh.log + [x]))
  {
    var sh' := sh.(zero := Link(x, g.oldShift, locked), log := sh.log + [x]);
    forall i | 0 <= i < |sh'.log| ensures OldLink(g, sh', i) { assert OldLink(g, sh, i); }
  }

  lemma LinkAppend(g: Grow, sh: Shared, c: seq<bool>, p: Progress, b: bool, x: nat, sh': Shared, i: nat)
    requires |c| == |sh.log| && i < |c| && LinkOk(g, sh, c, p, i)
    requires sh'.log == sh.log + [x] && sh'.next == sh.next
    ensures LinkOk(g, sh', c + [b], p, i)
  {
    BelowAppend(c, b, c[i], i);
  }

  lemma FirstLink(g: Grow, sh: Shared, c: seq<bool>, p: Progress, b: bool, x: nat, sh': Shared)
    requires |c| == |sh.log| && p.At(b) <= |c| && sh.Next(x) == NewPtr(g, sh.log, c, b, |c|)
    requires sh'.log == sh.log + [x] && sh'.next == sh.next
    ensures LinkOk(g, sh', c + [b], p, |c|)
  {
    BelowAppend(c, b, b, |c|);
  }

  lemma HeadsAppend(g: Grow, sh: Shared, c: seq<bool>, b: bool, x: nat, locked: bool)
    requires |c| == |sh.log|
    requires Unlocked(sh.Head(!b)) == NewPtr(g, sh.log, c, !b, |c|)
    ensures var sh' := sh.SetHead(b, Link(x, g.NewShift(), locked)).(log := sh.log + [x]);
            && Unlocked(sh'.zero) == NewPtr(g, sh'.log, c + [b], false, |c| + 1)
            && Unlocked(sh'.one) == NewPtr(g, sh'.log, c + [b], true, |c| + 1)
  {
    BelowAppend(c, b, !b, |c|);
  }

  /** A new entry in front of one of the two output chains. */
  lemma MigratingAppend(g: Grow, sh: Shared, c: seq<bool>, p: Progress, b: bool, x: nat, locked: bool)
    requires Migrating(g, sh, c, p) && x !in sh.log && sh.Next(x) == Unlocked(sh.Head(b))
    ensures Migrating(g, sh.SetHead(b, Link(x, g.NewShift(), locked)).(log := sh.log + [x]), c + [b], p)
  {
    var sh' := sh.SetHead(b, Link(x, g.NewShift(), locked)).(log := sh.log + [x]);
    HeadsAppend(g, sh, c, b, x, locked);
    assert FrontierOk(c + [b], p, false) && FrontierOk(c + [b], p, true);
    FirstLink(g, sh, c, p, b, x, sh');
    forall i | 0 <= i < |c|
      ensures LinkOk(g, sh', c + [b], p, i)
    {
      LinkAppend(g, sh, c, p, b, x, sh', i);
    }
  }

  /** Neither the splitting thread nor the chains depend on links of other slots. */
  lemma StageFrame(g: Grow, sh: Shared, sh': Shared, c: seq<bool>, pc: Pc, v: View)
    requires Stage(g, sh, c, pc, v)
    requires sh'.zero == sh.zero && sh'.one == sh.one && sh'.log == sh.log
    requires forall x :: x in sh.log ==> sh'.Next(x) == sh.Next(x)
    ensures Stage(g, sh', c, pc, v)
  {
    if v.Pre? {
      forall i | 0 <= i < |sh.log| ensures OldLink(g, sh', i) { assert OldLink(g, sh, i); }
    } else {
      forall i | 0 <= i < |sh.log| ensures LinkOk(g, sh', c, v.p, i) { assert LinkOk(g, sh, c, v.p, i); }
    }
  }

  /** The head a thread reads always carries the shift of the current stage. */
  lemma HeadShift(g: Grow, sh: Shared, c: seq<bool>, v: View, one: bool)
    requires ChainOk(g, sh, c, v) && (one ==> v.Post?)
    ensures !sh.Head(one).Unused? && sh.Head(one).shift == if v.Post? then g.NewShift() else g.oldShift
  {
  }

  /** One inserting thread takes a step; the slots of the others keep their links. */
  lemma OneInserts(g: Grow, s: State, sh': Shared, t: nat, i: InsPc, post: bool)
    requires AllInsOk(g, s, post) && InsOk(g, sh', post, i)
    requires forall u :: u in s.ins && u != t ==> sh'.Next(s.ins[u].slot) == s.sh.Next(s.ins[u].slot)
    ensures AllInsOk(g, s.(sh := sh', ins := s.ins[t := i]), post)
  {
    var s' := s.(sh := sh', ins := s.ins[t := i]);
    forall u | u in s'.ins
      ensures InsOk(g, sh', post, s'.ins[u])
    {
      if u != t { assert InsOk(g, s.sh, post, s.ins[u]); }
    }
  }

  lemma InsertLoad(g: Grow, s: State, t: nat, weak: bool, v: View)
    requires Inv(g, s, v) && t in s.ins && s.ins[t].Load?
    ensures Inv(g, InsertStep(g, s, t, weak), v)
  {
    assert InsOk(g, s.sh, v.Post?, s.ins[t]);
    HeadShift(g, s.sh, Classes(g, s.sh), v, s.ins[t].fine && s.sh.OnOne(g, s.ins[t].slot));
    var i' := InsertStep(g, s, t, weak).ins[t];
    assert InsertStep(g, s, t, weak) == s.(ins := s.ins[t := i']);
    OneInserts(g, s, s.sh, t, i', v.Post?);
  }

  lemma InsertStore(g: Grow, s: State, t: nat, weak: bool, v: View)
    requires Inv(g, s, v) && t in s.ins && s.ins[t].Store?
    ensures Inv(g, InsertStep(g, s, t, weak), v)
  {
    var i := s.ins[t];
    assert InsOk(g, s.sh, v.Post?, i);
    var sh', i' := s.sh.SetNext(i.slot, Unlocked(i.word)), Cas(i.slot, i.fine, i.word);
    assert InsertStep(g, s, t, weak) == s.(sh := sh', ins := s.ins[t := i']);
    StageFrame(g, s.sh, sh', Classes(g, s.sh), s.pc, v);
    assert Classes(g, sh') == Classes(g, s.sh);
    OneInserts(g, s, sh', t, i', v.Post?);
  }

  /** The shared state right after a successful head CAS. */
  function Linked(g: Grow, sh: Shared, slot: nat, fine: bool, word: Ptr): Shared {
    var one := fine && sh.OnOne(g, slot);
    sh.SetHead(one, Link(slot, if fine then g.NewShift() else g.oldShift, word.Link? && word.locked))
      .(log := sh.log + [slot])
  }

  lemma StageInsert(g: Grow, sh: Shared, c: seq<bool>, pc: Pc, v: View, slot: nat, fine: bool, word: Ptr)
    requires c == Classes(g, sh) && Stage(g, sh, c, pc, v) && slot !in sh.log
    requires (fine ==> v.Post?) && !word.Unused? && word.shift == if fine then g.NewShift() else g.oldShift
    requires sh.Next(slot) == Unlocked(word) && sh.Head(fine && sh.OnOne(g, slot)) == word
    ensures Stage(g, Linked(g, sh, slot, fine, word), c + [sh.OnOne(g, slot)], pc, v)
  {
    var b := sh.OnOne(g, slot);
    var sh' := Linked(g, sh, slot, fine, word);
    HeadShift(g, sh, c, v, fine && b);
    PcAppend(g, sh, sh', c, b, slot, pc, v);
    if v.Pre? {
      WholeAppend(g, sh, slot, word.Link? && word.locked);
    } else {
      MigratingAppend(g, sh, c, v.p, b, slot, word.Link? && word.locked);
    }
  }

  lemma BasicLinked(g: Grow, s: State, t: nat, sh': Shared)
    requires Basic(g, s) && t in s.ins
    requires sh'.log == s.sh.log + [s.ins[t].slot] && sh'.keys == s.sh.keys
    ensures Basic(g, s.(sh := sh', ins := s.ins - {t}))
  {
  }

  lemma InsertLinks(g: Grow, s: State, t: nat, v: View)
    requires Inv(g, s, v) && t in s.ins && s.ins[t].Cas?
    requires s.sh.Head(s.ins[t].fine && s.sh.OnOne(g, s.ins[t].slot)) == s.ins[t].word
    ensures Inv(g, InsertStep(g, s, t, false), v)
  {
    var i := s.ins[t];
    assert InsOk(g, s.sh, v.Post?, i);
    var s' := InsertStep(g, s, t, false);
    var sh' := Linked(g, s.sh, i.slot, i.fine, i.word);
    assert s' == s.(sh := sh', ins := s.ins - {t});
    BasicLinked(g, s, t, sh');
    StageInsert(g, s.sh, Classes(g, s.sh), s.pc, v, i.slot, i.fine, i.word);
    assert Classes(g, sh') == Classes(g, s.sh) + [s.sh.OnOne(g, i.slot)];
    RestInserts(g, s, sh', t, v.Post?);
  }

  /** A thread is done inserting; the others are where they were. */
  lemma RestInserts(g: Grow, s: State, sh': Shared, t: nat, post: bool)
    requires AllInsOk(g, s, post) && sh'.next == s.sh.next
    ensures AllInsOk(g, s.(sh := sh', ins := s.ins - {t}), post)
  {
    var s' := s.(sh := sh', ins := s.ins - {t});
    forall u | u in s'.ins ensures InsOk(g, sh', post, s'.ins[u]) { assert InsOk(g, s.sh, post, s.ins[u]); }
  }

  lemma InsertRetries(g: Grow, s: State, t: nat, v: View)
    requires Inv(g, s, v) && t in s.ins && s.ins[t].Cas?
    ensures Inv(g, s.(ins := s.ins[t := Load(s.ins[t].slot, s.ins[t].fine)]), v)
  {
    assert InsOk(g, s.sh, v.Post?, s.ins[t]);
    OneInserts(g, s, s.sh, t, Load(s.ins[t].slot, s.ins[t].fine), v.Post?);
  }

  lemma BasicStart(g: Grow, s: State, t: nat, slot: nat, key: Key, fine: bool)
    requires Basic(g, s) && CanStart(g, s, t, slot, key, fine)
    ensures Basic(g, StartStep(s, t, slot, key, fine))
            && Classes(g, StartStep(s, t, slot, key, fine).sh) == Classes(g, s.sh)
  {
    var s' := StartStep(s, t, slot, key, fine);
    forall i | 0 <= i < |s.sh.log| ensures s'.sh.KeyOf(s.sh.log[i]) == s.sh.KeyOf(s.sh.log[i]) { }
    forall u | u in s'.ins ensures s'.ins[u].slot !in s.sh.log && g.Owns(s'.sh.KeyOf(s'.ins[u].slot)) { }
  }

  lemma StartPreserves(g: Grow, s: State, t: nat, slot: nat, key: Key, fine: bool, v: View)
    requires Inv(g, s, v) && CanStart(g, s, t, slot, key, fine)
    ensures Inv(g, StartStep(s, t, slot, key, fine), v)
  {
    var s' := StartStep(s, t, slot, key, fine);
    HeadShift(g, s.sh, Classes(g, s.sh), v, false);
    BasicStart(g, s, t, slot, key, fine);
    StageFrame(g, s.sh, s'.sh, Classes(g, s.sh), s.pc, v);
    OneInserts(g, s, s'.sh, t, Load(slot, fine), v.Post?);
  }

  lemma MarkPreserves(g: Grow, s: State, x: nat, m: Mark, v: View)
    requires Inv(g, s, v)
    ensures Inv(g, MarkStep(s, x, m), v)
  {
    var s' := MarkStep(s, x, m);
    assert Classes(g, s'.sh) == Classes(g, s.sh);
    StageFrame(g, s.sh, s'.sh, Classes(g, s.sh), s.pc, v);
    forall u | u in s'.ins
      ensures InsOk(g, s'.sh, v.Post?, s'.ins[u])
    {
      assert InsOk(g, s.sh, v.Post?, s.ins[u]);
    }
  }

  lemma InsertPreserves(g: Grow, s: State, t: nat, weak: bool, v: View)
    requires Inv(g, s, v) && t in s.ins
    ensures Inv(g, InsertStep(g, s, t, weak), v)
  {
    match s.ins[t]
    case Load(_, _) => InsertLoad(g, s, t, weak, v);
    case Store(_, _, _) => InsertStore(g, s, t, weak, v);
    case Cas(slot, fine, word) =>
      if s.sh.Head(fine && s.sh.OnOne(g, slot)) == word && !weak {
        InsertLinks(g, s, t, v);
      } else {
        InsertRetries(g, s, t, v);
      }
  }

  /** The invariant survives every step of every thread. */
  lemma StepPreserves(g: Grow, s: State, a: Action, v: View) returns (v': View)
    requires Inv(g, s, v) && Enabled(g, s, a)
    ensures Inv(g, Step(g, s, a), v') && Forward(v, v')
  {
    v' := v;
    match a
    case Split => v' := SplitPreserves(g, s, v);
    case Start(t, slot, key, fine) => StartPreserves(g, s, t, slot, key, fine, v);
    case SetMark(x, m) => MarkPreserves(g, s, x, m, v);
    case Insert(t, weak) => InsertPreserves(g, s, t, weak, v);
  }

  // ---------------------------------------------------------------- rewrite locks

  /** Both heads carry the new shift. */
  predicate Published(pc: Pc) { !pc.Acquire? && !pc.Scan? && !pc.StoreOne? && !pc.CasZero? }

  /** The lock bits are exactly the locks the splitting thread believes it holds. */
  ghost predicate LockInv(s: State) {
    && (s.ownsZero <==> IsLocked(s.sh.zero))
    && (if Published(s.pc) then s.ownsOne <==> IsLocked(s.sh.one) else !s.ownsOne)
    && (s.pc.UnlockZero? || s.pc.Done? ==> !s.ownsOne) && (s.pc.Done? ==> !s.ownsZero)
  }

  ghost predicate StillMigrating(sh: Shared, r: (Shared, Pc)) {
    && r.0.zero == sh.zero && r.0.one == sh.one
    && (r.1.Upgrade? || r.1.Migrate? || r.1.UnlockOne?)
  }

  lemma MigrationKeepsHeads(g: Grow, sh: Shared, pc: Pc)
    ensures pc.Upgrade? ==> StillMigrating(sh, UpgradeStep(sh, pc.one, pc.stop, pc.f, pc.after))
    ensures pc.Migrate? ==> StillMigrating(sh, MigrateStep(g, sh, pc.f))
  {
  }

  lemma SplitMovesLocks(g: Grow, s: State)
    requires LockInv(s) && (s.pc.CasZero? ==> s.sh.one == HeadPtr(g, true, s.pc.f.one, true))
    ensures LockInv(SplitStep(g, s))
  {
    var s' := SplitStep(g, s);
    if s.pc.Upgrade? || s.pc.Migrate? {
      MigrationKeepsHeads(g, s.sh, s.pc);
      assert StillMigrating(s.sh, (s'.sh, s'.pc));
    } else if s.pc.Scan? {
      assert s'.sh == s.sh && (s'.pc.Scan? || s'.pc.StoreOne?);
    }
  }

  lemma SplitKeepsLocks(g: Grow, s: State, v: View)
    requires PcOk(g, s.sh, Classes(g, s.sh), s.pc, v) && LockInv(s)
    ensures LockInv(SplitStep(g, s))
  {
    assert s.pc.CasZero? ==> s.sh.one == HeadPtr(g, true, s.pc.f.one, true);
    SplitMovesLocks(g, s);
  }

  lemma InsertKeepsLocks(g: Grow, s: State, t: nat, weak: bool, v: View)
    requires Inv(g, s, v) && LockInv(s) && t in s.ins
    ensures LockInv(InsertStep(g, s, t, weak))
  {
    assert InsOk(g, s.sh, v.Post?, s.ins[t]);
    match s.ins[t]
    case Load(_, _) =>
    case Store(_, _, _) =>
    case Cas(_, _, _) =>
  }

  // ---------------------------------------------------------------- runs and theorems

  /** A split is about to start on an unlocked chain holding the entries of the log. */
  ghost predicate Init(g: Grow, s: State) {
    && s.pc.Acquire? && s.ins == map[] && s.sh.one.Unused? && !IsLocked(s.sh.zero) && !s.ownsZero && !s.ownsOne
    && Basic(g, s) && Whole(g, s.sh)
  }

  /** A run: states tr[0], tr[1], ... produced by the actions of any threads in any order. */
  ghost predicate Run(g: Grow, tr: seq<State>, acts: seq<Action>) {
    && |tr| == |acts| + 1 && Init(g, tr[0])
    && forall i :: 0 <= i < |acts| ==> Enabled(g, tr[i], acts[i]) && tr[i + 1] == Step(g, tr[i], acts[i])
  }

  lemma {:induction false} RunInvariant(g: Grow, tr: seq<State>, acts: seq<Action>, i: nat) returns (v: View)
    requires Run(g, tr, acts) && i < |tr|
    ensures Inv(g, tr[i], v) && LockInv(tr[i])
  {
    if i == 0 {
      v := Pre(0, 0);
    } else {
      var s, a := tr[i - 1], acts[i - 1];
      v := RunInvariant(g, tr, acts, i - 1);
      if a.Split? {
        SplitKeepsLocks(g, s, v);
      } else if a.Insert? {
        InsertKeepsLocks(g, s, a.t, a.weak, v);
      }
      v := StepPreserves(g, s, a, v);
    }
  }

  /** Where a lookup for a key starts: the shift found in the old head decides
      whether one more hash bit is used. */
  function StartPtr(g: Grow, sh: Shared, k: Key): Ptr {
    if ShiftOf(sh.zero) > g.oldShift then sh.Head(g.One(k)) else sh.zero
  }

  /** The home an end marker with this shift must name for a key's lookup to end cleanly. */
  function EffectiveHome(g: Grow, k: Key, shift: nat): nat {
    if shift > g.oldShift then g.HeadHome(g.One(k)) else g.oldHome
  }

  lemma {:induction false} OldWalk(g: Grow, sh: Shared, c: seq<bool>, p: Progress, i: nat, pre: bool)
      returns (w: seq<nat>)
    requires |c| == |sh.log| && i <= |c|
    requires if pre then Whole(g, sh)
             else Migrating(g, sh, c, p) && forall j :: 0 <= j < i ==> j < p.At(c[j])
    ensures Walk(sh.next, OldPtr(g, sh.log, i), w, End(g.oldHome, g.oldShift))
    ensures forall j :: 0 <= j < i ==> sh.log[j] in w
    decreases i
  {
    if i == 0 {
      w := [];
    } else {
      var w' := OldWalk(g, sh, c, p, i - 1, pre);
      w := [sh.log[i - 1]] + w';
      if pre {
        assert OldLink(g, sh, i - 1);
      } else {
        UnmigratedLink(g, sh, c, p, i - 1);
      }
      assert w[1..] == w';
    }
  }

  lemma {:induction false} NewWalk(g: Grow, sh: Shared, c: seq<bool>, p: Progress, one: bool, i: nat)
      returns (w: seq<nat>, e: Ptr)
    requires Migrating(g, sh, c, p) && p.At(one) <= i <= |c|
    ensures Walk(sh.next, NewPtr(g, sh.log, c, one, i), w, e)
    ensures e == End(g.HeadHome(one), g.NewShift()) || e == End(g.oldHome, g.oldShift)
    ensures forall j :: 0 <= j < i && c[j] == one ==> sh.log[j] in w
    decreases i
  {
    var j := Below(c, one, i);
    if j < 0 {
      w, e := [], End(g.HeadHome(one), g.NewShift());
    } else {
      var w';
      assert LinkOk(g, sh, c, p, j);
      if j >= p.At(one) {
        w', e := NewWalk(g, sh, c, p, one, j);
      } else {
        w' := OldWalk(g, sh, c, p, j, false);
        e := End(g.oldHome, g.oldShift);
      }
      w := [sh.log[j]] + w';
      assert w[1..] == w';
    }
  }

  /** No entry is lost mid-split: in every state of every run, a walk within that
      state, from the head that a key maps to under the published shift, reaches every
      entry whose insertion completed and whose key has the same home, and stops
      at an end marker that the lookup accepts. */
  lemma LookupWalkComplete(g: Grow, tr: seq<State>, acts: seq<Action>, i: nat, k: Key) returns (w: seq<nat>, e: Ptr)
    requires g.Valid() && Run(g, tr, acts) && i < |tr| && g.Owns(k)
    ensures var sh := tr[i].sh;
            && Walk(sh.next, Unlocked(StartPtr(g, sh, k)), w, e)
            && e.End? && e.home == EffectiveHome(g, k, e.shift)
            && forall x :: x in sh.log && g.One(sh.KeyOf(x)) == g.One(k) ==> x in w
  {
    var v := RunInvariant(g, tr, acts, i);
    var sh := tr[i].sh;
    var c := Classes(g, sh);
    HeadShift(g, sh, c, v, false);
    if v.Pre? {
      w := OldWalk(g, sh, c, Progress(0, 0), |c|, true);
      e := End(g.oldHome, g.oldShift);
    } else {
      w, e := NewWalk(g, sh, c, v.p, g.One(k), |c|);
    }
    forall x | x in sh.log && g.One(sh.KeyOf(x)) == g.One(k)
      ensures x in w
    {
      var j :| 0 <= j < |sh.log| && sh.log[j] == x;
    }
  }

  /** The entries of one output chain among the oldest i, newest first. */
  function Filtered(log: seq<nat>, c: seq<bool>, one: bool, i: nat): seq<nat>
    requires i <= |c| == |log|
  {
    if i == 0 then []
    else if c[i - 1] == one then [log[i - 1]] + Filtered(log, c, one, i - 1)
    else Filtered(log, c, one, i - 1)
  }

  lemma {:induction false} FinalWalk(g: Grow, sh: Shared, c: seq<bool>, one: bool, i: nat)
    requires Migrating(g, sh, c, Progress(0, 0)) && i <= |c|
    ensures WalkAt(sh.next, NewPtr(g, sh.log, c, one, i), Filtered(sh.log, c, one, i),
            End(g.HeadHome(one), g.NewShift()), g.NewShift())
    decreases i
  {
    if i > 0 {
      FinalWalk(g, sh, c, one, i - 1);
      if c[i - 1] == one {
        assert LinkOk(g, sh, c, Progress(0, 0), i - 1);
        assert Filtered(sh.log, c, one, i)[1..] == Filtered(sh.log, c, one, i - 1);
      }
    }
  }

  /** When the split is done, each output chain is the order-preserving
      restriction of the log to its hash bit, every link on it carries the new
      shift, its end marker names its own head and its rewrite lock is free. */
  lemma SplitResult(g: Grow, tr: seq<State>, acts: seq<Action>, i: nat, one: bool)
    requires Run(g, tr, acts) && i < |tr| && tr[i].pc.Done?
    ensures var sh := tr[i].sh;
            WalkAt(sh.next, sh.Head(one), Filtered(sh.log, Classes(g, sh), one, |sh.log|),
                   End(g.HeadHome(one), g.NewShift()), g.NewShift())
  {
    var v := RunInvariant(g, tr, acts, i);
    FinalWalk(g, tr[i].sh, Classes(g, tr[i].sh), one, |tr[i].sh.log|);
  }
}
