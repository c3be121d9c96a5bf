/** AutoHyperClockTable::Lookup, with its first pass and the full algorithm, running
    while SplitForGrow, insertions and erasures of entries go on: exactly when can
    it miss an entry that stays in the table? */
module ChainLookup {
  import opened ChainPointers
  import opened LinearHashing
  import opened ChainSplit

  /** The first pass looks at no more entries than this. */
  const FIRST_PASS: nat := 10

  /** A lookup between two atomic accesses. The first pass (Peek and Try) has
      looked at `n` entries and holds no reference. `h` is the entry it stands on
      and `rr` the entry it holds a read reference on (NONE: the head); `fine`
      says that it uses the new shift. */
  datatype Reader =
    | Peek(h: int, n: nat, fine: bool)
    | Try(at: nat, n: nat, fine: bool)
    | Read(h: int, rr: int, fine: bool)
    | Match(at: nat, rr: int, fine: bool, shift: nat, eff: nat)
    | Hit(slot: nat)
    | Miss

  function ShiftFor(g: Grow, fine: bool): nat { if fine then g.NewShift() else g.oldShift }

  /** The pointer in the head of the key's home, or in entry h. */
  function PtrAt(g: Grow, sh: Shared, k: Key, h: int, fine: bool): Ptr {
    if h < 0 then sh.Head(g.bits(k.k1, ShiftFor(g, fine)) != g.oldHome) else sh.Next(h)
  }

  /** The first pass follows any pointer, whatever its shift, and gives up at an
      end marker or after ten entries. */
  function PeekStep(g: Grow, sh: Shared, k: Key, r: Reader): Reader
    requires r.Peek?
  {
    var w := PtrAt(g, sh, k, r.h, r.fine);
    if w.Link? && r.n < FIRST_PASS then Try(w.slot, r.n, r.fine) else Read(NONE, NONE, r.fine)
  }

  /** It compares the key, and takes a reference only on a match. */
  function TryStep(sh: Shared, k: Key, r: Reader): Reader
    requires r.Try?
  {
    if sh.KeyOf(r.at) == k && sh.MarkOf(r.at).Visible? then Hit(r.at) else Peek(r.at, r.n + 1, r.fine)
  }

  /** Reads the next pointer, and decides whether it can be followed. */
  function ReadStep(g: Grow, sh: Shared, k: Key, r: Reader): Reader
    requires r.Read?
  {
    var homeShift := ShiftFor(g, r.fine);
    var home := g.bits(k.k1, homeShift);
    var w := PtrAt(g, sh, k, r.h, r.fine);
    var shift := ShiftOf(w);
    if shift > homeShift then
      // the newer shift applies to us if we are sure to be on our chain
      if r.h == r.rr then Read(NONE, NONE, true) else Read(r.rr, r.rr, r.fine)
    else
      var eff := if shift < homeShift then g.bits(home, shift) else home;
      if w.Link? then Match(w.slot, r.rr, r.fine, shift, eff)
      else if w.End? && w.home == eff then Miss
      else Read(r.rr, r.rr, r.fine)
  }

  /** MatchAndRef on the entry just reached, and what Lookup does with the answer. */
  function MatchStep(g: Grow, sh: Shared, k: Key, r: Reader): Reader
    requires r.Match?
  {
    var homeShift := ShiftFor(g, r.fine);
    var home := g.bits(k.k1, homeShift);
    var key := sh.KeyOf(r.at);
    if sh.MarkOf(r.at).Construction? then Read(r.at, r.rr, r.fine)
    else if key == k && sh.MarkOf(r.at).Visible? then Hit(r.at)
    else if g.bits(key.k1, r.shift) == r.eff then
      if r.shift != homeShift && home != g.bits(key.k1, homeShift) then Read(r.at, r.rr, r.fine)
      else Read(r.at, r.at, r.fine)
    else Read(r.rr, r.rr, r.fine)
  }

  function ReaderStep(g: Grow, sh: Shared, k: Key, r: Reader): Reader {
    match r
    case Peek(_, _, _) => PeekStep(g, sh, k, r)
    case Try(_, _, _) => TryStep(sh, k, r)
    case Read(_, _, _) => ReadStep(g, sh, k, r)
    case Match(_, _, _, _, _) => MatchStep(g, sh, k, r)
    case Hit(_) => r
    case Miss => r
  }

  /** The table together with one lookup. */
  datatype System = System(st: State, rd: Reader)

  datatype Move = Table(a: Action) | Look

  /** An entry on which a reference is held cannot be taken for (de)construction. */
  predicate Referenced(r: Reader, x: nat) {
    match r
    case Peek(_, _, _) => false
    case Try(_, _, _) => false
    case Read(_, rr, _) => rr == x
    case Match(_, rr, _, _, _) => rr == x
    case Hit(slot) => slot == x
    case Miss => false
  }

  predicate CanMove(g: Grow, s: System, m: Move) {
    match m
    case Look => true
    case Table(a) => Enabled(g, s.st, a) && !(a.SetMark? && a.m.Construction? && Referenced(s.rd, a.x))
  }

  function Moved(g: Grow, k: Key, s: System, m: Move): System
    requires CanMove(g, s, m)
  {
    match m
    case Look => s.(rd := ReaderStep(g, s.st.sh, k, s.rd))
    case Table(a) => s.(st := Step(g, s.st, a))
  }

  // ---------------------------------------------------------------- the exact condition

  /** The entry at log position e sits in a run of entries of its own output
      chain; the run lies between two entries of the other chain, of which the
      older one (reached later) is under construction; and its own chain has an
      entry before (newer than) all of these. */
  ghost predicate Overtaken(c: seq<bool>, e: int, w1: int, w0: int, y: int) {
    && 0 <= w1 < e < w0 < y < |c|
    && c[w1] != c[e] && c[w0] != c[e] && c[y] == c[e]
    && forall j :: w1 < j < w0 ==> c[j] == c[e]
  }

  ghost predicate Missable(g: Grow, sh: Shared, e: int) {
    exists w1, w0, y :: Overtaken(Classes(g, sh), e, w1, w0, y) && sh.MarkOf(sh.log[w1]).Construction?
  }

  /** Fewer entries than the first pass looks at are newer than e. */
  ghost predicate WithinReach(sh: Shared, e: int) { |sh.log| - 1 - e < FIRST_PASS }

  // ---------------------------------------------------------------- reader invariant

  /** The lookup stands before the target: on the head, or on an entry newer
      than it, and on an entry of the other chain only past one of its own. */
  ghost predicate Before(log: seq<nat>, c: seq<bool>, e: nat, fine: bool, h: int, i: int) {
    if h < 0 then i == -1
    else && |log| == |c| && e < i < |c| && log[i] == h
         && (fine && c[i] != c[e] ==> exists y :: i < y < |c| && c[y] == c[e])
  }

  /** The reference held, if any, is on an entry before the target, and of the
      right chain once the new shift is used. */
  ghost predicate Backtrack(log: seq<nat>, c: seq<bool>, e: nat, fine: bool, rr: int, i: int) {
    Before(log, c, e, fine, rr, i) && (rr >= 0 && fine ==> c[i] == c[e])
  }

  /** The pointer just read leads towards the target. */
  ghost predicate OnTrack(g: Grow, c: seq<bool>, e: nat, r: Reader, i: int)
    requires r.Match?
  {
    && e <= i < |c|
    && (if r.shift == g.oldShift then r.eff == g.oldHome
        else r.shift == g.NewShift() && r.fine && r.eff == g.HeadHome(c[e]))
    && (r.fine && c[i] != c[e] ==> exists y :: i < y < |c| && c[y] == c[e])
  }

  /** The pointer just read jumps over the target on the other chain. */
  ghost predicate OffTrack(g: Grow, c: seq<bool>, e: nat, r: Reader, i: int)
    requires r.Match?
  {
    && r.fine && r.shift == g.NewShift() && e < |c| && r.eff == g.HeadHome(c[e])
    && exists w0, y :: Overtaken(c, e, i, w0, y)
  }

  ghost predicate ReaderOk(g: Grow, log: seq<nat>, c: seq<bool>, e: nat, r: Reader, i: int, j: int) {
    match r
    case Peek(_, _, _) => true
    case Try(_, _, _) => true
    case Read(h, rr, fine) => Before(log, c, e, fine, h, i) && Backtrack(log, c, e, fine, rr, j)
    case Match(at, rr, fine, _, _) =>
      && Backtrack(log, c, e, fine, rr, j)
      && 0 <= i < |log| && log[i] == at
      && (OnTrack(g, c, e, r, i) || OffTrack(g, c, e, r, i))
    case Hit(_) => true
    case Miss => false
  }

  predicate Fine(r: Reader) { !r.Hit? && !r.Miss? && r.fine }

  ghost predicate Target(g: Grow, sh: Shared, k: Key, e: nat) {
    && g.Owns(k) && e < |sh.log| && sh.KeyOf(sh.log[e]) == k && sh.MarkOf(sh.log[e]).Visible?
  }

  lemma HomeOfKey(g: Grow, k: Key)
    requires g.Valid() && g.Owns(k)
    ensures g.bits(k.k1, g.oldShift) == g.oldHome
    ensures g.bits(k.k1, g.NewShift()) == g.HeadHome(g.One(k))
    ensures g.bits(g.HeadHome(g.One(k)), g.oldShift) == g.oldHome
  {
  }

  /** Reading the head. */
  lemma ReadHead(g: Grow, sh: Shared, c: seq<bool>, v: View, k: Key, e: nat, r: Reader, j: int)
      returns (i': int, j': int)
    requires g.Valid() && c == Classes(g, sh) && ChainOk(g, sh, c, v) && Target(g, sh, k, e)
    requires r.Read? && r.h < 0 && (r.fine ==> v.Post?) && ReaderOk(g, sh.log, c, e, r, -1, j)
    ensures var r' := ReadStep(g, sh, k, r); ReaderOk(g, sh.log, c, e, r', i', j') && (Fine(r') ==> v.Post?)
  {
    HomeOfKey(g, k);
    HeadShift(g, sh, c, v, r.fine && g.One(k));
    if v.Post? == r.fine {
      i', j' := if v.Pre? then |c| - 1 else Below(c, g.One(k), |c|), j;
    } else if r.h == r.rr {
      i', j' := -1, -1;
    } else {
      i', j' := j, j;
    }
  }

  /** Following an original link from an entry before the target. */
  lemma ReadOldLink(g: Grow, sh: Shared, c: seq<bool>, k: Key, e: nat, r: Reader, i: int, j: int)
    requires g.Valid() && c == Classes(g, sh) && Target(g, sh, k, e)
    requires r.Read? && r.h >= 0 && ReaderOk(g, sh.log, c, e, r, i, j)
    requires sh.Next(r.h) == OldPtr(g, sh.log, i)
    ensures ReaderOk(g, sh.log, c, e, ReadStep(g, sh, k, r), i - 1, j)
  {
    HomeOfKey(g, k);
    var r' := ReadStep(g, sh, k, r);
    assert r' == Match(sh.log[i - 1], r.rr, r.fine, g.oldShift, g.oldHome);
    assert OnTrack(g, c, e, r', i - 1);
  }

  /** Following a migrated link with the new shift. */
  lemma ReadNewLink(g: Grow, sh: Shared, c: seq<bool>, k: Key, e: nat, r: Reader, i: int, j: int) returns (i': int)
    requires g.Valid() && c == Classes(g, sh) && Target(g, sh, k, e)
    requires r.Read? && r.h >= 0 && r.fine && ReaderOk(g, sh.log, c, e, r, i, j)
    requires sh.Next(r.h) == NewPtr(g, sh.log, c, c[i], i)
    ensures ReaderOk(g, sh.log, c, e, ReadStep(g, sh, k, r), i', j)
  {
    HomeOfKey(g, k);
    var b := Below(c, c[i], i);
    var r' := ReadStep(g, sh, k, r);
    if b < 0 {
      assert r' == Read(r.rr, r.rr, r.fine);
      i' := j;
    } else {
      i' := b;
      assert r' == Match(sh.log[b], r.rr, true, g.NewShift(), g.HeadHome(c[e]));
      if b >= e {
        assert OnTrack(g, c, e, r', b);
      } else {
        assert c[i] != c[e];
        var y :| i < y < |c| && c[y] == c[e];
        assert Overtaken(c, e, b, i, y);
        assert OffTrack(g, c, e, r', b);
      }
    }
  }

  lemma ReadEntry(g: Grow, sh: Shared, c: seq<bool>, v: View, k: Key, e: nat, r: Reader, i: int, j: int)
      returns (i': int, j': int)
    requires g.Valid() && c == Classes(g, sh) && ChainOk(g, sh, c, v) && Target(g, sh, k, e)
    requires r.Read? && r.h >= 0 && (r.fine ==> v.Post?) && ReaderOk(g, sh.log, c, e, r, i, j)
    ensures var r' := ReadStep(g, sh, k, r); ReaderOk(g, sh.log, c, e, r', i', j') && (Fine(r') ==> v.Post?)
  {
    if v.Pre? || i < v.p.At(c[i]) {
      assert v.Pre? ==> OldLink(g, sh, i);
      assert v.Post? ==> LinkOk(g, sh, c, v.p, i);
      ReadOldLink(g, sh, c, k, e, r, i, j);
      i', j' := i - 1, j;
    } else {
      assert LinkOk(g, sh, c, v.p, i);
      if r.fine {
        i' := ReadNewLink(g, sh, c, k, e, r, i, j);
        j' := j;
      } else {
        i', j' := if r.h == r.rr then -1 else j, if r.h == r.rr then -1 else j;
      }
    }
  }

  lemma MatchOnTrack(g: Grow, sh: Shared, c: seq<bool>, k: Key, e: nat, r: Reader, i: int, j: int)
      returns (i': int, j': int)
    requires g.Valid() && c == Classes(g, sh) && Target(g, sh, k, e)
    requires forall x :: x in sh.log ==> g.Owns(sh.KeyOf(x))
    requires r.Match? && ReaderOk(g, sh.log, c, e, r, i, j) && OnTrack(g, c, e, r, i)
    ensures ReaderOk(g, sh.log, c, e, MatchStep(g, sh, k, r), i', j')
  {
    HomeOfKey(g, k);
    var key := sh.KeyOf(r.at);
    assert r.at in sh.log;
    HomeOfKey(g, key);
    var r' := MatchStep(g, sh, k, r);
    i', j' := i, j;
    if !r'.Hit? {
      assert i > e;
      assert r'.h == r.at || r' == Read(r.rr, r.rr, r.fine);
      i' := if r' == Read(r.rr, r.rr, r.fine) then j else i;
      j' := if r'.rr == r.rr then j else i;
    }
  }

  lemma MatchOffTrack(g: Grow, sh: Shared, c: seq<bool>, k: Key, e: nat, r: Reader, i: int, j: int)
    requires g.Valid() && c == Classes(g, sh) && Target(g, sh, k, e)
    requires forall x :: x in sh.log ==> g.Owns(sh.KeyOf(x))
    requires r.Match? && ReaderOk(g, sh.log, c, e, r, i, j) && OffTrack(g, c, e, r, i)
    ensures Missable(g, sh, e) || ReaderOk(g, sh.log, c, e, MatchStep(g, sh, k, r), j, j)
  {
    HomeOfKey(g, k);
    var key := sh.KeyOf(r.at);
    assert r.at in sh.log;
    HomeOfKey(g, key);
    var w0, y :| Overtaken(c, e, i, w0, y);
    if !sh.MarkOf(r.at).Construction? {
      assert g.One(key) != g.One(k);
      assert MatchStep(g, sh, k, r) == Read(r.rr, r.rr, r.fine);
    }
  }

  // ---------------------------------------------------------------- whole runs

  /** The lookup has not passed the target. */
  ghost predicate Ahead(g: Grow, s: System, e: nat, post: bool) {
    && (Fine(s.rd) ==> post)
    && exists i, j :: ReaderOk(g, s.st.sh.log, Classes(g, s.st.sh), e, s.rd, i, j)
  }

  lemma LookStep(g: Grow, sh: Shared, c: seq<bool>, v: View, k: Key, e: nat, r: Reader, i: int, j: int)
      returns (i': int, j': int)
    requires g.Valid() && c == Classes(g, sh) && ChainOk(g, sh, c, v) && Target(g, sh, k, e)
    requires forall x :: x in sh.log ==> g.Owns(sh.KeyOf(x))
    requires (Fine(r) ==> v.Post?) && ReaderOk(g, sh.log, c, e, r, i, j)
    ensures var r' := ReaderStep(g, sh, k, r);
            (Fine(r') ==> v.Post?) && (Missable(g, sh, e) || ReaderOk(g, sh.log, c, e, r', i', j'))
  {
    i', j' := i, j;
    if r.Read? {
      if r.h < 0 {
        i', j' := ReadHead(g, sh, c, v, k, e, r, j);
      } else {
        i', j' := ReadEntry(g, sh, c, v, k, e, r, i, j);
      }
    } else if !r.Match? {
      i', j' := -1, -1;
    } else if OnTrack(g, c, e, r, i) {
      i', j' := MatchOnTrack(g, sh, c, k, e, r, i, j);
    } else {
      MatchOffTrack(g, sh, c, k, e, r, i, j);
      i' := j;
    }
  }

  lemma LookKeeps(g: Grow, s: System, k: Key, e: nat, v: View)
    requires g.Valid() && Inv(g, s.st, v) && Ahead(g, s, e, v.Post?) && Target(g, s.st.sh, k, e)
    ensures Missable(g, s.st.sh, e) || Ahead(g, Moved(g, k, s, Look), e, v.Post?)
  {
    var sh, c, r := s.st.sh, Classes(g, s.st.sh), s.rd;
    var i, j :| ReaderOk(g, sh.log, c, e, r, i, j);
    var i', j' := LookStep(g, sh, c, v, k, e, r, i, j);
  }

  /** What a table step does to the log, the keys and the marks of entries in it. */
  ghost predicate Grows(g: Grow, sh: Shared, sh': Shared) {
    && |sh.log| <= |sh'.log| && sh'.log[..|sh.log|] == sh.log
    && (forall x :: x in sh.log ==> sh'.KeyOf(x) == sh.KeyOf(x))
    && (forall x :: x in sh.log && sh.MarkOf(x).Construction? ==> sh'.MarkOf(x).Construction?)
    && (forall x :: x in sh.log && sh'.MarkOf(x).Visible? ==> sh.MarkOf(x).Visible?)
  }

  lemma SplitKeepsMarks(g: Grow, s: State)
    ensures SplitStep(g, s).sh.marks == s.sh.marks
  {
    if s.pc.Upgrade? {
      assert UpgradeStep(s.sh, s.pc.one, s.pc.stop, s.pc.f, s.pc.after).0.marks == s.sh.marks;
    } else if s.pc.Migrate? {
      assert MigrateStep(g, s.sh, s.pc.f).0.marks == s.sh.marks;
    }
  }

  lemma InsertGrows(g: Grow, s: State, t: nat, weak: bool)
    requires t in s.ins
    ensures Grows(g, s.sh, InsertStep(g, s, t, weak).sh)
  {
    var sh' := InsertStep(g, s, t, weak).sh;
    assert sh'.marks == s.sh.marks && sh'.keys == s.sh.keys;
    assert sh'.log == s.sh.log || sh'.log == s.sh.log + [s.ins[t].slot];
  }

  lemma SplitGrows(g: Grow, s: State, v: View)
    requires Inv(g, s, v)
    ensures Grows(g, s.sh, SplitStep(g, s).sh)
  {
    SplitTouchesLinks(g, s, v);
    SplitKeepsMarks(g, s);
    SameGrows(g, s.sh, SplitStep(g, s).sh);
  }

  lemma SameGrows(g: Grow, sh: Shared, sh': Shared)
    requires sh'.log == sh.log && sh'.keys == sh.keys && sh'.marks == sh.marks
    ensures Grows(g, sh, sh')
  {
  }

  lemma StartGrows(g: Grow, s: State, t: nat, slot: nat, key: Key, fine: bool)
    requires slot !in s.sh.log
    ensures Grows(g, s.sh, StartStep(s, t, slot, key, fine).sh)
  {
  }

  lemma MarkGrows(g: Grow, s: State, x: nat, m: Mark)
    requires CanMark(s, x, m)
    ensures Grows(g, s.sh, MarkStep(s, x, m).sh)
  {
  }

  lemma StepGrows(g: Grow, s: State, a: Action, v: View)
    requires Inv(g, s, v) && Enabled(g, s, a)
    ensures Grows(g, s.sh, Step(g, s, a).sh)
  {
    match a
    case Split => SplitGrows(g, s, v);
    case Start(t, slot, key, fine) => StartGrows(g, s, t, slot, key, fine);
    case Insert(t, weak) => InsertGrows(g, s, t, weak);
    case SetMark(x, m) => MarkGrows(g, s, x, m);
  }

  lemma ClassesGrow(g: Grow, sh: Shared, sh': Shared)
    requires Grows(g, sh, sh')
    ensures Classes(g, sh) <= Classes(g, sh')
  {
    var c, c' := Classes(g, sh), Classes(g, sh');
    forall i | 0 <= i < |c|
      ensures c[i] == c'[i]
    {
      assert sh'.log[i] == sh'.log[..|sh.log|][i];
    }
  }

  lemma MissableStays(g: Grow, sh: Shared, sh': Shared, e: int)
    requires Grows(g, sh, sh') && Missable(g, sh, e)
    ensures Missable(g, sh', e)
  {
    ClassesGrow(g, sh, sh');
    var w1, w0, y :| Overtaken(Classes(g, sh), e, w1, w0, y) && sh.MarkOf(sh.log[w1]).Construction?;
    assert Overtaken(Classes(g, sh'), e, w1, w0, y);
    assert sh'.log[w1] == sh'.log[..|sh.log|][w1];
  }

  lemma AheadStays(g: Grow, s: System, s': System, e: nat, post: bool, post': bool)
    requires Grows(g, s.st.sh, s'.st.sh) && s'.rd == s.rd && (post ==> post') && Ahead(g, s, e, post)
    ensures Ahead(g, s', e, post')
  {
    ClassesGrow(g, s.st.sh, s'.st.sh);
    var log, log', c, c' := s.st.sh.log, s'.st.sh.log, Classes(g, s.st.sh), Classes(g, s'.st.sh);
    var i, j :| ReaderOk(g, log, c, e, s.rd, i, j);
    ReaderOkGrows(g, log, log', c, c', e, s.rd, i, j);
  }

  lemma ReaderOkGrows(g: Grow, log: seq<nat>, log': seq<nat>, c: seq<bool>, c': seq<bool>, e: nat, r: Reader, i: int,
      j: int)
    requires log <= log' && c <= c' && |log| == |c| && |log'| == |c'| && ReaderOk(g, log, c, e, r, i, j)
    ensures ReaderOk(g, log', c', e, r, i, j)
  {
    if r.Match? && !OnTrack(g, c, e, r, i) {
      var w0, y :| Overtaken(c, e, i, w0, y);
      assert Overtaken(c', e, i, w0, y);
    }
  }

  /** A run of the table together with one lookup for key k that starts at the
      beginning of the run, possibly from a stale length_info_. */
  ghost predicate LookupRun(g: Grow, k: Key, tr: seq<System>, mv: seq<Move>) {
    && |tr| == |mv| + 1
    && (tr[0].rd == Peek(NONE, 0, false)
        || (tr[0].rd == Peek(NONE, 0, true) && ShiftOf(tr[0].st.sh.zero) == g.NewShift()))
    && (exists v :: Inv(g, tr[0].st, v))
    && forall i :: 0 <= i < |mv| ==> CanMove(g, tr[i], mv[i]) && tr[i + 1] == Moved(g, k, tr[i], mv[i])
  }

  lemma {:induction false} RunInv(g: Grow, k: Key, tr: seq<System>, mv: seq<Move>, i: nat) returns (v: View)
    requires LookupRun(g, k, tr, mv) && i < |tr|
    ensures Inv(g, tr[i].st, v)
  {
    if i == 0 {
      v :| Inv(g, tr[0].st, v);
    } else {
      v := RunInv(g, k, tr, mv, i - 1);
      if mv[i - 1].Table? {
        v := StepPreserves(g, tr[i - 1].st, mv[i - 1].a, v);
      }
    }
  }

  /** An entry that was in the table and is visible later has been visible all along. */
  lemma {:induction false} TargetThroughout(g: Grow, k: Key, tr: seq<System>, mv: seq<Move>, e: nat, i: nat, n: nat)
    requires LookupRun(g, k, tr, mv) && i <= n < |tr| && e < |tr[i].st.sh.log|
    requires Target(g, tr[n].st.sh, k, e)
    ensures Target(g, tr[i].st.sh, k, e)
    decreases n - i
  {
    if i < n {
      var sh, sh' := tr[i].st.sh, tr[i + 1].st.sh;
      if mv[i].Table? {
        var v := RunInv(g, k, tr, mv, i);
        StepGrows(g, tr[i].st, mv[i].a, v);
        assert sh'.log[e] == sh'.log[..|sh.log|][e];
      }
      TargetThroughout(g, k, tr, mv, e, i + 1, n);
    }
  }

  /** One move keeps the lookup ahead, unless the target is overtaken. */
  lemma AheadMove(g: Grow, k: Key, s: System, m: Move, e: nat, u: View) returns (v: View)
    requires g.Valid() && CanMove(g, s, m) && Inv(g, s.st, u) && Target(g, s.st.sh, k, e)
    requires Missable(g, s.st.sh, e) || Ahead(g, s, e, u.Post?)
    ensures var s' := Moved(g, k, s, m); Inv(g, s'.st, v) && (Missable(g, s'.st.sh, e) || Ahead(g, s', e, v.Post?))
  {
    v := u;
    var s' := Moved(g, k, s, m);
    if m.Table? {
      v := StepPreserves(g, s.st, m.a, u);
      StepGrows(g, s.st, m.a, u);
      if Missable(g, s.st.sh, e) {
        MissableStays(g, s.st.sh, s'.st.sh, e);
      } else {
        AheadStays(g, s, s', e, u.Post?, v.Post?);
      }
    } else if !Missable(g, s.st.sh, e) {
      LookKeeps(g, s, k, e, u);
    }
  }

  lemma {:induction false} AheadOrMissable(g: Grow, k: Key, tr: seq<System>, mv: seq<Move>, e: nat, n: nat)
      returns (v: View)
    requires g.Valid() && LookupRun(g, k, tr, mv) && n < |tr|
    requires e < |tr[0].st.sh.log| && forall i :: 0 <= i <= n ==> Target(g, tr[i].st.sh, k, e)
    ensures Inv(g, tr[n].st, v) && (Missable(g, tr[n].st.sh, e) || Ahead(g, tr[n], e, v.Post?))
  {
    if n == 0 {
      v :| Inv(g, tr[0].st, v);
      HeadShift(g, tr[0].st.sh, Classes(g, tr[0].st.sh), v, false);
      assert ReaderOk(g, tr[0].st.sh.log, Classes(g, tr[0].st.sh), e, tr[0].rd, -1, -1);
    } else {
      var u := AheadOrMissable(g, k, tr, mv, e, n - 1);
      v := AheadMove(g, k, tr[n - 1], mv[n - 1], e, u);
    }
  }

  // ---------------------------------------------------------------- the first pass

  /** From its head down to e, the chain of e runs over its own entries only. */
  ghost predicate Clear(c: seq<bool>, p: Progress, e: nat) {
    e < |c| && forall j :: e < j < |c| && c[j] == c[e] && j < p.At(c[e]) ==> c[j - 1] == c[e]
  }

  ghost predicate Cleared(c: seq<bool>, v: View, e: nat) { v.Post? && Clear(c, v.p, e) }

  /** The full algorithm is on the cleared part of its own chain, with the new shift. */
  ghost predicate OnOwn(g: Grow, log: seq<nat>, c: seq<bool>, e: nat, r: Reader, i: int)
    requires |log| == |c|
  {
    match r
    case Read(h, rr, fine) => (h == NONE && rr == NONE) || (fine && e < i < |c| && log[i] == h && c[i] == c[e])
    case Match(at, _, fine, shift, eff) =>
      && fine && e <= i < |c| && log[i] == at && c[i] == c[e]
      && (if shift == g.oldShift then eff == g.oldHome else shift == g.NewShift() && eff == g.HeadHome(c[e]))
    case _ => !r.Miss?
  }

  /** The first pass has not gone past e, nor run out of entries to look at. */
  ghost predicate Short(log: seq<nat>, e: nat, r: Reader, i: int) {
    match r
    case Peek(h, n, _) => (h == NONE && n == 0) || (e < i < |log| && log[i] == h && i + n <= |log|)
    case Try(at, n, _) => e <= i < |log| && log[i] == at && i + n < |log|
    case Hit(_) => true
    case _ => false
  }

  ghost predicate Near(g: Grow, log: seq<nat>, c: seq<bool>, v: View, e: nat, r: Reader, i: int)
    requires |log| == |c|
  {
    Short(log, e, r, i) || (Cleared(c, v, e) && OnOwn(g, log, c, e, r, i))
  }

  /** A migrated pointer that leads past e leaves the chain of e cleared. */
  lemma JumpClears(c: seq<bool>, p: Progress, e: nat, one: bool, i: nat)
    requires e < i <= |c| && FrontierOk(c, p, c[e]) && Below(c, one, i) < e && one != c[e]
    requires i < |c| ==> c[i] == one && i >= p.At(one)
    ensures Clear(c, p, e)
  {
    forall j | e < j < |c| && c[j] == c[e] && j < p.At(c[e])
      ensures c[j - 1] == c[e]
    {
      if i < |c| {
        assert i >= p.At(c[e]);
      }
    }
  }

  lemma PeekHead(g: Grow, sh: Shared, c: seq<bool>, v: View, k: Key, e: nat, r: Reader) returns (i': int)
    requires g.Valid() && c == Classes(g, sh) && ChainOk(g, sh, c, v) && Target(g, sh, k, e)
    requires r.Peek? && r.h == NONE && r.n == 0 && (r.fine ==> v.Post?)
    ensures Near(g, sh.log, c, v, e, PeekStep(g, sh, k, r), i')
  {
    HomeOfKey(g, k);
    var one := r.fine && g.One(k);
    assert PtrAt(g, sh, k, r.h, r.fine) == sh.Head(one);
    if v.Pre? {
      i' := |c| - 1;
    } else {
      i' := Below(c, one, |c|);
      if i' < e {
        JumpClears(c, v.p, e, one, |c|);
      }
    }
  }

  lemma PeekOldLink(g: Grow, sh: Shared, c: seq<bool>, v: View, k: Key, e: nat, r: Reader, i: nat)
    requires |c| == |sh.log| && WithinReach(sh, e)
    requires r.Peek? && e < i < |c| && sh.log[i] == r.h && i + r.n <= |c|
    requires sh.Next(sh.log[i]) == OldPtr(g, sh.log, i)
    ensures Near(g, sh.log, c, v, e, PeekStep(g, sh, k, r), i - 1)
  {
    assert PeekStep(g, sh, k, r) == Try(sh.log[i - 1], r.n, r.fine);
  }

  lemma PeekNewLink(g: Grow, sh: Shared, c: seq<bool>, v: View, k: Key, e: nat, r: Reader, i: nat)
    requires |c| == |sh.log| && WithinReach(sh, e)
    requires r.Peek? && e < i < |c| && sh.log[i] == r.h && i + r.n <= |c|
    requires v.Post? && FrontierOk(c, v.p, c[e])
    requires i >= v.p.At(c[i]) && sh.Next(sh.log[i]) == NewPtr(g, sh.log, c, c[i], i)
    ensures Near(g, sh.log, c, v, e, PeekStep(g, sh, k, r), Below(c, c[i], i))
  {
    var b := Below(c, c[i], i);
    if b < e {
      JumpClears(c, v.p, e, c[i], i);
    } else {
      assert PeekStep(g, sh, k, r) == Try(sh.log[b], r.n, r.fine);
    }
  }

  lemma PeekEntry(g: Grow, sh: Shared, c: seq<bool>, v: View, k: Key, e: nat, r: Reader, i: nat) returns (i': int)
    requires c == Classes(g, sh) && ChainOk(g, sh, c, v) && WithinReach(sh, e)
    requires r.Peek? && e < i < |c| && sh.log[i] == r.h && i + r.n <= |c|
    ensures Near(g, sh.log, c, v, e, PeekStep(g, sh, k, r), i')
  {
    assert v.Pre? ==> OldLink(g, sh, i);
    assert v.Post? ==> LinkOk(g, sh, c, v.p, i);
    if v.Pre? || i < v.p.At(c[i]) {
      PeekOldLink(g, sh, c, v, k, e, r, i);
      i' := i - 1;
    } else {
      PeekNewLink(g, sh, c, v, k, e, r, i);
      i' := Below(c, c[i], i);
    }
  }

  lemma OwnReads(g: Grow, sh: Shared, c: seq<bool>, v: View, k: Key, e: nat, r: Reader, i: int) returns (i': int)
    requires g.Valid() && c == Classes(g, sh) && ChainOk(g, sh, c, v) && Target(g, sh, k, e)
    requires r.Read? && Cleared(c, v, e) && OnOwn(g, sh.log, c, e, r, i)
    ensures OnOwn(g, sh.log, c, e, ReadStep(g, sh, k, r), i')
  {
    HomeOfKey(g, k);
    if r.h == NONE && r.rr == NONE {
      HeadShift(g, sh, c, v, r.fine && g.One(k));
      i' := Below(c, c[e], |c|);
    } else {
      assert LinkOk(g, sh, c, v.p, i);
      i' := if i < v.p.At(c[i]) then i - 1 else Below(c, c[e], i);
    }
  }

  lemma OwnMatches(g: Grow, sh: Shared, c: seq<bool>, k: Key, e: nat, r: Reader, i: int)
    requires g.Valid() && c == Classes(g, sh) && Target(g, sh, k, e)
    requires forall x :: x in sh.log ==> g.Owns(sh.KeyOf(x))
    requires r.Match? && OnOwn(g, sh.log, c, e, r, i)
    ensures OnOwn(g, sh.log, c, e, MatchStep(g, sh, k, r), i)
  {
    HomeOfKey(g, k);
    assert r.at in sh.log;
    HomeOfKey(g, sh.KeyOf(r.at));
  }

  lemma NearLooks(g: Grow, sh: Shared, c: seq<bool>, v: View, k: Key, e: nat, r: Reader, i: int) returns (i': int)
    requires g.Valid() && c == Classes(g, sh) && ChainOk(g, sh, c, v) && Target(g, sh, k, e) && WithinReach(sh, e)
    requires forall x :: x in sh.log ==> g.Owns(sh.KeyOf(x))
    requires (Fine(r) ==> v.Post?) && Near(g, sh.log, c, v, e, r, i)
    ensures Near(g, sh.log, c, v, e, ReaderStep(g, sh, k, r), i')
  {
    i' := i;
    if Short(sh.log, e, r, i) {
      if r.Peek? {
        if r.h == NONE && r.n == 0 {
          i' := PeekHead(g, sh, c, v, k, e, r);
        } else {
          i' := PeekEntry(g, sh, c, v, k, e, r, i);
        }
      }
    } else if r.Read? {
      i' := OwnReads(g, sh, c, v, k, e, r, i);
    } else if r.Match? {
      OwnMatches(g, sh, c, k, e, r, i);
    }
  }

  lemma NearStays(g: Grow, sh: Shared, sh': Shared, v: View, v': View, e: nat, r: Reader, i: int)
    requires Grows(g, sh, sh') && Forward(v, v') && ChainOk(g, sh, Classes(g, sh), v)
    requires Near(g, sh.log, Classes(g, sh), v, e, r, i)
    ensures Near(g, sh'.log, Classes(g, sh'), v', e, r, i)
  {
    ClassesGrow(g, sh, sh');
  }

  /** The target is within reach, or the lookup is on its cleared chain. */
  ghost predicate Reaches(g: Grow, s: System, e: nat, v: View) {
    && (Fine(s.rd) ==> v.Post?)
    && exists i :: Near(g, s.st.sh.log, Classes(g, s.st.sh), v, e, s.rd, i)
  }

  lemma FirstPassFine(g: Grow, sh: Shared, k: Key, r: Reader)
    ensures var r' := ReaderStep(g, sh, k, r); r'.Peek? || r'.Try? ==> (Fine(r') <==> Fine(r))
  {
  }

  lemma ReachLooks(g: Grow, k: Key, s: System, e: nat, v: View)
    requires g.Valid() && Inv(g, s.st, v) && Target(g, s.st.sh, k, e) && WithinReach(s.st.sh, e) && Reaches(g, s, e, v)
    ensures Reaches(g, Moved(g, k, s, Look), e, v)
  {
    var sh, c := s.st.sh, Classes(g, s.st.sh);
    var i :| Near(g, sh.log, c, v, e, s.rd, i);
    var i' := NearLooks(g, sh, c, v, k, e, s.rd, i);
    FirstPassFine(g, sh, k, s.rd);
  }

  lemma ReachStays(g: Grow, s: System, s': System, e: nat, v: View, v': View)
    requires Grows(g, s.st.sh, s'.st.sh) && s'.rd == s.rd && Forward(v, v')
             && ChainOk(g, s.st.sh, Classes(g, s.st.sh), v)
    requires Reaches(g, s, e, v)
    ensures Reaches(g, s', e, v')
  {
    var i :| Near(g, s.st.sh.log, Classes(g, s.st.sh), v, e, s.rd, i);
    NearStays(g, s.st.sh, s'.st.sh, v, v', e, s.rd, i);
  }

  lemma ReachMove(g: Grow, k: Key, s: System, m: Move, e: nat, u: View) returns (v: View)
    requires g.Valid() && CanMove(g, s, m) && Inv(g, s.st, u) && Target(g, s.st.sh, k, e)
    requires WithinReach(s.st.sh, e) && Reaches(g, s, e, u)
    ensures Inv(g, Moved(g, k, s, m).st, v) && Reaches(g, Moved(g, k, s, m), e, v)
  {
    v := u;
    if m.Table? {
      v := StepPreserves(g, s.st, m.a, u);
      StepGrows(g, s.st, m.a, u);
      ReachStays(g, s, Moved(g, k, s, m), e, u, v);
    } else {
      ReachLooks(g, k, s, e, u);
    }
  }

  lemma ReachShrinks(g: Grow, k: Key, tr: seq<System>, mv: seq<Move>, e: nat, n: nat)
    requires LookupRun(g, k, tr, mv) && n < |mv| && WithinReach(tr[n + 1].st.sh, e)
    ensures WithinReach(tr[n].st.sh, e)
  {
    if mv[n].Table? {
      var u := RunInv(g, k, tr, mv, n);
      StepGrows(g, tr[n].st, mv[n].a, u);
    }
  }

  lemma {:induction false} ReachThroughout(g: Grow, k: Key, tr: seq<System>, mv: seq<Move>, e: nat, n: nat)
      returns (v: View)
    requires g.Valid() && LookupRun(g, k, tr, mv) && n < |tr| && WithinReach(tr[n].st.sh, e)
    requires e < |tr[0].st.sh.log| && forall i :: 0 <= i <= n ==> Target(g, tr[i].st.sh, k, e)
    ensures Inv(g, tr[n].st, v) && Reaches(g, tr[n], e, v)
  {
    if n == 0 {
      v :| Inv(g, tr[0].st, v);
      HeadShift(g, tr[0].st.sh, Classes(g, tr[0].st.sh), v, false);
      assert Near(g, tr[0].st.sh.log, Classes(g, tr[0].st.sh), v, e, tr[0].rd, -1);
    } else {
      ReachShrinks(g, k, tr, mv, e, n - 1);
      var u := ReachThroughout(g, k, tr, mv, e, n - 1);
      v := ReachMove(g, k, tr[n - 1], mv[n - 1], e, u);
    }
  }

  /** A lookup that starts after the entry at log position e is in the table, and
      ends while that entry is still visible, finds its key unless the entry was
      overtaken by an entry under construction and is out of reach of the first pass. */
  lemma LookupMissesOnlyOvertaken(g: Grow, k: Key, tr: seq<System>, mv: seq<Move>, e: nat)
    requires g.Valid() && LookupRun(g, k, tr, mv)
    requires e < |tr[0].st.sh.log| && Target(g, tr[|mv|].st.sh, k, e)
    requires tr[|mv|].rd == Miss
    ensures Missable(g, tr[|mv|].st.sh, e) && !WithinReach(tr[|mv|].st.sh, e)
  {
    forall i: nat | i <= |mv| ensures e < |tr[i].st.sh.log| { LogGrows(g, k, tr, mv, i); }
    forall i: nat | i <= |mv| ensures Target(g, tr[i].st.sh, k, e) {
      TargetThroughout(g, k, tr, mv, e, i, |mv|);
    }
    var v := AheadOrMissable(g, k, tr, mv, e, |mv|);
    if WithinReach(tr[|mv|].st.sh, e) {
      v := ReachThroughout(g, k, tr, mv, e, |mv|);
    }
  }

  lemma {:induction false} LogGrows(g: Grow, k: Key, tr: seq<System>, mv: seq<Move>, i: nat)
    requires LookupRun(g, k, tr, mv) && i < |tr|
    ensures |tr[0].st.sh.log| <= |tr[i].st.sh.log|
  {
    if i > 0 {
      LogGrows(g, k, tr, mv, i - 1);
      if mv[i - 1].Table? {
        var v := RunInv(g, k, tr, mv, i - 1);
        StepGrows(g, tr[i - 1].st, mv[i - 1].a, v);
      }
    }
  }
}
