/** PurgeImplLocked: unlinking the entries under construction from one chain
    while holding its rewrite lock, interleaved with threads that insert at the
    head and with entries changing state. Each step is one atomic access. */
module ChainPurge {
  import opened ChainPointers
  import opened LinearHashing

  /** Where the purging thread is. `h` is the entry it looks at (NONE at the end),
      `prev` is prev_to_keep (NONE: the head) and `link` the pointer that led to h. */
  datatype Pc =
    | Check(h: int, prev: int, link: Ptr)
    | Stitch(h: int, prev: int, link: Ptr)
    | Follow(at: nat, prev: int)
    | Done

  /** A thread inserting its slot at the head. */
  datatype InsPc = Load(slot: nat) | Store(slot: nat, word: Ptr) | Cas(slot: nat, word: Ptr)

  /** The chain, the purging thread and the inserting threads. Histories: `log`
      lists completed insertions, oldest first; `seen` the entries the purge
      found under construction; `pend` those not yet stitched over; `unlinked`
      those removed from the chain. */
  datatype State = State(head: Ptr, next: map<nat, Ptr>, marks: map<nat, Mark>, log: seq<nat>,
                         pc: Pc, saved: Ptr, ins: map<nat, InsPc>,
                         seen: set<nat>, pend: set<nat>, unlinked: set<nat>) {
    function Next(x: nat): Ptr { NextIn(next, x) }
    function MarkOf(x: nat): Mark { if x in marks then marks[x] else Construction }
  }

  function Locked(p: Ptr): Ptr { if p.Link? then p.(locked := true) else p }

  // ---------------------------------------------------------------- steps

  function Moved(s: State, h: int): State {
    if h >= 0 then s.(pc := Follow(h, h)) else s.(pc := Done)
  }

  /** Reads (or clock-updates) the state of h. `evict` says that the clock update
      of a chain took the entry for eviction; a plain purge never does. */
  function CheckStep(s: State, evict: bool): State
    requires s.pc.Check?
  {
    var h := s.pc.h;
    if h >= 0 && (s.MarkOf(h).Construction? || evict) then
      s.(marks := s.marks[h := Construction], seen := s.seen + {h}, pend := s.pend + {h}, pc := Follow(h, s.pc.prev))
    else if s.pend != {} then s.(pc := Stitch(h, s.pc.prev, s.pc.link))
    else Moved(s, h)
  }

  /** Stores over the pending entries, or swings the head over them. */
  function StitchStep(s: State): State
    requires s.pc.Stitch?
  {
    var over := s.(unlinked := s.unlinked + s.pend, pend := {});
    if s.pc.prev >= 0 then Moved(over.(next := s.next[s.pc.prev := s.pc.link]), s.pc.h)
    else if s.head == s.saved then Moved(over.(head := Locked(s.pc.link), saved := Locked(s.pc.link)), s.pc.h)
    else
      // a parallel insertion: restart from the new head
      s.(saved := s.head, pend := {}, pc := Check(if s.head.Link? then s.head.slot else NONE, NONE, s.head))
  }

  function FollowStep(s: State): State
    requires s.pc.Follow?
  {
    var w := s.Next(s.pc.at);
    s.(pc := Check(if w.Link? then w.slot else NONE, s.pc.prev, w))
  }

  function PurgeStep(s: State, evict: bool): State {
    match s.pc
    case Check(_, _, _) => CheckStep(s, evict)
    case Stitch(_, _, _) => StitchStep(s)
    case Follow(_, _) => FollowStep(s)
    case Done => s
  }

  function InsertStep(s: State, t: nat, weak: bool): State
    requires t in s.ins
  {
    match s.ins[t]
    case Load(slot) => s.(ins := s.ins[t := Store(slot, s.head)])
    case Store(slot, word) => s.(next := s.next[slot := Unlocked(word)], ins := s.ins[t := Cas(slot, word)])
    case Cas(slot, word) =>
      if s.head == word && !weak then
        s.(head := Link(slot, ShiftOf(word), IsLocked(word)), log := s.log + [slot], ins := s.ins - {t})
      else s.(ins := s.ins[t := Load(slot)])
  }

  datatype Action =
    | Purge(evict: bool)
    | Start(t: nat, slot: nat)
    | Insert(t: nat, weak: bool)
    | SetMark(x: nat, m: Mark)

  /** No entry on the chain leaves the construction state while the lock is held. */
  predicate Enabled(s: State, a: Action) {
    match a
    case Purge(_) => true
    case Start(t, slot) => t !in s.ins && slot !in s.log && forall u :: u in s.ins ==> s.ins[u].slot != slot
    case Insert(t, _) => t in s.ins
    case SetMark(x, m) => x in s.log && !s.MarkOf(x).Construction? && !m.Visible?
  }

  function Step(s: State, a: Action): State
    requires Enabled(s, a)
  {
    match a
    case Purge(evict) => PurgeStep(s, evict)
    case Start(t, slot) => s.(marks := s.marks[slot := Visible], ins := s.ins[t := Load(slot)])
    case Insert(t, weak) => InsertStep(s, t, weak)
    case SetMark(x, m) => s.(marks := s.marks[x := m])
  }

  // ---------------------------------------------------------------- invariant

  /** The newest entry still linked among the oldest i, or -1. */
  function NextKept(log: seq<nat>, gone: set<nat>, i: nat): (j: int)
    requires i <= |log|
    ensures -1 <= j < i
    ensures j >= 0 ==> log[j] !in gone
    ensures forall m :: j < m < i ==> log[m] in gone
  {
    if i == 0 then -1 else if log[i - 1] !in gone then i - 1 else NextKept(log, gone, i - 1)
  }

  function PtrTo(g: Home, log: seq<nat>, j: int): Ptr
    requires j < |log|
  {
    if j < 0 then End(g.index, g.shift) else Link(log[j], g.shift, false)
  }

  /** A linked entry points to the next linked entry. */
  ghost predicate LinkOk(g: Home, s: State, i: int) {
    0 <= i < |s.log| && s.log[i] !in s.unlinked ==>
      s.Next(s.log[i]) == PtrTo(g, s.log, NextKept(s.log, s.unlinked, i))
  }

  /** The chain holds exactly the entries of the log that were not unlinked, newest first. */
  ghost predicate ChainOk(g: Home, s: State) {
    && NoDup(s.log)
    && Unlocked(s.head) == PtrTo(g, s.log, NextKept(s.log, s.unlinked, |s.log|))
    && forall i :: LinkOk(g, s, i)
  }

  /** Without an entry to keep, the walk started at the saved head, below log[a]. */
  ghost predicate FromHead(g: Home, s: State, a: nat) {
    && a <= |s.log| && NextKept(s.log, s.unlinked, a) >= 0 && IsLocked(s.head)
    && s.saved == Link(s.log[NextKept(s.log, s.unlinked, a)], g.shift, true)
    && forall j :: a <= j < |s.log| ==> s.log[j] !in s.unlinked
  }

  /** The last entry to keep is log[a], or the walk started from the head. */
  ghost predicate From(g: Home, s: State, prev: int, a: nat) {
    if prev < 0 then FromHead(g, s, a)
    else a < |s.log| && s.log[a] == prev && s.log[a] !in s.unlinked
  }

  /** The pending entries are exactly the linked ones at positions lo..a. */
  ghost predicate PendOk(s: State, lo: int, a: nat) {
    && a <= |s.log| && 0 <= lo
    && (forall j :: lo <= j < a && s.log[j] !in s.unlinked ==> s.log[j] in s.pend)
    && (forall x :: x in s.pend ==>
       x !in s.unlinked && s.MarkOf(x).Construction? && exists j :: lo <= j < a && s.log[j] == x)
  }

  /** Every entry seen under construction is unlinked, pending, or will be met again. */
  ghost predicate SeenOk(s: State, i: int) {
    && s.unlinked <= s.seen && s.pend <= s.seen
    && forall x :: x in s.seen && x !in s.unlinked && x !in s.pend ==>
         s.MarkOf(x).Construction? && exists j :: 0 <= j <= i && j < |s.log| && s.log[j] == x
  }

  /** h is log[i], still linked, or the end. */
  ghost predicate AtEntry(s: State, h: int, i: int) {
    if h < 0 then i == -1 else 0 <= i < |s.log| && s.log[i] == h && s.log[i] !in s.unlinked
  }

  /** Proof view: positions of h and of the last entry to keep. */
  datatype View = View(i: int, a: nat)

  ghost predicate PcOk(g: Home, s: State, v: View) {
    match s.pc
    case Check(h, prev, link) =>
      && AtEntry(s, h, v.i) && v.i < v.a && From(g, s, prev, v.a) && PendOk(s, v.i + 1, v.a) && SeenOk(s, v.i)
      && Unlocked(link) == PtrTo(g, s.log, v.i) && (s.pend != {} ==> !IsLocked(link))
    case Stitch(h, prev, link) =>
      && AtEntry(s, h, v.i) && v.i < v.a && From(g, s, prev, v.a) && PendOk(s, v.i + 1, v.a) && SeenOk(s, v.i)
      && link == PtrTo(g, s.log, v.i) && (h >= 0 ==> h !in s.seen)
    case Follow(at, prev) =>
      && AtEntry(s, at, v.i) && SeenOk(s, v.i - 1)
      && (if prev == at then v.a == v.i && s.pend == {}
          else v.i < v.a && From(g, s, prev, v.a) && PendOk(s, v.i, v.a))
    case Done => s.pend == {} && SeenOk(s, -1)
  }

  ghost predicate InsOk(s: State, t: nat)
    requires t in s.ins
  {
    && s.ins[t].slot !in s.log && s.ins[t].slot !in s.seen
    && (s.ins[t].Cas? ==> s.Next(s.ins[t].slot) == Unlocked(s.ins[t].word))
    && forall u :: u in s.ins && u != t ==> s.ins[u].slot != s.ins[t].slot
  }

  ghost predicate InsAllOk(s: State) {
    (forall x :: x in s.seen ==> x in s.log) && forall t :: t in s.ins ==> InsOk(s, t)
  }

  ghost predicate Inv(g: Home, s: State, v: View) {
    && ChainOk(g, s) && PcOk(g, s, v)
    && InsAllOk(s)
  }

  // ---------------------------------------------------------------- preservation

  lemma {:induction false} NextKeptIs(log: seq<nat>, gone: set<nat>, i: nat, j: int)
    requires i <= |log| && -1 <= j < i && (j >= 0 ==> log[j] !in gone)
    requires forall m :: j < m < i ==> log[m] in gone
    ensures NextKept(log, gone, i) == j
  {
  }

  lemma CheckFindsSeen(s: State, evict: bool, i: int)
    requires SeenOk(s, i) && s.pc.Check? && s.pc.h >= 0 && AtEntry(s, s.pc.h, i)
             && (s.MarkOf(s.pc.h).Construction? || evict)
    ensures SeenOk(CheckStep(s, evict), i - 1)
  {
    var s' := CheckStep(s, evict);
    forall x | x in s'.seen && x !in s'.unlinked && x !in s'.pend
      ensures s'.MarkOf(x).Construction? && exists j :: 0 <= j <= i - 1 && j < |s'.log| && s'.log[j] == x
    {
      var j :| 0 <= j <= i && j < |s.log| && s.log[j] == x;
      assert s'.log[j] == x && j != i;
    }
  }

  lemma CheckFindsPend(s: State, evict: bool, i: int, a: nat)
    requires PendOk(s, i + 1, a) && s.pc.Check? && s.pc.h >= 0 && AtEntry(s, s.pc.h, i) && i < a
    requires s.MarkOf(s.pc.h).Construction? || evict
    ensures PendOk(CheckStep(s, evict), i, a)
  {
    var s' := CheckStep(s, evict);
    forall x | x in s'.pend
      ensures x !in s'.unlinked && s'.MarkOf(x).Construction? && exists j :: i <= j < a && s'.log[j] == x
    {
      if x == s.pc.h {
        assert s'.log[i] == x;
      } else {
        var j :| i + 1 <= j < a && s.log[j] == x;
        assert s'.log[j] == x;
      }
    }
  }

  lemma CheckFinds(g: Home, s: State, evict: bool, v: View)
    requires NoDup(s.log) && PcOk(g, s, v) && s.pc.Check? && s.pc.h >= 0 && (s.MarkOf(s.pc.h).Construction? || evict)
    ensures PcOk(g, CheckStep(s, evict), v)
  {
    CheckFindsSeen(s, evict, v.i);
    CheckFindsPend(s, evict, v.i, v.a);
    assert s.pc.prev != s.pc.h by {
      if s.pc.prev >= 0 { assert s.log[v.a] != s.log[v.i]; }
    }
    assert From(g, CheckStep(s, evict), s.pc.prev, v.a);
  }

  /** An entry is kept, with entries pending behind it, or the end is reached. */
  lemma CheckStays(g: Home, s: State, evict: bool, v: View)
    requires ChainOk(g, s) && PcOk(g, s, v) && s.pc.Check?
             && !(s.pc.h >= 0 && (s.MarkOf(s.pc.h).Construction? || evict))
    requires s.pend != {} || s.pc.h < 0
    ensures PcOk(g, CheckStep(s, evict), v)
  {
  }

  /** An entry is kept, and is the one to link behind. */
  lemma CheckKeeps(g: Home, s: State, evict: bool, v: View)
    requires ChainOk(g, s) && PcOk(g, s, v) && s.pc.Check?
             && !(s.pc.h >= 0 && (s.MarkOf(s.pc.h).Construction? || evict))
    requires s.pend == {} && s.pc.h >= 0
    ensures PcOk(g, CheckStep(s, evict), View(v.i, v.i))
  {
    forall x | x in s.seen && x !in s.unlinked
      ensures exists j :: 0 <= j <= v.i - 1 && j < |s.log| && s.log[j] == x
    {
      var j :| 0 <= j <= v.i && j < |s.log| && s.log[j] == x;
    }
  }

  lemma CheckPasses(g: Home, s: State, evict: bool, v: View) returns (v': View)
    requires ChainOk(g, s) && PcOk(g, s, v) && s.pc.Check?
             && !(s.pc.h >= 0 && (s.MarkOf(s.pc.h).Construction? || evict))
    ensures PcOk(g, CheckStep(s, evict), v')
  {
    if s.pend != {} || s.pc.h < 0 {
      CheckStays(g, s, evict, v);
      v' := v;
    } else {
      CheckKeeps(g, s, evict, v);
      v' := View(v.i, v.i);
    }
  }

  lemma SeenBelow(s: State, i: nat)
    requires i <= |s.log| && SeenOk(s, i - 1)
    ensures SeenOk(s, NextKept(s.log, s.unlinked, i))
  {
    var i' := NextKept(s.log, s.unlinked, i);
    forall x | x in s.seen && x !in s.unlinked && x !in s.pend
      ensures exists j :: 0 <= j <= i' && j < |s.log| && s.log[j] == x
    {
      var j :| 0 <= j <= i - 1 && j < |s.log| && s.log[j] == x;
      assert j <= i';
    }
  }

  lemma PendBelow(s: State, i: nat, a: nat)
    requires i <= a && PendOk(s, i, a)
    ensures PendOk(s, NextKept(s.log, s.unlinked, i) + 1, a)
  {
    var i' := NextKept(s.log, s.unlinked, i);
    forall x | x in s.pend
      ensures exists j :: i' + 1 <= j < a && s.log[j] == x
    {
      var j :| i <= j < a && s.log[j] == x;
    }
  }

  lemma FollowPreserves(g: Home, s: State, v: View) returns (v': View)
    requires ChainOk(g, s) && PcOk(g, s, v) && s.pc.Follow?
    ensures PcOk(g, FollowStep(s), v')
  {
    assert LinkOk(g, s, v.i);
    v' := View(NextKept(s.log, s.unlinked, v.i), v.a);
    SeenBelow(s, v.i);
    if s.pc.prev == s.pc.at {
      assert PendOk(s, v.i, v.i);
    }
    PendBelow(s, v.i, v.a);
    FollowArrives(g, s, v, v');
  }

  lemma FollowArrives(g: Home, s: State, v: View, v': View)
    requires s.pc.Follow? && AtEntry(s, s.pc.at, v.i) && v' == View(NextKept(s.log, s.unlinked, v.i), v.a)
    requires s.Next(s.pc.at) == PtrTo(g, s.log, v'.i) && v.i <= v.a
    requires if s.pc.prev == s.pc.at then v.a == v.i else From(g, s, s.pc.prev, v.a)
    requires PendOk(s, v'.i + 1, v.a) && SeenOk(s, v'.i)
    ensures PcOk(g, FollowStep(s), v')
  {
  }

  /** A linked entry keeps its successor unless it is the one stitched. */
  lemma SuccessorAfterStitch(s: State, v: View, k: nat)
    requires NoDup(s.log) && v.i < v.a && PendOk(s, v.i + 1, v.a) && k <= |s.log|
    requires v.i >= 0 ==> v.i < |s.log| && s.log[v.i] !in s.unlinked
    requires (k > v.a && v.a < |s.log| && s.log[v.a] !in s.unlinked) || k <= v.i + 1
    ensures NextKept(s.log, s.unlinked + s.pend, k) == NextKept(s.log, s.unlinked, k)
  {
    NextKeptIs(s.log, s.unlinked + s.pend, k, NextKept(s.log, s.unlinked, k));
  }

  lemma StitchedSuccessor(s: State, v: View)
    requires NoDup(s.log) && -1 <= v.i < v.a && PendOk(s, v.i + 1, v.a)
    requires v.i >= 0 ==> s.log[v.i] !in s.unlinked
    ensures NextKept(s.log, s.unlinked + s.pend, v.a) == v.i
  {
    NextKeptIs(s.log, s.unlinked + s.pend, v.a, v.i);
  }

  /** What the thread knows after a stitch. */
  lemma StitchPc(g: Home, s: State, s': State, v: View)
    requires PcOk(g, s, v) && s.pc.Stitch? && NoDup(s.log)
    requires s'.log == s.log && s'.marks == s.marks && s'.seen == s.seen && s'.pend == {}
             && s'.unlinked == s.unlinked + s.pend
    requires s'.pc == (if s.pc.h >= 0 then Follow(s.pc.h, s.pc.h) else Done)
    ensures PcOk(g, s', View(v.i, if v.i >= 0 then v.i else 0))
  {
    forall x | x in s'.seen && x !in s'.unlinked
      ensures s'.MarkOf(x).Construction? && exists j :: 0 <= j <= v.i - 1 && j < |s'.log| && s'.log[j] == x
    {
      var j :| 0 <= j <= v.i && j < |s.log| && s.log[j] == x;
    }
  }

  lemma StitchStore(g: Home, s: State, v: View)
    requires ChainOk(g, s) && PcOk(g, s, v) && s.pc.Stitch? && s.pc.prev >= 0
    ensures ChainOk(g, StitchStep(s))
  {
    var s' := StitchStep(s);
    StitchedSuccessor(s, v);
    SuccessorAfterStitch(s, v, |s.log|);
    forall k | 0 <= k < |s.log| && s.log[k] !in s'.unlinked
      ensures LinkOk(g, s', k)
    {
      assert LinkOk(g, s, k);
      if k != v.a {
        assert s.log[k] != s.log[v.a];
        SuccessorAfterStitch(s, v, k);
      }
    }
  }

  lemma StitchHead(g: Home, s: State, v: View)
    requires ChainOk(g, s) && PcOk(g, s, v) && s.pc.Stitch? && s.pc.prev < 0 && s.head == s.saved
    ensures ChainOk(g, StitchStep(s))
  {
    var s' := StitchStep(s);
    var t := NextKept(s.log, s.unlinked, |s.log|);
    assert t == NextKept(s.log, s.unlinked, v.a);
    assert v.a == |s.log|;
    StitchedSuccessor(s, v);
    forall k | 0 <= k < |s.log| && s.log[k] !in s'.unlinked
      ensures LinkOk(g, s', k)
    {
      assert LinkOk(g, s, k);
      SuccessorAfterStitch(s, v, k);
    }
  }

  /** All the entries seen and not unlinked are linked, so at or below the newest linked one. */
  lemma RestartSeen(s: State, v: View)
    requires SeenOk(s, v.i) && v.i < v.a && PendOk(s, v.i + 1, v.a)
    ensures SeenOk(s.(pend := {}), NextKept(s.log, s.unlinked, |s.log|))
  {
    var i := NextKept(s.log, s.unlinked, |s.log|);
    forall x | x in s.seen && x !in s.unlinked
      ensures s.MarkOf(x).Construction? && exists j :: 0 <= j <= i && j < |s.log| && s.log[j] == x
    {
      var j :| 0 <= j < |s.log| && s.log[j] == x;
      assert j <= i;
    }
  }

  /** The head moved under the purge: it restarts, and will meet the pending entries again. */
  lemma StitchRestarts(g: Home, s: State, v: View) returns (v': View)
    requires ChainOk(g, s) && PcOk(g, s, v) && s.pc.Stitch? && s.pc.prev < 0 && s.head != s.saved
    ensures PcOk(g, StitchStep(s), v')
  {
    var n := |s.log|;
    v' := View(NextKept(s.log, s.unlinked, n), n);
    RestartSeen(s, v);
    RestartPc(g, s, v'.i);
  }

  lemma RestartPc(g: Home, s: State, i: int)
    requires s.pc.Stitch? && s.pc.prev < 0 && s.head != s.saved && IsLocked(s.head)
    requires i == NextKept(s.log, s.unlinked, |s.log|) && Unlocked(s.head) == PtrTo(g, s.log, i)
    requires SeenOk(s.(pend := {}), i)
    ensures PcOk(g, StitchStep(s), View(i, |s.log|))
  {
    var s' := StitchStep(s);
    assert SeenOk(s', i);
    assert FromHead(g, s', |s.log|);
  }

  ghost predicate Good(g: Home, s: State, v: View) { ChainOk(g, s) && PcOk(g, s, v) }

  lemma CheckPreserves(g: Home, s: State, evict: bool, v: View) returns (v': View)
    requires Good(g, s, v) && s.pc.Check?
    ensures Good(g, CheckStep(s, evict), v')
  {
    ChainFrame(g, s, CheckStep(s, evict));
    if s.pc.h >= 0 && (s.MarkOf(s.pc.h).Construction? || evict) {
      CheckFinds(g, s, evict, v);
      v' := v;
    } else {
      v' := CheckPasses(g, s, evict, v);
    }
  }

  /** Every step of the purging thread keeps the invariant. */
  lemma PurgePreserves(g: Home, s: State, evict: bool, v: View) returns (v': View)
    requires Inv(g, s, v)
    ensures Inv(g, PurgeStep(s, evict), v')
  {
    PurgeLeavesInserts(g, s, evict, v);
    if s.pc.Check? {
      v' := CheckPreserves(g, s, evict, v);
    } else if s.pc.Follow? {
      ChainFrame(g, s, FollowStep(s));
      v' := FollowPreserves(g, s, v);
    } else if s.pc.Stitch? {
      v' := StitchPreserves(g, s, v);
    } else {
      v' := v;
    }
  }

  lemma StitchPreserves(g: Home, s: State, v: View) returns (v': View)
    requires ChainOk(g, s) && PcOk(g, s, v) && s.pc.Stitch?
    ensures ChainOk(g, StitchStep(s)) && PcOk(g, StitchStep(s), v')
  {
    var s' := StitchStep(s);
    if s.pc.prev < 0 && s.head != s.saved {
      ChainFrame(g, s, s');
      v' := StitchRestarts(g, s, v);
    } else {
      v' := View(v.i, if v.i >= 0 then v.i else 0);
      StitchPc(g, s, s', v);
      if s.pc.prev >= 0 {
        StitchStore(g, s, v);
      } else {
        StitchHead(g, s, v);
      }
    }
  }

  lemma ChainFrame(g: Home, s: State, s': State)
    requires ChainOk(g, s) && s'.head == s.head && s'.log == s.log && s'.unlinked == s.unlinked
    requires forall x :: x in s.log ==> s'.Next(x) == s.Next(x)
    ensures ChainOk(g, s')
  {
    forall i ensures LinkOk(g, s', i) { assert LinkOk(g, s, i); }
  }

  /** The purge writes only links of entries on the chain. */
  ghost predicate OnlyLinks(s: State, s': State) {
    && s'.ins == s.ins && s'.log == s.log
    && (forall x :: x in s'.seen ==> x in s.log)
    && forall x :: x !in s.log ==> s'.Next(x) == s.Next(x)
  }

  lemma InsertsUndisturbed(s: State, s': State)
    requires InsAllOk(s) && OnlyLinks(s, s')
    ensures InsAllOk(s')
  {
    forall t | t in s'.ins ensures InsOk(s', t) { assert InsOk(s, t); }
  }

  lemma StitchOnlyLinks(g: Home, s: State, v: View)
    requires s.pc.Stitch? && From(g, s, s.pc.prev, v.a) && forall x :: x in s.seen ==> x in s.log
    ensures OnlyLinks(s, StitchStep(s))
  {
    assert s.pc.prev >= 0 ==> s.pc.prev in s.log;
  }

  lemma PurgeLeavesInserts(g: Home, s: State, evict: bool, v: View)
    requires InsAllOk(s) && PcOk(g, s, v)
    ensures InsAllOk(PurgeStep(s, evict))
  {
    if s.pc.Stitch? {
      StitchOnlyLinks(g, s, v);
    } else if s.pc.Check? {
      assert AtEntry(s, s.pc.h, v.i);
    }
    InsertsUndisturbed(s, PurgeStep(s, evict));
  }

  lemma {:induction false} NextKeptAppend(log: seq<nat>, x: nat, gone: set<nat>, i: nat)
    requires i <= |log|
    ensures NextKept(log + [x], gone, i) == NextKept(log, gone, i)
  {
    if i > 0 {
      NextKeptAppend(log, x, gone, i - 1);
    }
  }

  lemma ChainAppend(g: Home, s: State, slot: nat, locked: bool)
    requires ChainOk(g, s) && slot !in s.log && slot !in s.unlinked && s.Next(slot) == Unlocked(s.head)
    ensures ChainOk(g, s.(head := Link(slot, g.shift, locked), log := s.log + [slot]))
  {
    var s' := s.(head := Link(slot, g.shift, locked), log := s.log + [slot]);
    var n := |s.log|;
    NextKeptAppend(s.log, slot, s.unlinked, n);
    forall i | 0 <= i < |s'.log|
      ensures LinkOk(g, s', i)
    {
      if i < n {
        assert LinkOk(g, s, i);
        NextKeptAppend(s.log, slot, s.unlinked, i);
      }
    }
  }

  lemma SeenAppend(s: State, s': State, slot: nat, i: int)
    requires SeenOk(s, i) && s'.log == s.log + [slot] && s'.marks == s.marks
    requires s'.seen == s.seen && s'.pend == s.pend && s'.unlinked == s.unlinked
    ensures SeenOk(s', i)
  {
    forall x | x in s.seen && x !in s.unlinked && x !in s.pend
      ensures exists j :: 0 <= j <= i && j < |s'.log| && s'.log[j] == x
    {
      var j :| 0 <= j <= i && j < |s.log| && s.log[j] == x;
      assert s'.log[j] == x;
    }
  }

  lemma PendAppend(s: State, s': State, slot: nat, lo: int, a: nat)
    requires PendOk(s, lo, a) && s'.log == s.log + [slot] && s'.marks == s.marks
    requires s'.pend == s.pend && s'.unlinked == s.unlinked
    ensures PendOk(s', lo, a)
  {
    forall x | x in s.pend
      ensures exists j :: lo <= j < a && s'.log[j] == x
    {
      var j :| lo <= j < a && s.log[j] == x;
      assert s'.log[j] == x;
    }
  }

  lemma FromAppend(g: Home, s: State, s': State, slot: nat, prev: int, a: nat)
    requires From(g, s, prev, a) && slot !in s.unlinked && s'.log == s.log + [slot]
    requires s'.saved == s.saved && s'.unlinked == s.unlinked && (IsLocked(s.head) ==> IsLocked(s'.head))
    ensures From(g, s', prev, a)
  {
    NextKeptAppend(s.log, slot, s.unlinked, a);
  }

  /** A new head entry leaves the purging thread's knowledge true. */
  lemma PcAppend(g: Home, s: State, s': State, slot: nat, v: View)
    requires PcOk(g, s, v) && slot !in s.unlinked
    requires s'.log == s.log + [slot] && s'.pc == s.pc && s'.saved == s.saved && s'.marks == s.marks
    requires s'.seen == s.seen && s'.pend == s.pend && s'.unlinked == s.unlinked
             && (IsLocked(s.head) ==> IsLocked(s'.head))
    ensures PcOk(g, s', v)
  {
    match s.pc
    case Check(h, prev, link) =>
      SeenAppend(s, s', slot, v.i);
      PendAppend(s, s', slot, v.i + 1, v.a);
      FromAppend(g, s, s', slot, prev, v.a);
    case Stitch(h, prev, link) =>
      SeenAppend(s, s', slot, v.i);
      PendAppend(s, s', slot, v.i + 1, v.a);
      FromAppend(g, s, s', slot, prev, v.a);
    case Follow(at, prev) =>
      SeenAppend(s, s', slot, v.i - 1);
      if prev != at {
        PendAppend(s, s', slot, v.i, v.a);
        FromAppend(g, s, s', slot, prev, v.a);
      }
    case Done => SeenAppend(s, s', slot, -1);
  }

  lemma InsertLinks(g: Home, s: State, t: nat, v: View)
    requires Inv(g, s, v) && t in s.ins && s.ins[t].Cas? && s.head == s.ins[t].word
    ensures Inv(g, InsertStep(s, t, false), v)
  {
    var slot, s' := s.ins[t].slot, InsertStep(s, t, false);
    assert InsOk(s, t);
    assert s.unlinked <= s.seen;
    assert s' == s.(head := Link(slot, g.shift, IsLocked(s.head)), log := s.log + [slot], ins := s.ins - {t});
    ChainFrame(g, s, s.(ins := s.ins - {t}));
    ChainAppend(g, s.(ins := s.ins - {t}), slot, IsLocked(s.head));
    PcAppend(g, s, s', slot, v);
    forall u | u in s'.ins ensures InsOk(s', u) { assert InsOk(s, u); }
  }

  /** A step that changes neither the log nor the chain nor the histories. */
  lemma InsFrame(g: Home, s: State, s': State, v: View)
    requires Good(g, s, v) && s'.head == s.head && s'.log == s.log && s'.pc == s.pc && s'.saved == s.saved
    requires s'.seen == s.seen && s'.pend == s.pend && s'.unlinked == s.unlinked
    requires forall x :: x in s.log ==> s'.Next(x) == s.Next(x)
    requires forall x :: x in s.log && s.MarkOf(x).Construction? ==> s'.MarkOf(x).Construction?
    ensures Good(g, s', v)
  {
    ChainFrame(g, s, s');
  }

  lemma WaitsInserts(s: State, t: nat, weak: bool)
    requires InsAllOk(s) && t in s.ins && !(s.ins[t].Cas? && s.head == s.ins[t].word && !weak)
    ensures InsAllOk(InsertStep(s, t, weak))
  {
    var s' := InsertStep(s, t, weak);
    assert InsOk(s, t);
    assert s'.ins[t].slot == s.ins[t].slot && s'.ins == s.ins[t := s'.ins[t]];
    forall u | u in s'.ins
      ensures InsOk(s', u)
    {
      assert InsOk(s, u);
    }
  }

  lemma InsertWaits(g: Home, s: State, t: nat, weak: bool, v: View)
    requires Inv(g, s, v) && t in s.ins && !(s.ins[t].Cas? && s.head == s.ins[t].word && !weak)
    ensures Inv(g, InsertStep(s, t, weak), v)
  {
    var s' := InsertStep(s, t, weak);
    assert InsOk(s, t);
    WaitsInserts(s, t, weak);
    InsFrame(g, s, s', v);
  }

  lemma InsertPreserves(g: Home, s: State, t: nat, weak: bool, v: View)
    requires Inv(g, s, v) && t in s.ins
    ensures Inv(g, InsertStep(s, t, weak), v)
  {
    if s.ins[t].Cas? && s.head == s.ins[t].word && !weak {
      InsertLinks(g, s, t, v);
    } else {
      InsertWaits(g, s, t, weak, v);
    }
  }

  lemma StepPreserves(g: Home, s: State, a: Action, v: View) returns (v': View)
    requires Inv(g, s, v) && Enabled(s, a)
    ensures Inv(g, Step(s, a), v')
  {
    v' := v;
    match a
    case Purge(evict) => v' := PurgePreserves(g, s, evict, v);
    case Insert(t, weak) => InsertPreserves(g, s, t, weak, v);
    case Start(t, slot) =>
      var s' := Step(s, a);
      InsFrame(g, s, s', v);
      forall u | u in s'.ins ensures InsOk(s', u) { if u != t { assert InsOk(s, u); } }
    case SetMark(x, m) =>
      var s' := Step(s, a);
      InsFrame(g, s, s', v);
      forall u | u in s'.ins ensures InsOk(s', u) { assert InsOk(s, u); }
  }

  // ---------------------------------------------------------------- runs and theorems

  /** The purge has just locked a non-empty chain. */
  ghost predicate Init(g: Home, s: State) {
    && ChainOk(g, s) && IsLocked(s.head) && s.saved == s.head && s.pc == Check(s.head.slot, NONE, s.head)
    && s.ins == map[] && s.seen == {} && s.pend == {} && s.unlinked == {}
  }

  ghost predicate Run(g: Home, tr: seq<State>, acts: seq<Action>) {
    && |tr| == |acts| + 1 && Init(g, tr[0])
    && forall i :: 0 <= i < |acts| ==> Enabled(tr[i], acts[i]) && tr[i + 1] == Step(tr[i], acts[i])
  }

  lemma {:induction false} RunInv(g: Home, tr: seq<State>, acts: seq<Action>, i: nat) returns (v: View)
    requires Run(g, tr, acts) && i < |tr|
    ensures Inv(g, tr[i], v)
  {
    if i == 0 {
      var s := tr[0];
      v := View(NextKept(s.log, {}, |s.log|), |s.log|);
    } else {
      v := RunInv(g, tr, acts, i - 1);
      v := StepPreserves(g, tr[i - 1], acts[i - 1], v);
    }
  }

  /** The entries of the log that are not gone, newest first. */
  function Kept(log: seq<nat>, gone: set<nat>, i: nat): seq<nat>
    requires i <= |log|
  {
    if i == 0 then []
    else if log[i - 1] !in gone then [log[i - 1]] + Kept(log, gone, i - 1)
    else Kept(log, gone, i - 1)
  }

  lemma {:induction false} KeptWalk(g: Home, s: State, i: nat)
    requires ChainOk(g, s) && i <= |s.log|
    ensures WalkAt(s.next, PtrTo(g, s.log, NextKept(s.log, s.unlinked, i)), Kept(s.log, s.unlinked, i),
                   End(g.index, g.shift), g.shift)
    decreases i
  {
    if i > 0 {
      KeptWalk(g, s, i - 1);
      if s.log[i - 1] !in s.unlinked {
        assert LinkOk(g, s, i - 1);
        assert Kept(s.log, s.unlinked, i)[1..] == Kept(s.log, s.unlinked, i - 1);
      }
    }
  }

  /** In every state of every run the chain is a clean walk over exactly the
      inserted entries that were not unlinked, newest first; and only entries
      that the purge saw under construction are ever unlinked. */
  lemma PurgeNeverLosesEntries(g: Home, tr: seq<State>, acts: seq<Action>, i: nat)
    requires Run(g, tr, acts) && i < |tr|
    ensures var s := tr[i];
            && WalkAt(s.next, Unlocked(s.head), Kept(s.log, s.unlinked, |s.log|), End(g.index, g.shift), g.shift)
            && s.unlinked <= s.seen && SeenMarked(s)
  {
    var v := RunInv(g, tr, acts, i);
    KeptWalk(g, tr[i], |tr[i].log|);
    SeenUnderConstruction(g, tr, acts, i);
  }

  ghost predicate SeenMarked(s: State) { forall x :: x in s.seen ==> x in s.log && s.MarkOf(x).Construction? }

  lemma SeenMarkedStays(s: State, a: Action)
    requires SeenMarked(s) && Enabled(s, a) && (s.pc.Check? && s.pc.h >= 0 ==> s.pc.h in s.log)
    ensures SeenMarked(Step(s, a))
  {
    var s' := Step(s, a);
    match a
    case Purge(evict) =>
      if s.pc.Check? {
        assert s'.seen == s.seen || (s'.seen == s.seen + {s.pc.h} && s'.marks == s.marks[s.pc.h := Construction]);
      } else {
        assert s'.seen == s.seen && s'.marks == s.marks && s'.log == s.log;
      }
    case Insert(t, weak) =>
      assert s'.seen == s.seen && s'.marks == s.marks && forall x :: x in s.log ==> x in s'.log;
    case Start(t, slot) => assert slot !in s.seen;
    case SetMark(x, m) =>
  }

  lemma {:induction false} SeenUnderConstruction(g: Home, tr: seq<State>, acts: seq<Action>, i: nat)
    requires Run(g, tr, acts) && i < |tr|
    ensures SeenMarked(tr[i])
  {
    if i > 0 {
      SeenUnderConstruction(g, tr, acts, i - 1);
      var v := RunInv(g, tr, acts, i - 1);
      assert tr[i - 1].pc.Check? ==> AtEntry(tr[i - 1], tr[i - 1].pc.h, v.i);
      SeenMarkedStays(tr[i - 1], acts[i - 1]);
    }
  }

  /** When the purge is done it has unlinked exactly the entries it saw under
      construction: the chain is the log of all insertions, concurrent ones
      included, without them. */
  lemma PurgeResult(g: Home, tr: seq<State>, acts: seq<Action>, i: nat)
    requires Run(g, tr, acts) && i < |tr| && tr[i].pc.Done?
    ensures var s := tr[i];
            && s.unlinked == s.seen
            && WalkAt(s.next, Unlocked(s.head), Kept(s.log, s.seen, |s.log|), End(g.index, g.shift), g.shift)
  {
    var v := RunInv(g, tr, acts, i);
    PurgeNeverLosesEntries(g, tr, acts, i);
  }
}
