/** The lock-free slot protocol of HyperClockCache: one slot whose meta word packs
    a state marker with an acquire and a release counter, operated on by any
    number of threads. Each action is one atomic access to the meta word. The
    counters are unbounded here. */
module SlotProtocol {
  import ClockEntries

  datatype Marker = Empty | Construction | Invisible | Visible

  /** The meta word. The counters mean something only in the shareable states. */
  datatype Meta = Meta(st: Marker, acquire: int, release: int) {
    predicate Shareable() { st.Visible? || st.Invisible? }
    /** GetRefcount */
    function Refs(): int { acquire - release }
  }

  const TAKEN: Meta := Meta(Construction, 0, 0)

  /** What a thread is about to do with the slot. */
  datatype Pc =
    | Idle
    | Undo(n: nat)                      // Unref: give back n references taken by a failed probe
    | InsertProbe(key: nat, n: nat)     // Insert met a visible entry and probes it with n references
    | InsertBoost(n: nat)               // Insert found its key: release n references as useful
    | Own                               // exclusive owner, populating or freeing the slot
    | ReleaseTry(saved: Meta)           // Release: try to free an entry that may be unreferenced
    | EraseHide                         // Erase: holds a reference to a matching visible entry
    | EraseTry(saved: Meta)             // Erase: try to free the entry it made invisible
    | TakeTry(saved: Meta)              // clock update or EraseUnRefEntries, after loading the word

  /** A thread and the references its callers hold. */
  datatype Thread = Thread(pc: Pc, held: nat)

  /** `entry` counts the entries ever published in the slot. */
  datatype State = State(meta: Meta, key: nat, entry: nat, threads: seq<Thread>)

  datatype Action =
    | Lookup(t: nat, key: nat)
    | UndoRefs(t: nat)
    | Ref(t: nat)
    | Release(t: nat, useful: bool, eraseIfLast: bool)
    | ReleaseLoop(t: nat, weak: bool)
    | Erase(t: nat, key: nat)
    | Hide(t: nat)
    | EraseLoop(t: nat, weak: bool)
    | LoadMeta(t: nat)
    | ClockUpdate(t: nat)
    | EraseUnRef(t: nat)
    | InsertBegin(t: nat, key: nat, n: nat)
    | InsertMatch(t: nat)
    | Boost(t: nat)
    | Finish(t: nat, key: nat, n: nat, keep: bool)
    | Free(t: nat)

  /** The thread is where it can take the action. */
  predicate CanAct(th: Thread, a: Action) {
    match a
    case Lookup(_, _) => th.pc.Idle?
    case UndoRefs(_) => th.pc.Undo?
    case Ref(_) => th.pc.Idle? && th.held > 0
    case Release(_, _, _) => th.pc.Idle? && th.held > 0
    case ReleaseLoop(_, _) => th.pc.ReleaseTry?
    case Erase(_, _) => th.pc.Idle?
    case Hide(_) => th.pc.EraseHide?
    case EraseLoop(_, _) => th.pc.EraseTry?
    case LoadMeta(_) => th.pc.Idle?
    case ClockUpdate(_) => th.pc.TakeTry?
    case EraseUnRef(_) => th.pc.TakeTry?
    case InsertBegin(_, _, n) => th.pc.Idle? && n > 0
    case InsertMatch(_) => th.pc.InsertProbe?
    case Boost(_) => th.pc.InsertBoost?
    case Finish(_, _, n, _) => th.pc.Own? && n > 0
    case Free(_) => th.pc.Own?
  }

  predicate Enabled(s: State, a: Action) { a.t < |s.threads| && CanAct(s.threads[a.t], a) }

  function Min(a: int, b: int): int { if a < b then a else b }

  /** The word of an entry with the given key, and the thread, after the action. */
  function Act(m: Meta, entryKey: nat, th: Thread, a: Action): (Meta, Thread)
    requires CanAct(th, a)
  {
    match a
    case Lookup(_, key) =>
      var m' := m.(acquire := m.acquire + 1);
      if !m.Shareable() then (m', th)
      else if m.st.Visible? && entryKey == key then (m', th.(held := th.held + 1))
      else (m', th.(pc := Undo(1)))
    case UndoRefs(_) => (m.(acquire := m.acquire - th.pc.n), th.(pc := Idle))
    case Ref(_) => (m.(acquire := m.acquire + 1), th.(held := th.held + 1))
    case Release(_, useful, eraseIfLast) =>
      var m' := if useful then m.(release := m.release + 1) else m.(acquire := m.acquire - 1);
      (m', Thread(if eraseIfLast || m.st.Invisible? then ReleaseTry(m') else Idle, th.held - 1))
    case ReleaseLoop(_, weak) =>
      var saved := th.pc.saved;
      if saved.Refs() != 0 || !saved.Shareable() then (m, th.(pc := Idle))
      else if m == saved && !weak then (TAKEN, th.(pc := Own))
      else (m, th.(pc := ReleaseTry(m)))
    case Erase(_, key) =>
      var m' := m.(acquire := m.acquire + 1);
      if !m.Shareable() then (m', th)
      else if m.st.Visible? && entryKey == key then (m', th.(pc := EraseHide))
      else (m', th.(pc := Undo(1)))
    case Hide(_) =>
      var m' := if m.st.Visible? then m.(st := Invisible) else m;
      (m', th.(pc := EraseTry(m')))
    case EraseLoop(_, weak) =>
      var saved := th.pc.saved;
      if saved.Refs() > 1 then (m, th.(pc := Undo(1)))
      else if m == saved && !weak then (TAKEN, th.(pc := Own))
      else (m, th.(pc := EraseTry(m)))
    case LoadMeta(_) => (m, th.(pc := TakeTry(m)))
    case ClockUpdate(_) =>
      var saved := th.pc.saved;
      if !saved.Shareable() || saved.acquire != saved.release || m != saved then (m, th.(pc := Idle))
      else if saved.st.Visible? && saved.acquire > 0 then
        var count := Min(saved.acquire - 1, ClockEntries.MAX_COUNTDOWN - 1);
        (Meta(Visible, count, count), th.(pc := Idle))
      else (TAKEN, th.(pc := Own))
    case EraseUnRef(_) =>
      var saved := th.pc.saved;
      if saved.Shareable() && saved.Refs() == 0 && m == saved then (TAKEN, th.(pc := Own))
      else (m, th.(pc := Idle))
    case InsertBegin(_, key, n) =>
      // FetchOr of the occupied bit: changes only an empty slot
      if m.st.Empty? then (m.(st := Construction), th.(pc := Own))
      else if m.st.Visible? then (m, th.(pc := InsertProbe(key, n)))
      else (m, th)
    case InsertMatch(_) =>
      var n := th.pc.n;
      var m' := m.(acquire := m.acquire + n);
      if !m.Shareable() then (m', th.(pc := Idle))
      else if m.st.Visible? && entryKey == th.pc.key then (m', th.(pc := InsertBoost(n)))
      else (m', th.(pc := Undo(n)))
    case Boost(_) => (m.(release := m.release + th.pc.n), th.(pc := Idle))
    case Finish(_, _, n, keep) =>
      (Meta(Visible, n, if keep then n - 1 else n), Thread(Idle, if keep then th.held + 1 else th.held))
    case Free(_) => (Meta(Empty, 0, 0), th.(pc := Idle))
  }

  function Step(s: State, a: Action): State
    requires Enabled(s, a)
  {
    var (m, th) := Act(s.meta, s.key, s.threads[a.t], a);
    State(m, if a.Finish? then a.key else s.key, if a.Finish? then s.entry + 1 else s.entry, s.threads[a.t := th])
  }

  // ---------------------------------------------------------------- invariant

  /** References a thread has taken in a shareable state and not yet given back. */
  function RefsOf(th: Thread): nat {
    th.held + match th.pc
              case Undo(n) => n
              case InsertBoost(n) => n
              case EraseHide => 1
              case EraseTry(_) => 1
              case _ => 0
  }

  function Total(ths: seq<Thread>): nat {
    if ths == [] then 0 else RefsOf(ths[0]) + Total(ths[1..])
  }

  function Owners(ths: seq<Thread>): nat {
    if ths == [] then 0 else (if ths[0].pc.Own? then 1 else 0) + Owners(ths[1..])
  }

  lemma {:induction false} TotalUpdate(ths: seq<Thread>, t: nat, th: Thread)
    requires t < |ths|
    ensures Total(ths[t := th]) == Total(ths) - RefsOf(ths[t]) + RefsOf(th)
    ensures Owners(ths[t := th]) == Owners(ths) - (if ths[t].pc.Own? then 1 else 0) + (if th.pc.Own? then 1 else 0)
    ensures Total(ths) >= RefsOf(ths[t]) && Owners(ths) >= if ths[t].pc.Own? then 1 else 0
  {
    if t == 0 {
      assert ths[t := th][1..] == ths[1..];
    } else {
      assert ths[t := th][1..] == ths[1..][t - 1 := th];
      TotalUpdate(ths[1..], t - 1, th);
    }
  }

  ghost predicate SavedOk(th: Thread) {
    th.pc.EraseTry? ==> th.pc.saved.Shareable() && th.pc.saved.Refs() >= 1
  }

  /** The counters count exactly the outstanding references, there is an owner
      exactly in the construction state, and no one holds a reference otherwise. */
  ghost predicate Inv(s: State) {
    && Balanced(s.meta, Total(s.threads), Owners(s.threads))
    && forall i :: 0 <= i < |s.threads| ==> SavedOk(s.threads[i])
  }

  ghost predicate Init(s: State) {
    && s.meta == Meta(Empty, 0, 0)
    && forall i :: 0 <= i < |s.threads| ==> s.threads[i] == Thread(Idle, 0)
  }

  lemma {:induction false} NoThreads(ths: seq<Thread>)
    requires forall i :: 0 <= i < |ths| ==> ths[i] == Thread(Idle, 0)
    ensures Total(ths) == 0 && Owners(ths) == 0
  {
    if ths != [] {
      NoThreads(ths[1..]);
    }
  }

  /** The counters and the owner, given the totals over all threads. */
  ghost predicate Balanced(m: Meta, refs: int, owners: int) {
    && (if m.Shareable() then m.Refs() == refs else refs == 0)
    && owners == (if m.st.Construction? then 1 else 0)
  }

  function OwnerOf(th: Thread): nat { if th.pc.Own? then 1 else 0 }

  /** An action changes the word and the acting thread in balance. */
  lemma ActBalance(m: Meta, key: nat, th: Thread, a: Action, refs: nat, owners: nat)
    requires CanAct(th, a) && Balanced(m, refs, owners) && SavedOk(th) && refs >= RefsOf(th) && owners >= OwnerOf(th)
    ensures var (m', th') := Act(m, key, th, a);
            && Balanced(m', refs - RefsOf(th) + RefsOf(th'), owners - OwnerOf(th) + OwnerOf(th')) && SavedOk(th')
  {
    match a
    case Lookup(_, _) =>
    case UndoRefs(_) =>
    case Ref(_) =>
    case Release(_, _, _) =>
    case ReleaseLoop(_, _) =>
    case Erase(_, _) =>
    case Hide(_) =>
    case EraseLoop(_, _) =>
    case LoadMeta(_) =>
    case ClockUpdate(_) =>
    case EraseUnRef(_) =>
    case InsertBegin(_, _, _) =>
    case InsertMatch(_) =>
    case Boost(_) =>
    case Finish(_, _, _, _) =>
    case Free(_) =>
  }

  lemma StepInv(s: State, a: Action)
    requires Inv(s) && Enabled(s, a)
    ensures Inv(Step(s, a))
  {
    var th' := Act(s.meta, s.key, s.threads[a.t], a).1;
    TotalUpdate(s.threads, a.t, th');
    ActBalance(s.meta, s.key, s.threads[a.t], a, Total(s.threads), Owners(s.threads));
  }

  // ---------------------------------------------------------------- runs and theorems

  ghost predicate Run(tr: seq<State>, acts: seq<Action>) {
    && |tr| == |acts| + 1 && Init(tr[0])
    && forall i :: 0 <= i < |acts| ==> Enabled(tr[i], acts[i]) && tr[i + 1] == Step(tr[i], acts[i])
  }

  lemma {:induction false} RunInv(tr: seq<State>, acts: seq<Action>, i: nat)
    requires Run(tr, acts) && i < |tr|
    ensures Inv(tr[i]) && |tr[i].threads| == |tr[0].threads|
  {
    if i == 0 {
      NoThreads(tr[0].threads);
    } else {
      RunInv(tr, acts, i - 1);
      StepInv(tr[i - 1], acts[i - 1]);
      StepFrame(tr[i - 1], acts[i - 1]);
    }
  }

  /** What a step leaves alone, and how a slot can become visible. */
  lemma StepFrame(s: State, a: Action)
    requires Enabled(s, a)
    ensures var s' := Step(s, a);
            && |s'.threads| == |s.threads|
            && (forall u :: 0 <= u < |s.threads| && u != a.t ==> s'.threads[u] == s.threads[u])
            && (!a.Finish? ==> s'.key == s.key && s'.entry == s.entry)
            && (s'.meta.st.Visible? && !s.meta.st.Visible? ==> a.Finish?)
            && (a.Finish? ==> s'.entry == s.entry + 1)
  {
  }

  /** In every reachable state the word's reference count is exactly the number of
      references outstanding, and references exist only in the shareable states. */
  lemma RefcountExact(tr: seq<State>, acts: seq<Action>, i: nat)
    requires Run(tr, acts) && i < |tr|
    ensures var s := tr[i];
            if s.meta.Shareable() then s.meta.Refs() == Total(s.threads) else Total(s.threads) == 0
  {
    RunInv(tr, acts, i);
  }

  lemma OwnersAtLeast(ths: seq<Thread>, t: nat, u: nat)
    requires t < u < |ths| && ths[t].pc.Own? && ths[u].pc.Own?
    ensures Owners(ths) >= 2
  {
    var ths' := ths[t := Thread(Idle, 0)];
    TotalUpdate(ths, t, Thread(Idle, 0));
    TotalUpdate(ths', u, Thread(Idle, 0));
  }

  lemma {:induction false} OwnerExists(ths: seq<Thread>) returns (t: nat)
    requires Owners(ths) > 0
    ensures t < |ths| && ths[t].pc.Own?
  {
    if ths[0].pc.Own? {
      t := 0;
    } else {
      t := OwnerExists(ths[1..]);
      t := t + 1;
    }
  }

  ghost predicate Owns(s: State, t: int) { 0 <= t < |s.threads| && s.threads[t].pc.Own? }

  /** A slot under construction has exactly one owner, any other slot none. */
  lemma ExclusiveOwner(tr: seq<State>, acts: seq<Action>, i: nat)
    requires Run(tr, acts) && i < |tr|
    ensures tr[i].meta.st.Construction? <==> exists t :: Owns(tr[i], t)
    ensures forall t, u :: Owns(tr[i], t) && Owns(tr[i], u) ==> t == u
  {
    RunInv(tr, acts, i);
    var ths := tr[i].threads;
    if tr[i].meta.st.Construction? {
      var t := OwnerExists(ths);
      assert Owns(tr[i], t);
    }
    forall t | Owns(tr[i], t) ensures tr[i].meta.st.Construction? { TotalUpdate(ths, t, Thread(Idle, 0)); }
    forall t, u | Owns(tr[i], t) && Owns(tr[i], u) ensures t == u {
      if t != u {
        OwnersAtLeast(ths, if t < u then t else u, if t < u then u else t);
      }
    }
  }

  /** While a thread holds a reference, no step of another thread frees, reuses or
      even takes the slot: the entry, its key and the holder's references stay. */
  lemma PinnedEntryStays(tr: seq<State>, acts: seq<Action>, i: nat, u: nat)
    requires Run(tr, acts) && i < |acts| && u < |tr[i].threads|
    requires RefsOf(tr[i].threads[u]) > 0 && acts[i].t != u
    ensures |tr[i + 1].threads| == |tr[i].threads|
    ensures tr[i].meta.Shareable() && tr[i + 1].meta.Shareable()
    ensures tr[i + 1].entry == tr[i].entry && tr[i + 1].key == tr[i].key
    ensures RefsOf(tr[i + 1].threads[u]) == RefsOf(tr[i].threads[u])
  {
    RunInv(tr, acts, i);
    RunInv(tr, acts, i + 1);
    StepFrame(tr[i], acts[i]);
    var th := tr[i].threads[u];
    TotalUpdate(tr[i].threads, u, th);
    TotalUpdate(tr[i + 1].threads, u, th);
    NotFinished(tr, acts, i);
  }

  lemma NotFinished(tr: seq<State>, acts: seq<Action>, i: nat)
    requires Run(tr, acts) && i < |acts| && tr[i].meta.Shareable()
    ensures !acts[i].Finish?
  {
    RunInv(tr, acts, i);
    if acts[i].Finish? {
      TotalUpdate(tr[i].threads, acts[i].t, Thread(Idle, 0));
    }
  }

  /** A thread with a reference sees a shareable slot. */
  lemma PinnedIsShareable(tr: seq<State>, acts: seq<Action>, i: nat, u: nat)
    requires Run(tr, acts) && i < |tr| && u < |tr[i].threads| && RefsOf(tr[i].threads[u]) > 0
    ensures tr[i].meta.Shareable()
  {
    RunInv(tr, acts, i);
    TotalUpdate(tr[i].threads, u, tr[i].threads[u]);
  }

  /** A step from a shareable slot publishes nothing. */
  lemma ShareableKeepsEntry(tr: seq<State>, acts: seq<Action>, i: nat)
    requires Run(tr, acts) && i < |acts| && tr[i].meta.Shareable()
    ensures tr[i + 1].entry == tr[i].entry && tr[i + 1].key == tr[i].key
  {
    NotFinished(tr, acts, i);
    StepFrame(tr[i], acts[i]);
  }

  /** Over any stretch of a run during which a thread keeps at least one reference,
      it reads one and the same entry, whatever the other threads do. */
  lemma {:induction false} PinnedThroughout(tr: seq<State>, acts: seq<Action>, i: nat, j: nat, u: nat)
    requires Run(tr, acts) && i <= j < |tr|
    requires forall m :: i <= m <= j ==> u < |tr[m].threads| && RefsOf(tr[m].threads[u]) > 0
    ensures tr[j].meta.Shareable() && tr[j].entry == tr[i].entry && tr[j].key == tr[i].key
    decreases j
  {
    PinnedIsShareable(tr, acts, j, u);
    if i < j {
      PinnedThroughout(tr, acts, i, j - 1, u);
      ShareableKeepsEntry(tr, acts, j - 1);
    }
  }

  /** An entry that is not visible (for example, erased while referenced) never
      becomes visible again: a visible slot at a later time holds a newer entry. */
  lemma {:induction false} NeverVisibleAgain(tr: seq<State>, acts: seq<Action>, i: nat, j: nat)
    requires Run(tr, acts) && i <= j < |tr| && !tr[i].meta.st.Visible?
    ensures tr[i].entry <= tr[j].entry
    ensures tr[j].meta.st.Visible? ==> tr[i].entry < tr[j].entry
    decreases j
  {
    if i < j {
      NeverVisibleAgain(tr, acts, i, j - 1);
      StepFrame(tr[j - 1], acts[j - 1]);
    }
  }

  /** The clock never takes a referenced entry, and counts a visible unreferenced
      entry down towards eviction by at least one. */
  lemma ClockSparesReferenced(tr: seq<State>, acts: seq<Action>, i: nat)
    requires Run(tr, acts) && i < |acts| && acts[i].ClockUpdate?
    ensures var s, s' := tr[i], tr[i + 1];
            && (Total(s.threads) > 0 ==> s'.meta == s.meta)
            && (s'.meta != s.meta && s'.meta.Shareable() ==>
                  s'.meta.acquire == s'.meta.release < s.meta.acquire && s'.meta.acquire < ClockEntries.MAX_COUNTDOWN)
  {
    RunInv(tr, acts, i);
  }
}
