/** ChainRewriteLock: the lock bit in the head word of an AutoHyperClockTable
    chain, taken and released by any number of threads while others insert at
    the head. Each step is one atomic access to the head word. */
module ChainLock {

  /** A "with_shift" head word, field by field: the next index, the shift count
      and the two flag bits. An end pointer carries both flags (kNextEndFlags). */
  datatype Word = Word(next: nat, shift: nat, end: bool, locked: bool) {
    predicate WellFormed() { end ==> locked }
    /** (word & kNextEndFlags) == kHeadLocked */
    predicate OnlyLocked() { locked && !end }
  }

  /** A lock object: still in the Acquire loop, or constructed with a saved head. */
  datatype Lock = Waiting | Held(saved: Word)

  /** One chain head, the lock objects on it by thread, and the head words that
      inserting threads have loaded. */
  datatype State = State(head: Word, locks: map<nat, Lock>, loaded: map<nat, Word>) {
    /** The thread considers itself holder of a non-empty chain. */
    predicate Holds(t: nat) { t in locks && locks[t].Held? && !locks[t].saved.end }
  }

  datatype Action =
    | Begin(t: nat)
    | TryAcquire(t: nat)
    | CasUpdate(t: nat, next: Word)
    | Release(t: nat)
    | InsertLoad(t: nat)
    | InsertCas(t: nat, slot: nat, weak: bool)

  predicate Enabled(s: State, a: Action) {
    match a
    case Begin(t) => t !in s.locks
    case TryAcquire(t) => t in s.locks && s.locks[t].Waiting?
    case CasUpdate(t, next) => t in s.locks && s.locks[t].Held? && next.WellFormed()
    case Release(t) => t in s.locks && s.locks[t].Held?
    case InsertLoad(t) => true
    case InsertCas(t, slot, weak) => t in s.loaded
  }

  function Step(s: State, a: Action): State
    requires Enabled(s, a)
  {
    match a
    case Begin(t) => s.(locks := s.locks[t := Waiting])
    case TryAcquire(t) =>
      // FetchOr(kHeadLocked)
      var s' := s.(head := s.head.(locked := true));
      if s.head.OnlyLocked() then s' else s'.(locks := s.locks[t := Held(s.head.(locked := true))])
    case CasUpdate(t, next) =>
      var saved, newHead := s.locks[t].saved, next.(locked := true);
      if s.head == saved then s.(head := newHead, locks := s.locks[t := Held(newHead)])
      else if saved.end && !s.head.end then s.(locks := s.locks[t := Waiting])
      else s.(locks := s.locks[t := Held(s.head)])
    case Release(t) =>
      // FetchAnd(~kHeadLocked), unless the saved head is an end
      var s' := s.(locks := s.locks - {t});
      if s.locks[t].saved.end then s' else s'.(head := s.head.(locked := false))
    case InsertLoad(t) => s.(loaded := s.loaded[t := s.head])
    case InsertCas(t, slot, weak) =>
      var w := s.loaded[t];
      if s.head == w && !weak then
        s.(head := Word(slot, w.shift, false, w.OnlyLocked()), loaded := s.loaded - {t})
      else s.(loaded := s.loaded - {t})
  }

  /** The head of a published chain, or of a chain whose creator adopted the lock. */
  ghost predicate Init(s: State) {
    && s.head.WellFormed() && s.loaded == map[]
    && ((s.locks == map[] && !s.head.OnlyLocked())
        || (exists t: nat :: s.locks == map[t := Held(s.head)] && s.head.locked))
  }

  /** A non-empty chain is locked exactly when some thread holds it, and at most one does. */
  ghost predicate Inv(s: State) {
    && s.head.WellFormed()
    && (forall t :: t in s.locks && s.locks[t].Held? ==> s.locks[t].saved.locked)
    && (forall t, u :: s.Holds(t) && s.Holds(u) ==> t == u)
    && (s.head.OnlyLocked() <==> exists t :: s.Holds(t))
  }

  lemma InitInv(s: State)
    requires Init(s)
    ensures Inv(s)
  {
    if exists t: nat :: s.locks == map[t := Held(s.head)] && s.head.locked {
      var t: nat :| s.locks == map[t := Held(s.head)] && s.head.locked;
      assert s.Holds(t) <==> s.head.OnlyLocked();
      assert forall u :: s.Holds(u) ==> u == t;
    }
  }

  /** How a step changes the set of holders. */
  lemma HoldersAfter(s: State, a: Action, u: nat)
    requires Inv(s) && Enabled(s, a)
    ensures var s' := Step(s, a);
            match a
            case TryAcquire(t) => s'.Holds(u) <==> s.Holds(u) || (u == t && !s.head.locked)
            case CasUpdate(t, next) =>
              s'.Holds(u) <==> if u == t then (if s.head == s.locks[t].saved then !next.end else s.Holds(t))
                else s.Holds(u)
            case Release(t) => s'.Holds(u) <==> s.Holds(u) && u != t
            case _ => s'.Holds(u) <==> s.Holds(u)
  {
  }

  lemma StepInv(s: State, a: Action)
    requires Inv(s) && Enabled(s, a)
    ensures Inv(Step(s, a))
  {
    var s' := Step(s, a);
    assert forall u :: s.Holds(u) ==> s.head.OnlyLocked();
    assert a.CasUpdate? || a.Release? ==> (s.Holds(a.t) <==> !s.locks[a.t].saved.end);
    forall u, v | s'.Holds(u) && s'.Holds(v)
      ensures u == v
    {
      HoldersAfter(s, a, u);
      HoldersAfter(s, a, v);
    }
    forall u | s'.Holds(u)
      ensures s'.head.OnlyLocked()
    {
      HoldersAfter(s, a, u);
    }
    if s'.head.OnlyLocked() {
      if s.head.OnlyLocked() {
        var t :| s.Holds(t);
        HoldersAfter(s, a, t);
      } else if a.TryAcquire? || a.CasUpdate? {
        HoldersAfter(s, a, a.t);
      }
    }
  }

  ghost predicate Run(tr: seq<State>, acts: seq<Action>) {
    && |tr| == |acts| + 1 && Init(tr[0])
    && forall i :: 0 <= i < |acts| ==> Enabled(tr[i], acts[i]) && tr[i + 1] == Step(tr[i], acts[i])
  }

  lemma {:induction false} RunInv(tr: seq<State>, acts: seq<Action>, i: nat)
    requires Run(tr, acts) && i < |tr|
    ensures Inv(tr[i])
  {
    if i == 0 {
      InitInv(tr[0]);
    } else {
      RunInv(tr, acts, i - 1);
      StepInv(tr[i - 1], acts[i - 1]);
    }
  }

  /** At most one thread at a time considers itself holder of the non-empty chain,
      and the lock bit of a non-empty chain is never set without a holder. */
  lemma MutualExclusion(tr: seq<State>, acts: seq<Action>, i: nat)
    requires Run(tr, acts) && i < |tr|
    ensures forall t, u :: tr[i].Holds(t) && tr[i].Holds(u) ==> t == u
    ensures tr[i].head.OnlyLocked() <==> exists t :: tr[i].Holds(t)
  {
    RunInv(tr, acts, i);
  }

  /** The assertions in the source never fail: a releasing holder finds the head
      non-empty and locked, and a failed CasUpdate of a holder finds its lock preserved. */
  lemma HolderFindsItsLock(tr: seq<State>, acts: seq<Action>, i: nat, t: nat)
    requires Run(tr, acts) && i < |tr| && tr[i].Holds(t)
    ensures tr[i].head.OnlyLocked()
  {
    RunInv(tr, acts, i);
  }

  /** While a thread holds the chain, no step of any other thread changes the head
      word, except an insertion, which puts its own slot in front, keeps the shift
      and keeps the lock bit. */
  lemma OnlyInsertsMoveLockedHead(tr: seq<State>, acts: seq<Action>, i: nat, t: nat)
    requires Run(tr, acts) && i < |acts| && tr[i].Holds(t)
    requires acts[i].InsertCas? || acts[i].InsertLoad? || acts[i].t != t
    ensures var w, w' := tr[i].head, tr[i + 1].head;
            w' == w || (acts[i].InsertCas? && w' == Word(acts[i].slot, w.shift, false, true))
    ensures tr[i + 1].Holds(t)
  {
    RunInv(tr, acts, i);
    HoldersAfter(tr[i], acts[i], t);
    if acts[i].CasUpdate? || acts[i].Release? {
      assert !tr[i].Holds(acts[i].t);
    }
  }

  /** An insertion preserves the lock state of a non-empty chain and leaves a
      formerly empty chain unlocked. */
  lemma InsertPreservesLock(s: State, t: nat, slot: nat)
    requires Inv(s) && t in s.loaded && s.loaded[t] == s.head
    ensures var s' := Step(s, InsertCas(t, slot, false));
            && !s'.head.end && s'.head.next == slot
            && (s'.head.locked <==> s.head.OnlyLocked())
            && (s.head.end ==> forall u :: !s'.Holds(u))
  {
    forall u { HoldersAfter(s, InsertCas(t, slot, false), u); }
  }
}
