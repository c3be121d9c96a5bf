/** The thread-local SuperVersion cache of a column family: readers swap the
    cached pointer out and compare-and-swap it back, while an installer, under
    the DB mutex, replaces the current SuperVersion, scrapes every thread-local
    slot and drops the references it finds. Each action is one atomic access. */
module SuperVersions {

  /** SuperVersions are named by numbers that are never reused. */
  type Sv = nat

  /** A thread-local slot: kSVObsolete, kSVInUse or a cached pointer. */
  datatype Slot = Obsolete | InUse | Cached(sv: Sv)

  /** What a reading thread is about to do. */
  datatype Pc =
    | Idle
    | NeedRef             // found kSVObsolete: about to take a reference under the mutex
    | Holding(sv: Sv)     // GetThreadLocalSuperVersion returned
    | Stale(sv: Sv)       // ReturnThreadLocalSuperVersion failed: about to Unref
    | Referenced(sv: Sv)  // GetReferencedSuperVersion took its own reference
    | ExtraRef(sv: Sv)    // ... and could not put the pointer back: about to Unref

  /** A thread, its slot, and the SuperVersions its callers keep referenced. */
  datatype Thread = Thread(slot: Slot, pc: Pc, pinned: multiset<Sv>)

  /** The installer: scraping slot number `next`, dropping the scraped pointers, or
      about to drop the replaced SuperVersion. It holds the mutex unless Resting. */
  datatype Installer =
    | Resting
    | Scraping(prior: Sv, next: nat, got: seq<Sv>)
    | Dropping(prior: Sv, got: seq<Sv>)

  /** refs: the reference count of every SuperVersion ever installed. `freed` lists
      those for which an Unref returned true. */
  datatype State = State(current: Sv, refs: map<Sv, int>, freed: set<Sv>, threads: seq<Thread>, installer: Installer) {
    function Refs(sv: Sv): int { if sv in refs then refs[sv] else 0 }
    function Ref(sv: Sv): State { this.(refs := refs[sv := Refs(sv) + 1]) }
    /** fetch_sub; true is returned when the previous count was 1 */
    function Unref(sv: Sv): State {
      this.(refs := refs[sv := Refs(sv) - 1], freed := if Refs(sv) == 1 then freed + {sv} else freed)
    }
    function Put(t: nat, th: Thread): State
      requires t < |threads|
    {
      this.(threads := threads[t := th])
    }
  }

  datatype Action =
    | Swap(t: nat)              // GetThreadLocalSuperVersion: exchange with kSVInUse
    | LockedRef(t: nat)         // ... and super_version_->Ref() under the mutex
    | Return(t: nat)            // ReturnThreadLocalSuperVersion: CAS kSVInUse back to the pointer
    | DropStale(t: nat)         // CleanupSuperVersion after a failed return
    | TakeRef(t: nat)           // GetReferencedSuperVersion: Ref()
    | DropExtra(t: nat)         // GetReferencedSuperVersion: Unref() after a failed return
    | Unpin(t: nat, sv: Sv)     // CleanupSuperVersion of a pinned SuperVersion
    | Exit(t: nat)              // thread exit: SuperVersionUnrefHandle on the slot
    | Install(sv: Sv)           // lock the mutex, initialise sv with one reference, publish it
    | Scrape                    // exchange one slot with kSVObsolete
    | DropScraped               // Unref one scraped pointer
    | DropOld                   // Unref the replaced SuperVersion, unlock the mutex

  predicate Enabled(s: State, a: Action) {
    match a
    case Swap(t) => t < |s.threads| && s.threads[t].pc.Idle?
    case LockedRef(t) => t < |s.threads| && s.threads[t].pc.NeedRef? && s.installer.Resting?
    case Return(t) => t < |s.threads| && (s.threads[t].pc.Holding? || s.threads[t].pc.Referenced?)
    case DropStale(t) => t < |s.threads| && s.threads[t].pc.Stale?
    case TakeRef(t) => t < |s.threads| && s.threads[t].pc.Holding?
    case DropExtra(t) => t < |s.threads| && s.threads[t].pc.ExtraRef?
    case Unpin(t, sv) => t < |s.threads| && s.threads[t].pc.Idle? && sv in s.threads[t].pinned
    case Exit(t) => t < |s.threads| && s.threads[t].pc.Idle? && !s.installer.Scraping?
    case Install(sv) => s.installer.Resting? && sv !in s.refs
    case Scrape => s.installer.Scraping?
    case DropScraped => s.installer.Dropping? && s.installer.got != []
    case DropOld => s.installer.Dropping? && s.installer.got == []
  }

  function Step(s: State, a: Action): State
    requires Enabled(s, a)
  {
    match a
    case Swap(t) =>
      var th := s.threads[t];
      s.Put(t, th.(slot := InUse, pc := if th.slot.Cached? then Holding(th.slot.sv) else NeedRef))
    case LockedRef(t) => s.Ref(s.current).Put(t, s.threads[t].(pc := Holding(s.current)))
    case Return(t) =>
      var th := s.threads[t];
      var sv := th.pc.sv;
      if th.slot.InUse? then
        s.Put(t, Thread(Cached(sv), Idle, if th.pc.Referenced? then th.pinned + multiset{sv} else th.pinned))
      else s.Put(t, th.(pc := if th.pc.Referenced? then ExtraRef(sv) else Stale(sv)))
    case DropStale(t) => s.Unref(s.threads[t].pc.sv).Put(t, s.threads[t].(pc := Idle))
    case TakeRef(t) => s.Ref(s.threads[t].pc.sv).Put(t, s.threads[t].(pc := Referenced(s.threads[t].pc.sv)))
    case DropExtra(t) =>
      var th := s.threads[t];
      s.Unref(th.pc.sv).Put(t, th.(pc := Idle, pinned := th.pinned + multiset{th.pc.sv}))
    case Unpin(t, sv) => s.Unref(sv).Put(t, s.threads[t].(pinned := s.threads[t].pinned - multiset{sv}))
    case Exit(t) =>
      var th := s.threads[t];
      if th.slot.Cached? then s.Unref(th.slot.sv).Put(t, th.(slot := Obsolete)) else s
    case Install(sv) =>
      s.(refs := s.refs[sv := 1], current := sv, installer := Scraping(s.current, 0, []))
    case Scrape =>
      var Scraping(prior, i, got) := s.installer;
      if i >= |s.threads| then s.(installer := Dropping(prior, got))
      else
        var th := s.threads[i];
        s.(threads := s.threads[i := th.(slot := Obsolete)],
           installer := Scraping(prior, i + 1, if th.slot.Cached? then got + [th.slot.sv] else got))
    case DropScraped =>
      var Dropping(prior, got) := s.installer;
      s.Unref(got[0]).(installer := Dropping(prior, got[1..]))
    case DropOld => s.Unref(s.installer.prior).(installer := Resting)
  }

  // ---------------------------------------------------------------- invariant

  function One(b: bool): nat { if b then 1 else 0 }

  /** References to sv that a thread accounts for. */
  function HeldBy(th: Thread, sv: Sv): nat {
    One(th.slot == Cached(sv)) + th.pinned[sv] +
    match th.pc
    case Holding(x) => One(x == sv)
    case Stale(x) => One(x == sv)
    case Referenced(x) => 2 * One(x == sv)
    case ExtraRef(x) => 2 * One(x == sv)
    case _ => 0
  }

  function HeldByAll(ths: seq<Thread>, sv: Sv): nat {
    if ths == [] then 0 else HeldBy(ths[0], sv) + HeldByAll(ths[1..], sv)
  }

  function Count(got: seq<Sv>, sv: Sv): nat {
    if got == [] then 0 else One(got[0] == sv) + Count(got[1..], sv)
  }

  function HeldByInstaller(i: Installer, sv: Sv): nat {
    match i
    case Resting => 0
    case Scraping(prior, _, got) => One(prior == sv) + Count(got, sv)
    case Dropping(prior, got) => One(prior == sv) + Count(got, sv)
  }

  /** All holders of sv: the current pointer, the installer, slots and readers. */
  function Holders(s: State, sv: Sv): nat {
    One(s.current == sv) + HeldByInstaller(s.installer, sv) + HeldByAll(s.threads, sv)
  }

  /** The SuperVersion that thread t's slot may hold: the current one, or, until
      the scrape reaches t, the one being replaced. */
  ghost predicate Fresh(s: State, t: nat, sv: Sv) {
    match s.installer
    case Resting => sv == s.current
    case Scraping(prior, next, _) => next <= t && sv == prior
    case Dropping(_, _) => false
  }

  ghost predicate ThreadOk(s: State, t: nat)
    requires t < |s.threads|
  {
    var th := s.threads[t];
    && (th.slot.InUse? ==> th.pc.NeedRef? || th.pc.Holding? || th.pc.Referenced?)
    && (th.slot.Cached? ==> !th.pc.NeedRef? && !th.pc.Holding? && !th.pc.Referenced? && Fresh(s, t, th.slot.sv))
    && (th.slot.InUse? && !th.pc.NeedRef? ==> Fresh(s, t, th.pc.sv))
  }

  ghost predicate InstallerOk(s: State) {
    match s.installer
    case Resting => true
    case Scraping(prior, next, got) => next <= |s.threads| && prior != s.current
      && forall i :: 0 <= i < |got| ==> got[i] == prior
    case Dropping(prior, got) => prior != s.current && forall i :: 0 <= i < |got| ==> got[i] == prior
  }

  ghost predicate CountOk(s: State, sv: Sv) {
    s.Refs(sv) == Holders(s, sv) && (sv in s.freed ==> sv in s.refs && Holders(s, sv) == 0)
      && (sv !in s.refs ==> Holders(s, sv) == 0)
  }

  ghost predicate Inv(s: State) {
    && InstallerOk(s)
    && (forall t :: 0 <= t < |s.threads| ==> ThreadOk(s, t))
    && forall sv: Sv :: CountOk(s, sv)
  }

  ghost predicate Init(s: State) {
    && s.refs == map[s.current := 1] && s.freed == {} && s.installer.Resting?
    && forall t :: 0 <= t < |s.threads| ==> s.threads[t] == Thread(Obsolete, Idle, multiset{})
  }

  // ---------------------------------------------------------------- preservation

  lemma {:induction false} HeldUpdate(ths: seq<Thread>, t: nat, th: Thread, sv: Sv)
    requires t < |ths|
    ensures HeldByAll(ths[t := th], sv) == HeldByAll(ths, sv) - HeldBy(ths[t], sv) + HeldBy(th, sv)
    ensures HeldByAll(ths, sv) >= HeldBy(ths[t], sv)
  {
    if t == 0 {
      assert ths[t := th][1..] == ths[1..];
    } else {
      assert ths[t := th][1..] == ths[1..][t - 1 := th];
      HeldUpdate(ths[1..], t - 1, th, sv);
    }
  }

  lemma {:induction false} CountAppend(got: seq<Sv>, x: Sv, sv: Sv)
    ensures Count(got + [x], sv) == Count(got, sv) + One(x == sv)
  {
    if got != [] {
      assert (got + [x])[1..] == got[1..] + [x];
      CountAppend(got[1..], x, sv);
    } else {
      assert got + [x] == [x];
    }
  }

  /** The index of the thread an action works on. */
  function Actor(s: State, a: Action): int {
    match a
    case Install(_) => -1
    case Scrape => if s.installer.Scraping? && s.installer.next < |s.threads| then s.installer.next else -1
    case DropScraped => -1
    case DropOld => -1
    case _ => a.t
  }

  /** A thread's step changes the count of sv by exactly what the thread holds more or less. */
  lemma ThreadStep(s: State, a: Action, sv: Sv)
    requires Enabled(s, a) && !a.Scrape? && Actor(s, a) >= 0 && ThreadOk(s, a.t)
    ensures var s' := Step(s, a);
            && s'.threads == s.threads[a.t := s'.threads[a.t]]
            && s'.current == s.current && s'.installer == s.installer
            && s'.Refs(sv) - s.Refs(sv) == HeldBy(s'.threads[a.t], sv) - HeldBy(s.threads[a.t], sv)
            && (HeldBy(s'.threads[a.t], sv) > HeldBy(s.threads[a.t], sv) ==>
               HeldBy(s.threads[a.t], sv) > 0 || sv == s.current)
            && (sv in s'.freed ==> sv in s.freed || (sv in s'.refs && s'.Refs(sv) == 0))
            && (sv in s.refs ==> sv in s'.refs)
  {
    match a
    case Swap(_) =>
    case LockedRef(_) =>
    case Return(_) =>
    case DropStale(_) =>
    case TakeRef(_) =>
    case DropExtra(_) =>
    case Unpin(_, _) =>
    case Exit(_) =>
  }

  lemma CountAfterThread(s: State, a: Action, sv: Sv)
    requires Enabled(s, a) && !a.Scrape? && Actor(s, a) >= 0 && ThreadOk(s, a.t) && CountOk(s, sv)
    ensures CountOk(Step(s, a), sv)
  {
    ThreadStep(s, a, sv);
    HeldUpdate(s.threads, a.t, Step(s, a).threads[a.t], sv);
  }

  lemma CountAfterScrape(s: State, sv: Sv)
    requires Enabled(s, Scrape) && InstallerOk(s) && CountOk(s, sv)
    ensures CountOk(Step(s, Scrape), sv)
  {
    if s.installer.next < |s.threads| {
      var t := s.installer.next;
      HeldUpdate(s.threads, t, s.threads[t].(slot := Obsolete), sv);
      if s.threads[t].slot.Cached? {
        CountAppend(s.installer.got, s.threads[t].slot.sv, sv);
      }
    }
  }

  lemma CountAfterInstaller(s: State, a: Action, sv: Sv)
    requires Enabled(s, a) && (a.Scrape? || Actor(s, a) < 0) && InstallerOk(s) && CountOk(s, sv)
    ensures CountOk(Step(s, a), sv)
  {
    match a
    case Install(_) =>
    case Scrape => CountAfterScrape(s, sv);
    case DropScraped =>
    case DropOld =>
  }

  lemma ThreadsAfterThread(s: State, a: Action, u: nat)
    requires Enabled(s, a) && !a.Scrape? && Actor(s, a) >= 0 && u < |s.threads| && ThreadOk(s, a.t) && ThreadOk(s, u)
    ensures ThreadOk(Step(s, a), u)
  {
  }

  lemma ThreadsAfterInstaller(s: State, a: Action, u: nat)
    requires Enabled(s, a) && (a.Scrape? || Actor(s, a) < 0) && u < |s.threads| && ThreadOk(s, u)
    requires s.installer.Scraping? ==> s.installer.next <= |s.threads|
    ensures u < |Step(s, a).threads| && ThreadOk(Step(s, a), u)
  {
  }

  lemma InstallerStep(s: State, a: Action)
    requires Inv(s) && Enabled(s, a)
    ensures InstallerOk(Step(s, a)) && |Step(s, a).threads| == |s.threads|
  {
    if a.Scrape? && s.installer.next < |s.threads| {
      assert ThreadOk(s, s.installer.next);
    } else if a.Install? {
      assert CountOk(s, a.sv) && CountOk(s, s.current);
    }
  }

  lemma StepInv(s: State, a: Action)
    requires Inv(s) && Enabled(s, a)
    ensures Inv(Step(s, a))
  {
    InstallerStep(s, a);
    if a.Scrape? || Actor(s, a) < 0 {
      forall sv: Sv ensures CountOk(Step(s, a), sv) { CountAfterInstaller(s, a, sv); }
      forall u | 0 <= u < |s.threads| ensures ThreadOk(Step(s, a), u) { ThreadsAfterInstaller(s, a, u); }
    } else {
      forall sv: Sv ensures CountOk(Step(s, a), sv) { CountAfterThread(s, a, sv); }
      forall u | 0 <= u < |s.threads| ensures ThreadOk(Step(s, a), u) { ThreadsAfterThread(s, a, u); }
    }
  }

  // ---------------------------------------------------------------- runs and theorems

  ghost predicate Run(tr: seq<State>, acts: seq<Action>) {
    && |tr| == |acts| + 1 && Init(tr[0])
    && forall i :: 0 <= i < |acts| ==> Enabled(tr[i], acts[i]) && tr[i + 1] == Step(tr[i], acts[i])
  }

  lemma {:induction false} NoneHeld(ths: seq<Thread>, sv: Sv)
    requires forall t :: 0 <= t < |ths| ==> ths[t] == Thread(Obsolete, Idle, multiset{})
    ensures HeldByAll(ths, sv) == 0
  {
    if ths != [] {
      NoneHeld(ths[1..], sv);
    }
  }

  lemma {:induction false} RunInv(tr: seq<State>, acts: seq<Action>, i: nat)
    requires Run(tr, acts) && i < |tr|
    ensures Inv(tr[i])
  {
    if i == 0 {
      forall sv: Sv ensures CountOk(tr[0], sv) { NoneHeld(tr[0].threads, sv); }
    } else {
      RunInv(tr, acts, i - 1);
      StepInv(tr[i - 1], acts[i - 1]);
    }
  }

  /** In every interleaving the reference count of every SuperVersion equals the
      number of its holders, and it is freed only when it has none. */
  lemma RefcountExact(tr: seq<State>, acts: seq<Action>, i: nat, sv: Sv)
    requires Run(tr, acts) && i < |tr|
    ensures tr[i].Refs(sv) == Holders(tr[i], sv)
    ensures sv in tr[i].freed ==> Holders(tr[i], sv) == 0
  {
    RunInv(tr, acts, i);
    assert CountOk(tr[i], sv);
  }

  /** Nothing a thread can use is freed: what it holds, what its slot caches, and
      what its callers keep referenced all have a positive count. */
  lemma HeldIsAlive(tr: seq<State>, acts: seq<Action>, i: nat, t: nat, sv: Sv)
    requires Run(tr, acts) && i < |tr| && t < |tr[i].threads| && HeldBy(tr[i].threads[t], sv) > 0
    ensures tr[i].Refs(sv) > 0 && sv !in tr[i].freed
  {
    RunInv(tr, acts, i);
    assert CountOk(tr[i], sv);
    HeldUpdate(tr[i].threads, t, tr[i].threads[t], sv);
  }

  /** The cache never holds the last reference: dropping a scraped pointer, a
      pointer in the slot of an exiting thread, or the pointer that
      GetReferencedSuperVersion could not put back never brings a count to zero. */
  lemma CacheNeverHoldsLastRef(tr: seq<State>, acts: seq<Action>, i: nat)
    requires Run(tr, acts) && i < |acts| && (acts[i].DropScraped? || acts[i].Exit? || acts[i].DropExtra?)
    ensures tr[i + 1].freed == tr[i].freed
  {
    var s, a := tr[i], acts[i];
    RunInv(tr, acts, i);
    if a.DropScraped? {
      assert CountOk(s, s.installer.got[0]);
    } else if a.Exit? {
      var th := s.threads[a.t];
      if th.slot.Cached? {
        assert CountOk(s, th.slot.sv) && ThreadOk(s, a.t);
        HeldUpdate(s.threads, a.t, th, th.slot.sv);
      }
    } else {
      var th := s.threads[a.t];
      assert CountOk(s, th.pc.sv);
      HeldUpdate(s.threads, a.t, th, th.pc.sv);
    }
  }

  /** When no install is in progress, every cached pointer, and every pointer that
      can still be put back, is the current SuperVersion. */
  lemma CacheIsCurrent(tr: seq<State>, acts: seq<Action>, i: nat, t: nat)
    requires Run(tr, acts) && i < |tr| && t < |tr[i].threads| && tr[i].installer.Resting?
    ensures var th := tr[i].threads[t];
            && (th.slot.Cached? ==> th.slot.sv == tr[i].current)
            && (th.slot.InUse? && (th.pc.Holding? || th.pc.Referenced?) ==> th.pc.sv == tr[i].current)
  {
    RunInv(tr, acts, i);
    assert ThreadOk(tr[i], t);
  }

  /** Once the scrape has passed over all slots, and from then on until the install
      ends, no slot caches any pointer; in particular none caches the replaced one. */
  lemma ScrapeLeavesNothing(tr: seq<State>, acts: seq<Action>, i: nat, t: nat)
    requires Run(tr, acts) && i < |tr| && t < |tr[i].threads| && tr[i].installer.Dropping?
    ensures !tr[i].threads[t].slot.Cached?
    ensures tr[i].threads[t].slot.InUse? ==> tr[i].threads[t].pc.NeedRef?
  {
    RunInv(tr, acts, i);
    assert ThreadOk(tr[i], t);
  }

  /** The assertions in the source hold: a reader never finds its own in-use mark,
      and a failed return finds kSVObsolete. */
  lemma SourceAssertions(tr: seq<State>, acts: seq<Action>, i: nat)
    requires Run(tr, acts) && i < |acts|
    ensures acts[i].Swap? ==> !tr[i].threads[acts[i].t].slot.InUse?
    ensures acts[i].Return? && !tr[i].threads[acts[i].t].slot.InUse? ==> tr[i].threads[acts[i].t].slot.Obsolete?
  {
    RunInv(tr, acts, i);
    if acts[i].Swap? || acts[i].Return? {
      assert ThreadOk(tr[i], acts[i].t);
    }
  }
}
