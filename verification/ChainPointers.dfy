/** Pointers and entry states shared by the models of AutoHyperClockTable chains. */
module ChainPointers {

  /** A decoded "with_shift" pointer. End pointers name the head they belong to
      and can never be locked; Unused is a head outside the usable table. */
  datatype Ptr = Unused | End(home: nat, shift: nat) | Link(slot: nat, shift: nat, locked: bool)

  function Unlocked(p: Ptr): Ptr { if p.Link? then p.(locked := false) else p }

  function ShiftOf(p: Ptr): nat { if p.Unused? then 0 else p.shift }

  /** The state marker of a slot that is on a chain. */
  datatype Mark = Visible | Invisible | Construction

  predicate IsLocked(p: Ptr) { p.Link? && p.locked }

  const NONE: int := -1  // SIZE_MAX, or a null entry pointer

  /** The entries of a log of insertions are distinct. */
  ghost predicate NoDup(log: seq<nat>) {
    forall i, j :: 0 <= i < j < |log| ==> log[i] != log[j]
  }

  /** The chain pointer of a slot. */
  function NextIn(next: map<nat, Ptr>, x: nat): Ptr { if x in next then next[x] else Unused }

  /** Following links from p visits exactly the slots w and stops at the end marker e. */
  ghost predicate Walk(next: map<nat, Ptr>, p: Ptr, w: seq<nat>, e: Ptr)
    decreases |w|
  {
    if w == [] then p == e && e.End?
    else p.Link? && p.slot == w[0] && Walk(next, NextIn(next, w[0]), w[1..], e)
  }

  /** Such a walk on which every pointer, the end marker included, carries the given shift. */
  ghost predicate WalkAt(next: map<nat, Ptr>, p: Ptr, w: seq<nat>, e: Ptr, shift: nat)
    decreases |w|
  {
    && ShiftOf(p) == shift
    && if w == [] then p == e && e.End?
       else p == Link(w[0], shift, false) && WalkAt(next, NextIn(next, w[0]), w[1..], e, shift)
  }
}
