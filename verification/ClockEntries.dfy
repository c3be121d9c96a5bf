/** Entries of the clock caches and the effect of one clock update on them. */
module ClockEntries {
  import opened LinearHashing
  import opened Options

  /** An entry in the table or a standalone handle. acquire - release is the
      number of references. */
  datatype Entry = Entry(key: Key, visible: bool, acquire: int, release: int, charge: nat) {
    function Refs(): int { acquire - release }
  }

  function One(b: bool): nat { if b then 1 else 0 }

  /** kMaxCountdown */
  const MAX_COUNTDOWN: nat := 3

  /** What an eviction run has freed, and how many pinned entries it met. */
  datatype EvictionData = EvictionData(freedCharge: int, freedCount: int, pinned: nat)

  /** ClockUpdate on an entry: a referenced one is left alone, a visible one with time
      on its clock is counted down, any other is taken for eviction. */
  function ClockUpdate(e: Entry): (r: Option<Entry>)
    ensures r.Some? ==>
              r.value.key == e.key && r.value.visible == e.visible && r.value.charge == e.charge
                && r.value.Refs() == e.Refs()
    ensures e.Refs() != 0 ==> r == Some(e)
    ensures e.Refs() == 0 && r.Some? ==> r.value.acquire < e.acquire && 0 <= r.value.acquire < MAX_COUNTDOWN
  {
    if e.Refs() != 0 then Some(e)
    else if e.visible && e.acquire > 0 then
      var count := if e.acquire - 1 < MAX_COUNTDOWN - 1 then e.acquire - 1 else MAX_COUNTDOWN - 1;
      Some(e.(acquire := count, release := count))
    else None
  }

  /** The eviction data after a clock update of an entry. */
  function Counted(e: Entry, data: EvictionData): EvictionData {
    if e.Refs() != 0 then data.(pinned := data.pinned + 1)
    else if ClockUpdate(e).None? then
      data.(freedCharge := data.freedCharge + e.charge, freedCount := data.freedCount + 1)
    else data
  }

  /** IsEvictionEffortExceeded */
  predicate EffortExceeded(data: EvictionData, effortCap: nat) {
    Times(data.freedCount + 1, effortCap) <= data.pinned
  }

  lemma EffortExceededIs(data: EvictionData, effortCap: nat)
    requires data.freedCount >= 0
    ensures EffortExceeded(data, effortCap) <==> (data.freedCount + 1) * effortCap <= data.pinned
  {
    TimesIs(data.freedCount + 1, effortCap);
  }

  /** How much ChargeUsageMaybeEvictNonStrict asks to evict. */
  function NonStrictNeed(usage: int, total: nat, capacity: nat, needEvict: bool): nat {
    var need := if usage + total <= capacity || total > usage then 0
                else if usage > capacity then total + (if capacity / 1024 < total then capacity / 1024 else total) + 1
                else total;
    if needEvict && need == 0 then 1 else need
  }

  // ---------------------------------------------------------------- references

  /** FinishSlotInsert: visible, with the initial countdown and perhaps a reference. */
  function NewEntry(key: Key, charge: nat, countdown: nat, keepRef: bool): Entry {
    Entry(key, true, countdown, if keepRef then countdown - 1 else countdown, charge)
  }

  function Referenced(e: Entry): Entry { e.(acquire := e.acquire + 1) }

  function Released(e: Entry, useful: bool): Entry {
    if useful then e.(release := e.release + 1) else e.(acquire := e.acquire - 1)
  }

  // ---------------------------------------------------------------- standalone handles

  /** Total charge of standalone handles. */
  ghost function HandleCharges(h: map<nat, Entry>): nat
    decreases |h|
  {
    if h == map[] then 0
    else var id :| id in h; h[id].charge + HandleCharges(h - {id})
  }

  lemma {:induction false} HandleRemove(h: map<nat, Entry>, id: nat)
    requires id in h
    ensures HandleCharges(h) == h[id].charge + HandleCharges(h - {id})
    decreases |h|
  {
    var x :| x in h && HandleCharges(h) == h[x].charge + HandleCharges(h - {x});
    if x != id {
      HandleRemove(h - {x}, id);
      HandleRemove(h - {id}, x);
      assert (h - {x}) - {id} == (h - {id}) - {x};
    }
  }

  lemma HandlePut(h: map<nat, Entry>, id: nat, e: Entry)
    ensures HandleCharges(h[id := e]) == HandleCharges(h) + e.charge - if id in h then h[id].charge else 0
  {
    HandleRemove(h[id := e], id);
    assert h[id := e] - {id} == h - {id};
    if id in h {
      HandleRemove(h, id);
    } else {
      assert h - {id} == h;
    }
  }
}
