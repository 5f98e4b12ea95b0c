// The memory the kernel starts with.
module BootMemory {
  import opened Words
  import opened Ledgers
  import opened PageTables
  import opened Spaces
  import opened Swap

  const NOTHING := Ledger(map[], map[], [], [], 0, 0, 0, 0)

  /** Page `p` lies between the end of the kernel's own memory, 2 MB beyond the kernel, and `end`. */
  predicate Allocatable(kernelEnd: nat, end: nat, p: int) {
    kernelEnd + 0x20_0000 <= 4096 * p && 4096 * p + 4096 <= end
  }

  /** The managed pages are those of all memory up to 256 MB. */
  ghost predicate AllManaged(kernelEnd: nat, managed: set<nat>) {
    forall p: nat :: p in managed <==> Allocatable(kernelEnd, 0x1000_0000, p)
  }

  lemma FirstPage(kernelEnd: nat)
    requires kernelEnd <= 0x80_0000
    ensures var lo := (kernelEnd + 0x20_0000 + 4095) / 4096;
      lo <= 2560 && RoundUp(P2V(kernelEnd + 0x20_0000)) == P2V(4096 * lo)
  {
    assert P2V(kernelEnd + 0x20_0000) + 4095 == 0x8_0000 * 4096 + (kernelEnd + 0x20_0000 + 4095);
  }

  lemma {:induction false} NoneTotal(sets: seq<set<nat>>)
    requires forall t :: 0 <= t < |sets| ==> sets[t] == {}
    ensures Total(sets) == 0
  {
    if sets != [] {
      NoneTotal(sets[..|sets| - 1]);
    }
  }

  /** With nothing allocated there are no page tables. */
  lemma NoTables(tables: seq<Table>, live: seq<set<nat>>, l: Ledger, lo: int, hi: int)
    requires |tables| == |live| == 11 && (forall t :: 0 <= t < 11 ==> live[t] == {}) && Extended(NOTHING, l, lo, hi)
    ensures TablesOwned(tables, live, l)
  {
    NoneTotal(live);
  }

  /** With no page taken there is nothing to own. */
  lemma NoPages(own: seq<Pages>, l: Ledger)
    requires |own| == 10 && (forall t :: 0 <= t < 10 ==> own[t] == map[]) && l.usedPages == 0
    requires forall p <- l.page :: !l.page[p].UsedPage?
    ensures PagesOwned(own, l)
  {
    NoneTotal(KeySets(own));
  }

  /** More free pages change neither the tables nor what they say. */
  lemma MorePages(tables: seq<Table>, live: seq<set<nat>>, l: Ledger, ram: Ram, l': Ledger, ram': Ram, lo: nat, hi: nat,
                  t: nat)
    requires TablesOwned(tables, live, l) && l.Shaped() && Extended(l, l', lo, hi) && lo <= hi && t < 11
      && Held(tables, live, t)
    requires forall p :: 0 <= p < 0x1_0000 && p in l.page ==> ram'[p] == ram[p]
    ensures TablesOwned(tables, live, l') && SameView(ram, tables[t], ram', tables[t])
  {
    forall s, j | 0 <= s < 4096 && 0 <= j < 256
      ensures Lookup(ram', tables[t], s, j) == Lookup(ram, tables[t], s, j)
    {
      assert s in live[t] ==> tables[t][s].base in l.chunk;
    }
  }

  /** A table of unused slots, each without pages or tables. */
  lemma AllUnused(kernelEnd: nat, tables: seq<Table>, live: seq<set<nat>>, ram: Ram, own: seq<Pages>,
                  procs: seq<Process>)
    requires kernelEnd <= 0x80_0000 && |tables| == |live| == 11 && |own| == |procs| == 10
    requires forall t :: 0 <= t < 10 ==>
      own[t] == map[] && live[t] == {} && procs[t].state == UNUSED && |procs[t].context| == 17
    requires Held(tables, live, 10) && KernelView(kernelEnd, 6, ram, tables[10])
    ensures AllSlotsOk(kernelEnd, tables, live, ram, own, procs)
  {
    forall t | 0 <= t < 10 ensures SlotOk(kernelEnd, tables, live, ram, own[t], procs[t], t) {}
  }

  ghost predicate OnlyFirst(procs: seq<Process>, state: State) {
    |procs| == 10 && procs[0].state == state && forall t :: 1 <= t < 10 ==> procs[t].state == UNUSED
  }

  ghost predicate NoneYet(procs: seq<Process>) {
    |procs| == 10 && forall t :: 0 <= t < 10 ==> procs[t].state == UNUSED
  }

  lemma FirstSlot(procs: seq<Process>, slot: nat)
    requires NoneYet(procs)
    ensures !AllUsed(procs) && (FirstFree(procs, slot) ==> slot == 0)
  {
    assert procs[0].state == UNUSED;
  }

  /** The shell was staged in another slot and is the only process. */
  lemma ShellOnly(procs: seq<Process>, procs': seq<Process>, image: nat)
    requires OnlyFirst(procs, CREATED) && ProcsButTwo(procs, procs', 0, image) && procs'[0].state == READY
    requires image < 10 && procs'[image].state == UNUSED
    ensures OnlyFirst(procs', READY)
  {
  }

  lemma SlotsLeft(procs: seq<Process>)
    requires OnlyFirst(procs, CREATED)
    ensures !AllUsed(procs)
  {
    assert procs[1].state == UNUSED;
  }
}
