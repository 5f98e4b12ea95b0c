// resolve_physical_address: the page-table walk as the hardware does it, by putting addresses together with |.
module Walks {
  import opened Words
  import opened Bits
  import opened Ledgers
  import opened PageTables

  /** Section tables are aligned to their 16K size. */
  type TableAddress = a: nat | a % 16384 == 0 witness 0

  /** The section-table entry at an address, for a table at `vm`. */
  function SectionAt(table: Table, vm: TableAddress, a: nat): Section {
    if vm <= a < vm + 16384 && (a - vm) % 4 == 0 then table[(a - vm) / 4] else UNMAPPED
  }

  /** The word at a physical address. */
  function WordAt(ram: Ram, a: nat): nat {
    if a / 4096 < 0x1_0000 && a % 4096 + 4 <= 4096 then Le32(ram[a / 4096], a % 4096) else 0
  }

  /** The page-table entry that the walk arrives at. */
  function EntryOf(ram: Ram, table: Table, vm: TableAddress, virtual: nat): nat {
    var section := SectionAt(table, vm, Or(vm, virtual / 0x10_0000 * 4));
    WordAt(ram, Or(section.base.Address(), And(virtual / 1024, 0x3fc)))
  }

  /** The physical address that a page-table entry gives. */
  function Physical(entry: nat, virtual: nat): nat {
    Or(entry / 4096 * 4096, And(virtual, 0xfff))
  }

  /** The whole walk: section entry, page-table entry, physical address. */
  function Walk(ram: Ram, table: Table, vm: TableAddress, virtual: nat): nat {
    Physical(EntryOf(ram, table, vm, virtual), virtual)
  }

  lemma PowersOfTwo()
    ensures PowerOfTwo(256) && PowerOfTwo(1024) && PowerOfTwo(4096) && PowerOfTwo(16384)
  {
    assert PowerOfTwo(16);
    assert PowerOfTwo(64);
    assert PowerOfTwo(256);
    assert PowerOfTwo(2048);
    assert PowerOfTwo(8192);
  }

  lemma SectionStep(table: Table, vm: TableAddress, s: nat)
    requires s < 4096
    ensures SectionAt(table, vm, Or(vm, s * 4)) == table[s]
  {
    PowersOfTwo();
    OrAligned(vm, s * 4, 16384);
  }

  lemma PageStep(b: Block, virtual: nat)
    ensures Or(b.Address(), And(virtual / 1024, 0x3fc)) == b.Address() + 4 * (virtual / 4096 % 256)
  {
    PowersOfTwo();
    AndShifted(virtual / 1024, 0xff);
    assert virtual / 1024 / 4 == virtual / 4096;
    AndMask(virtual / 4096, 256);
    assert b.Address() % 1024 == 0;
    OrAligned(b.Address(), 4 * (virtual / 4096 % 256), 1024);
  }

  lemma OffsetStep(w: nat, virtual: nat)
    ensures Physical(w, virtual) == w / 4096 * 4096 + virtual % 4096
  {
    PowersOfTwo();
    AndMask(virtual, 4096);
    assert w / 4096 * 4096 % 4096 == 0;
    OrAligned(w / 4096 * 4096, virtual % 4096, 4096);
  }

  lemma WordInChunk(ram: Ram, b: Block, j: nat)
    requires b.page < 0x1_0000 && b.quarter < 4 && j < 256
    ensures WordAt(ram, b.Address() + 4 * j) == Le32(ram[b.page], 1024 * b.quarter + 4 * j)
  {
    Quotient(b.page, 1024 * b.quarter + 4 * j);
  }

  /** Byte `o` of the frame named by entry `j` of the page table that a section entry points to, whatever
      their type fields say. */
  function Indexed(ram: Ram, e: Section, j: nat, o: nat): nat {
    4096 * (WordAt(ram, e.base.Address() + 4 * j) / 4096) + o
  }

  lemma EntryParts(ram: Ram, table: Table, vm: TableAddress, virtual: nat, s: nat, j: nat)
    requires s == virtual / 0x10_0000 < 4096 && j == virtual / 4096 % 256
    ensures EntryOf(ram, table, vm, virtual) == WordAt(ram, table[s].base.Address() + 4 * j)
  {
    SectionStep(table, vm, s);
    PageStep(table[s].base, virtual);
  }

  lemma WalkParts(ram: Ram, table: Table, vm: TableAddress, virtual: nat, s: nat, j: nat)
    requires s == virtual / 0x10_0000 < 4096 && j == virtual / 4096 % 256
    ensures Walk(ram, table, vm, virtual) == Indexed(ram, table[s], j, virtual % 4096)
  {
    EntryParts(ram, table, vm, virtual, s, j);
    OffsetStep(EntryOf(ram, table, vm, virtual), virtual);
  }

  /** Because section tables are 16K-aligned and page tables 1K-aligned, the walk reads exactly the
      entries that the indices name. */
  lemma WalkIsIndexed(ram: Ram, table: Table, vm: TableAddress, virtual: nat)
    requires virtual < 0x1_0000_0000
    ensures Walk(ram, table, vm, virtual)
         == Indexed(ram, table[virtual / 0x10_0000], virtual / 4096 % 256, virtual % 4096)
  {
    WalkParts(ram, table, vm, virtual, virtual / 0x10_0000, virtual / 4096 % 256);
  }

  /** A word that is not 0 comes from a page table in RAM. */
  lemma WordIndexed(ram: Ram, table: Table, s: nat, j: nat, o: nat)
    requires s < 4096 && j < 256 && Lookup(ram, table, s, j) != 0
    ensures Indexed(ram, table[s], j, o) == 4096 * (Lookup(ram, table, s, j) / 4096) + o
  {
    WordInChunk(ram, table[s].base, j);
  }

  lemma PageIndices(s: nat, j: nat, o: nat)
    requires j < 256 && o < 4096
    ensures var virtual := 0x10_0000 * s + 4096 * j + o;
      virtual / 0x10_0000 == s && virtual / 4096 % 256 == j && virtual % 4096 == o
  {
    assert (0x10_0000 * s + 4096 * j + o) / 4096 == 256 * s + j;
  }

  /** Every byte of a page leads to the same byte of the frame its entry names. */
  lemma WalkPage(ram: Ram, table: Table, vm: TableAddress, s: nat, j: nat, o: nat)
    requires s < 4096 && j < 256 && o < 4096
    ensures Walk(ram, table, vm, 0x10_0000 * s + 4096 * j + o) == Indexed(ram, table[s], j, o)
  {
    PageIndices(s, j, o);
    WalkParts(ram, table, vm, 0x10_0000 * s + 4096 * j + o, s, j);
  }

  lemma {:induction false} LinearWord(kernelEnd: nat, i: nat, n: nat)
    requires kernelEnd <= 0x80_0000 && i <= 6 && 0x8_0000 <= n < 0x9_0000
    requires (i > 0 && n < 0x8_0000 + (kernelEnd + 4095) / 4096) || (i == 6 && n >= 0x8_0200 + kernelEnd / 4096)
    ensures KernelWord(kernelEnd, i, n) == Pte(n - 0x8_0000, 0x55)
  {
    if i > 1 && n < 0x8_0000 + (kernelEnd + 4095) / 4096 {
      LinearWord(kernelEnd, i - 1, n);
    }
  }

  lemma WindowPage(a: nat) returns (s: nat, j: nat, o: nat)
    requires a < 0x1000_0000
    ensures s < 4096 && j < 256 && o < 4096 && 256 * s + j == 0x8_0000 + a / 4096 && a == 4096 * (a / 4096) + o
    ensures P2V(a) == 0x10_0000 * s + 4096 * j + o
  {
    var n := 0x8_0000 + a / 4096;
    s, j, o := n / 256, n % 256, a % 4096;
  }

  /** The kernel's window on RAM: a kernel address of the kernel image or of allocatable memory leads to
      the physical address that is 2 GB below it. */
  lemma LinearWindow(kernelEnd: nat, ram: Ram, table: Table, vm: TableAddress, a: nat)
    requires kernelEnd <= 0x80_0000 && KernelView(kernelEnd, 6, ram, table)
    requires a < kernelEnd || kernelEnd + 0x20_0000 <= a < 0x1000_0000
    ensures Walk(ram, table, vm, P2V(a)) == a
  {
    var s, j, o := WindowPage(a);
    LinearWord(kernelEnd, 6, 256 * s + j);
    PteFrame(a / 4096, 0x55);
    WalkPage(ram, table, vm, s, j, o);
    WordIndexed(ram, table, s, j, o);
  }

  /** After map_pages the walk leads every page of the range to its frame, and every other page that
      was mapped where it led before. */
  lemma MappedResolves(ram: Ram, table: Table, ram': Ram, table': Table, first: nat, count: nat, frame: nat,
                       access: nat, vm: TableAddress, s: nat, j: nat, o: nat)
    requires Mapped(ram, table, ram', table', first, count, frame, access) && access < 256
    requires s < 4096 && j < 256 && o < 4096
    requires first <= 256 * s + j < first + count || Lookup(ram, table, s, j) != 0
    ensures var virtual := 0x10_0000 * s + 4096 * j + o;
      Walk(ram', table', vm, virtual) ==
        if first <= 256 * s + j < first + count then 4096 * (frame + 256 * s + j - first) + o
        else Walk(ram, table, vm, virtual)
  {
    WordIndexed(ram', table', s, j, o);
    WalkPage(ram', table', vm, s, j, o);
    if first <= 256 * s + j < first + count {
      PteFrame(frame + 256 * s + j - first, access);
    } else {
      WordIndexed(ram, table, s, j, o);
      WalkPage(ram, table, vm, s, j, o);
    }
  }
}
