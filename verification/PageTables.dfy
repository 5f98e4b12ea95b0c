// What the tables of kernel/memory/vm.c mean: views of two-level ARM page tables.
module PageTables {
  import opened Words
  import opened Ledgers

  /** A section-table entry: its type field and the 1K block its base address points to. */
  datatype Section = Section(desc: nat, base: Block)

  const UNMAPPED := Section(0, Block(0, 0))
  const EMPTY: seq<Section> := seq(4096, _ => UNMAPPED)
  type Table = s: seq<Section> | |s| == 4096 witness EMPTY

  /** A small-page entry: frame number, access permissions, type 2, uncached. */
  function Pte(frame: nat, access: nat): nat { 4096 * frame + 16 * access + 2 }

  /** The same word with its type field cleared. */
  function Unmapped(w: nat): (r: nat)
    ensures r <= w && r % 4 == 0 && r / 4 == w / 4
  {
    w - w % 4
  }

  /** Sections a table set may use: user heap, stacks, kernel and RAM, devices, PCI, vectors. */
  predicate Allowed(s: int) {
    s == 0 || s == 0x7ff || 0x800 <= s < 0x900 || 0xc00 <= s < 0xc04 || s == 0xd00 || s == 0xfff
  }

  /** The page-table word for page `j` of section `s`; 0 when the section has no page table. */
  function Lookup(ram: Ram, table: Table, s: nat, j: nat): (w: nat)
    requires s < 4096 && j < 256
    ensures w < 0x1_0000_0000
  {
    var b := table[s].base;
    if table[s].desc == 0 || b.page >= 0x1_0000 || b.quarter >= 4 then 0
    else Le32(ram[b.page], 1024 * b.quarter + 4 * j)
  }

  /** struct PageTableEntry, from the low bits up: two bits of type, two of caching, eight of access
      permissions, then the frame. */
  lemma PteFields(frame: nat, access: nat)
    requires access < 256
    ensures var w := Pte(frame, access);
      w % 4 == 2 && w / 4 % 4 == 0 && w / 16 % 256 == access && w / 4096 == frame
  {
    var w := Pte(frame, access);
    assert w / 16 == 256 * frame + access;
    assert w / 4 == 4 * (256 * frame + access);
  }

  lemma PteFrame(frame: nat, access: nat)
    requires access < 256
    ensures Pte(frame, access) / 4096 == frame
  {
  }

  ghost predicate SameView(ram: Ram, table: Table, ram': Ram, table': Table) {
    forall s, j :: 0 <= s < 4096 && 0 <= j < 256 ==> Lookup(ram', table', s, j) == Lookup(ram, table, s, j)
  }

  /** Every section in `live[t]` has its own chunk. */
  ghost predicate SectionsHaveChunks(tables: seq<Table>, live: seq<set<nat>>, l: Ledger)
    requires |tables| == |live| == 11
  {
    forall t, s {:trigger s in live[t]} :: 0 <= t < 11 && s in live[t] ==>
      && s < 4096 && Allowed(s) && tables[t][s].desc != 0
      && tables[t][s].base in l.chunk && l.chunk[tables[t][s].base] == UsedChunk(t, s)
  }

  /** Every owned chunk is the page table of its section. */
  ghost predicate ChunksHaveSections(tables: seq<Table>, live: seq<set<nat>>, l: Ledger)
    requires |tables| == |live| == 11
  {
    forall b {:trigger l.chunk[b].UsedChunk?} :: b in l.chunk && l.chunk[b].UsedChunk? ==>
      var t, s := l.chunk[b].table, l.chunk[b].section;
      t < 11 && s in live[t] && s < 4096 && tables[t][s].base == b
  }

  ghost predicate TablesOwned(tables: seq<Table>, live: seq<set<nat>>, l: Ledger) {
    && |tables| == |live| == 11
    && SectionsHaveChunks(tables, live, l)
    && ChunksHaveSections(tables, live, l)
    && l.usedChunks == Total(live)
  }

  /** Table set `t` is in use: its non-empty entries are exactly its live sections. */
  ghost predicate Held(tables: seq<Table>, live: seq<set<nat>>, t: nat)
    requires t < |tables| && t < |live|
  {
    forall s :: 0 <= s < 4096 ==> (tables[t][s].desc != 0 <==> s in live[t])
  }

  /** Ample memory: whatever is in use, the 4K list cannot be empty. */
  ghost predicate Ample(l: Ledger) {
    |l.page| >= 3308 && l.usedPages <= 2580 && l.peak <= 2904
  }

  lemma AmpleNeverEmpty(l: Ledger)
    requires l.Valid() && Ample(l)
    ensures l.free4 != []
  {
  }

  /** A change inside one chunk leaves the words of every other chunk alone. */
  lemma OtherChunkKept(ram: Ram, after: Ram, b: Block, c: Block, j: nat)
    requires OnlyChunk(ram, after, b) && c != b && c.page < 0x1_0000 && c.quarter < 4 && j < 256
    ensures Le32(after[c.page], 1024 * c.quarter + 4 * j) == Le32(ram[c.page], 1024 * c.quarter + 4 * j)
  {
    if c.page == b.page { assert c.quarter != b.quarter; }
  }

  /** How many of the sections lo..hi lie below n. */
  function Below(n: nat, lo: nat, hi: nat): nat {
    if n <= lo then 0 else if n <= hi then n - lo else if lo <= hi then hi - lo else 0
  }

  ghost function AllowedBelow(n: nat): (r: set<nat>)
    ensures forall s :: s in r <==> s < n && Allowed(s)
    ensures |r|
      == Below(n, 0, 1) + Below(n, 0x7ff, 0x900) + Below(n, 0xc00, 0xc04) + Below(n, 0xd00, 0xd01)
      + Below(n, 0xfff, 0x1000)
  {
    if n == 0 then {} else if Allowed(n - 1) then AllowedBelow(n - 1) + {n - 1} else AllowedBelow(n - 1)
  }

  /** A table set never needs more than 264 page tables. */
  lemma SectionsBound(sections: set<nat>)
    requires forall s <- sections :: Allowed(s)
    ensures |sections| <= 264
  {
    var all := AllowedBelow(4096);
    assert all == sections + (all - sections);
  }

  ghost function Total(live: seq<set<nat>>): nat {
    if live == [] then 0 else Total(live[..|live| - 1]) + |live[|live| - 1]|
  }

  lemma {:induction false} TotalUpdate(live: seq<set<nat>>, t: nat, sections: set<nat>)
    requires t < |live|
    ensures Total(live[t := sections]) == Total(live) - |live[t]| + |sections|
  {
    var n := |live| - 1;
    if t == n {
      assert live[t := sections][..n] == live[..n];
    } else {
      TotalUpdate(live[..n], t, sections);
      assert live[t := sections][..n] == live[..n][t := sections];
    }
  }

  lemma {:induction false} TotalBound(live: seq<set<nat>>)
    requires forall t, s {:trigger s in live[t]} :: 0 <= t < |live| && s in live[t] ==> Allowed(s)
    ensures Total(live) <= 264 * |live|
  {
    if live != [] {
      var n := |live| - 1;
      SectionsBound(live[n]);
      TotalBound(live[..n]);
    }
  }

  /** Eleven table sets never need more than 2904 page tables. */
  lemma RoomForTable(tables: seq<Table>, live: seq<set<nat>>, l: Ledger, t: nat, s: nat)
    requires TablesOwned(tables, live, l) && t < 11 && Allowed(s) && s !in live[t]
    ensures l.usedChunks < 2904 && Total(live[t := live[t] + {s}]) == l.usedChunks + 1
  {
    TotalUpdate(live, t, live[t] + {s});
    TotalBound(live[t := live[t] + {s}]);
  }

  /** Entering a chunk just taken into the section table. */
  ghost predicate Entering(tables: seq<Table>, live: seq<set<nat>>, l: Ledger, l': Ledger, b: Block, t: nat, s: nat,
                           entry: Section) {
    && TablesOwned(tables, live, l) && ChunkTaken(l, l', b, UsedChunk(t, s))
    && t < 11 && s < 4096 && Allowed(s) && s !in live[t] && entry.desc != 0 && entry.base == b
  }

  lemma EnterForward(tables: seq<Table>, live: seq<set<nat>>, l: Ledger, l': Ledger, b: Block, t: nat, s: nat,
                     entry: Section)
    requires Entering(tables, live, l, l', b, t, s, entry)
    ensures SectionsHaveChunks(tables[t := tables[t][s := entry]], live[t := live[t] + {s}], l')
  {
    var tables', live' := tables[t := tables[t][s := entry]], live[t := live[t] + {s}];
    forall u, r | 0 <= u < 11 && r in live'[u]
      ensures r < 4096 && Allowed(r) && tables'[u][r].desc != 0
      ensures tables'[u][r].base in l'.chunk && l'.chunk[tables'[u][r].base] == UsedChunk(u, r)
    {
      if (u, r) != (t, s) { assert r in live[u]; }
    }
  }

  lemma EnterBackward(tables: seq<Table>, live: seq<set<nat>>, l: Ledger, l': Ledger, b: Block, t: nat, s: nat,
                      entry: Section)
    requires Entering(tables, live, l, l', b, t, s, entry)
    ensures ChunksHaveSections(tables[t := tables[t][s := entry]], live[t := live[t] + {s}], l')
  {
    var tables', live' := tables[t := tables[t][s := entry]], live[t := live[t] + {s}];
    forall c <- l'.chunk | l'.chunk[c].UsedChunk?
      ensures var u, r := l'.chunk[c].table, l'.chunk[c].section;
        u < 11 && r in live'[u] && r < 4096 && tables'[u][r].base == c
    {
      if c != b { assert l.chunk[c] == l'.chunk[c]; }
    }
  }

  lemma EnterChunk(tables: seq<Table>, live: seq<set<nat>>, l: Ledger, l': Ledger, b: Block, t: nat, s: nat,
                   entry: Section)
    requires Entering(tables, live, l, l', b, t, s, entry)
    ensures TablesOwned(tables[t := tables[t][s := entry]], live[t := live[t] + {s}], l')
  {
    EnterForward(tables, live, l, l', b, t, s, entry);
    EnterBackward(tables, live, l, l', b, t, s, entry);
    TotalUpdate(live, t, live[t] + {s});
  }

  /** The frames of owned pages, and who owns which page, are the same before and after. */
  ghost predicate PagesKept(l: Ledger, ram: Ram, l': Ledger, ram': Ram) {
    && l'.page.Keys == l.page.Keys && l'.usedPages == l.usedPages
    && forall p <- l.page :: l.page[p].UsedPage? || l'.page[p].UsedPage? ==>
         l'.page[p] == l.page[p] && (p < 0x1_0000 ==> ram'[p] == ram[p])
  }

  /** Outside the free pages, the memories differ at most inside the chunk `b`. */
  ghost predicate FreshChunk(l: Ledger, ram: Ram, after: Ram, b: Block) {
    && (forall p <- l.page :: l.page[p] != FreePage && p < 0x1_0000 && p != b.page ==> after[p] == ram[p])
    && b.page < 0x1_0000
    && (b.page in l.page && l.page[b.page] != FreePage ==>
          forall o :: 0 <= o < 4096 && !(1024 * b.quarter <= o < 1024 * b.quarter + 1024) ==>
            after[b.page][o] == ram[b.page][o])
  }

  /** Filling a chunk nobody owned changes no table set's view. */
  lemma FreshChunkKeepsViews(tables: seq<Table>, live: seq<set<nat>>, l: Ledger, ram: Ram, after: Ram, b: Block, t: nat)
    requires TablesOwned(tables, live, l) && l.Valid() && t < 11 && Held(tables, live, t)
    requires FreshChunk(l, ram, after, b) && b.quarter < 4 && !(b in l.chunk && l.chunk[b].UsedChunk?)
    ensures SameView(ram, tables[t], after, tables[t])
  {
    forall s, j | 0 <= s < 4096 && 0 <= j < 256
      ensures Lookup(after, tables[t], s, j) == Lookup(ram, tables[t], s, j)
    {
      if tables[t][s].desc != 0 {
        assert s in live[t];
        var c := tables[t][s].base;
        assert c in l.chunk && c != b;
        if c.page == b.page { assert c.quarter != b.quarter; }
      }
    }
  }

  /** Every table set but `t` is unchanged, and so is its view. */
  ghost predicate OthersKept(tables: seq<Table>, live: seq<set<nat>>, ram: Ram,
                             tables': seq<Table>, live': seq<set<nat>>, ram': Ram, t: nat)
  {
    && |tables| == |tables'| == |live| == |live'| == 11
    && (forall u :: 0 <= u < 11 && u != t ==> tables'[u] == tables[u] && live'[u] == live[u])
    && (forall u :: 0 <= u < 11 && u != t && Held(tables, live, u) ==> SameView(ram, tables[u], ram', tables'[u]))
  }

  /** The views agree except that page `j` of section `s` now has word `w`. */
  ghost predicate OneChanged(ram: Ram, table: Table, ram': Ram, table': Table, s: nat, j: nat, w: nat) {
    forall s', j' :: 0 <= s' < 4096 && 0 <= j' < 256 ==>
      Lookup(ram', table', s', j') == if s' == s && j' == j then w else Lookup(ram, table, s', j')
  }

  /** Pages first .. first + count are mapped to consecutive frames; the rest of the view is kept. */
  ghost predicate Mapped(ram: Ram, table: Table, ram': Ram, table': Table, first: nat, count: nat, frame: nat,
                         access: nat) {
    forall s, j :: 0 <= s < 4096 && 0 <= j < 256 ==>
      Lookup(ram', table', s, j) ==
        if first <= 256 * s + j < first + count then Pte(frame + 256 * s + j - first, access)
        else Lookup(ram, table, s, j)
  }

  lemma GrowViews(tables: seq<Table>, live: seq<set<nat>>, l: Ledger, ram: Ram, l': Ledger, ram': Ram, b: Block, t: nat,
                  s: nat, entry: Section)
    requires Entering(tables, live, l, l', b, t, s, entry) && l.Valid() && Held(tables, live, t)
    requires FreshChunk(l, ram, ram', b) && l'.Shaped()
    requires forall j :: 0 <= j < 256 ==> Le32(ram'[b.page], 1024 * b.quarter + 4 * j) == 0
    ensures OthersKept(tables, live, ram, tables[t := tables[t][s := entry]], live[t := live[t] + {s}], ram', t)
    ensures SameView(ram, tables[t], ram', tables[t][s := entry])
    ensures PagesKept(l, ram, l', ram')
  {
    forall u | 0 <= u < 11 && Held(tables, live, u) ensures SameView(ram, tables[u], ram', tables[u]) {
      FreshChunkKeepsViews(tables, live, l, ram, ram', b, u);
    }
  }

  /** Storing a page-table word changes the view of one page of one table set. */
  lemma StoreViews(tables: seq<Table>, live: seq<set<nat>>, l: Ledger, ram: Ram, ram': Ram, t: nat, s: nat, j: nat,
                   w: nat)
    requires TablesOwned(tables, live, l) && l.Valid() && t < 11 && Held(tables, live, t)
    requires s < 4096 && j < 256 && s in live[t]
    requires OnlyChunk(ram, ram', tables[t][s].base)
    requires WordStored(ram[tables[t][s].base.page], ram'[tables[t][s].base.page], 1024 * tables[t][s].base.quarter
      + 4 * j, w)
    ensures OthersKept(tables, live, ram, tables, live, ram', t)
    ensures OneChanged(ram, tables[t], ram', tables[t], s, j, w)
  {
    var b := tables[t][s].base;
    assert b in l.chunk;
    forall u, s', j' | 0 <= u < 11 && Held(tables, live, u) && 0 <= s' < 4096 && 0 <= j' < 256 && (u, s') != (t, s)
      ensures Lookup(ram', tables[u], s', j') == Lookup(ram, tables[u], s', j')
    {
      if tables[u][s'].desc != 0 {
        assert s' in live[u];
        assert tables[u][s'].base != b;
        OtherChunkKept(ram, ram', b, tables[u][s'].base, j');
      }
    }
    forall j' | 0 <= j' < 256 && j' != j ensures Lookup(ram', tables[t], s, j') == Lookup(ram, tables[t], s, j') {
      WordKept(ram[b.page], ram'[b.page], 1024 * b.quarter + 4 * j, w, 1024 * b.quarter + 4 * j');
    }
  }

  lemma OthersKeptTwice(a: seq<Table>, la: seq<set<nat>>, ra: Ram, b: seq<Table>, lb: seq<set<nat>>, rb: Ram,
                        c: seq<Table>, lc: seq<set<nat>>, rc: Ram, t: nat)
    requires OthersKept(a, la, ra, b, lb, rb, t) && OthersKept(b, lb, rb, c, lc, rc, t)
    ensures OthersKept(a, la, ra, c, lc, rc, t)
  {
    forall u | 0 <= u < 11 && u != t && Held(a, la, u) ensures SameView(ra, a[u], rc, c[u]) {
      assert Held(b, lb, u);
      assert SameView(ra, a[u], rb, b[u]) && SameView(rb, b[u], rc, c[u]);
    }
  }

  lemma OneMapped(ram: Ram, table: Table, ram': Ram, table': Table, s: nat, j: nat, frame: nat, access: nat)
    requires OneChanged(ram, table, ram', table', s, j, Pte(frame, access)) && j < 256
    ensures Mapped(ram, table, ram', table', 256 * s + j, 1, frame, access)
  {
  }

  /** One more page: mapping a run of pages step by step. */
  lemma MappedStep(r0: Ram, t0: Table, r1: Ram, t1: Table, r2: Ram, t2: Table, first: nat, count: nat, frame: nat,
                   access: nat)
    requires Mapped(r0, t0, r1, t1, first, count, frame, access)
    requires Mapped(r1, t1, r2, t2, first + count, 1, frame + count, access)
    ensures Mapped(r0, t0, r2, t2, first, count + 1, frame, access)
  {
  }

  /** Rounds a mapping outwards to whole pages. */
  method Rounded(virtual: nat, start: nat, end: nat, ghost first: nat, ghost frame: nat, ghost last: nat)
    returns (virtualStart: nat, physicalStart: nat, physicalEnd: nat)
    requires 4096 * first <= virtual < 4096 * first + 4096 && 4096 * frame <= start < 4096 * frame + 4096
    requires 4096 * last - 4096 < end <= 4096 * last
    ensures virtualStart == 4096 * first && physicalStart == 4096 * frame && physicalEnd == 4096 * last
  {
    virtualStart, physicalStart, physicalEnd := RoundDown(virtual), RoundDown(start), RoundUp(end);
  }

  /** SECTION_INDEX and PAGE_INDEX of the address of page `j` of section `s`. */
  method Indices(virtual: nat, ghost s: nat, ghost j: nat) returns (sectionIndex: nat, pageIndex: nat)
    requires virtual == 0x10_0000 * s + 4096 * j && j < 256
    ensures sectionIndex == s && pageIndex == j
  {
    sectionIndex, pageIndex := virtual / 0x10_0000, virtual / 4096 % 256;
    assert virtual / 4096 == 256 * s + j;
  }

  /** Every section that the run touches is one that table sets may use. */
  ghost predicate AllAllowed(first: nat, count: nat) {
    forall s :: 0 <= s && first < 256 * s + 256 && 256 * s < first + count ==> Allowed(s)
  }

  lemma SplitPageNumber(first: nat, count: nat, n: nat) returns (s: nat, j: nat)
    requires AllAllowed(first, count) && first <= n < first + count <= 0x10_0000
    ensures n == 256 * s + j && j < 256 && s < 4096 && Allowed(s) && 4096 * n == 0x10_0000 * s + 4096 * j
  {
    s, j := n / 256, n % 256;
  }

  /** kernel_mappings: virtual address, physical start and physical end of each run. */
  datatype Mapping = Mapping(virtual: nat, start: nat, end: nat)

  function KernelMapping(kernelEnd: nat, i: nat): Mapping
    requires i < 6
  {
    match i
    case 0 => Mapping(0x8000_0000, 0, kernelEnd)
    case 1 => Mapping(0xc000_0000, 0x1000_0000, 0x1040_0000)
    case 2 => Mapping(0xd000_0000, 0x4200_0000, 0x4201_0000)
    case 3 => Mapping(0xd001_0000, 0x4300_1000, 0x4300_2000)
    case 4 => Mapping(0xffff_0000, 0, 4096)
    case 5 => Mapping(0x8000_0000 + kernelEnd + 0x20_0000, kernelEnd + 0x20_0000, 0x1000_0000)
  }

  /** The same run in pages: first virtual page, first frame, number of pages. */
  datatype Run = Run(first: nat, frame: nat, count: nat)

  function KernelRun(kernelEnd: nat, i: nat): Run
    requires i < 6 && kernelEnd <= 0x80_0000
  {
    match i
    case 0 => Run(0x8_0000, 0, (kernelEnd + 4095) / 4096)
    case 1 => Run(0xc_0000, 0x1_0000, 0x400)
    case 2 => Run(0xd_0000, 0x4_2000, 0x10)
    case 3 => Run(0xd_0010, 0x4_3001, 1)
    case 4 => Run(0xf_fff0, 0, 1)
    case 5 => Run(0x8_0200 + kernelEnd / 4096, 0x200 + kernelEnd / 4096, 0xfe00 - kernelEnd / 4096)
  }

  lemma KernelRunFits(kernelEnd: nat, i: nat)
    requires i < 6 && kernelEnd <= 0x80_0000
    ensures var m, r := KernelMapping(kernelEnd, i), KernelRun(kernelEnd, i);
      && 4096 * r.first <= m.virtual < 4096 * r.first + 4096 && 4096 * r.frame <= m.start < 4096 * r.frame + 4096
      && 4096 * (r.frame + r.count) - 4096 < m.end <= 4096 * (r.frame + r.count)
      && r.first + r.count <= 0x10_0000 && r.frame + r.count <= 0x10_0000 && AllAllowed(r.first, r.count)
  {
  }

  /** What the first `i` kernel mappings give for virtual page `n`; user mode has no access (0x55). */
  function KernelWord(kernelEnd: nat, i: nat, n: nat): nat
    requires i <= 6 && kernelEnd <= 0x80_0000
  {
    if i == 0 then 0 else
      var r := KernelRun(kernelEnd, i - 1);
      if r.first <= n < r.first + r.count then Pte(r.frame + n - r.first, 0x55) else KernelWord(kernelEnd, i - 1, n)
  }

  ghost predicate KernelView(kernelEnd: nat, i: nat, ram: Ram, table: Table)
    requires i <= 6 && kernelEnd <= 0x80_0000
  {
    forall s, j :: 0 <= s < 4096 && 0 <= j < 256 ==> Lookup(ram, table, s, j) == KernelWord(kernelEnd, i, 256 * s + j)
  }

  lemma KernelViewStep(kernelEnd: nat, i: nat, ram: Ram, table: Table, ram': Ram, table': Table)
    requires i < 6 && kernelEnd <= 0x80_0000 && KernelView(kernelEnd, i, ram, table)
    requires var r := KernelRun(kernelEnd, i); Mapped(ram, table, ram', table', r.first, r.count, r.frame, 0x55)
    ensures KernelView(kernelEnd, i + 1, ram', table')
  {
  }

  /** Emptying a table set that owns no page tables. */
  lemma ClearedTable(tables: seq<Table>, live: seq<set<nat>>, l: Ledger, ram: Ram, t: nat)
    requires TablesOwned(tables, live, l) && t < 11 && live[t] == {}
    ensures var tables' := tables[t := EMPTY];
      TablesOwned(tables', live, l) && Held(tables', live, t) && OthersKept(tables, live, ram, tables', live, ram, t)
  {
  }

  /** Giving back the page table of section `s` of table set `t`. */
  lemma DropChunk(tables: seq<Table>, live: seq<set<nat>>, l: Ledger, t: nat, s: nat)
    requires TablesOwned(tables, live, l) && t < 11 && s in live[t]
    ensures TablesOwned(tables, live[t := live[t] - {s}], l.Give1(tables[t][s].base))
    ensures l.usedChunks > 0
  {
    TotalUpdate(live, t, live[t] - {s});
    var b := tables[t][s].base;
    var live', l' := live[t := live[t] - {s}], l.Give1(b);
    forall u, r | 0 <= u < 11 && r in live'[u]
      ensures r < 4096 && Allowed(r) && tables[u][r].desc != 0
      ensures tables[u][r].base in l'.chunk && l'.chunk[tables[u][r].base] == UsedChunk(u, r)
    {
      assert r in live[u] && (u, r) != (t, s);
    }
  }

  lemma DropViews(tables: seq<Table>, live: seq<set<nat>>, l: Ledger, ram: Ram, ram': Ram, t: nat, s: nat, w: nat)
    requires TablesOwned(tables, live, l) && l.Valid() && t < 11 && s in live[t]
    requires LinkStored(ram, ram', tables[t][s].base, w)
    ensures OthersKept(tables, live, ram, tables, live[t := live[t] - {s}], ram', t)
    ensures PagesKept(l, ram, l.Give1(tables[t][s].base), ram')
  {
    var b := tables[t][s].base;
    assert b in l.chunk;
    forall u, r, j | 0 <= u < 11 && u != t && Held(tables, live, u) && 0 <= r < 4096 && 0 <= j < 256
      ensures Lookup(ram', tables[u], r, j) == Lookup(ram, tables[u], r, j)
    {
      if tables[u][r].desc != 0 {
        assert r in live[u];
        assert tables[u][r].base != b;
        OtherChunkKept(ram, ram', b, tables[u][r].base, j);
      }
    }
  }

  /** Sections below `i` of table set `t` have given up their page tables. */
  ghost predicate HeldFrom(tables: seq<Table>, live: seq<set<nat>>, t: nat, i: nat)
    requires t < |tables| && t < |live|
  {
    forall s :: 0 <= s < 4096 ==> (s in live[t] <==> i <= s && tables[t][s].desc != 0)
  }

  lemma AllDropped(tables: seq<Table>, before: seq<set<nat>>, live: seq<set<nat>>, l: Ledger, t: nat)
    requires TablesOwned(tables, live, l) && t < |before| == 11 && HeldFrom(tables, live, t, 4096)
    requires forall u :: 0 <= u < 11 && u != t ==> live[u] == before[u]
    ensures live == before[t := {}]
  {
    forall s ensures s !in live[t] {
      assert s in live[t] ==> s < 4096;
    }
    assert live[t] == {};
  }

  lemma DropStep(tables: seq<Table>, live: seq<set<nat>>, t: nat, i: nat)
    requires t < |tables| && t < |live| && HeldFrom(tables, live, t, i)
    ensures HeldFrom(tables, live[t := live[t] - {i}], t, i + 1)
  {
  }

  /** The block at a physical address. */
  function BlockAt(a: nat): Block { Block(a / 4096, a % 4096 / 1024) }

  lemma BlockAtAddress(b: Block)
    requires b.quarter < 4
    ensures BlockAt(b.Address()) == b
  {
    Quotient(b.page, 1024 * b.quarter);
  }
}
