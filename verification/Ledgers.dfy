// What the free lists of kernel/memory/kalloc.c mean: a ledger of every managed page and chunk.
module Ledgers {
  import opened Words

  /** A block of RAM that starts at one of the four quarters of a page: a whole page
      starts at quarter 0, a 1K chunk is any single quarter. */
  datatype Block = Block(page: nat, quarter: nat) {
    function Address(): nat { 4096 * page + 1024 * quarter }
  }

  /** A page is free, cut into chunks, or the page number `index` of process slot `slot`;
      a chunk is free or the page table of a section of a table set. */
  datatype PageUse = FreePage | Split | UsedPage(slot: nat, index: nat)
  datatype ChunkUse = FreeChunk | UsedChunk(table: nat, section: nat)

  /** The link that leads to element `i` of a list. */
  function Link(s: seq<Block>, i: nat): nat {
    if i < |s| then P2V(s[i].Address()) else NULL
  }

  ghost predicate InRam(s: seq<Block>) {
    forall i :: 0 <= i < |s| ==> s[i].page < 0x1_0000 && s[i].quarter < 4
  }

  ghost predicate Distinct(s: seq<Block>) {
    forall i, j :: 0 <= i < j < |s| ==> s[i] != s[j]
  }

  /** The word at the start of a block, where a free block keeps its link. */
  function LinkIn(ram: Ram, b: Block): nat
    requires b.page < 0x1_0000 && b.quarter < 4
  {
    Le32(ram[b.page], 1024 * b.quarter)
  }

  /** `head` starts a list threaded through the first words of the blocks `s`. */
  ghost predicate ListAt(ram: Ram, head: nat, s: seq<Block>) {
    && InRam(s)
    && head == Link(s, 0)
    && forall i {:trigger LinkIn(ram, s[i])} :: 0 <= i < |s| ==> LinkIn(ram, s[i]) == Link(s, i + 1)
  }

  /** What every managed page and chunk is being used for, with the running totals. */
  datatype Ledger = Ledger(
    page: map<nat, PageUse>, chunk: map<Block, ChunkUse>,
    free4: seq<Block>, free1: seq<Block>,
    usedPages: int, usedChunks: int, splits: int, peak: int)
  {
    /** Pages lie in RAM; the chunks are exactly the quarters of the split pages. */
    ghost predicate Shaped() {
      && (forall p <- page :: p < 0x1_0000)
      && (forall b {:trigger b in chunk} ::
            b in chunk <==> b.quarter < 4 && b.page in page && page[b.page] == Split)
    }

    ghost predicate ListsExact() {
      && Distinct(free4) && Distinct(free1)
      && (forall b {:trigger b in free4} :: b in free4 <==>
        b.quarter == 0 && b.page in page && page[b.page] == FreePage)
      && (forall b {:trigger b in free1} :: b in free1 <==> b in chunk && chunk[b] == FreeChunk)
    }

    /** Every page is free, split or used, every chunk free or used; pages are split only
        on demand, so at most three chunks lie idle at peak use. */
    ghost predicate Balanced() {
      && usedPages >= 0 && splits >= 0 && 0 <= usedChunks <= peak
      && |free4| + splits + usedPages == |page|
      && |free1| + usedChunks == 4 * splits <= peak + 3
    }

    ghost predicate Valid() { Shaped() && ListsExact() && Balanced() }

    ghost function Give4(p: nat): Ledger {
      this.(page := page[p := FreePage], free4 := [Block(p, 0)] + free4,
            usedPages := usedPages - (if p in page then 1 else 0))
    }

    ghost function Take4(slot: nat, index: nat): Ledger
      requires free4 != []
    {
      this.(page := page[free4[0].page := UsedPage(slot, index)], free4 := free4[1..], usedPages := usedPages + 1)
    }

    ghost function Give1(b: Block): Ledger {
      this.(chunk := chunk[b := FreeChunk], free1 := [b] + free1, usedChunks := usedChunks - 1)
    }

    ghost function Take1(table: nat, section: nat): Ledger
      requires free1 != []
    {
      this.(chunk := chunk[free1[0] := UsedChunk(table, section)], free1 := free1[1..],
            usedChunks := usedChunks + 1, peak := if usedChunks + 1 > peak then usedChunks + 1 else peak)
    }

    /** The first free page becomes the four free chunks. */
    ghost function SplitPage(): Ledger
      requires free4 != []
    {
      var p := free4[0].page;
      this.(page := page[p := Split], free4 := free4[1..], splits := splits + 1,
            chunk := chunk[Block(p, 0) := FreeChunk][Block(p, 1) := FreeChunk]
                          [Block(p, 2) := FreeChunk][Block(p, 3) := FreeChunk],
            free1 := [Block(p, 3), Block(p, 2), Block(p, 1), Block(p, 0)] + free1)
    }
  }

  lemma Give4Valid(l: Ledger, p: nat)
    requires l.Valid() && p < 0x1_0000
    requires p in l.page ==> l.page[p].UsedPage? && l.usedPages > 0
    ensures l.Give4(p).Valid()
  {
    var r := l.Give4(p);
    assert r.page.Keys == l.page.Keys + {p};
    assert Block(p, 0) !in l.free4;
    assert r.ListsExact();
  }

  lemma Take4Valid(l: Ledger, slot: nat, index: nat)
    requires l.Valid() && l.free4 != []
    ensures l.Take4(slot, index).Valid()
  {
    var r, b := l.Take4(slot, index), l.free4[0];
    assert b in l.free4 && l.free4 == [b] + r.free4;
    forall c ensures c in r.free4 <==> c in l.free4 && c != b {}
    assert r.page.Keys == l.page.Keys;
    assert r.ListsExact();
  }

  lemma Give1Valid(l: Ledger, b: Block)
    requires l.Valid() && b in l.chunk && l.chunk[b].UsedChunk? && l.usedChunks > 0
    ensures l.Give1(b).Valid()
  {
    var r := l.Give1(b);
    assert r.chunk.Keys == l.chunk.Keys;
    assert b !in l.free1;
    assert r.ListsExact();
  }

  lemma Take1Valid(l: Ledger, table: nat, section: nat)
    requires l.Valid() && l.free1 != []
    ensures l.Take1(table, section).Valid()
  {
    var r, b := l.Take1(table, section), l.free1[0];
    assert b in l.free1 && l.free1 == [b] + r.free1;
    forall c ensures c in r.free1 <==> c in l.free1 && c != b {}
    assert r.chunk.Keys == l.chunk.Keys;
    assert r.ListsExact();
  }

  lemma Quarters(p: nat, b: Block)
    ensures b in [Block(p, 3), Block(p, 2), Block(p, 1), Block(p, 0)] <==> b.page == p && b.quarter < 4
  {
  }

  lemma SplitExact(l: Ledger)
    requires l.Valid() && l.free4 != [] && l.free1 == []
    ensures l.SplitPage().Shaped() && l.SplitPage().ListsExact()
  {
    var r, b := l.SplitPage(), l.free4[0];
    assert b in l.free4 && l.free4 == [b] + r.free4;
    forall c ensures c in r.free4 <==> c in l.free4 && c != b {}
    forall c ensures c in r.free1 <==> c.page == b.page && c.quarter < 4 {
      Quarters(b.page, c);
      assert r.free1 == [Block(b.page, 3), Block(b.page, 2), Block(b.page, 1), Block(b.page, 0)];
    }
    forall c ensures c in r.chunk && r.chunk[c] == FreeChunk <==> c.page == b.page && c.quarter < 4 {
      assert c !in l.free1;
      assert c in l.chunk ==> l.chunk[c] != FreeChunk && c.page != b.page;
    }
  }

  /** Splitting the first free page for a chunk that is then handed out keeps the ledger valid. */
  lemma SplitTakeValid(l: Ledger, table: nat, section: nat)
    requires l.Valid() && l.free4 != [] && l.free1 == []
    ensures l.SplitPage().Take1(table, section).Valid()
  {
    SplitExact(l);
    var m := l.SplitPage();
    assert l.free4[0] in l.free4;
    assert m.page.Keys == l.page.Keys;
    var v := m.(peak := m.usedChunks + 4);
    assert v.Valid();
    Take1Valid(v, table, section);
    assert v.Take1(table, section).ListsExact() && v.Take1(table, section).Shaped();
    assert m.Take1(table, section).ListsExact() && m.Take1(table, section).Shaped();
  }

  /** `after` is `before` with the word `w` at the start of block `b`. */
  ghost predicate LinkStored(before: Ram, after: Ram, b: Block, w: nat) {
    && b.page < 0x1_0000 && b.quarter < 4
    && (forall p :: 0 <= p < 0x1_0000 && p != b.page ==> after[p] == before[p])
    && WordStored(before[b.page], after[b.page], 1024 * b.quarter, w)
  }

  /** Prepending a block that is not on the list. */
  lemma PushList(ram: Ram, after: Ram, head: nat, s: seq<Block>, b: Block)
    requires ListAt(ram, head, s) && LinkStored(ram, after, b, head) && b !in s
    ensures ListAt(after, P2V(b.Address()), [b] + s)
  {
    KeepList(ram, after, head, s, b, head);
    var t := [b] + s;
    forall i | 0 <= i < |t| ensures LinkIn(after, t[i]) == Link(t, i + 1) {
      if i > 0 { assert t[i] == s[i - 1]; assert Link(t, i + 1) == Link(s, i); }
    }
  }

  /** A list survives a store into the first word of any other block. */
  lemma KeepList(ram: Ram, after: Ram, head: nat, s: seq<Block>, b: Block, w: nat)
    requires ListAt(ram, head, s) && b !in s && LinkStored(ram, after, b, w)
    ensures ListAt(after, head, s)
  {
    forall i | 0 <= i < |s|
      ensures LinkIn(after, s[i]) == LinkIn(ram, s[i])
    {
      assert s[i] in s;
      if s[i].page == b.page {
        assert s[i].quarter != b.quarter;
        WordKept(ram[b.page], after[b.page], 1024 * b.quarter, w, 1024 * s[i].quarter);
      }
    }
  }

  /** Popping the head of a list leaves its tail. */
  lemma PopList(ram: Ram, head: nat, s: seq<Block>)
    requires s != [] && ListAt(ram, head, s)
    ensures V2P(head) / 4096 == s[0].page && V2P(head) % 4096 == 1024 * s[0].quarter
    ensures ListAt(ram, LinkIn(ram, s[0]), s[1..])
  {
    Quotient(s[0].page, 1024 * s[0].quarter);
    var u := s[1..];
    forall i | 0 <= i < |u| ensures LinkIn(ram, u[i]) == Link(u, i + 1) {
      assert u[i] == s[i + 1] && Link(u, i + 1) == Link(s, i + 2);
    }
  }

  ghost predicate Threaded(ram: Ram, head4k: nat, head1k: nat, l: Ledger) {
    ListAt(ram, head4k, l.free4) && ListAt(ram, head1k, l.free1)
  }

  lemma ListBounds(ram: Ram, head: nat, s: seq<Block>)
    requires ListAt(ram, head, s)
    ensures head < 0x1_0000_0000 && (head == NULL <==> s == [])
  {
  }

  /** The byte at offset `o` of frame `p` belongs to somebody. */
  ghost predicate OwnedByte(l: Ledger, p: nat, o: nat) {
    || (p in l.page && l.page[p].UsedPage?)
    || (Block(p, o / 1024) in l.chunk && l.chunk[Block(p, o / 1024)].UsedChunk?)
  }

  /** Two memories that differ only in bytes that belong to somebody. */
  ghost predicate SameUnowned(l: Ledger, ram: Ram, after: Ram) {
    forall p, o :: 0 <= p < 0x1_0000 && 0 <= o < 4096 && !OwnedByte(l, p, o) ==> after[p][o] == ram[p][o]
  }

  lemma OwnersCannotBreakList(l: Ledger, ram: Ram, after: Ram, head: nat, s: seq<Block>)
    requires ListAt(ram, head, s) && SameUnowned(l, ram, after)
    requires forall i, o :: 0 <= i < |s| && 1024 * s[i].quarter <= o < 1024 * s[i].quarter + 4 ==>
      !OwnedByte(l, s[i].page, o)
    ensures ListAt(after, head, s)
  {
    forall i | 0 <= i < |s|
      ensures LinkIn(after, s[i]) == LinkIn(ram, s[i])
    {
      var p, o := s[i].page, 1024 * s[i].quarter;
      assert !OwnedByte(l, p, o) && !OwnedByte(l, p, o + 1) && !OwnedByte(l, p, o + 2) && !OwnedByte(l, p, o + 3);
    }
  }

  /** Whatever owners write into their own pages and chunks, both free lists stay intact. */
  lemma OwnersCannotBreakLists(l: Ledger, ram: Ram, after: Ram, head4k: nat, head1k: nat)
    requires l.Valid() && Threaded(ram, head4k, head1k, l) && SameUnowned(l, ram, after)
    ensures Threaded(after, head4k, head1k, l)
  {
    forall i, o | 0 <= i < |l.free4| && 1024 * l.free4[i].quarter <= o < 1024 * l.free4[i].quarter + 4
      ensures !OwnedByte(l, l.free4[i].page, o)
    {
      assert l.free4[i] in l.free4;
    }
    forall i, o | 0 <= i < |l.free1| && 1024 * l.free1[i].quarter <= o < 1024 * l.free1[i].quarter + 4
      ensures !OwnedByte(l, l.free1[i].page, o)
    {
      assert l.free1[i] in l.free1;
      assert Block(l.free1[i].page, o / 1024) == l.free1[i];
    }
    OwnersCannotBreakList(l, ram, after, head4k, l.free4);
    OwnersCannotBreakList(l, ram, after, head1k, l.free1);
  }

  /** `after` manages, besides everything in `before`, exactly the free pages in [lo, hi). */
  ghost predicate Extended(before: Ledger, after: Ledger, lo: int, hi: int) {
    && (forall p :: p in after.page <==> p in before.page || lo <= p < hi)
    && (forall p <- after.page :: after.page[p] == if lo <= p < hi then FreePage else before.page[p])
    && |after.page| == |before.page| + (hi - lo)
    && after.chunk == before.chunk && after.free1 == before.free1 && after.splits == before.splits
    && after.usedPages == before.usedPages && after.usedChunks == before.usedChunks && after.peak == before.peak
  }

  lemma ExtendOne(start: Ledger, l: Ledger, lo: int, hi: nat)
    requires Extended(start, l, lo, hi) && hi !in start.page && lo <= hi
    ensures Extended(start, l.Give4(hi), lo, hi + 1)
  {
    assert hi !in l.page;
    OneMoreKey(l.page, hi, FreePage);
  }

  lemma OneMoreKey(m: map<nat, PageUse>, p: nat, use: PageUse)
    requires p !in m
    ensures |m[p := use]| == |m| + 1
  {
    assert m[p := use].Keys == m.Keys + {p};
  }

  /** Pages that are not on the 4K list have the same contents in both memories. */
  ghost predicate SameInUse(l: Ledger, ram: Ram, after: Ram) {
    forall p <- l.page :: p < 0x1_0000 && l.page[p] != FreePage ==> after[p] == ram[p]
  }

  /** The two memories differ at most inside the chunk `b`. */
  ghost predicate OnlyChunk(ram: Ram, after: Ram, b: Block) {
    && b.page < 0x1_0000 && b.quarter < 4
    && (forall p :: 0 <= p < 0x1_0000 && p != b.page ==> after[p] == ram[p])
    && (forall o :: 0 <= o < 4096 && !(1024 * b.quarter <= o < 1024 * b.quarter + 1024) ==>
          after[b.page][o] == ram[b.page][o])
  }

  /** Chunk `b`, which nobody owned, now belongs to `owner`; owned pages and chunks are as before. */
  ghost predicate ChunkTaken(l: Ledger, l': Ledger, b: Block, owner: ChunkUse) {
    && b.quarter < 4 && !(b in l.chunk && l.chunk[b].UsedChunk?)
    && b in l'.chunk && l'.chunk[b] == owner
    && (forall c <- l'.chunk :: c != b && l'.chunk[c].UsedChunk? ==> c in l.chunk && l.chunk[c] == l'.chunk[c])
    && (forall c <- l.chunk :: c in l'.chunk && (l.chunk[c].UsedChunk? ==> l'.chunk[c] == l.chunk[c]))
    && l'.page.Keys == l.page.Keys && |l'.page| == |l.page| && l'.usedPages == l.usedPages
    && (forall p <- l.page :: l.page[p].UsedPage? || l'.page[p].UsedPage? ==> l'.page[p] == l.page[p])
    && (forall p <- l.page :: l.page[p] == Split ==> l'.page[p] == Split)
    && l'.usedChunks == l.usedChunks + 1 && l'.peak == (if l.peak < l'.usedChunks then l'.usedChunks else l.peak)
  }

  lemma Take1Taken(l: Ledger, table: nat, section: nat)
    requires l.Valid() && (l.free1 != [] || l.free4 != [])
    ensures var m := if l.free1 == [] then l.SplitPage() else l;
      ChunkTaken(l, m.Take1(table, section), m.free1[0], UsedChunk(table, section))
  {
    if l.free1 == [] {
      assert l.free4[0] in l.free4;
      assert l.SplitPage().page.Keys == l.page.Keys;
    } else {
      assert l.free1[0] in l.free1;
    }
  }
}
