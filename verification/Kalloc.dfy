// kernel/memory/kalloc.c: physical RAM and the two free lists threaded through it.
module Kalloc {
  import opened Words
  import opened Ledgers

  class Kalloc {
    var ram: Ram
    var head4k: nat
    var head1k: nat
    ghost var ledger: Ledger

    ghost predicate Valid()
      reads this
    {
      ledger.Valid() && Threaded(ram, head4k, head1k, ledger)
    }

    /** Both lists start empty; RAM may hold anything. */
    constructor (ram: Ram)
      ensures Valid() && this.ram == ram && ledger == Ledger(map[], map[], [], [], 0, 0, 0, 0)
    {
      this.ram := ram;
      head4k, head1k := NULL, NULL;
      ledger := Ledger(map[], map[], [], [], 0, 0, 0, 0);
    }

    /** Writes the old head of a list into the block and returns the new head; any list
        that the block is not on stays what it was. */
    method PageListPrepend(list: nat, block: nat, ghost b: Block, ghost own: seq<Block>, ghost other: seq<Block>,
                           ghost otherHead: nat)
      returns (head: nat)
      requires block == P2V(b.Address()) && b.page < 0x1_0000 && b.quarter < 4
      requires ListAt(ram, list, own) && b !in own && ListAt(ram, otherHead, other) && b !in other
      modifies this`ram
      ensures head == block && LinkStored(old(ram), ram, b, list)
      ensures ListAt(ram, head, [b] + own) && ListAt(ram, otherHead, other)
    {
      Quotient(b.page, 1024 * b.quarter);
      ListBounds(ram, list, own);
      var p := V2P(block) / 4096;
      var frame := StoreWord(ram[p], V2P(block) % 4096, list);
      ram := ram[p := frame];
      head := block;
      PushList(old(ram), ram, list, own, b);
      KeepList(old(ram), ram, otherHead, other, b, list);
    }

    /** Adds the pages of a range of kernel addresses to the free list. */
    method KallocInit(start: nat, end: nat, ghost lo: nat, ghost hi: nat)
      requires Valid()
      requires RoundUp(start) == P2V(4096 * lo) && RoundDown(end) == P2V(4096 * hi) && lo <= hi <= 0x1_0000
      requires forall p :: lo <= p < hi ==> p !in ledger.page
      modifies this
      ensures Valid()
      ensures Extended(old(ledger), ledger, lo, hi)
      ensures forall p :: 0 <= p < 0x1_0000 && p in old(ledger).page ==> ram[p] == old(ram)[p]
    {
      var current := RoundUp(start);
      ghost var i := lo;
      while current != RoundDown(end)
        invariant lo <= i <= hi && current == P2V(4096 * i)
        invariant Valid()
        invariant Extended(old(ledger), ledger, lo, i)
        invariant forall p :: 0 <= p < 0x1_0000 && p in old(ledger).page ==> ram[p] == old(ram)[p]
        decreases hi - i
      {
        ExtendOne(old(ledger), ledger, lo, i);
        Give4Valid(ledger, i);
        head4k := PageListPrepend(head4k, current, Block(i, 0), ledger.free4, ledger.free1, head1k);
        ledger := ledger.Give4(i);
        current := current + 4096;
        i := i + 1;
      }
    }

    /** Pops the first free page, or returns NULL exactly when there is none. */
    method Alloc(ghost slot: nat, ghost index: nat) returns (result: nat)
      requires Valid()
      modifies this`head4k, this`ledger
      ensures Valid()
      ensures result == NULL <==> old(ledger).free4 == []
      ensures result == NULL ==> ledger == old(ledger)
      ensures result != NULL ==>
        result == P2V(4096 * old(ledger).free4[0].page) && ledger == old(ledger).Take4(slot, index)
    {
      result := NULL;
      ListBounds(ram, head4k, ledger.free4);
      if head4k != NULL {
        assert ledger.free4[0] in ledger.free4;
        Take4Valid(ledger, slot, index);
        PopList(ram, head4k, ledger.free4);
        result := head4k;
        head4k := Le32(ram[V2P(head4k) / 4096], V2P(head4k) % 4096);
        ledger := ledger.Take4(slot, index);
      }
    }

    /** Puts the owned page `p` back on the 4K list. */
    method Free(block: nat, ghost p: nat)
      requires Valid() && block == P2V(4096 * p)
      requires p in ledger.page && ledger.page[p].UsedPage? && ledger.usedPages > 0
      modifies this
      ensures Valid()
      ensures ledger == old(ledger).Give4(p)
      ensures LinkStored(old(ram), ram, Block(p, 0), old(head4k))
    {
      Give4Valid(ledger, p);
      head4k := PageListPrepend(head4k, block, Block(p, 0), ledger.free4, ledger.free1, head1k);
      ledger := ledger.Give4(p);
    }

    /** Puts the owned chunk `b` back on the 1K list. */
    method Free1k(block: nat, ghost b: Block)
      requires Valid() && block == P2V(b.Address())
      requires b in ledger.chunk && ledger.chunk[b].UsedChunk? && ledger.usedChunks > 0
      modifies this
      ensures Valid()
      ensures ledger == old(ledger).Give1(b)
      ensures LinkStored(old(ram), ram, b, old(head1k))
    {
      Give1Valid(ledger, b);
      head1k := PageListPrepend(head1k, block, b, ledger.free1, ledger.free4, head4k);
      ledger := ledger.Give1(b);
    }

    /** Threads the four quarters of a page onto the empty 1K list. */
    method ThreadQuarters(page: nat, ghost p: nat, ghost rest: seq<Block>)
      requires page == P2V(4096 * p) && p < 0x1_0000
      requires ListAt(ram, head1k, []) && ListAt(ram, head4k, rest)
      requires forall i :: 0 <= i < |rest| ==> rest[i].page != p
      modifies this`ram, this`head1k
      ensures ListAt(ram, head1k, [Block(p, 3), Block(p, 2), Block(p, 1), Block(p, 0)])
      ensures ListAt(ram, head4k, rest)
      ensures forall q :: 0 <= q < 0x1_0000 && q != p ==> ram[q] == old(ram)[q]
    {
      ghost var s0, s1 := [Block(p, 0)], [Block(p, 1), Block(p, 0)];
      ghost var s2 := [Block(p, 2), Block(p, 1), Block(p, 0)];
      head1k := PageListPrepend(head1k, page, Block(p, 0), [], rest, head4k);
      assert [Block(p, 0)] + [] == s0 && [Block(p, 1)] + s0 == s1 && [Block(p, 2)] + s1 == s2;
      head1k := PageListPrepend(head1k, page + 1024, Block(p, 1), s0, rest, head4k);
      head1k := PageListPrepend(head1k, page + 2048, Block(p, 2), s1, rest, head4k);
      head1k := PageListPrepend(head1k, page + 3072, Block(p, 3), s2, rest, head4k);
      assert [Block(p, 3)] + s2 == [Block(p, 3), Block(p, 2), Block(p, 1), Block(p, 0)];
    }

    /** Turns the first free page, if any, into four chunks on the empty 1K list. */
    method SplitOne()
      requires Valid() && ledger.free1 == []
      modifies this
      ensures Threaded(ram, head4k, head1k, ledger)
      ensures ledger == if old(ledger).free4 == [] then old(ledger) else old(ledger).SplitPage()
      ensures SameInUse(old(ledger), old(ram), ram)
    {
      ghost var l := ledger;
      var page := Alloc(0, 0);
      if page != NULL {
        ghost var p, rest := l.free4[0].page, l.free4[1..];
        assert l.free4[0] in l.free4;
        forall i | 0 <= i < |rest| ensures rest[i].page != p {
          assert rest[i] == l.free4[i + 1] && rest[i] in l.free4;
        }
        ThreadQuarters(page, p, rest);
        ledger := l.SplitPage();
        assert ledger.free1 == [Block(p, 3), Block(p, 2), Block(p, 1), Block(p, 0)];
      }
    }

    /** Pops a free chunk, splitting a page first if there is none; NULL exactly when memory is exhausted. */
    method Alloc1k(ghost table: nat, ghost section: nat) returns (result: nat, ghost b: Block)
      requires Valid()
      modifies this
      ensures Valid()
      ensures result == NULL <==> old(ledger).free1 == [] && old(ledger).free4 == []
      ensures result == NULL ==> ledger == old(ledger)
      ensures result != NULL ==>
        result == P2V(b.Address()) && ChunkTaken(old(ledger), ledger, b, UsedChunk(table, section))
      ensures SameInUse(old(ledger), old(ram), ram)
    {
      result, b := NULL, Block(0, 0);
      ghost var l := ledger;
      if l.free1 != [] || l.free4 != [] { Take1Taken(l, table, section); }
      ListBounds(ram, head1k, ledger.free1);
      if head1k == NULL {
        if ledger.free4 != [] { SplitTakeValid(ledger, table, section); }
        SplitOne();
      } else {
        Take1Valid(ledger, table, section);
      }
      ListBounds(ram, head1k, ledger.free1);
      if head1k != NULL {
        PopList(ram, head1k, ledger.free1);
        result, b := head1k, ledger.free1[0];
        head1k := Le32(ram[V2P(head1k) / 4096], V2P(head1k) % 4096);
        ledger := ledger.Take1(table, section);
      }
    }

    /** Walks both lists and adds up the sizes of their blocks. */
    method GetFreeMemorySize() returns (size: nat)
      requires Valid()
      ensures size == 1024 * |ledger.free1| + 4096 * |ledger.free4|
    {
      size := 0;
      var current := head1k;
      ghost var s := ledger.free1;
      ListBounds(ram, current, s);
      while current != NULL
        invariant ListAt(ram, current, s) && (current == NULL <==> s == [])
        invariant size + 1024 * |s| == 1024 * |ledger.free1|
        decreases |s|
      {
        PopList(ram, current, s);
        size := size + 1024;
        current := Le32(ram[V2P(current) / 4096], V2P(current) % 4096);
        s := s[1..];
        ListBounds(ram, current, s);
      }
      current := head4k;
      s := ledger.free4;
      ListBounds(ram, current, s);
      while current != NULL
        invariant ListAt(ram, current, s) && (current == NULL <==> s == [])
        invariant size + 4096 * |s| == 1024 * |ledger.free1| + 4096 * |ledger.free4|
        decreases |s|
      {
        PopList(ram, current, s);
        size := size + 4096;
        current := Le32(ram[V2P(current) / 4096], V2P(current) % 4096);
        s := s[1..];
        ListBounds(ram, current, s);
      }
    }
  
    /** Stores `frame` into a page that belongs to somebody. */
    method WritePage(p: nat, frame: Frame)
      requires Valid() && p in ledger.page && ledger.page[p].UsedPage?
      modifies this`ram
      ensures Valid() && ram == old(ram)[p := frame]
    {
      ram := ram[p := frame];
      OwnersCannotBreakLists(ledger, old(ram), ram, head4k, head1k);
    }

    /** Stores into the page of a chunk that belongs to somebody, inside that chunk. */
    method WriteChunk(ghost b: Block, page: nat, frame: Frame)
      requires Valid() && b in ledger.chunk && ledger.chunk[b].UsedChunk? && page == b.page
      requires OnlyChunk(ram, ram[b.page := frame], b)
      modifies this`ram
      ensures Valid() && ram == old(ram)[b.page := frame]
    {
      ram := ram[page := frame];
      forall p, o | 0 <= p < 0x1_0000 && 0 <= o < 4096 && !OwnedByte(ledger, p, o) ensures ram[p][o] == old(ram)[p][o] {
        assert Block(p, o / 1024) != b;
      }
      OwnersCannotBreakLists(ledger, old(ram), ram, head4k, head1k);
    }
  }
}
