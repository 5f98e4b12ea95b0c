// The heap of a slot as one run of bytes, and a program in it.
module Images {
  import opened Words
  import opened Ledgers
  import opened PageTables
  import opened Spaces
  import opened ForkCopy
  import opened Elf

  ghost predicate HeapPageIs(ram: Ram, pages: Pages, image: seq<byte>, j: nat) {
    && 2 + j in pages && pages[2 + j] < 0x1_0000 && 4096 * j + 4096 <= |image|
    && ram[pages[2 + j]] == image[4096 * j..4096 * j + 4096]
  }

  /** The first `n` heap pages hold `image`. */
  ghost predicate HeapIs(ram: Ram, pages: Pages, n: nat, image: seq<byte>) {
    |image| == 4096 * n && forall j :: 0 <= j < n ==> HeapPageIs(ram, pages, image, j)
  }

  lemma PutInPage(image: seq<byte>, j: nat, x: nat, data: seq<byte>)
    requires x + |data| <= 4096 && 4096 * j + 4096 <= |image|
    ensures PutBytes(image, 4096 * j + x, data)[4096 * j..4096 * j + 4096]
      == PutBytes(image[4096 * j..4096 * j + 4096], x, data)
  {
  }

  lemma PutOutsidePage(image: seq<byte>, j: nat, x: nat, data: seq<byte>, i: nat)
    requires x + |data| <= 4096 && 4096 * j + 4096 <= |image| && i != j && 4096 * i + 4096 <= |image|
    ensures PutBytes(image, 4096 * j + x, data)[4096 * i..4096 * i + 4096] == image[4096 * i..4096 * i + 4096]
  {
  }

  /** A store within one heap page is a store into the image. */
  lemma HeapStore(own: seq<Pages>, l: Ledger, ram: Ram, ram': Ram, t: nat, n: nat, image: seq<byte>, j: nat, x: nat,
                  data: seq<byte>)
    requires PagesOwned(own, l) && t < 10 && HeapIs(ram, own[t], n, image) && j < n && x + |data| <= 4096
    requires 2 + j in own[t] && own[t][2 + j] < 0x1_0000
    requires ram' == ram[own[t][2 + j] := PutBytes(ram[own[t][2 + j]], x, data)]
    ensures HeapIs(ram', own[t], n, PutBytes(image, 4096 * j + x, data))
  {
    var image' := PutBytes(image, 4096 * j + x, data);
    forall i | 0 <= i < n ensures HeapPageIs(ram', own[t], image', i) {
      assert HeapPageIs(ram, own[t], image, i) && HeapPageIs(ram, own[t], image, j);
      if i == j {
        PutInPage(image, j, x, data);
      } else {
        PagesDistinct(own, l, t, 2 + i, t, 2 + j);
        PutOutsidePage(image, j, x, data, i);
      }
    }
  }

  /** Putting the next part after the first part puts both. */
  lemma PutMore(image: seq<byte>, at: nat, data: seq<byte>, o: nat, n: nat)
    requires at + |data| <= |image| && o + n <= |data|
    ensures PutBytes(PutBytes(image, at, data[..o]), at + o, data[o..o + n]) == PutBytes(image, at, data[..o + n])
  {
  }

  /** A heap of zeroed pages is an image of zeros. */
  lemma ZeroHeap(ram: Ram, pages: Pages, n: nat)
    requires HasPages(pages, n) && ZeroFrom(ram, pages, 2)
    ensures HeapIs(ram, pages, n, seq(4096 * n, _ => 0))
  {
    var zeros: seq<byte> := seq(4096 * n, _ => 0);
    forall j | 0 <= j < n ensures HeapPageIs(ram, pages, zeros, j) {
      assert 2 + j in pages;
      assert ram[pages[2 + j]] == zeros[4096 * j..4096 * j + 4096];
    }
  }

  /** Contents that nobody changed still hold the image. */
  lemma HeapKept(ram: Ram, ram': Ram, pages: Pages, n: nat, image: seq<byte>)
    requires HeapIs(ram, pages, n, image)
    requires forall k {:trigger k in pages} :: k in pages && pages[k] < 0x1_0000 ==> ram'[pages[k]] == ram[pages[k]]
    ensures HeapIs(ram', pages, n, image)
  {
    forall j | 0 <= j < n ensures HeapPageIs(ram', pages, image, j) {
      assert HeapPageIs(ram, pages, image, j);
    }
  }

  /** Slot `t` holds `image` in its first `n` heap pages, and its page table maps them. */
  ghost predicate Loading(tables: seq<Table>, live: seq<set<nat>>, ram: Ram, own: seq<Pages>, t: nat, n: nat,
                          image: seq<byte>) {
    && |tables| == |live| == 11 && |own| == 10 && t < 10 && Held(tables, live, t)
    && HeapView(ram, tables[t], own[t], n) && HeapIs(ram, own[t], n, image)
  }

  /** Only heap pages of slot `t` were stored into. */
  ghost predicate OnlyHeap(tables: seq<Table>, live: seq<set<nat>>, own: seq<Pages>, ram: Ram, ram': Ram, t: nat) {
    ViewsKept(tables, live, ram, ram') && HeapOnly(own, ram, ram', t)
  }

  lemma OnlyHeapNothing(tables: seq<Table>, live: seq<set<nat>>, own: seq<Pages>, ram: Ram, t: nat)
    requires |tables| == |live| == 11
    ensures OnlyHeap(tables, live, own, ram, ram, t)
  {
  }

  lemma OnlyHeapTwice(tables: seq<Table>, live: seq<set<nat>>, own: seq<Pages>, r0: Ram, r1: Ram, r2: Ram, t: nat)
    requires OnlyHeap(tables, live, own, r0, r1, t) && OnlyHeap(tables, live, own, r1, r2, t)
    ensures OnlyHeap(tables, live, own, r0, r2, t)
  {
    ViewsKeptTwice(tables, live, r0, r1, r2);
    HeapOnlyTwice(own, r0, r1, r2, t);
  }

  lemma PutNothing(image: seq<byte>, at: nat, data: seq<byte>)
    requires at <= |image|
    ensures PutBytes(image, at, data[..0]) == image
  {
  }

  /** Both stacks of slot `t` are where they were and hold what they held. */
  ghost predicate StacksKept(own: seq<Pages>, own': seq<Pages>, ram: Ram, ram': Ram, t: nat) {
    && t < |own| && t < |own'|
    && forall k {:trigger own'[t][k]} :: 0 <= k < 2 && k in own[t] ==>
         k in own'[t] && own'[t][k] == own[t][k] && (own[t][k] < 0x1_0000 ==> ram'[own'[t][k]] == ram[own[t][k]])
  }

  /** After growing from nothing and then storing into the heap only, the others are apart and the stacks kept. */
  lemma GrewThenLoaded(kernelEnd: nat, tables: seq<Table>, live: seq<set<nat>>, ram: Ram, own: seq<Pages>,
                       tables': seq<Table>, live': seq<set<nat>>, ram1: Ram, own': seq<Pages>, ram2: Ram, t: nat,
                       n: nat)
    requires Grew(tables, live, ram, own, tables', live', ram1, own', t, 2)
      && OnlyHeap(tables', live', own', ram1, ram2, t)
    requires kernelEnd <= 0x80_0000 && Held(tables', live', t) && SpaceView(kernelEnd, ram1, tables'[t], own'[t])
    ensures Apart(tables, live, ram, own, tables', live', ram2, own', t)
    ensures StacksKept(own, own', ram, ram2, t) && SpaceView(kernelEnd, ram2, tables'[t], own'[t])
  {
    GrewApart(tables, live, ram, own, tables', live', ram1, own', t, 2);
    HeapOnlyApart(tables', live', own', ram1, ram2, t);
    ApartTwice(tables, live, ram, own, tables', live', ram1, own', tables', live', ram2, own', t);
    SpaceViewKept(kernelEnd, tables', live', ram1, ram2, own'[t], t);
    forall k | 0 <= k < 2 && k in own[t]
      ensures k in own'[t] && own'[t][k] == own[t][k] && (own[t][k] < 0x1_0000 ==> ram2[own'[t][k]] == ram[own[t][k]])
    {
      assert own[t][k] < 0x1_0000 ==> ram1[own'[t][k]] == ram[own[t][k]];
      assert own[t][k] < 0x1_0000 ==> ram2[own'[t][k]] == ram1[own'[t][k]];
    }
  }

  lemma NothingApart(tables: seq<Table>, live: seq<set<nat>>, ram: Ram, own: seq<Pages>, t: nat)
    requires |tables| == |live| == 11 && |own| == 10 && t < 10
    ensures Apart(tables, live, ram, own, tables, live, ram, own, t) && StacksKept(own, own, ram, ram, t)
  {
  }

  lemma ReadyToLoad(kernelEnd: nat, tables: seq<Table>, live: seq<set<nat>>, ram: Ram, own: seq<Pages>, t: nat, n: nat)
    requires kernelEnd <= 0x80_0000 && |tables| == |live| == 11 && |own| == 10 && t < 10 && Held(tables, live, t)
    requires HasPages(own[t], n) && SpaceView(kernelEnd, ram, tables[t], own[t]) && ZeroFrom(ram, own[t], 2)
    ensures Loading(tables, live, ram, own, t, n, seq(4096 * n, _ => 0))
  {
    SpaceHasHeap(kernelEnd, ram, tables[t], own[t], n);
    ZeroHeap(ram, own[t], n);
  }

  /** The context of a program that is about to start: user mode, at its entry, with an empty stack. */
  function StartContext(entry: nat): (c: seq<int>)
    ensures |c| == 17
  {
    seq(17, _ => 0)[0 := 0x10][1 := entry][15 := 0x7fff_d000 + 4096]
  }

  /** The saved registers, in the order of the context array. */
  datatype Registers = Registers(cpsr: int, restart: int, general: seq<int>, sp: int, lr: int)

  function ContextOf(r: Registers): (c: seq<int>)
    requires |r.general| == 13
    ensures |c| == 17
  {
    [r.cpsr, r.restart] + r.general + [r.sp, r.lr]
  }

  /** A program starts in user mode at its entry, with the stack pointer at the top of the user stack and
      every other register 0. */
  lemma StartRegisters(entry: nat)
    ensures StartContext(entry) == ContextOf(Registers(0x10, entry, seq(13, _ => 0), 0x7fff_e000, 0))
  {
  }

  /** A child has its parent's registers but for R0, which is 0. */
  lemma ChildRegisters(ram: Ram, own: seq<Pages>, procs: seq<Process>, c: nat, p: nat, r: Registers)
    requires |own| == |procs| == 10 && c < 10 && p < 10 && Forked(ram, own, procs, c, p)
    requires |r.general| == 13 && procs[p].context == ContextOf(r)
    ensures procs[c].context == ContextOf(r.(general := r.general[0 := 0]))
  {
  }

  /** Slot `t` holds the program `bytes`. */
  ghost predicate HoldsProgram(ram: Ram, pages: Pages, p: Process, bytes: seq<byte>) {
    && Loadable(bytes) && HasPages(pages, ProgramPages(bytes))
      && HeapIs(ram, pages, ProgramPages(bytes), ProgramImage(bytes))
    && p.entry == HeaderOf(bytes).entry && p.context == StartContext(p.entry)
  }

  /** Both stacks are there and empty. */
  ghost predicate FreshStacks(ram: Ram, pages: Pages) {
    forall k: nat {:trigger k in pages} :: k < 2 ==> k in pages && pages[k] < 0x1_0000 && AllZero(ram[pages[k]])
  }

  /** A program that is about to start: its image and empty stacks. */
  ghost predicate FreshProgram(ram: Ram, pages: Pages, p: Process, bytes: seq<byte>) {
    HoldsProgram(ram, pages, p, bytes) && FreshStacks(ram, pages)
  }

  /** Zeroed stacks that loading left alone. */
  lemma StacksStayFresh(own: seq<Pages>, own': seq<Pages>, ram: Ram, ram': Ram, t: nat)
    requires StacksKept(own, own', ram, ram', t) && HasPages(own[t], 0) && ZeroFrom(ram, own[t], 0)
    ensures FreshStacks(ram', own'[t])
  {
    forall k: nat | k < 2 ensures k in own'[t] && own'[t][k] < 0x1_0000 && AllZero(ram'[own'[t][k]]) {
      assert k in own[t];
      assert own'[t][k] == own[t][k];
    }
  }

  /** A program stays where it is while another slot is worked on. */
  lemma ProgramKept(tables: seq<Table>, live: seq<set<nat>>, ram: Ram, own: seq<Pages>,
                    tables': seq<Table>, live': seq<set<nat>>, ram': Ram, own': seq<Pages>, t: nat, u: nat, p: Process,
                    bytes: seq<byte>)
    requires Apart(tables, live, ram, own, tables', live', ram', own', t) && u < 10 && u != t
    requires FreshProgram(ram, own[u], p, bytes)
    ensures FreshProgram(ram', own'[u], p, bytes)
  {
    forall k | k in own[u] && own[u][k] < 0x1_0000 ensures ram'[own[u][k]] == ram[own[u][k]] {}
    HeapKept(ram, ram', own[u], ProgramPages(bytes), ProgramImage(bytes));
  }
}
