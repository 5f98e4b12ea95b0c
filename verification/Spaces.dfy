// What a process slot of kernel/proc/proc.c owns: its pages and its address space.
module Spaces {
  import opened Words
  import opened Ledgers
  import opened PageTables

  datatype State = UNUSED | CREATED | SLEEPING | READY | RUNNING | TERMINATED

  datatype Process = Process(
    state: State, pid: int, entry: nat, heapSize: nat,
    userStack: nat, kernelStack: nat, context: seq<int>, waitPid: int)

  /** The pages of a slot by index: 0 is its kernel stack, 1 its user stack, 2 + i its heap page i. */
  type Pages = map<nat, nat>

  /** Only the record of slot `t` may differ. */
  ghost predicate ProcsBut(procs: seq<Process>, procs': seq<Process>, t: nat) {
    |procs| == |procs'| == 10 && forall u :: 0 <= u < 10 && u != t ==> procs'[u] == procs[u]
  }

  ghost predicate AllUsed(procs: seq<Process>) {
    forall u :: 0 <= u < |procs| ==> procs[u].state != UNUSED
  }

  /** Slot `t` is the first unused one. */
  ghost predicate FirstFree(procs: seq<Process>, t: nat) {
    t < |procs| && procs[t].state == UNUSED && forall u :: 0 <= u < t ==> procs[u].state != UNUSED
  }

  ghost function With(m: Pages, k: nat, p: nat): Pages { m[k := p] }

  ghost function Without(m: Pages, k: nat): Pages { m - {k} }

  ghost function KeySets(own: seq<Pages>): (r: seq<set<nat>>)
    ensures |r| == |own| && forall t :: 0 <= t < |own| ==> r[t] == own[t].Keys
  {
    seq(|own|, t requires 0 <= t < |own| => own[t].Keys)
  }

  ghost predicate SlotsHavePages(own: seq<Pages>, l: Ledger)
    requires |own| == 10
  {
    forall t, k {:trigger own[t][k] in l.page} {:trigger l.page[own[t][k]]} :: 0 <= t < 10 && k in own[t] ==>
      own[t][k] in l.page && l.page[own[t][k]] == UsedPage(t, k)
  }

  ghost predicate PagesHaveSlots(own: seq<Pages>, l: Ledger)
    requires |own| == 10
  {
    forall p {:trigger l.page[p].UsedPage?} :: p in l.page && l.page[p].UsedPage? ==>
      var t, k := l.page[p].slot, l.page[p].index;
      t < 10 && k in own[t] && own[t][k] == p
  }

  /** Every page of every slot is owned by that slot alone, and no owned page is forgotten. */
  ghost predicate PagesOwned(own: seq<Pages>, l: Ledger) {
    && |own| == 10
    && (forall t :: 0 <= t < 10 ==> |own[t]| <= 258)
    && SlotsHavePages(own, l)
    && PagesHaveSlots(own, l)
    && l.usedPages == Total(KeySets(own))
  }

  lemma CountWith(own: seq<Pages>, t: nat, k: nat, p: nat)
    requires t < |own| && k !in own[t]
    ensures |With(own[t], k, p)| == |own[t]| + 1
    ensures Total(KeySets(own[t := With(own[t], k, p)])) == Total(KeySets(own)) + 1
  {
    var m := With(own[t], k, p);
    assert m.Keys == own[t].Keys + {k};
    assert KeySets(own[t := m]) == KeySets(own)[t := m.Keys];
    TotalUpdate(KeySets(own), t, m.Keys);
  }

  lemma CountWithout(own: seq<Pages>, t: nat, k: nat)
    requires t < |own| && k in own[t]
    ensures |Without(own[t], k)| == |own[t]| - 1
    ensures Total(KeySets(own[t := Without(own[t], k)])) == Total(KeySets(own)) - 1
  {
    var m := Without(own[t], k);
    assert own[t].Keys == m.Keys + {k};
    assert KeySets(own[t := m]) == KeySets(own)[t := m.Keys];
    TotalUpdate(KeySets(own), t, m.Keys);
  }

  /** Labelling a page nobody owned as page `k` of slot `t`. */
  lemma LabelPage(own: seq<Pages>, l: Ledger, t: nat, k: nat, p: nat)
    requires |own| == 10 && SlotsHavePages(own, l) && PagesHaveSlots(own, l)
    requires t < 10 && k !in own[t] && p in l.page && !l.page[p].UsedPage?
    ensures SlotsHavePages(own[t := With(own[t], k, p)], l.(page := l.page[p := UsedPage(t, k)]))
    ensures PagesHaveSlots(own[t := With(own[t], k, p)], l.(page := l.page[p := UsedPage(t, k)]))
  {
    var own', l' := own[t := With(own[t], k, p)], l.(page := l.page[p := UsedPage(t, k)]);
    forall u, i | 0 <= u < 10 && i in own'[u] ensures own'[u][i] in l'.page && l'.page[own'[u][i]] == UsedPage(u, i) {
      if u != t || i != k { assert i in own[u]; }
    }
  }

  lemma UnlabelPage(own: seq<Pages>, l: Ledger, t: nat, k: nat)
    requires |own| == 10 && SlotsHavePages(own, l) && PagesHaveSlots(own, l) && t < 10 && k in own[t]
    ensures SlotsHavePages(own[t := Without(own[t], k)], l.(page := l.page[own[t][k] := FreePage]))
    ensures PagesHaveSlots(own[t := Without(own[t], k)], l.(page := l.page[own[t][k] := FreePage]))
  {
    var own', l' := own[t := Without(own[t], k)], l.(page := l.page[own[t][k] := FreePage]);
    forall u, i | 0 <= u < 10 && i in own'[u] ensures own'[u][i] in l'.page && l'.page[own'[u][i]] == UsedPage(u, i) {
      assert i in own[u];
    }
  }

  /** Relabelling a page does not change which pages are managed. */
  lemma SameManaged(page: map<nat, PageUse>, p: nat, use: PageUse)
    requires p in page
    ensures page[p := use].Keys == page.Keys
  {
  }

  lemma TakeOwned(own: seq<Pages>, l: Ledger, t: nat, k: nat)
    requires PagesOwned(own, l) && l.Valid() && l.free4 != [] && t < 10 && k !in own[t] && |own[t]| < 258
    ensures PagesOwned(own[t := With(own[t], k, l.free4[0].page)], l.Take4(t, k))
  {
    assert l.free4[0] in l.free4;
    CountWith(own, t, k, l.free4[0].page);
    LabelPage(own, l, t, k, l.free4[0].page);
  }

  lemma GiveOwned(own: seq<Pages>, l: Ledger, t: nat, k: nat)
    requires PagesOwned(own, l) && t < 10 && k in own[t]
    ensures l.usedPages > 0
    ensures PagesOwned(own[t := Without(own[t], k)], l.Give4(own[t][k]))
  {
    CountWithout(own, t, k);
    UnlabelPage(own, l, t, k);
  }

  /** Between two ledgers pages were only given back. */
  ghost predicate OnlyFrees(l: Ledger, l': Ledger) {
    forall p <- l.page ::
      p in l'.page && (l'.page[p] == l.page[p] || (l.page[p].UsedPage? && l'.page[p] == FreePage))
  }

  lemma OnlyFreesTwice(l: Ledger, m: Ledger, n: Ledger)
    requires OnlyFrees(l, m) && OnlyFrees(m, n)
    ensures OnlyFrees(l, n)
  {
  }

  lemma GiveOnlyFrees(own: seq<Pages>, l: Ledger, t: nat, k: nat)
    requires PagesOwned(own, l) && t < 10 && k in own[t]
    ensures OnlyFrees(l, l.Give4(own[t][k]))
  {
    assert l.page[own[t][k]] == UsedPage(t, k);
  }

  ghost predicate ViewsKept(tables: seq<Table>, live: seq<set<nat>>, ram: Ram, ram': Ram) {
    && |tables| == |live| == 11
    && forall u :: 0 <= u < 11 && Held(tables, live, u) ==> SameView(ram, tables[u], ram', tables[u])
  }

  /** The memories differ at most in frame `p`. */
  ghost predicate OnlyFrame(ram: Ram, ram': Ram, p: nat) {
    forall q :: 0 <= q < 0x1_0000 && q != p ==> ram'[q] == ram[q]
  }

  /** Storing into a page that belongs to a slot changes no table set's view. */
  lemma PageStoreKeepsViews(tables: seq<Table>, live: seq<set<nat>>, l: Ledger, ram: Ram, ram': Ram, p: nat)
    requires TablesOwned(tables, live, l) && l.Shaped() && p in l.page && l.page[p].UsedPage? && OnlyFrame(ram, ram', p)
    ensures ViewsKept(tables, live, ram, ram')
  {
    forall u, s, j | 0 <= u < 11 && Held(tables, live, u) && 0 <= s < 4096 && 0 <= j < 256
      ensures Lookup(ram', tables[u], s, j) == Lookup(ram, tables[u], s, j)
    {
      if tables[u][s].desc != 0 {
        assert s in live[u];
        assert tables[u][s].base in l.chunk;
      }
    }
  }

  /** Every slot's pages but (t, k) have the same contents. */
  ghost predicate PagesBut(own: seq<Pages>, ram: Ram, ram': Ram, t: nat, k: nat) {
    forall u, i {:trigger ram'[own[u][i]]} ::
      0 <= u < |own| && i in own[u] && (u, i) != (t, k) && own[u][i] < 0x1_0000 ==>
      ram'[own[u][i]] == ram[own[u][i]]
  }

  /** No page is owned twice. */
  lemma PagesDistinct(own: seq<Pages>, l: Ledger, u: nat, i: nat, t: nat, k: nat)
    requires PagesOwned(own, l) && u < 10 && i in own[u] && t < 10 && k in own[t] && (u != t || i != k)
    ensures own[u][i] != own[t][k]
  {
    assert l.page[own[u][i]] == UsedPage(u, i) && l.page[own[t][k]] == UsedPage(t, k);
  }

  lemma OnlyFramePagesBut(own: seq<Pages>, l: Ledger, ram: Ram, ram': Ram, t: nat, k: nat)
    requires PagesOwned(own, l) && t < 10 && k in own[t] && OnlyFrame(ram, ram', own[t][k])
    ensures PagesBut(own, ram, ram', t, k)
  {
    forall u, i | 0 <= u < 10 && i in own[u] && (u, i) != (t, k) ensures own[u][i] != own[t][k] {
      PagesDistinct(own, l, u, i, t, k);
    }
  }

  /** A slot never needs more than 258 pages, so ten slots never need more than 2580. */
  lemma {:induction false} TotalAtMost(sets: seq<set<nat>>, most: nat)
    requires forall t :: 0 <= t < |sets| ==> |sets[t]| <= most
    ensures Total(sets) <= most * |sets|
  {
    if sets != [] {
      var n := |sets| - 1;
      TotalAtMost(sets[..n], most);
      assert most * |sets| == most * n + most;
    }
  }

  lemma RoomForPage(own: seq<Pages>, l: Ledger, t: nat, k: nat)
    requires PagesOwned(own, l) && t < 10 && k !in own[t] && |own[t]| < 258
    ensures l.usedPages < 2580
  {
    var keys := KeySets(own);
    var more := keys[t := keys[t] + {k}];
    TotalUpdate(keys, t, keys[t] + {k});
    forall u | 0 <= u < 10 ensures |keys[u]| <= 258 { assert keys[u] == own[u].Keys; }
    TotalAtMost(more, 258);
  }

  lemma SameChunksOwned(tables: seq<Table>, live: seq<set<nat>>, l: Ledger, l': Ledger)
    requires TablesOwned(tables, live, l) && l'.chunk == l.chunk && l'.usedChunks == l.usedChunks
    ensures TablesOwned(tables, live, l')
  {
  }

  /** Slots only gained pages: every page they had is still theirs, with the same contents. */
  ghost predicate PagesGrown(own: seq<Pages>, own': seq<Pages>, ram: Ram, ram': Ram) {
    && |own| == |own'|
    && forall u, i {:trigger i in own[u]} :: 0 <= u < |own| && i in own[u] ==>
         i in own'[u] && own'[u][i] == own[u][i] && (own[u][i] < 0x1_0000 ==> ram'[own[u][i]] == ram[own[u][i]])
  }

  lemma KeepOwned(own: seq<Pages>, l: Ledger, ram: Ram, l': Ledger, ram': Ram)
    requires PagesOwned(own, l) && PagesKept(l, ram, l', ram')
    ensures PagesOwned(own, l') && PagesGrown(own, own, ram, ram')
  {
  }

  /** The page-table word of page `j` of section `s` in the address space of a slot. */
  ghost function SpaceWord(kernelEnd: nat, pages: Pages, s: nat, j: nat): nat
    requires kernelEnd <= 0x80_0000
  {
    if s == 0 && 2 + j in pages then Pte(pages[2 + j], 0xff)
    else if s == 0x7ff && j == 0xfe && 0 in pages then Pte(pages[0], 0xaa)
    else if s == 0x7ff && j == 0xfd && 1 in pages then Pte(pages[1], 0xff)
    else KernelWord(kernelEnd, 6, 256 * s + j)
  }

  /** The table set maps exactly the kernel, the slot's stacks and its heap. */
  ghost predicate SpaceView(kernelEnd: nat, ram: Ram, table: Table, pages: Pages)
    requires kernelEnd <= 0x80_0000
  {
    forall s, j :: 0 <= s < 4096 && 0 <= j < 256 ==> Lookup(ram, table, s, j) == SpaceWord(kernelEnd, pages, s, j)
  }

  lemma SameSpaceView(kernelEnd: nat, ram: Ram, ram': Ram, table: Table, pages: Pages)
    requires kernelEnd <= 0x80_0000 && SpaceView(kernelEnd, ram, table, pages) && SameView(ram, table, ram', table)
    ensures SpaceView(kernelEnd, ram', table, pages)
  {
  }

  /** A slot with both stacks and `n` heap pages. */
  ghost predicate HasPages(pages: Pages, n: nat) {
    n <= 256 && forall k: nat {:trigger k in pages} :: k in pages <==> k < n + 2
  }

  ghost function Upto(n: nat): (r: set<nat>)
    ensures |r| == n && forall k: nat :: k in r <==> k < n
  {
    if n == 0 then {} else Upto(n - 1) + {n - 1}
  }

  lemma PageCount(pages: Pages, n: nat)
    requires HasPages(pages, n)
    ensures |pages| == n + 2
  {
    assert pages.Keys == Upto(n + 2);
  }

  /** The pages with index lo and up are all zero. */
  ghost predicate ZeroFrom(ram: Ram, pages: Pages, lo: nat) {
    forall k <- pages :: lo <= k ==> pages[k] < 0x1_0000 && AllZero(ram[pages[k]])
  }

  /** Slot `t` grew by zeroed pages, indices `lo` and up; nobody else is touched. */
  ghost predicate Grew(tables: seq<Table>, live: seq<set<nat>>, ram: Ram, own: seq<Pages>,
                       tables': seq<Table>, live': seq<set<nat>>, ram': Ram, own': seq<Pages>, t: nat, lo: nat)
  {
    && t < |own| == |own'| == 10
    && (forall u :: 0 <= u < 10 && u != t ==> own'[u] == own[u])
    && OthersKept(tables, live, ram, tables', live', ram', t)
    && PagesGrown(own, own', ram, ram')
    && ZeroFrom(ram', own'[t], lo)
  }

  lemma GrewTwice(ta: seq<Table>, la: seq<set<nat>>, ra: Ram, oa: seq<Pages>, tb: seq<Table>, lb: seq<set<nat>>,
                  rb: Ram, ob: seq<Pages>,
                  tc: seq<Table>, lc: seq<set<nat>>, rc: Ram, oc: seq<Pages>, t: nat, lo: nat, n: nat)
    requires Grew(ta, la, ra, oa, tb, lb, rb, ob, t, lo) && Grew(tb, lb, rb, ob, tc, lc, rc, oc, t, n + 2)
      && HasPages(ob[t], n)
    ensures Grew(ta, la, ra, oa, tc, lc, rc, oc, t, lo)
  {
    OthersKeptTwice(ta, la, ra, tb, lb, rb, tc, lc, rc, t);
    forall k | k in oc[t] && lo <= k ensures oc[t][k] < 0x1_0000 && AllZero(rc[oc[t][k]]) {
      if k < n + 2 { assert k in ob[t]; }
    }
  }

  lemma HeapViewGrows(kernelEnd: nat, ram: Ram, table: Table, ram': Ram, table': Table, pages: Pages, n: nat, p: nat)
    requires kernelEnd <= 0x80_0000 && SpaceView(kernelEnd, ram, table, pages) && HasPages(pages, n) && n < 256
    requires Mapped(ram, table, ram', table', n, 1, p, 0xff)
    ensures SpaceView(kernelEnd, ram', table', With(pages, n + 2, p)) && HasPages(With(pages, n + 2, p), n + 1)
  {
  }

  /** A fresh zeroed page, then its mapping: the slot's heap is one page longer. */
  lemma HeapGrew(kernelEnd: nat, tables: seq<Table>, live: seq<set<nat>>, ram: Ram, own: seq<Pages>, ram1: Ram,
                 tables': seq<Table>, live': seq<set<nat>>, ram': Ram, own': seq<Pages>, t: nat, n: nat, p: nat)
    requires kernelEnd <= 0x80_0000 && |own| == 10 && t < 10 && n < 256 && p < 0x1_0000
    requires ViewsKept(tables, live, ram, ram1) && AllZero(ram1[p]) && PagesGrown(own, own', ram, ram1)
    requires OthersKept(tables, live, ram1, tables', live', ram', t) && PagesGrown(own', own', ram1, ram')
    requires Mapped(ram1, tables[t], ram', tables'[t], n, 1, p, 0xff)
    requires own' == own[t := With(own[t], n + 2, p)]
    requires Held(tables, live, t) && HasPages(own[t], n) && SpaceView(kernelEnd, ram, tables[t], own[t])
    ensures Grew(tables, live, ram, own, tables', live', ram', own', t, n + 2)
    ensures HasPages(own'[t], n + 1) && SpaceView(kernelEnd, ram', tables'[t], own'[t])
  {
    SameSpaceView(kernelEnd, ram, ram1, tables[t], own[t]);
    HeapViewGrows(kernelEnd, ram1, tables[t], ram', tables'[t], own[t], n, p);
    OthersKeptTwice(tables, live, ram, tables, live, ram1, tables', live', ram', t);
    assert n + 2 in own'[t];
  }

  /** Nobody but slot `t` is touched: table sets, views, pages and their contents. */
  ghost predicate Apart(tables: seq<Table>, live: seq<set<nat>>, ram: Ram, own: seq<Pages>,
                        tables': seq<Table>, live': seq<set<nat>>, ram': Ram, own': seq<Pages>, t: nat)
  {
    && |own| == |own'| == 10
    && (forall u :: 0 <= u < 10 && u != t ==> own'[u] == own[u])
    && OthersKept(tables, live, ram, tables', live', ram', t)
    && (forall u, i {:trigger ram'[own[u][i]]} :: 0 <= u < 10 && u != t && i in own[u] && own[u][i] < 0x1_0000 ==>
          ram'[own[u][i]] == ram[own[u][i]])
  }

  lemma ApartTwice(ta: seq<Table>, la: seq<set<nat>>, ra: Ram, oa: seq<Pages>, tb: seq<Table>, lb: seq<set<nat>>,
                   rb: Ram, ob: seq<Pages>,
                   tc: seq<Table>, lc: seq<set<nat>>, rc: Ram, oc: seq<Pages>, t: nat)
    requires Apart(ta, la, ra, oa, tb, lb, rb, ob, t) && Apart(tb, lb, rb, ob, tc, lc, rc, oc, t)
    ensures Apart(ta, la, ra, oa, tc, lc, rc, oc, t)
  {
    OthersKeptTwice(ta, la, ra, tb, lb, rb, tc, lc, rc, t);
    forall u, i | 0 <= u < 10 && u != t && i in oa[u] && oa[u][i] < 0x1_0000 ensures rc[oa[u][i]] == ra[oa[u][i]] {
      assert i in ob[u];
    }
  }

  lemma GrewApart(tables: seq<Table>, live: seq<set<nat>>, ram: Ram, own: seq<Pages>,
                  tables': seq<Table>, live': seq<set<nat>>, ram': Ram, own': seq<Pages>, t: nat, lo: nat)
    requires Grew(tables, live, ram, own, tables', live', ram', own', t, lo)
    ensures Apart(tables, live, ram, own, tables', live', ram', own', t)
  {
  }

  /** Giving back page `k` of slot `t` disturbs nobody else. */
  lemma GiveApart(tables: seq<Table>, live: seq<set<nat>>, ram: Ram, own: seq<Pages>, ram': Ram, t: nat, k: nat)
    requires |own| == 10 && t < 10 && ViewsKept(tables, live, ram, ram') && PagesBut(own, ram, ram', t, k)
    ensures Apart(tables, live, ram, own, tables, live, ram', own[t := Without(own[t], k)], t)
  {
  }

  /** Heap page `j` of a slot is mapped where the slot has it. */
  ghost predicate HeapPageMapped(ram: Ram, table: Table, pages: Pages, j: nat) {
    j < 256 && 2 + j in pages && Lookup(ram, table, 0, j) == Pte(pages[2 + j], 0xff)
  }

  /** The first `n` heap pages of a slot, as its page table has them. */
  ghost predicate HeapView(ram: Ram, table: Table, pages: Pages, n: nat) {
    forall j :: 0 <= j < n ==> HeapPageMapped(ram, table, pages, j)
  }

  lemma SpaceHasHeap(kernelEnd: nat, ram: Ram, table: Table, pages: Pages, n: nat)
    requires kernelEnd <= 0x80_0000 && SpaceView(kernelEnd, ram, table, pages) && HasPages(pages, n)
    ensures HeapView(ram, table, pages, n)
  {
  }

  lemma HeapPageTable(ram: Ram, table: Table, pages: Pages, n: nat)
    requires HeapView(ram, table, pages, n) && n > 0
    ensures table[0].desc != 0 && n <= 256
    ensures n + 1 in pages && Lookup(ram, table, 0, n - 1) == Pte(pages[n + 1], 0xff)
  {
    assert HeapPageMapped(ram, table, pages, n - 1);
  }

  /** After page n - 1 of the heap is freed and unmapped. */
  lemma HeapViewShrinks(ram: Ram, ram1: Ram, ram': Ram, table: Table, pages: Pages, n: nat, w: nat)
    requires HeapView(ram, table, pages, n) && n > 0
    requires SameView(ram, table, ram1, table) && OneChanged(ram1, table, ram', table, 0, n - 1, w)
    ensures HeapView(ram', table, Without(pages, n + 1), n - 1)
  {
    var rest := Without(pages, n + 1);
    forall j | 0 <= j < n - 1 ensures HeapPageMapped(ram', table, rest, j) {
      assert HeapPageMapped(ram, table, pages, j);
      assert Lookup(ram1, table, 0, j) == Lookup(ram, table, 0, j);
    }
  }

  /** The pages left after the heap shrank from `n` to `m` pages. */
  ghost predicate Shrunk(pages: Pages, pages': Pages, n: nat, m: nat) {
    && (forall k :: k in pages' <==> k in pages && !(m + 2 <= k < n + 2))
    && (forall k <- pages' :: k in pages && pages'[k] == pages[k])
  }

  lemma ShrunkOnce(pages: Pages, n: nat)
    requires n > 0 && n + 1 in pages
    ensures Shrunk(pages, Without(pages, n + 1), n, n - 1)
  {
  }

  lemma ShrunkTwice(a: Pages, b: Pages, c: Pages, n: nat, m: nat)
    requires 0 < m <= n && Shrunk(a, b, n, m) && Shrunk(b, c, m, m - 1)
    ensures Shrunk(a, c, n, m - 1)
  {
  }

  ghost predicate Empty(pages: Pages) {
    forall k :: k !in pages
  }

  /** A slot whose stacks and whole heap are gone owns nothing. */
  lemma AllShed(pages: Pages, pages': Pages, n: nat)
    requires HasPages(pages, n) && Shrunk(Without(Without(pages, 0), 1), pages', n, 0)
    ensures Empty(pages')
  {
  }

  /** Losing a stack does not change the heap part of a view. */
  lemma HeapViewLosesStack(ram: Ram, ram': Ram, table: Table, pages: Pages, n: nat, k: nat)
    requires HeapView(ram, table, pages, n) && SameView(ram, table, ram', table) && k < 2
    ensures HeapView(ram', table, Without(pages, k), n)
  {
    forall j | 0 <= j < n ensures HeapPageMapped(ram', table, Without(pages, k), j) {
      assert HeapPageMapped(ram, table, pages, j);
      assert Lookup(ram', table, 0, j) == Lookup(ram, table, 0, j);
    }
  }

  /** A zeroed page for slot `t`, before anything maps it. */
  lemma TookApart(tables: seq<Table>, live: seq<set<nat>>, ram: Ram, own: seq<Pages>, ram': Ram, own': seq<Pages>,
                  t: nat)
    requires |own| == 10 && t < 10 && ViewsKept(tables, live, ram, ram') && PagesGrown(own, own', ram, ram')
    requires forall u :: 0 <= u < 10 && u != t ==> own'[u] == own[u]
    ensures Apart(tables, live, ram, own, tables, live, ram', own', t)
  {
  }

  lemma MappedApart(tables: seq<Table>, live: seq<set<nat>>, ram: Ram, own: seq<Pages>,
                    tables': seq<Table>, live': seq<set<nat>>, ram': Ram, t: nat)
    requires |own| == 10 && t < 10 && OthersKept(tables, live, ram, tables', live', ram', t)
      && PagesGrown(own, own, ram, ram')
    ensures Apart(tables, live, ram, own, tables', live', ram', own, t)
  {
  }

  /** These pages are on the 4K list and the page tables of these sections on the 1K list. */
  ghost predicate Released(l: Ledger, pages: Pages, table: Table, sections: set<nat>) {
    && (forall k <- pages :: Block(pages[k], 0) in l.free4)
    && (forall s <- sections :: s < 4096 && table[s].base in l.free1)
  }

  /** A slot that ends up owning nothing, while pages were only given back, has released all it had. */
  lemma AllReleased(tables: seq<Table>, live: seq<set<nat>>, own: seq<Pages>, l: Ledger,
                    tables': seq<Table>, live': seq<set<nat>>, own': seq<Pages>, l': Ledger, t: nat)
    requires l.Valid() && TablesOwned(tables, live, l) && PagesOwned(own, l) && t < 10
    requires l'.Valid() && TablesOwned(tables', live', l') && PagesOwned(own', l') && OnlyFrees(l, l')
    requires Empty(own'[t]) && live'[t] == {}
    requires forall u :: 0 <= u < 11 && u != t ==> tables'[u] == tables[u] && live'[u] == live[u]
    ensures Released(l', own[t], tables[t], live[t])
  {
    forall k | k in own[t] ensures Block(own[t][k], 0) in l'.free4 {
      assert l.page[own[t][k]] == UsedPage(t, k);
      assert !l'.page[own[t][k]].UsedPage?;
    }
    forall s | s in live[t] ensures s < 4096 && tables[t][s].base in l'.free1 {
      ChunkReleased(tables, live, l, tables', live', l', t, s);
    }
  }

  lemma ChunkReleased(tables: seq<Table>, live: seq<set<nat>>, l: Ledger,
                      tables': seq<Table>, live': seq<set<nat>>, l': Ledger, t: nat, s: nat)
    requires l.Valid() && TablesOwned(tables, live, l) && t < 10 && s in live[t]
    requires l'.Valid() && TablesOwned(tables', live', l') && OnlyFrees(l, l') && live'[t] == {}
    requires forall u :: 0 <= u < 11 && u != t ==> tables'[u] == tables[u] && live'[u] == live[u]
    ensures s < 4096 && tables[t][s].base in l'.free1
  {
    var b := tables[t][s].base;
    assert b in l.chunk && l.chunk[b] == UsedChunk(t, s);
    assert l.page[b.page] == Split;
    assert b in l'.chunk;
    assert !l'.chunk[b].UsedChunk?;
  }

  /** The kernel's mappings plus the two stacks are the view of a slot with an empty heap. */
  lemma StackViews(kernelEnd: nat, r0: Ram, t0: Table, r1: Ram, t1: Table, r2: Ram, t2: Table, pages: Pages)
    requires kernelEnd <= 0x80_0000 && KernelView(kernelEnd, 6, r0, t0) && HasPages(pages, 0)
    requires Mapped(r0, t0, r1, t1, 0x7_fffe, 1, pages[0], 0xaa)
    requires Mapped(r1, t1, r2, t2, 0x7_fffd, 1, pages[1], 0xff)
    ensures SpaceView(kernelEnd, r2, t2, pages)
  {
    forall s, j | 0 <= s < 4096 && 0 <= j < 256 ensures Lookup(r2, t2, s, j) == SpaceWord(kernelEnd, pages, s, j) {
      assert Lookup(r1, t1, s, j) == if 256 * s + j == 0x7_fffe then Pte(pages[0], 0xaa) else Lookup(r0, t0, s, j);
    }
  }

  /** Two zeroed pages taken one after the other by a slot that owned none. */
  lemma StacksTaken(own: seq<Pages>, own1: seq<Pages>, own2: seq<Pages>, ram1: Ram, ram2: Ram, t: nat, p: nat, q: nat)
    requires t < |own| && Empty(own[t]) && p < 0x1_0000 && q < 0x1_0000
    requires own1 == own[t := With(own[t], 0, p)] && own2 == own1[t := With(own1[t], 1, q)]
    requires AllZero(ram1[p]) && AllZero(ram2[q]) && PagesGrown(own1, own2, ram1, ram2)
    ensures HasPages(own2[t], 0) && ZeroFrom(ram2, own2[t], 0) && own2[t][0] == p && own2[t][1] == q
  {
    assert 0 in own1[t];
  }

  lemma EmptyCount(pages: Pages, p: nat)
    requires Empty(pages)
    ensures |pages| == 0 && |With(pages, 0, p)| == 1
  {
    assert pages.Keys == {};
    assert With(pages, 0, p).Keys == {0};
  }

  /** Pages that were zero stay zero while their owner only gains pages and mappings. */
  lemma ZeroKept(own: seq<Pages>, ram: Ram, ram': Ram, t: nat, lo: nat)
    requires t < |own| && ZeroFrom(ram, own[t], lo) && PagesGrown(own, own, ram, ram')
    ensures ZeroFrom(ram', own[t], lo)
  {
  }

  lemma GrownTwice(own: seq<Pages>, r0: Ram, r1: Ram, r2: Ram)
    requires PagesGrown(own, own, r0, r1) && PagesGrown(own, own, r1, r2)
    ensures PagesGrown(own, own, r0, r2)
  {
    forall u, i | 0 <= u < |own| && i in own[u] && own[u][i] < 0x1_0000 ensures r2[own[u][i]] == r0[own[u][i]] {
      assert r1[own[u][i]] == r0[own[u][i]];
    }
  }

  /** A slot in use with `n` heap pages: its record, its pages and its table set agree. */
  ghost predicate LiveSlot(kernelEnd: nat, tables: seq<Table>, live: seq<set<nat>>, ram: Ram, pages: Pages, p: Process,
                           t: nat, n: nat)
    requires kernelEnd <= 0x80_0000 && |tables| == |live| == 11 && t < 10
  {
    && p.pid == t + 1 && p.heapSize == 4096 * n && |p.context| == 17
    && HasPages(pages, n) && p.kernelStack == P2V(4096 * pages[0]) && p.userStack == P2V(4096 * pages[1])
    && Held(tables, live, t) && SpaceView(kernelEnd, ram, tables[t], pages)
  }

  /** An unused slot owns nothing; a slot in use is a live one. */
  ghost predicate SlotOk(kernelEnd: nat, tables: seq<Table>, live: seq<set<nat>>, ram: Ram, pages: Pages, p: Process,
                         t: nat)
    requires kernelEnd <= 0x80_0000 && |tables| == |live| == 11 && t < 10
  {
    if p.state == UNUSED then Empty(pages) && live[t] == {} && |p.context| == 17
    else |pages| >= 2 && LiveSlot(kernelEnd, tables, live, ram, pages, p, t, |pages| - 2)
  }

  ghost predicate AllSlotsOk(kernelEnd: nat, tables: seq<Table>, live: seq<set<nat>>, ram: Ram, own: seq<Pages>,
                             procs: seq<Process>) {
    && kernelEnd <= 0x80_0000 && |tables| == |live| == 11 && |own| == |procs| == 10
    && (forall t {:trigger SlotOk(kernelEnd, tables, live, ram, own[t], procs[t], t)} :: 0 <= t < 10 ==>
          SlotOk(kernelEnd, tables, live, ram, own[t], procs[t], t))
    && Held(tables, live, 10) && KernelView(kernelEnd, 6, ram, tables[10])
  }

  lemma ViewKeepsSlot(kernelEnd: nat, tables: seq<Table>, live: seq<set<nat>>, ram: Ram,
                      tables': seq<Table>, live': seq<set<nat>>, ram': Ram, pages: Pages, p: Process, u: nat)
    requires kernelEnd <= 0x80_0000 && |tables| == |tables'| == |live| == |live'| == 11 && u < 10
    requires SlotOk(kernelEnd, tables, live, ram, pages, p, u)
    requires tables'[u] == tables[u] && live'[u] == live[u]
    requires Held(tables, live, u) ==> SameView(ram, tables[u], ram', tables'[u])
    ensures SlotOk(kernelEnd, tables', live', ram', pages, p, u)
  {
  }

  /** A step that touches only slot `t` keeps the invariant if slot `t` is fine afterwards. */
  lemma OneSlotStep(kernelEnd: nat, tables: seq<Table>, live: seq<set<nat>>, ram: Ram, own: seq<Pages>,
                    procs: seq<Process>,
                    tables': seq<Table>, live': seq<set<nat>>, ram': Ram, own': seq<Pages>, procs': seq<Process>,
                    t: nat)
    requires AllSlotsOk(kernelEnd, tables, live, ram, own, procs) && t < 10
    requires Apart(tables, live, ram, own, tables', live', ram', own', t) && ProcsBut(procs, procs', t)
    requires SlotOk(kernelEnd, tables', live', ram', own'[t], procs'[t], t)
    ensures AllSlotsOk(kernelEnd, tables', live', ram', own', procs')
  {
    forall u | 0 <= u < 10 && u != t ensures SlotOk(kernelEnd, tables', live', ram', own'[u], procs'[u], u) {
      ViewKeepsSlot(kernelEnd, tables, live, ram, tables', live', ram', own[u], procs[u], u);
    }
  }

  /** Two records of a slot that say the same about its memory. */
  ghost predicate SameMemory(p: Process, q: Process) {
    && q.pid == p.pid && q.heapSize == p.heapSize && q.userStack == p.userStack && q.kernelStack == p.kernelStack
    && |q.context| == |p.context| && (q.state == UNUSED <==> p.state == UNUSED)
  }

  /** Changing states, contexts and what is waited for does not disturb the memory invariant. */
  lemma RecordStep(kernelEnd: nat, tables: seq<Table>, live: seq<set<nat>>, ram: Ram, own: seq<Pages>,
                   procs: seq<Process>, procs': seq<Process>)
    requires AllSlotsOk(kernelEnd, tables, live, ram, own, procs)
    requires |procs'| == 10 && forall t :: 0 <= t < 10 ==> SameMemory(procs[t], procs'[t])
    ensures AllSlotsOk(kernelEnd, tables, live, ram, own, procs')
  {
    forall t | 0 <= t < 10 ensures SlotOk(kernelEnd, tables, live, ram, own[t], procs'[t], t) {
      assert SlotOk(kernelEnd, tables, live, ram, own[t], procs[t], t);
    }
  }

  lemma InRamPages(own: seq<Pages>, l: Ledger, t: nat, k: nat)
    requires PagesOwned(own, l) && l.Shaped() && t < 10 && k in own[t]
    ensures own[t][k] < 0x1_0000
  {
    assert own[t][k] in l.page;
  }
}
