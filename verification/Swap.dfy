// Exchanging everything two process slots own.
module Swap {
  import opened Words
  import opened Ledgers
  import opened PageTables
  import opened Spaces
  import opened Totals

  ghost function Other(x: nat, a: nat, b: nat): nat {
    if x == a then b else if x == b then a else x
  }

  /** Elements `a` and `b` exchanged. */
  ghost function Exchanged<T>(s: seq<T>, a: nat, b: nat): (r: seq<T>)
    requires a < |s| && b < |s|
    ensures |r| == |s| && forall t :: 0 <= t < |s| ==> r[t] == s[Other(t, a, b)]
  {
    s[a := s[b]][b := s[a]]
  }

  ghost function OtherPage(use: PageUse, a: nat, b: nat): PageUse {
    if use.UsedPage? then UsedPage(Other(use.slot, a, b), use.index) else use
  }

  ghost function OtherChunk(use: ChunkUse, a: nat, b: nat): ChunkUse {
    if use.UsedChunk? then UsedChunk(Other(use.table, a, b), use.section) else use
  }

  /** The ledger after slots `a` and `b` exchanged their pages and page tables. */
  ghost function OwnersExchanged(l: Ledger, a: nat, b: nat): Ledger {
    l.(page := map p | p in l.page :: OtherPage(l.page[p], a, b),
       chunk := map c | c in l.chunk :: OtherChunk(l.chunk[c], a, b))
  }

  lemma ExchangedValid(l: Ledger, a: nat, b: nat)
    requires l.Valid()
    ensures OwnersExchanged(l, a, b).Valid() && OwnersExchanged(l, a, b).page.Keys == l.page.Keys
  {
    var r := OwnersExchanged(l, a, b);
    assert r.page.Keys == l.page.Keys;
    assert r.Shaped();
    assert r.ListsExact();
  }

  lemma ExchangedTotal(sets: seq<set<nat>>, a: nat, b: nat)
    requires a < |sets| && b < |sets|
    ensures Total(Exchanged(sets, a, b)) == Total(sets)
  {
    TotalUpdate(sets, a, sets[b]);
    TotalUpdate(sets[a := sets[b]], b, sets[a]);
  }

  lemma ExchangedPages(own: seq<Pages>, l: Ledger, a: nat, b: nat)
    requires PagesOwned(own, l) && a < 10 && b < 10
    ensures PagesOwned(Exchanged(own, a, b), OwnersExchanged(l, a, b))
  {
    var own', l' := Exchanged(own, a, b), OwnersExchanged(l, a, b);
    forall t, k | 0 <= t < 10 && k in own'[t]
      ensures own'[t][k] in l'.page && l'.page[own'[t][k]] == UsedPage(t, k)
    {
      assert own[Other(t, a, b)][k] in l.page;
    }
    forall p | p in l'.page && l'.page[p].UsedPage?
      ensures var t, k := l'.page[p].slot, l'.page[p].index; t < 10 && k in own'[t] && own'[t][k] == p
    {
      assert l.page[p].UsedPage?;
    }
    ExchangedTotal(KeySets(own), a, b);
    assert KeySets(own') == Exchanged(KeySets(own), a, b);
  }

  lemma ExchangedTables(tables: seq<Table>, live: seq<set<nat>>, l: Ledger, a: nat, b: nat)
    requires TablesOwned(tables, live, l) && a < 11 && b < 11
    ensures TablesOwned(Exchanged(tables, a, b), Exchanged(live, a, b), OwnersExchanged(l, a, b))
  {
    var tables', live', l' := Exchanged(tables, a, b), Exchanged(live, a, b), OwnersExchanged(l, a, b);
    forall t, s | 0 <= t < 11 && s in live'[t]
      ensures s < 4096 && Allowed(s) && tables'[t][s].desc != 0
      ensures tables'[t][s].base in l'.chunk && l'.chunk[tables'[t][s].base] == UsedChunk(t, s)
    {
      assert s in live[Other(t, a, b)];
    }
    forall c | c in l'.chunk && l'.chunk[c].UsedChunk?
      ensures var t, s := l'.chunk[c].table, l'.chunk[c].section;
        t < 11 && s in live'[t] && s < 4096 && tables'[t][s].base == c
    {
      assert l.chunk[c].UsedChunk?;
    }
    ExchangedTotal(live, a, b);
  }

  /** Nobody but slots `a` and `b` is touched. */
  ghost predicate ApartTwo(tables: seq<Table>, live: seq<set<nat>>, ram: Ram, own: seq<Pages>,
                           tables': seq<Table>, live': seq<set<nat>>, ram': Ram, own': seq<Pages>, a: nat, b: nat)
  {
    && |own| == |own'| == 10 && |tables| == |tables'| == |live| == |live'| == 11
    && (forall u :: 0 <= u < 10 && u != a && u != b ==> own'[u] == own[u])
    && (forall u :: 0 <= u < 11 && u != a && u != b ==> tables'[u] == tables[u] && live'[u] == live[u])
    && (forall u :: 0 <= u < 11 && u != a && u != b && Held(tables, live, u) ==>
      SameView(ram, tables[u], ram', tables'[u]))
    && (forall u, i {:trigger ram'[own[u][i]]} ::
      0 <= u < 10 && u != a && u != b && i in own[u] && own[u][i] < 0x1_0000 ==>
          ram'[own[u][i]] == ram[own[u][i]])
  }

  lemma ApartIsTwo(tables: seq<Table>, live: seq<set<nat>>, ram: Ram, own: seq<Pages>,
                   tables': seq<Table>, live': seq<set<nat>>, ram': Ram, own': seq<Pages>, a: nat, b: nat)
    requires Apart(tables, live, ram, own, tables', live', ram', own', b)
    ensures ApartTwo(tables, live, ram, own, tables', live', ram', own', a, b)
  {
  }

  lemma ApartTwoTwice(ta: seq<Table>, la: seq<set<nat>>, ra: Ram, oa: seq<Pages>, tb: seq<Table>, lb: seq<set<nat>>,
                      rb: Ram, ob: seq<Pages>,
                      tc: seq<Table>, lc: seq<set<nat>>, rc: Ram, oc: seq<Pages>, a: nat, b: nat)
    requires ApartTwo(ta, la, ra, oa, tb, lb, rb, ob, a, b) && ApartTwo(tb, lb, rb, ob, tc, lc, rc, oc, a, b)
    ensures ApartTwo(ta, la, ra, oa, tc, lc, rc, oc, a, b)
  {
    forall u | 0 <= u < 11 && u != a && u != b && Held(ta, la, u) ensures SameView(ra, ta[u], rc, tc[u]) {
      assert Held(tb, lb, u);
      assert SameView(ra, ta[u], rb, tb[u]) && SameView(rb, tb[u], rc, tc[u]);
    }
    forall u, i | 0 <= u < 10 && u != a && u != b && i in oa[u] && oa[u][i] < 0x1_0000
      ensures rc[oa[u][i]] == ra[oa[u][i]] {
      assert rb[oa[u][i]] == ra[oa[u][i]];
      assert rc[ob[u][i]] == rb[ob[u][i]];
    }
  }

  lemma ExchangedApart(tables: seq<Table>, live: seq<set<nat>>, ram: Ram, own: seq<Pages>, a: nat, b: nat)
    requires |own| == 10 && |tables| == |live| == 11 && a < 10 && b < 10
    ensures ApartTwo(tables, live, ram, own, Exchanged(tables, a, b), Exchanged(live, a, b), ram, Exchanged(own, a, b),
                     a, b)
  {
  }

  /** The records agree except in slots `a` and `b`. */
  ghost predicate ProcsButTwo(procs: seq<Process>, procs': seq<Process>, a: nat, b: nat) {
    |procs| == |procs'| == 10 && forall u :: 0 <= u < 10 && u != a && u != b ==> procs'[u] == procs[u]
  }

  /** A live slot whose memory another slot takes over, with the sizes and addresses that go with it. */
  lemma TakenOver(kernelEnd: nat, tables: seq<Table>, live: seq<set<nat>>, ram: Ram, own: seq<Pages>, p: Process,
                  q: Process, a: nat, b: nat)
    requires kernelEnd <= 0x80_0000 && |tables| == |live| == 11 && |own| == 10 && a < 10 && b < 10
    requires p.state != UNUSED && q.state != UNUSED && SlotOk(kernelEnd, tables, live, ram, own[b], p, b)
    requires q.pid == a + 1 && |q.context| == 17
    requires q.heapSize == p.heapSize && q.kernelStack == p.kernelStack && q.userStack == p.userStack
    ensures SlotOk(kernelEnd, Exchanged(tables, a, b), Exchanged(live, a, b), ram, Exchanged(own, a, b)[a], q, a)
  {
    assert Held(tables, live, b);
    assert Held(Exchanged(tables, a, b), Exchanged(live, a, b), a);
  }

  /** Exchanging two live slots keeps every slot in order. */
  lemma ExchangedSlots(kernelEnd: nat, tables: seq<Table>, live: seq<set<nat>>, ram: Ram, own: seq<Pages>,
                       procs: seq<Process>,
                       procs': seq<Process>, a: nat, b: nat)
    requires AllSlotsOk(kernelEnd, tables, live, ram, own, procs) && a < 10 && b < 10 && a != b
      && ProcsButTwo(procs, procs', a, b)
    requires procs[a].state != UNUSED && procs[b].state != UNUSED && procs'[a].state != UNUSED
      && procs'[b].state != UNUSED
    requires procs'[a].pid == procs[a].pid && |procs'[a].context| == 17 && procs'[b].pid == procs[b].pid
      && |procs'[b].context| == 17
    requires procs'[a].heapSize == procs[b].heapSize && procs'[a].kernelStack == procs[b].kernelStack
      && procs'[a].userStack == procs[b].userStack
    requires procs'[b].heapSize == procs[a].heapSize && procs'[b].kernelStack == procs[a].kernelStack
      && procs'[b].userStack == procs[a].userStack
    ensures AllSlotsOk(kernelEnd, Exchanged(tables, a, b), Exchanged(live, a, b), ram, Exchanged(own, a, b), procs')
  {
    var tables', live', own' := Exchanged(tables, a, b), Exchanged(live, a, b), Exchanged(own, a, b);
    assert SlotOk(kernelEnd, tables, live, ram, own[a], procs[a], a)
      && SlotOk(kernelEnd, tables, live, ram, own[b], procs[b], b);
    TakenOver(kernelEnd, tables, live, ram, own, procs[b], procs'[a], a, b);
    TakenOver(kernelEnd, tables, live, ram, own, procs[a], procs'[b], b, a);
    assert Exchanged(tables, b, a) == tables' && Exchanged(live, b, a) == live' && Exchanged(own, b, a) == own';
    forall u | 0 <= u < 10 && u != a && u != b ensures SlotOk(kernelEnd, tables', live', ram, own'[u], procs'[u], u) {
      ViewKeepsSlot(kernelEnd, tables, live, ram, tables', live', ram, own[u], procs[u], u);
    }
  }

  /** Every slot in use, and the kernel's own table set, is exactly as it was; unused slots are unused still. */
  ghost predicate UsedKept(tables: seq<Table>, live: seq<set<nat>>, ram: Ram, own: seq<Pages>, procs: seq<Process>,
                           tables': seq<Table>, live': seq<set<nat>>, ram': Ram, own': seq<Pages>, procs': seq<Process>)
  {
    && |procs| == |procs'| == |own| == |own'| == 10 && |tables| == |tables'| == |live| == |live'| == 11
    && (forall u :: 0 <= u < 10 && procs[u].state == UNUSED ==> procs'[u].state == UNUSED)
    && (forall u :: 0 <= u < 10 && procs[u].state != UNUSED ==>
          procs'[u] == procs[u] && own'[u] == own[u] && tables'[u] == tables[u]
            && SameView(ram, tables[u], ram', tables'[u]))
    && (forall u, i {:trigger ram'[own[u][i]]} ::
      0 <= u < 10 && procs[u].state != UNUSED && i in own[u] && own[u][i] < 0x1_0000 ==>
          ram'[own[u][i]] == ram[own[u][i]])
    && tables'[10] == tables[10] && SameView(ram, tables[10], ram', tables'[10])
  }

  lemma ApartKeepsUsed(kernelEnd: nat, tables: seq<Table>, live: seq<set<nat>>, ram: Ram, own: seq<Pages>,
                       procs: seq<Process>,
                       tables': seq<Table>, live': seq<set<nat>>, ram': Ram, own': seq<Pages>, procs': seq<Process>,
                       t: nat)
    requires AllSlotsOk(kernelEnd, tables, live, ram, own, procs) && t < 10 && procs[t].state == UNUSED
    requires Apart(tables, live, ram, own, tables', live', ram', own', t) && ProcsBut(procs, procs', t)
      && procs'[t].state == UNUSED
    ensures UsedKept(tables, live, ram, own, procs, tables', live', ram', own', procs')
  {
    forall u | 0 <= u < 10 && procs[u].state != UNUSED ensures SameView(ram, tables[u], ram', tables'[u]) {
      assert SlotOk(kernelEnd, tables, live, ram, own[u], procs[u], u);
      assert Held(tables, live, u);
    }
  }

  /** A slot that owned nothing before and owns nothing afterwards leaves the totals alone. */
  lemma ApartSameKeys(tables: seq<Table>, live: seq<set<nat>>, ram: Ram, own: seq<Pages>,
                      tables': seq<Table>, live': seq<set<nat>>, ram': Ram, own': seq<Pages>, t: nat)
    requires Apart(tables, live, ram, own, tables', live', ram', own', t) && t < 10
    requires Empty(own[t]) && Empty(own'[t]) && live[t] == {} && live'[t] == {}
    ensures SameKeys(own, own') && live' == live
  {
  }

  /** A slot that was taken, used and given back leaves no trace. */
  lemma GivenBack(kernelEnd: nat, tables: seq<Table>, live: seq<set<nat>>, ram: Ram, own: seq<Pages>,
                  procs: seq<Process>, l: Ledger,
                  tables': seq<Table>, live': seq<set<nat>>, ram': Ram, own': seq<Pages>, procs': seq<Process>,
                  l': Ledger, t: nat)
    requires AllSlotsOk(kernelEnd, tables, live, ram, own, procs) && t < 10 && procs[t].state == UNUSED
    requires Apart(tables, live, ram, own, tables', live', ram', own', t) && ProcsBut(procs, procs', t)
      && procs'[t].state == UNUSED
    requires Empty(own'[t]) && live'[t] == {} && l'.page.Keys == l.page.Keys
    requires l.Valid() && TablesOwned(tables, live, l) && PagesOwned(own, l)
    requires l'.Valid() && TablesOwned(tables', live', l') && PagesOwned(own', l')
    ensures UsedKept(tables, live, ram, own, procs, tables', live', ram', own', procs') && FreeBytes(l') == FreeBytes(l)
  {
    ApartKeepsUsed(kernelEnd, tables, live, ram, own, procs, tables', live', ram', own', procs', t);
    assert SlotOk(kernelEnd, tables, live, ram, own[t], procs[t], t);
    ApartSameKeys(tables, live, ram, own, tables', live', ram', own', t);
    SameFree(tables, live, own, l, tables', live', own', l');
  }

  lemma NothingUsedKept(kernelEnd: nat, tables: seq<Table>, live: seq<set<nat>>, ram: Ram, own: seq<Pages>,
                        procs: seq<Process>)
    requires AllSlotsOk(kernelEnd, tables, live, ram, own, procs)
    ensures UsedKept(tables, live, ram, own, procs, tables, live, ram, own, procs)
  {
  }

  /** None of these pages belongs to any slot. */
  ghost predicate NobodyOwns(own: seq<Pages>, pages: Pages) {
    forall u, i, k {:trigger own[u][i], pages[k]} :: 0 <= u < |own| && i in own[u] && k in pages ==>
      own[u][i] != pages[k]
  }

  /** After slot `a` took over the memory of `b` and its own was given back, nobody owns its old pages. */
  lemma OldUnowned(own: seq<Pages>, l: Ledger, own': seq<Pages>, a: nat, b: nat)
    requires PagesOwned(own, l) && |own'| == 10 && a < 10 && b < 10 && a != b && own'[a] == own[b] && Empty(own'[b])
    requires forall u :: 0 <= u < 10 && u != a && u != b ==> own'[u] == own[u]
    ensures NobodyOwns(own', own[a])
  {
    forall u, i, k | 0 <= u < 10 && i in own'[u] && k in own[a] ensures own'[u][i] != own[a][k] {
      PagesDistinct(own, l, if u == a then b else u, i, a, k);
    }
  }
}
