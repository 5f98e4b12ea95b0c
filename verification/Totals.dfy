// Conservation of memory.
module Totals {
  import opened Ledgers
  import opened PageTables
  import opened Spaces

  /** What get_free_memory_size adds up. */
  ghost function FreeBytes(l: Ledger): nat { 1024 * |l.free1| + 4096 * |l.free4| }

  ghost predicate SameKeys(own: seq<Pages>, own': seq<Pages>) {
    |own| == |own'| && forall t, k :: 0 <= t < |own| ==> (k in own[t] <==> k in own'[t])
  }

  lemma SameKeysSameTotal(own: seq<Pages>, own': seq<Pages>)
    requires SameKeys(own, own')
    ensures Total(KeySets(own)) == Total(KeySets(own'))
  {
    forall t | 0 <= t < |own| ensures own[t].Keys == own'[t].Keys {
      assert forall k :: k in own[t] <==> k in own'[t];
    }
    assert KeySets(own) == KeySets(own');
  }

  /** Free memory and owned memory always add up to what the kernel was given. */
  lemma Conserved(tables: seq<Table>, live: seq<set<nat>>, own: seq<Pages>, l: Ledger)
    requires l.Valid() && TablesOwned(tables, live, l) && PagesOwned(own, l)
    ensures FreeBytes(l) + 4096 * Total(KeySets(own)) + 1024 * Total(live) == 4096 * |l.page|
  {
  }

  /** Slots that own as many pages and tables as before leave as much memory free as before. */
  lemma SameFree(tables: seq<Table>, live: seq<set<nat>>, own: seq<Pages>, l: Ledger,
                 tables': seq<Table>, live': seq<set<nat>>, own': seq<Pages>, l': Ledger)
    requires l.Valid() && TablesOwned(tables, live, l) && PagesOwned(own, l)
    requires l'.Valid() && TablesOwned(tables', live', l') && PagesOwned(own', l')
    requires l'.page.Keys == l.page.Keys && SameKeys(own, own') && live' == live
    ensures FreeBytes(l') == FreeBytes(l)
  {
    Conserved(tables, live, own, l);
    Conserved(tables', live', own', l');
    SameKeysSameTotal(own, own');
    assert |l.page| == |l.page.Keys| == |l'.page|;
  }

  /** Page `p` is page number `k` of slot `t`. */
  ghost predicate PageOf(own: seq<Pages>, t: nat, k: nat, p: nat)
    requires |own| == 10
  {
    t < 10 && k in own[t] && own[t][k] == p
  }

  /** Every managed page is in exactly one place: on the 4K list, cut into four chunks, or exactly one
      page of exactly one slot. */
  lemma PageHasOnePlace(own: seq<Pages>, l: Ledger, p: nat)
    requires l.Valid() && PagesOwned(own, l) && p in l.page
    ensures Block(p, 0) in l.free4 ==> Block(p, 0) !in l.chunk && forall t: nat, k: nat :: !PageOf(own, t, k, p)
    ensures Block(p, 0) in l.chunk ==> forall t: nat, k: nat :: !PageOf(own, t, k, p)
    ensures Block(p, 0) !in l.free4 && Block(p, 0) !in l.chunk ==> exists t: nat, k: nat :: PageOf(own, t, k, p)
    ensures forall t: nat, k: nat, u: nat, i: nat :: PageOf(own, t, k, p) && PageOf(own, u, i, p) ==> t == u && k == i
  {
    forall t: nat, k: nat | PageOf(own, t, k, p) ensures l.page[p] == UsedPage(t, k) {
      assert l.page[own[t][k]] == UsedPage(t, k);
    }
    if l.page[p].UsedPage? {
      assert PageOf(own, l.page[p].slot, l.page[p].index, p);
    }
  }

  /** Chunk `b` is the page table of section `s` of table set `t`. */
  ghost predicate ChunkOf(tables: seq<Table>, live: seq<set<nat>>, t: nat, s: nat, b: Block)
    requires |tables| == |live| == 11
  {
    t < 11 && s in live[t] && s < 4096 && tables[t][s].base == b
  }

  /** Every chunk is on the 1K list or is exactly one page table of exactly one table set. */
  lemma ChunkHasOnePlace(tables: seq<Table>, live: seq<set<nat>>, l: Ledger, b: Block)
    requires l.Valid() && TablesOwned(tables, live, l) && b in l.chunk
    ensures b in l.free1 ==> forall t: nat, s: nat :: !ChunkOf(tables, live, t, s, b)
    ensures b !in l.free1 ==> exists t: nat, s: nat :: ChunkOf(tables, live, t, s, b)
    ensures forall t: nat, s: nat, u: nat, r: nat ::
      ChunkOf(tables, live, t, s, b) && ChunkOf(tables, live, u, r, b) ==> t == u && s == r
  {
    forall t: nat, s: nat | ChunkOf(tables, live, t, s, b) ensures l.chunk[b] == UsedChunk(t, s) {
      assert s in live[t];
    }
    if l.chunk[b].UsedChunk? {
      assert ChunkOf(tables, live, l.chunk[b].table, l.chunk[b].section, b);
    }
  }
}
