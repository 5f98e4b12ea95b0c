// What it means that the memory of one slot is a copy of another's.
module ForkCopy {
  import opened Words
  import opened Ledgers
  import opened PageTables
  import opened Spaces

  /** Byte `o` of heap page `j` is the same in both heaps. */
  ghost predicate ByteCopied(ram: Ram, c: Pages, p: Pages, j: nat, o: nat) {
    2 + j in c && 2 + j in p && c[2 + j] < 0x1_0000 && p[2 + j] < 0x1_0000 && o < 4096 ==>
      ram[c[2 + j]][o] == ram[p[2 + j]][o]
  }

  /** The first `i` bytes of the heap are copied. */
  ghost predicate Copied(ram: Ram, c: Pages, p: Pages, i: nat) {
    forall j, o :: 0 <= j && 0 <= o < 4096 && 4096 * j + o < i ==> ByteCopied(ram, c, p, j, o)
  }

  /** Every slot's pages outside the heap of slot `t` have the same contents. */
  ghost predicate HeapOnly(own: seq<Pages>, ram: Ram, ram': Ram, t: nat) {
    forall u, i {:trigger ram'[own[u][i]]} ::
      0 <= u < |own| && i in own[u] && (u != t || i < 2) && own[u][i] < 0x1_0000 ==>
      ram'[own[u][i]] == ram[own[u][i]]
  }

  lemma CopyStep(own: seq<Pages>, l: Ledger, ram: Ram, ram': Ram, c: nat, p: nat, j: nat, o: nat)
    requires PagesOwned(own, l) && l.Shaped() && c < 10 && p < 10 && c != p && 2 + j in own[c] && 2 + j in own[p]
      && o < 4096
    requires own[c][2 + j] < 0x1_0000 && own[p][2 + j] < 0x1_0000
    requires ram' == ram[own[c][2 + j] := ram[own[c][2 + j]][o := ram[own[p][2 + j]][o]]]
    requires Copied(ram, own[c], own[p], 4096 * j + o)
    ensures Copied(ram', own[c], own[p], 4096 * j + o + 1)
  {
    forall j', o' | 0 <= j' && 0 <= o' < 4096 && 4096 * j' + o' < 4096 * j + o + 1
      ensures ByteCopied(ram', own[c], own[p], j', o')
    {
      if 2 + j' in own[c] && 2 + j' in own[p] {
        PagesDistinct(own, l, p, 2 + j', c, 2 + j);
        if j' == j && o' == o {
          assert ByteCopied(ram', own[c], own[p], j, o);
        } else {
          assert ByteCopied(ram, own[c], own[p], j', o');
          if j' != j { PagesDistinct(own, l, c, 2 + j', c, 2 + j); }
        }
      }
    }
  }

  /** A heap copied to the end is copied page by page. */
  lemma CopiedPages(ram: Ram, c: Pages, p: Pages, n: nat, j: nat)
    requires Copied(ram, c, p, 4096 * n) && j < n
    requires 2 + j in c && 2 + j in p && c[2 + j] < 0x1_0000 && p[2 + j] < 0x1_0000
    ensures ram[c[2 + j]] == ram[p[2 + j]]
  {
    var x, y := ram[c[2 + j]], ram[p[2 + j]];
    forall o | 0 <= o < 4096 ensures x[o] == y[o] {
      assert ByteCopied(ram, c, p, j, o);
    }
  }

  lemma SplitAddress(i: nat) returns (j: nat, o: nat)
    ensures i == 4096 * j + o && o == i % 4096
  {
    j, o := i / 4096, i % 4096;
  }

  lemma ViewsKeptTwice(tables: seq<Table>, live: seq<set<nat>>, r0: Ram, r1: Ram, r2: Ram)
    requires ViewsKept(tables, live, r0, r1) && ViewsKept(tables, live, r1, r2)
    ensures ViewsKept(tables, live, r0, r2)
  {
    forall u | 0 <= u < 11 && Held(tables, live, u) ensures SameView(r0, tables[u], r2, tables[u]) {
      assert SameView(r0, tables[u], r1, tables[u]) && SameView(r1, tables[u], r2, tables[u]);
    }
  }

  lemma HeapOnlyStep(own: seq<Pages>, r0: Ram, r1: Ram, r2: Ram, t: nat, k: nat)
    requires HeapOnly(own, r0, r1, t) && PagesBut(own, r1, r2, t, k) && k >= 2
    ensures HeapOnly(own, r0, r2, t)
  {
    forall u, i | 0 <= u < |own| && i in own[u] && (u != t || i < 2) && own[u][i] < 0x1_0000
      ensures r2[own[u][i]] == r0[own[u][i]]
    {
      assert r1[own[u][i]] == r0[own[u][i]];
    }
  }

  lemma HeapOnlyTwice(own: seq<Pages>, r0: Ram, r1: Ram, r2: Ram, t: nat)
    requires HeapOnly(own, r0, r1, t) && HeapOnly(own, r1, r2, t)
    ensures HeapOnly(own, r0, r2, t)
  {
    forall u, i | 0 <= u < |own| && i in own[u] && (u != t || i < 2) && own[u][i] < 0x1_0000
      ensures r2[own[u][i]] == r0[own[u][i]]
    {
      assert r1[own[u][i]] == r0[own[u][i]];
    }
  }

  lemma HeapViewKept(ram: Ram, ram': Ram, table: Table, pages: Pages, n: nat)
    requires HeapView(ram, table, pages, n) && SameView(ram, table, ram', table)
    ensures HeapView(ram', table, pages, n)
  {
    forall j | 0 <= j < n ensures HeapPageMapped(ram', table, pages, j) {
      assert HeapPageMapped(ram, table, pages, j);
      assert Lookup(ram', table, 0, j) == Lookup(ram, table, 0, j);
    }
  }

  /** Two slots have the same pages as far as their contents go. */
  ghost predicate SameContents(ram: Ram, c: Pages, p: Pages) {
    forall k <- p :: k in c && (c[k] < 0x1_0000 && p[k] < 0x1_0000 ==> ram[c[k]] == ram[p[k]])
  }

  /** Copying stack 0, then stack 1, completes the copy. */
  lemma StacksEqual(own: seq<Pages>, r0: Ram, r1: Ram, r2: Ram, c: nat, p: nat, n: nat)
    requires c < |own| && p < |own| && c != p && HasPages(own[c], n) && HasPages(own[p], n)
    requires Copied(r0, own[c], own[p], 4096 * n) && PagesBut(own, r0, r1, c, 0) && PagesBut(own, r1, r2, c, 1)
    requires own[c][0] < 0x1_0000 && own[p][0] < 0x1_0000 && r1[own[c][0]] == r0[own[p][0]]
    requires own[c][1] < 0x1_0000 && own[p][1] < 0x1_0000 && r2[own[c][1]] == r1[own[p][1]]
    ensures SameContents(r2, own[c], own[p])
  {
    forall k | 0 <= k < n + 2 && own[p][k] < 0x1_0000 ensures r2[own[p][k]] == r0[own[p][k]] {
      assert k in own[p];
    }
    forall k | 2 <= k < n + 2 && own[c][k] < 0x1_0000 ensures r2[own[c][k]] == r0[own[c][k]] {
      assert k in own[c];
    }
    assert 0 in own[c] && r2[own[c][0]] == r1[own[c][0]];
    assert 1 in own[p] && r2[own[p][1]] == r1[own[p][1]];
    AllCopied(own, r0, r2, c, p, n);
  }

  lemma AllCopied(own: seq<Pages>, ram0: Ram, ram: Ram, c: nat, p: nat, n: nat)
    requires c < |own| && p < |own| && HasPages(own[c], n) && HasPages(own[p], n)
    requires Copied(ram0, own[c], own[p], 4096 * n) && forall k ::
      2 <= k < n + 2 && own[c][k] < 0x1_0000 && own[p][k] < 0x1_0000 ==>
      ram[own[c][k]] == ram0[own[c][k]] && ram[own[p][k]] == ram0[own[p][k]]
    requires own[c][0] < 0x1_0000 && own[p][0] < 0x1_0000 && ram[own[c][0]] == ram[own[p][0]]
    requires own[c][1] < 0x1_0000 && own[p][1] < 0x1_0000 && ram[own[c][1]] == ram[own[p][1]]
    ensures SameContents(ram, own[c], own[p])
  {
    forall k | k in own[p] && own[c][k] < 0x1_0000 && own[p][k] < 0x1_0000 ensures ram[own[c][k]] == ram[own[p][k]] {
      if k >= 2 { CopiedPages(ram0, own[c], own[p], n, k - 2); }
    }
  }

  /** Stores into the heap or the stacks of slot `t` leave the other slots apart. */
  lemma HeapOnlyApart(tables: seq<Table>, live: seq<set<nat>>, own: seq<Pages>, ram: Ram, ram': Ram, t: nat)
    requires |own| == 10 && t < 10 && ViewsKept(tables, live, ram, ram') && HeapOnly(own, ram, ram', t)
    ensures Apart(tables, live, ram, own, tables, live, ram', own, t)
  {
  }

  lemma PagesButApart(tables: seq<Table>, live: seq<set<nat>>, own: seq<Pages>, ram: Ram, ram': Ram, t: nat, k: nat)
    requires |own| == 10 && t < 10 && ViewsKept(tables, live, ram, ram') && PagesBut(own, ram, ram', t, k)
    ensures Apart(tables, live, ram, own, tables, live, ram', own, t)
  {
  }

  /** While the child is being built, the parent's heap stays where it was. */
  lemma ParentHeap(kernelEnd: nat, tables: seq<Table>, live: seq<set<nat>>, ram: Ram, own: seq<Pages>,
                   tables': seq<Table>, live': seq<set<nat>>, ram': Ram, own': seq<Pages>, child: nat, parent: nat,
                   n: nat)
    requires kernelEnd <= 0x80_0000 && child < 10 && parent < 10 && child != parent
    requires Apart(tables, live, ram, own, tables', live', ram', own', child)
    requires Held(tables, live, parent) && SpaceView(kernelEnd, ram, tables[parent], own[parent])
      && HasPages(own[parent], n)
    ensures Held(tables', live', parent) && HeapView(ram', tables'[parent], own'[parent], n)
      && HasPages(own'[parent], n)
  {
    SpaceHasHeap(kernelEnd, ram, tables[parent], own[parent], n);
    HeapViewKept(ram, ram', tables[parent], own[parent], n);
  }

  lemma SpaceViewKept(kernelEnd: nat, tables: seq<Table>, live: seq<set<nat>>, ram: Ram, ram': Ram, pages: Pages,
                      t: nat)
    requires kernelEnd <= 0x80_0000 && ViewsKept(tables, live, ram, ram') && t < 10 && Held(tables, live, t)
    requires SpaceView(kernelEnd, ram, tables[t], pages)
    ensures SpaceView(kernelEnd, ram', tables[t], pages)
  {
    SameSpaceView(kernelEnd, ram, ram', tables[t], pages);
  }

  /** Everything fork promises about a child in slot `c` of the process in slot `p`. */
  ghost predicate Forked(ram: Ram, own: seq<Pages>, procs: seq<Process>, c: nat, p: nat)
    requires |own| == |procs| == 10 && c < 10 && p < 10
  {
    && SameContents(ram, own[c], own[p])
    && procs[c].state == READY && procs[c].heapSize == procs[p].heapSize
    && |procs[p].context| == 17 && procs[c].context == procs[p].context[2 := 0]
  }

  /** A fork of the process in slot `p`: the first unused slot `c` holds a copy of it that waits for
      nobody, and nobody else, the parent included, is touched. */
  ghost predicate ChildMade(tables: seq<Table>, live: seq<set<nat>>, ram: Ram, own: seq<Pages>, procs: seq<Process>,
                            tables': seq<Table>, live': seq<set<nat>>, ram': Ram, own': seq<Pages>,
                            procs': seq<Process>, p: nat, c: nat)
  {
    && p < 10 && c < 10 && c != p && |own'| == 10 && FirstFree(procs, c) && ProcsBut(procs, procs', c)
    && procs'[c].pid == c + 1 && procs'[c].waitPid == -1
    && Apart(tables, live, ram, own, tables', live', ram', own', c)
    && Forked(ram', own', procs', c, p)
  }

  /** A fresh slot, then the copy in it. */
  lemma MadeChild(ta: seq<Table>, la: seq<set<nat>>, ra: Ram, oa: seq<Pages>, pa: seq<Process>,
                  tb: seq<Table>, lb: seq<set<nat>>, rb: Ram, ob: seq<Pages>, pb: seq<Process>,
                  tc: seq<Table>, lc: seq<set<nat>>, rc: Ram, oc: seq<Pages>, pc: seq<Process>, p: nat, c: nat)
    requires p < 10 && c < 10 && c != p && FirstFree(pa, c)
    requires Apart(ta, la, ra, oa, tb, lb, rb, ob, c) && ProcsBut(pa, pb, c) && pb[c].waitPid == -1
    requires Apart(tb, lb, rb, ob, tc, lc, rc, oc, c) && ProcsBut(pb, pc, c) && pc[c].waitPid == pb[c].waitPid
    requires Forked(rc, oc, pc, c, p) && pc[c].pid == c + 1
    ensures ChildMade(ta, la, ra, oa, pa, tc, lc, rc, oc, pc, p, c)
  {
    ApartTwice(ta, la, ra, oa, tb, lb, rb, ob, tc, lc, rc, oc, c);
  }
}
