// What iterating over a directory means.
module Directories {
  import opened Words
  import opened Bits
  import opened Volumes
  import opened FatNames

  predicate EndMark(e: Entry) { e[0] == 0 }

  /** Not deleted and neither a long-name part, a label nor a directory. */
  predicate Regular(e: Entry) { e[0] != 0xe5 && And(e[11], 0x18) == 0 }

  /** The number after the first regular slot at or after `cursor`, 0 when the end mark comes first. */
  function NextSlot(dir: seq<Entry>, cursor: nat): (r: nat)
    ensures r != 0 ==> cursor < r <= |dir|
    decreases |dir| - cursor
  {
    if cursor >= |dir| || EndMark(dir[cursor]) then 0
    else if Regular(dir[cursor]) then cursor + 1
    else NextSlot(dir, cursor + 1)
  }

  /** The slots that repeated NextSlot visits from `cursor` on. */
  ghost function Visit(dir: seq<Entry>, cursor: nat): (r: seq<nat>)
    ensures forall x :: 0 <= x < |r| ==> r[x] < |dir|
    decreases |dir| - cursor
  {
    var n := NextSlot(dir, cursor);
    if n == 0 then [] else [n - 1] + Visit(dir, n)
  }

  /** Slot `i` is a regular entry and neither it nor any slot from `from` up to it is an end mark. */
  ghost predicate Listed(dir: seq<Entry>, from: nat, i: nat) {
    && from <= i < |dir| && Regular(dir[i])
    && forall j :: from <= j <= i ==> !EndMark(dir[j])
  }

  /** Up to its result NextSlot skips no listed slot. */
  lemma {:induction false} NextSlotIsFirst(dir: seq<Entry>, cursor: nat, i: nat)
    ensures Listed(dir, cursor, i) ==> 0 < NextSlot(dir, cursor) <= i + 1
    ensures NextSlot(dir, cursor) != 0 ==> Listed(dir, cursor, NextSlot(dir, cursor) - 1)
    ensures var n := NextSlot(dir, cursor); 0 < n <= i ==> (Listed(dir, n, i) <==> Listed(dir, cursor, i))
    decreases |dir| - cursor
  {
    if cursor < |dir| && !EndMark(dir[cursor]) && !Regular(dir[cursor]) {
      NextSlotIsFirst(dir, cursor + 1, i);
    }
  }

  /** Iteration visits exactly the listed slots, in order and once each. */
  lemma {:induction false} VisitExact(dir: seq<Entry>, cursor: nat)
    ensures forall i: nat :: i in Visit(dir, cursor) <==> Listed(dir, cursor, i)
    ensures forall x, y :: 0 <= x < y < |Visit(dir, cursor)| ==> Visit(dir, cursor)[x] < Visit(dir, cursor)[y]
    decreases |dir| - cursor
  {
    var n := NextSlot(dir, cursor);
    if n != 0 {
      VisitExact(dir, n);
      var rest := Visit(dir, n);
      assert Visit(dir, cursor) == [n - 1] + rest;
      assert forall y :: 0 <= y < |rest| ==> rest[y] in rest;
    }
    forall i: nat
      ensures i in Visit(dir, cursor) <==> Listed(dir, cursor, i)
    {
      NextSlotIsFirst(dir, cursor, i);
      assert n != 0 ==> (i in Visit(dir, n) <==> Listed(dir, n, i));
    }
  }

  /** The names in the slots from `cursor` on, one for each visited slot. */
  ghost function Lines(dir: seq<Entry>, cursor: nat): seq<seq<byte>>
    decreases |dir| - cursor
  {
    var n := NextSlot(dir, cursor);
    if n == 0 then [] else [Render(dir[n - 1])] + Lines(dir, n)
  }

  /** `lines` are done, `name` is next, the one before slot `cursor`, and the rest follows; or, at 0, all
      are done. */
  ghost predicate AtLine(dir: seq<Entry>, all: seq<seq<byte>>, lines: seq<seq<byte>>, cursor: nat, name: seq<byte>) {
    cursor <= |dir| && all == lines + if cursor == 0 then [] else [name] + Lines(dir, cursor)
  }

  lemma NextLine(dir: seq<Entry>, all: seq<seq<byte>>, lines: seq<seq<byte>>, from: nat, cursor: nat, name: seq<byte>)
    requires all == lines + Lines(dir, from) && cursor == NextSlot(dir, from)
    requires cursor > 0 ==> name == Render(dir[cursor - 1])
    ensures AtLine(dir, all, lines, cursor, name)
  {
  }

  /** The names are those of the visited slots. */
  lemma {:induction false} LinesExact(dir: seq<Entry>, cursor: nat)
    ensures var lines, slots := Lines(dir, cursor), Visit(dir, cursor);
      |lines| == |slots| && forall x :: 0 <= x < |slots| ==> lines[x] == Render(dir[slots[x]])
    decreases |dir| - cursor
  {
    if NextSlot(dir, cursor) != 0 {
      LinesExact(dir, NextSlot(dir, cursor));
    }
  }

  predicate Named(e: Entry, key: seq<byte>) { e[..11] == key }

  /** The number after the first visited slot with this key, or 0. */
  function FirstMatch(dir: seq<Entry>, key: seq<byte>, cursor: nat): (r: nat)
    ensures r != 0 ==> cursor < r <= |dir|
    decreases |dir| - cursor
  {
    var n := NextSlot(dir, cursor);
    if n == 0 || Named(dir[n - 1], key) then n else FirstMatch(dir, key, n)
  }

  /** FirstMatch is the first of the listed slots with this key; 0 when there is none. */
  lemma {:induction false} FirstMatchIsFirst(dir: seq<Entry>, key: seq<byte>, cursor: nat, i: nat)
    ensures var m := FirstMatch(dir, key, cursor);
      && (m != 0 ==> Listed(dir, cursor, m - 1) && Named(dir[m - 1], key))
      && (Listed(dir, cursor, i) && Named(dir[i], key) ==> 0 < m <= i + 1)
    decreases |dir| - cursor
  {
    var n := NextSlot(dir, cursor);
    NextSlotIsFirst(dir, cursor, i);
    if n != 0 && !Named(dir[n - 1], key) {
      FirstMatchIsFirst(dir, key, n, i);
      if FirstMatch(dir, key, n) != 0 {
        NextSlotIsFirst(dir, cursor, FirstMatch(dir, key, n) - 1);
      }
    }
  }
}
