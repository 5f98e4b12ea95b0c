// Fork and exec in terms of what a process sees at its own addresses.
module Copies {
  import opened Words
  import opened Ledgers
  import opened Spaces
  import opened ForkCopy
  import opened Elf
  import opened Images
  import opened UserMemory

  /** After fork the child sees at every user address what the parent sees, on pages of its own. */
  lemma ForkedMemory(ram: Ram, own: seq<Pages>, l: Ledger, c: nat, p: nat, n: nat)
    requires PagesOwned(own, l) && l.Shaped() && c < 10 && p < 10 && c != p
    requires HasPages(own[c], n) && HasPages(own[p], n) && SameContents(ram, own[c], own[p])
    ensures forall a: nat :: InUser(4096 * n, a) ==> UserByte(ram, own[c], a) == UserByte(ram, own[p], a)
    ensures forall i: nat, j: nat {:trigger own[c][i], own[p][j]} :: i in own[c] && j in own[p] ==>
      own[c][i] != own[p][j]
  {
    forall a: nat | InUser(4096 * n, a) ensures UserByte(ram, own[c], a) == UserByte(ram, own[p], a) {
      if a < 0x7fff_d000 { HeapPage(a, n); }
      InRamPages(own, l, c, UserPage(a));
      InRamPages(own, l, p, UserPage(a));
    }
    forall i: nat, j: nat | i in own[c] && j in own[p] ensures own[c][i] != own[p][j] {
      PagesDistinct(own, l, c, i, p, j);
    }
  }

  lemma ImageByte(image: seq<byte>, j: nat, a: nat)
    requires a / 4096 == j && 4096 * j + 4096 <= |image|
    ensures image[4096 * j..4096 * j + 4096][a % 4096] == image[a]
  {
    assert a == 4096 * j + a % 4096;
  }

  /** A loaded program sees at every heap address the byte of its image. */
  lemma ProgramMemory(ram: Ram, pages: Pages, p: Process, bytes: seq<byte>, a: nat)
    requires HoldsProgram(ram, pages, p, bytes) && a < |ProgramImage(bytes)|
    ensures UserByte(ram, pages, a) == ProgramImage(bytes)[a]
  {
    var image, n := ProgramImage(bytes), ProgramPages(bytes);
    HeapPage(a, n);
    assert HeapPageIs(ram, pages, image, a / 4096);
    ImageByte(image, a / 4096, a);
  }
}
