// A program image on its way into a slot.
module Staging {
  import opened Words
  import opened Images
  import opened Proc

  /** Memory is in order and slot `t` holds `image` in its first `n` heap pages. */
  ghost predicate Staged(pt: ProcTable, t: nat, n: nat, image: seq<byte>)
    reads pt`own, pt`managed, pt.vm, pt.vm.alloc
  {
    pt.MemOk() && t < 10 && Loading(pt.vm.tables, pt.vm.live, pt.vm.alloc.ram, pt.own, t, n, image)
  }
}
