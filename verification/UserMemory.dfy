// What user code can reach: the heap and the user stack of its own slot.
module UserMemory {
  import opened Words
  import opened Ledgers
  import opened PageTables
  import opened Walks
  import opened Spaces

  /** The addresses of the heap and of the user stack. */
  predicate InUser(heapSize: nat, a: nat) { a < heapSize || 0x7fff_d000 <= a < 0x7fff_d000 + 4096 }

  ghost function UserPage(a: nat): nat { if a >= 0x7fff_d000 then 1 else 2 + a / 4096 }

  /** The byte of a process at user address `a`. */
  ghost function UserByte(ram: Ram, pages: Pages, a: nat): byte {
    var k := UserPage(a);
    if k in pages && pages[k] < 0x1_0000 then ram[pages[k]][a % 4096] else 0
  }

  ghost function UserSection(a: nat): nat { if a >= 0x7fff_d000 then 0x7ff else 0 }

  ghost function UserIndex(a: nat): nat { if a >= 0x7fff_d000 then 0xfd else a / 4096 }

  /** User addresses are mapped, with full access, to the slot's own pages. */
  lemma UserWord(kernelEnd: nat, ram: Ram, table: Table, pages: Pages, n: nat, a: nat)
    requires kernelEnd <= 0x80_0000 && SpaceView(kernelEnd, ram, table, pages) && HasPages(pages, n)
      && InUser(4096 * n, a)
    ensures a == 0x10_0000 * UserSection(a) + 4096 * UserIndex(a) + a % 4096 && UserIndex(a) < 256
      && UserPage(a) in pages
    ensures Lookup(ram, table, UserSection(a), UserIndex(a)) == Pte(pages[UserPage(a)], 0xff)
    ensures Pte(pages[UserPage(a)], 0xff) / 4096 == pages[UserPage(a)]
  {
    if a >= 0x7fff_d000 {
      StackPage(a);
    } else {
      HeapPage(a, n);
    }
    PteFrame(pages[UserPage(a)], 0xff);
  }

  /** The walk leads a user address to the same byte of the slot's page. */
  lemma UserWalk(kernelEnd: nat, ram: Ram, table: Table, pages: Pages, n: nat, a: nat)
    requires kernelEnd <= 0x80_0000 && SpaceView(kernelEnd, ram, table, pages) && HasPages(pages, n)
      && InUser(4096 * n, a)
    ensures a == 0x10_0000 * UserSection(a) + 4096 * UserIndex(a) + a % 4096 && UserIndex(a) < 256
      && UserPage(a) in pages
    ensures var physical := Indexed(ram, table[UserSection(a)], UserIndex(a), a % 4096);
      physical / 4096 == pages[UserPage(a)] && physical % 4096 == a % 4096
  {
    UserWord(kernelEnd, ram, table, pages, n, a);
    WordIndexed(ram, table, UserSection(a), UserIndex(a), a % 4096);
    Quotient(pages[UserPage(a)], a % 4096);
  }

  lemma StackPage(a: nat)
    requires 0x7fff_d000 <= a < 0x7fff_d000 + 4096
    ensures a == 0x10_0000 * 0x7ff + 4096 * 0xfd + a % 4096
  {
  }

  lemma HeapPage(a: nat, n: nat)
    requires a < 4096 * n && n <= 256
    ensures a / 4096 < n && a == 4096 * (a / 4096) + a % 4096
  {
  }

  /** Character `i` of `name` is the byte at addr + i, a user address, and not NUL. */
  ghost predicate CharAt(ram: Ram, pages: Pages, heapSize: nat, addr: nat, name: seq<byte>, i: nat)
    requires i < |name|
  {
    InUser(heapSize, addr + i) && name[i] == UserByte(ram, pages, addr + i) && name[i] != 0
  }

  ghost predicate NamePrefix(ram: Ram, pages: Pages, heapSize: nat, addr: nat, name: seq<byte>) {
    forall i: nat :: i < |name| ==> CharAt(ram, pages, heapSize, addr, name, i)
  }

  /** `name` is the NUL-terminated string of at most 12 characters at user address `addr`. */
  ghost predicate UserName(ram: Ram, pages: Pages, heapSize: nat, addr: nat, name: seq<byte>) {
    && addr != 0 && |name| <= 12 && NamePrefix(ram, pages, heapSize, addr, name)
    && InUser(heapSize, addr + |name|) && UserByte(ram, pages, addr + |name|) == 0
  }

  lemma NameGrows(ram: Ram, pages: Pages, heapSize: nat, addr: nat, name: seq<byte>, b: byte)
    requires NamePrefix(ram, pages, heapSize, addr, name) && InUser(heapSize, addr + |name|)
    requires b == UserByte(ram, pages, addr + |name|) && b != 0
    ensures NamePrefix(ram, pages, heapSize, addr, name + [b])
  {
    forall i: nat | i < |name| + 1 ensures CharAt(ram, pages, heapSize, addr, name + [b], i) {
      assert i < |name| ==> CharAt(ram, pages, heapSize, addr, name, i);
    }
  }

  /** Any string at `addr` is at least as long as what has been read without meeting a NUL. */
  lemma NamesAgree(ram: Ram, pages: Pages, heapSize: nat, addr: nat, prefix: seq<byte>, name: seq<byte>)
    requires NamePrefix(ram, pages, heapSize, addr, prefix) && UserName(ram, pages, heapSize, addr, name)
    ensures |prefix| <= |name| && InUser(heapSize, addr + |prefix|)
  {
    assert |name| < |prefix| ==> CharAt(ram, pages, heapSize, addr, prefix, |name|);
    assert |prefix| < |name| ==> CharAt(ram, pages, heapSize, addr, name, |prefix|);
  }

  lemma NameHasNoNul(ram: Ram, pages: Pages, heapSize: nat, addr: nat, name: seq<byte>)
    requires UserName(ram, pages, heapSize, addr, name)
    ensures 0 !in name
  {
    forall i: nat | i < |name| ensures name[i] != 0 {
      assert CharAt(ram, pages, heapSize, addr, name, i);
    }
  }

  /** A small page that user code may write. */
  predicate Writable(w: nat) { w % 4 == 2 && w / 16 % 256 == 0xff }

  lemma PteWritable(frame: nat, access: nat)
    requires access < 256
    ensures Writable(Pte(frame, access)) <==> access == 0xff
  {
    assert Pte(frame, access) / 16 == 256 * frame + access;
  }

  lemma {:induction false} KernelNotWritable(kernelEnd: nat, i: nat, n: nat)
    requires i <= 6 && kernelEnd <= 0x80_0000
    ensures !Writable(KernelWord(kernelEnd, i, n))
  {
    if i > 0 {
      KernelNotWritable(kernelEnd, i - 1, n);
      var r := KernelRun(kernelEnd, i - 1);
      if r.first <= n < r.first + r.count {
        PteWritable(r.frame + n - r.first, 0x55);
      }
    }
  }

  /** In the address space of a slot only its heap and its user stack are writable. */
  lemma WritablePages(kernelEnd: nat, ram: Ram, table: Table, pages: Pages, n: nat, s: nat, j: nat)
    requires kernelEnd <= 0x80_0000 && SpaceView(kernelEnd, ram, table, pages) && HasPages(pages, n) && s < 4096
      && j < 256
    ensures Writable(Lookup(ram, table, s, j)) <==> (s == 0 && j < n) || (s == 0x7ff && j == 0xfd)
  {
    KernelNotWritable(kernelEnd, 6, 256 * s + j);
    PteWritable(pages[0], 0xaa);
    PteWritable(pages[1], 0xff);
    if j < n {
      PteWritable(pages[2 + j], 0xff);
    }
  }

  lemma UserAddress(a: nat, n: nat)
    requires a < 0x1_0000_0000 && n <= 256
    ensures a / 0x10_0000 < 4096
    ensures var s, j := a / 0x10_0000, a / 4096 % 256;
      && ((s == 0 && j < n) || (s == 0x7ff && j == 0xfd) <==> InUser(4096 * n, a))
      && (InUser(4096 * n, a) && a < 0x7fff_d000 ==> s == 0 && j == a / 4096)
  {
    assert a == 0x10_0000 * (a / 0x10_0000) + 4096 * (a / 4096 % 256) + a % 4096 by {
      assert a / 4096 == 256 * (a / 0x10_0000) + a / 4096 % 256;
    }
  }

  /** User code may write exactly the user addresses, and they lead to the slot's own pages. */
  lemma UserAccess(kernelEnd: nat, ram: Ram, table: Table, pages: Pages, n: nat, a: nat)
    requires kernelEnd <= 0x80_0000 && SpaceView(kernelEnd, ram, table, pages) && HasPages(pages, n)
      && a < 0x1_0000_0000
    ensures a / 0x10_0000 < 4096
    ensures var w := Lookup(ram, table, a / 0x10_0000, a / 4096 % 256);
      && (Writable(w) <==> InUser(4096 * n, a))
      && (Writable(w) ==> UserPage(a) in pages && w / 4096 == pages[UserPage(a)])
  {
    UserAddress(a, n);
    WritablePages(kernelEnd, ram, table, pages, n, a / 0x10_0000, a / 4096 % 256);
    if InUser(4096 * n, a) {
      PteFrame(pages[UserPage(a)], 0xff);
    }
  }

  /** The byte at user address `a` is now `v`; the rest of the slot's memory is as it was. */
  ghost predicate UserStored(pages: Pages, heapSize: nat, ram: Ram, ram': Ram, a: nat, v: byte) {
    && UserByte(ram', pages, a) == v
    && forall x {:trigger UserByte(ram', pages, x)} :: InUser(heapSize, x) && x != a ==>
      UserByte(ram', pages, x) == UserByte(ram, pages, x)
  }

  /** No two user addresses are the same byte of the same page. */
  lemma UserPlaces(n: nat, a: nat, x: nat)
    requires n <= 256 && InUser(4096 * n, a) && InUser(4096 * n, x) && UserPage(a) == UserPage(x)
      && a % 4096 == x % 4096
    ensures a == x
  {
    assert a == 4096 * (a / 4096) + a % 4096 && x == 4096 * (x / 4096) + x % 4096;
    if a >= 0x7fff_d000 {
      StackPage(a);
      StackPage(x);
    }
  }

  lemma StoredByte(own: seq<Pages>, l: Ledger, ram: Ram, t: nat, n: nat, a: nat, v: byte)
    requires PagesOwned(own, l) && l.Shaped() && t < 10 && HasPages(own[t], n) && InUser(4096 * n, a)
    requires UserPage(a) in own[t] && own[t][UserPage(a)] < 0x1_0000
    ensures var p := own[t][UserPage(a)]; UserStored(own[t], 4096 * n, ram, ram[p := ram[p][a % 4096 := v]], a, v)
  {
    var p := own[t][UserPage(a)];
    var ram' := ram[p := ram[p][a % 4096 := v]];
    forall x: nat | InUser(4096 * n, x) && x != a ensures UserByte(ram', own[t], x) == UserByte(ram, own[t], x) {
      if UserPage(x) == UserPage(a) {
        assert x % 4096 != a % 4096 by {
          if x % 4096 == a % 4096 {
            UserPlaces(n, a, x);
          }
        }
      } else if UserPage(x) in own[t] {
        PagesDistinct(own, l, t, UserPage(x), t, UserPage(a));
      }
    }
  }

  /** At most one string is at an address. */
  lemma OneName(ram: Ram, pages: Pages, heapSize: nat, addr: nat, name: seq<byte>)
    requires UserName(ram, pages, heapSize, addr, name)
    ensures forall s :: UserName(ram, pages, heapSize, addr, s) ==> s == name
  {
    forall s | UserName(ram, pages, heapSize, addr, s) ensures s == name {
      NamesAgree(ram, pages, heapSize, addr, s, name);
      NamesAgree(ram, pages, heapSize, addr, name, s);
      forall i: nat | i < |s| ensures s[i] == name[i] {
        assert CharAt(ram, pages, heapSize, addr, s, i) && CharAt(ram, pages, heapSize, addr, name, i);
      }
    }
  }
}
