// kernel/proc/syscall_exec.c: loading a program file into a fresh slot.
module Loader {
  import opened Words
  import opened Bits
  import opened Spaces
  import opened ForkCopy
  import opened Virtio
  import opened Elf
  import opened Images
  import opened Proc
  import opened Fork
  import opened Fat
  import opened Staging

  /** Stores within one page of the heap of slot `t`, through its page table. */
  method StoreHeap(pt: ProcTable, t: nat, addr: nat, data: seq<byte>, ghost n: nat, ghost image: seq<byte>)
    requires Staged(pt, t, n, image)
    requires addr < 4096 * n && addr % 4096 + |data| <= 4096
    modifies pt.vm.alloc`ram
    ensures pt.MemOk() && addr + |data| <= |image|
    ensures Staged(pt, t, n, PutBytes(image, addr, data))
    ensures OnlyHeap(pt.vm.tables, pt.vm.live, pt.own, old(pt.vm.alloc.ram), pt.vm.alloc.ram, t)
  {
    ghost var j, o := SplitAddress(addr);
    assert HeapPageMapped(pt.vm.alloc.ram, pt.vm.tables[t], pt.own[t], j);
    assert HeapPageIs(pt.vm.alloc.ram, pt.own[t], image, j);
    var page, offset := ResolveByte(pt, t, addr, j, o);
    pt.WriteOwned(page, PutBytes(pt.vm.alloc.ram[page], offset, data), t, 2 + j);
    HeapStore(pt.own, pt.vm.alloc.ledger, old(pt.vm.alloc.ram), pt.vm.alloc.ram, t, n, image, j, o, data);
    HeapOnlyStep(pt.own, old(pt.vm.alloc.ram), old(pt.vm.alloc.ram), pt.vm.alloc.ram, t, 2 + j);
    HeapViewKept(old(pt.vm.alloc.ram), pt.vm.alloc.ram, pt.vm.tables[t], pt.own[t], n);
  }

  /** How many bytes of a segment to copy at once: up to the end of a page, of the segment and of
      its file part. */
  method PieceLength(s: Segment, offset: nat) returns (n: nat)
    requires offset < s.memsz && s.filesz <= s.memsz
    ensures 0 < n && offset + n <= s.memsz && (s.vaddr + offset) % 4096 + n <= 4096
    ensures offset < s.filesz ==> offset + n <= s.filesz
  {
    var addr := s.vaddr + offset;
    n := 4096 - addr % 4096;
    if n > s.memsz - offset {
      n := s.memsz - offset;
    }
    if offset < s.filesz && n > s.filesz - offset {
      n := s.filesz - offset;
    }
  }

  /** The next bytes of a segment. */
  method FetchPiece(fat: FatReader, file: FatFile, s: Segment, offset: nat, ghost bytes: seq<byte>)
    returns (ok: bool, piece: seq<byte>)
    requires fat.Opened(file, bytes) && Loads(s) && GoodSegment(s, |bytes|) && offset < s.memsz
    modifies fat.dev
    ensures fat.Opened(file, bytes)
      && Served(old(fat.dev.faults), old(fat.dev.sectors), fat.dev.faults, fat.dev.sectors)
    ensures (s.vaddr + offset) % 4096 + |piece| <= 4096
    ensures ok ==> 0 < |piece| && offset + |piece| <= s.memsz
    ensures ok ==> piece == SegmentBytes(bytes, s)[offset..offset + |piece|]
    ensures !ok ==> Failed(old(fat.dev.faults), old(fat.dev.sectors), fat.dev.faults)
  {
    var n := PieceLength(s, offset);
    SegmentPiece(bytes, s, offset, n);
    if offset < s.filesz {
      ok, piece := fat.ReadFile(file, s.off + offset, n, bytes);
    } else {
      ok, piece := true, seq(n, _ => 0);
    }
  }

  /** One piece of a segment, fetched and stored. */
  method LoadPiece(pt: ProcTable, fat: FatReader, file: FatFile, t: nat, s: Segment, offset: nat,
                   ghost n: nat, ghost image: seq<byte>, ghost data: seq<byte>, ghost bytes: seq<byte>)
    returns (ok: bool, count: nat)
    requires fat.Opened(file, bytes) && Loads(s) && GoodSegment(s, |bytes|) && s.vaddr + s.memsz <= 4096 * n
      && offset < s.memsz
    requires data == SegmentBytes(bytes, s)
    requires |image| == 4096 * n
    requires Staged(pt, t, n, PutBytes(image, s.vaddr, data[..offset]))
    modifies fat.dev, pt.vm.alloc`ram
    ensures fat.Opened(file, bytes)
      && Served(old(fat.dev.faults), old(fat.dev.sectors), fat.dev.faults, fat.dev.sectors) && pt.MemOk()
    ensures OnlyHeap(pt.vm.tables, pt.vm.live, pt.own, old(pt.vm.alloc.ram), pt.vm.alloc.ram, t)
    ensures ok ==> 0 < count && offset + count <= s.memsz
    ensures ok ==> Staged(pt, t, n, PutBytes(image, s.vaddr, data[..offset + count]))
    ensures !ok ==> Failed(old(fat.dev.faults), old(fat.dev.sectors), fat.dev.faults)
  {
    var piece;
    ok, piece := FetchPiece(fat, file, s, offset, bytes);
    count := |piece|;
    ghost var now := PutBytes(image, s.vaddr, data[..offset]);
    if ok {
      assert piece == data[offset..offset + count];
      PutMore(image, s.vaddr, data, offset, count);
      assert PutBytes(now, s.vaddr + offset, piece) == PutBytes(image, s.vaddr, data[..offset + count]);
    }
    StoreHeap(pt, t, s.vaddr + offset, piece, n, now);
  }

  /** Copies one segment page by page. */
  method LoadSegment(pt: ProcTable, fat: FatReader, file: FatFile, t: nat, s: Segment, ghost n: nat,
                     ghost image: seq<byte>, ghost bytes: seq<byte>)
    returns (ok: bool)
    requires fat.Opened(file, bytes) && Loads(s) && GoodSegment(s, |bytes|) && s.vaddr + s.memsz <= 4096 * n
    requires Staged(pt, t, n, image)
    modifies fat.dev, pt.vm.alloc`ram
    ensures fat.Opened(file, bytes)
      && Served(old(fat.dev.faults), old(fat.dev.sectors), fat.dev.faults, fat.dev.sectors) && pt.MemOk()
    ensures OnlyHeap(pt.vm.tables, pt.vm.live, pt.own, old(pt.vm.alloc.ram), pt.vm.alloc.ram, t)
    ensures ok ==> Staged(pt, t, n, PutBytes(image, s.vaddr, SegmentBytes(bytes, s)))
    ensures !ok ==> Failed(old(fat.dev.faults), old(fat.dev.sectors), fat.dev.faults)
  {
    ghost var data := SegmentBytes(bytes, s);
    var offset := 0;
    PutNothing(image, s.vaddr, data);
    OnlyHeapNothing(pt.vm.tables, pt.vm.live, pt.own, pt.vm.alloc.ram, t);
    while offset < s.memsz
      invariant offset <= s.memsz
      invariant fat.Opened(file, bytes)
        && Served(old(fat.dev.faults), old(fat.dev.sectors), fat.dev.faults, fat.dev.sectors)
      invariant OnlyHeap(pt.vm.tables, pt.vm.live, pt.own, old(pt.vm.alloc.ram), pt.vm.alloc.ram, t)
      invariant Staged(pt, t, n, PutBytes(image, s.vaddr, data[..offset]))
    {
      var count;
      ghost var ram1 := pt.vm.alloc.ram;
      ok, count := LoadPiece(pt, fat, file, t, s, offset, n, image, data, bytes);
      OnlyHeapTwice(pt.vm.tables, pt.vm.live, pt.own, old(pt.vm.alloc.ram), ram1, pt.vm.alloc.ram, t);
      if !ok {
        return;
      }
      offset := offset + count;
    }
    assert data[..s.memsz] == data;
    ok := true;
  }

  /** Reads and checks the ELF header. */
  method ReadHeader(fat: FatReader, file: FatFile, ghost bytes: seq<byte>) returns (ok: bool, h: Header)
    requires fat.Opened(file, bytes)
    modifies fat.dev
    ensures fat.Opened(file, bytes)
      && Served(old(fat.dev.faults), old(fat.dev.sectors), fat.dev.faults, fat.dev.sectors)
    ensures |bytes| == file.size && h.phoff < 0x1_0000_0000
    ensures ok ==> |bytes| >= 52 && h == ParseHeader(bytes[..52]) && GoodHeader(h)
    ensures !ok ==> Failed(old(fat.dev.faults), old(fat.dev.sectors), fat.dev.faults) || !HasHeaders(bytes)
  {
    h := Elf.Header.Header(0, 0, 0, 0, 0, 0, 0, 0, 0, 0, 0, 0);
    var data;
    ok, data := fat.ReadFile(file, 0, 52, bytes);
    if ok {
      assert data == bytes[..52];
      h := ParseHeader(data);
      ok := GoodHeader(h);
    }
  }

  /** Reads the ELF header and the program headers. */
  method ReadHeaders(fat: FatReader, file: FatFile, ghost bytes: seq<byte>)
    returns (ok: bool, h: Header, segs: seq<Segment>)
    requires fat.Opened(file, bytes)
    modifies fat.dev
    ensures fat.Opened(file, bytes)
      && Served(old(fat.dev.faults), old(fat.dev.sectors), fat.dev.faults, fat.dev.sectors)
    ensures ok ==> HasHeaders(bytes) && h == HeaderOf(bytes) && segs == SegmentsOf(bytes)
    ensures !ok ==> Failed(old(fat.dev.faults), old(fat.dev.sectors), fat.dev.faults) || !HasHeaders(bytes)
  {
    segs := [];
    ok, h := ReadHeader(fat, file, bytes);
    if !ok {
      return;
    }
    var data;
    HeadersRead(bytes, h);
    ok, data := fat.ReadFile(file, h.phoff, 32 * h.phnum, bytes);
    if ok {
      segs := ParseSegments(data, h.phnum);
    }
  }

  /** The first pass over the program headers: checks them, measures the image and looks for the entry. */
  method CheckSegments(segs: seq<Segment>, entry: nat, size: nat) returns (ok: bool, end: nat)
    ensures ok == GoodSegments(segs, entry, size)
    ensures ok ==> end == End(segs, |segs|)
  {
    end := 0;
    var found := false;
    var i := 0;
    while i < |segs|
      invariant i <= |segs| && AllGood(segs, i, size)
      invariant end == End(segs, i) && found == SomeEnters(segs, i, entry)
    {
      var s := segs[i];
      if s.kind == 2 || s.kind == 3 {
        return false, end;
      }
      if s.kind == 1 {
        if s.filesz > s.memsz || s.vaddr > IMAGE_LIMIT || s.memsz > IMAGE_LIMIT - s.vaddr
           || s.off > size || s.filesz > size - s.off {
          return false, end;
        }
        if s.vaddr + s.memsz > end {
          end := s.vaddr + s.memsz;
        }
        if And(s.flags, 1) != 0 && entry >= s.vaddr && entry - s.vaddr < s.filesz {
          found := true;
        }
      }
      i := i + 1;
    }
    ok := found;
  }

  /** One program header of the second pass: copied if it is to be loaded, else skipped. */
  method LoadHeader(pt: ProcTable, fat: FatReader, file: FatFile, t: nat, segs: seq<Segment>, i: nat, ghost n: nat,
                    ghost bytes: seq<byte>) returns (ok: bool)
    requires fat.Opened(file, bytes) && i < |segs| && AllGood(segs, |segs|, |bytes|) && End(segs, i + 1) <= 4096 * n
    requires Staged(pt, t, n, Image(bytes, segs, i, 4096 * n))
    modifies fat.dev, pt.vm.alloc`ram
    ensures fat.Opened(file, bytes)
      && Served(old(fat.dev.faults), old(fat.dev.sectors), fat.dev.faults, fat.dev.sectors) && pt.MemOk()
    ensures OnlyHeap(pt.vm.tables, pt.vm.live, pt.own, old(pt.vm.alloc.ram), pt.vm.alloc.ram, t)
    ensures ok ==> Staged(pt, t, n, Image(bytes, segs, i + 1, 4096 * n))
    ensures !ok ==> Failed(old(fat.dev.faults), old(fat.dev.sectors), fat.dev.faults)
  {
    OnlyHeapNothing(pt.vm.tables, pt.vm.live, pt.own, pt.vm.alloc.ram, t);
    ok := true;
    if Loads(segs[i]) {
      ok := LoadSegment(pt, fat, file, t, segs[i], n, Image(bytes, segs, i, 4096 * n), bytes);
    }
  }

  /** The second pass over the program headers. */
  method LoadSegments(pt: ProcTable, fat: FatReader, file: FatFile, t: nat, segs: seq<Segment>, ghost n: nat,
                      ghost bytes: seq<byte>) returns (ok: bool)
    requires fat.Opened(file, bytes) && AllGood(segs, |segs|, |bytes|) && End(segs, |segs|) <= 4096 * n
    requires Staged(pt, t, n, seq(4096 * n, _ => 0))
    modifies fat.dev, pt.vm.alloc`ram
    ensures fat.Opened(file, bytes)
      && Served(old(fat.dev.faults), old(fat.dev.sectors), fat.dev.faults, fat.dev.sectors) && pt.MemOk()
    ensures OnlyHeap(pt.vm.tables, pt.vm.live, pt.own, old(pt.vm.alloc.ram), pt.vm.alloc.ram, t)
    ensures ok ==> Staged(pt, t, n, Image(bytes, segs, |segs|, 4096 * n))
    ensures !ok ==> Failed(old(fat.dev.faults), old(fat.dev.sectors), fat.dev.faults)
  {
    OnlyHeapNothing(pt.vm.tables, pt.vm.live, pt.own, pt.vm.alloc.ram, t);
    ok := true;
    var i := 0;
    while i < |segs|
      invariant i <= |segs| && End(segs, i) <= 4096 * n && ok
      invariant fat.Opened(file, bytes)
        && Served(old(fat.dev.faults), old(fat.dev.sectors), fat.dev.faults, fat.dev.sectors)
      invariant OnlyHeap(pt.vm.tables, pt.vm.live, pt.own, old(pt.vm.alloc.ram), pt.vm.alloc.ram, t)
      invariant Staged(pt, t, n, Image(bytes, segs, i, 4096 * n))
    {
      EndGrows(segs, i);
      ghost var ram1 := pt.vm.alloc.ram;
      ok := LoadHeader(pt, fat, file, t, segs, i, n, bytes);
      OnlyHeapTwice(pt.vm.tables, pt.vm.live, pt.own, old(pt.vm.alloc.ram), ram1, pt.vm.alloc.ram, t);
      if !ok {
        return;
      }
      i := i + 1;
    }
  }

  /** Grows the empty heap of slot `t` to `count` pages and copies the segments into it. */
  method LoadImage(pt: ProcTable, fat: FatReader, file: FatFile, t: nat, segs: seq<Segment>, count: nat,
                   ghost bytes: seq<byte>)
    returns (ok: bool)
    requires fat.Opened(file, bytes) && AllGood(segs, |segs|, |bytes|) && End(segs, |segs|) <= 4096 * count
      && count <= 256
    requires pt.MemOk() && t < 10 && pt.SlotSpace(t, 0) && |pt.procs| == 10 && pt.procs[t].heapSize == 0
    modifies fat.dev, pt`procs, pt`own, pt.vm, pt.vm.alloc
    ensures fat.Opened(file, bytes)
      && Served(old(fat.dev.faults), old(fat.dev.sectors), fat.dev.faults, fat.dev.sectors) && pt.MemOk()
      && pt.SlotSpace(t, count)
    ensures ProcsBut(old(pt.procs), pt.procs, t) && pt.procs[t] == old(pt.procs)[t].(heapSize := 4096 * count)
    ensures Apart(old(pt.vm.tables), old(pt.vm.live), old(pt.vm.alloc.ram), old(pt.own),
                  pt.vm.tables, pt.vm.live, pt.vm.alloc.ram, pt.own, t)
    ensures StacksKept(old(pt.own), pt.own, old(pt.vm.alloc.ram), pt.vm.alloc.ram, t)
    ensures ok ==> HeapIs(pt.vm.alloc.ram, pt.own[t], count, Image(bytes, segs, |segs|, 4096 * count))
    ensures !ok ==> Failed(old(fat.dev.faults), old(fat.dev.sectors), fat.dev.faults)
  {
    pt.ProcExpandMemory(t, count, 0);
    ghost var ram1 := pt.vm.alloc.ram;
    ReadyToLoad(pt.vm.kernelEnd, pt.vm.tables, pt.vm.live, ram1, pt.own, t, count);
    ok := LoadSegments(pt, fat, file, t, segs, count, bytes);
    GrewThenLoaded(pt.vm.kernelEnd, old(pt.vm.tables), old(pt.vm.live), old(pt.vm.alloc.ram), old(pt.own),
                   pt.vm.tables, pt.vm.live, ram1, pt.own, pt.vm.alloc.ram, t, count);
  }

  /** Loads checked segments into the fresh slot `t`, which stays in order. */
  method FillSlot(pt: ProcTable, fat: FatReader, file: FatFile, t: nat, segs: seq<Segment>, count: nat,
                  ghost bytes: seq<byte>)
    returns (ok: bool)
    requires fat.Opened(file, bytes) && pt.Inv() && t < 10 && pt.procs[t].state == CREATED && HasPages(pt.own[t], 0)
    requires AllGood(segs, |segs|, |bytes|) && End(segs, |segs|) <= 4096 * count && count <= 256
    modifies fat.dev, pt`procs, pt`own, pt.vm, pt.vm.alloc
    ensures fat.Opened(file, bytes)
      && Served(old(fat.dev.faults), old(fat.dev.sectors), fat.dev.faults, fat.dev.sectors) && pt.Inv()
    ensures ProcsBut(old(pt.procs), pt.procs, t) && pt.procs[t] == old(pt.procs)[t].(heapSize := 4096 * count)
    ensures Apart(old(pt.vm.tables), old(pt.vm.live), old(pt.vm.alloc.ram), old(pt.own),
                  pt.vm.tables, pt.vm.live, pt.vm.alloc.ram, pt.own, t)
    ensures StacksKept(old(pt.own), pt.own, old(pt.vm.alloc.ram), pt.vm.alloc.ram, t) && HasPages(pt.own[t], count)
    ensures ok ==> HeapIs(pt.vm.alloc.ram, pt.own[t], count, Image(bytes, segs, |segs|, 4096 * count))
    ensures !ok ==> Failed(old(fat.dev.faults), old(fat.dev.sectors), fat.dev.faults)
  {
    assert SlotOk(pt.vm.kernelEnd, pt.vm.tables, pt.vm.live, pt.vm.alloc.ram, pt.own[t], pt.procs[t], t);
    PageCount(pt.own[t], 0);
    ok := LoadImage(pt, fat, file, t, segs, count, bytes);
    PageCount(pt.own[t], count);
    assert 0 in old(pt.own)[t] && 1 in old(pt.own)[t] && pt.own[t][0] == old(pt.own)[t][0]
      && pt.own[t][1] == old(pt.own)[t][1];
    OneSlotStep(pt.vm.kernelEnd, old(pt.vm.tables), old(pt.vm.live), old(pt.vm.alloc.ram), old(pt.own), old(pt.procs),
                pt.vm.tables, pt.vm.live, pt.vm.alloc.ram, pt.own, pt.procs, t);
  }

  /** Sets where the program in slot `t` starts. */
  method SetStart(pt: ProcTable, t: nat, entry: nat)
    requires pt.Inv() && t < 10
    modifies pt`procs
    ensures pt.Inv() && ProcsBut(old(pt.procs), pt.procs, t)
    ensures pt.procs[t] == old(pt.procs)[t].(entry := entry, context := StartContext(entry))
  {
    assert SlotOk(pt.vm.kernelEnd, pt.vm.tables, pt.vm.live, pt.vm.alloc.ram, pt.own[t], pt.procs[t], t);
    pt.procs := pt.procs[t := pt.procs[t].(entry := entry, context := StartContext(entry))];
    RecordStep(pt.vm.kernelEnd, pt.vm.tables, pt.vm.live, pt.vm.alloc.ram, pt.own, old(pt.procs), pt.procs);
  }

  /** The part of load_elf after the checks. */
  method LoadInto(pt: ProcTable, fat: FatReader, file: FatFile, t: nat, segs: seq<Segment>, end: nat, entry: nat,
                  ghost bytes: seq<byte>)
    returns (ok: bool)
    requires fat.Opened(file, bytes) && pt.Inv() && t < 10 && pt.procs[t].state == CREATED && HasPages(pt.own[t], 0)
    requires Loadable(bytes) && segs == SegmentsOf(bytes) && entry == HeaderOf(bytes).entry && end == End(segs, |segs|)
    modifies fat.dev, pt`procs, pt`own, pt.vm, pt.vm.alloc
    ensures fat.Opened(file, bytes)
      && Served(old(fat.dev.faults), old(fat.dev.sectors), fat.dev.faults, fat.dev.sectors) && pt.Inv()
    ensures ProcsBut(old(pt.procs), pt.procs, t) && pt.procs[t].state == CREATED
      && pt.procs[t].waitPid == old(pt.procs)[t].waitPid
    ensures Apart(old(pt.vm.tables), old(pt.vm.live), old(pt.vm.alloc.ram), old(pt.own),
                  pt.vm.tables, pt.vm.live, pt.vm.alloc.ram, pt.own, t)
    ensures StacksKept(old(pt.own), pt.own, old(pt.vm.alloc.ram), pt.vm.alloc.ram, t)
    ensures if ok then HoldsProgram(pt.vm.alloc.ram, pt.own[t], pt.procs[t], bytes)
            else Failed(old(fat.dev.faults), old(fat.dev.sectors), fat.dev.faults)
  {
    EndInImage(segs, |segs|, |bytes|);
    PagesForEnd(end);
    ok := FillSlot(pt, fat, file, t, segs, PagesFor(end), bytes);
    if ok {
      SetStart(pt, t, entry);
    }
  }

  /** Loads a program into the fresh slot `t`. It fails only if the device does or the file is not a
      program; whatever happens the slot stays in order and nobody else is touched. */
  method LoadElf(pt: ProcTable, fat: FatReader, file: FatFile, t: nat, ghost bytes: seq<byte>) returns (ok: bool)
    requires fat.Opened(file, bytes) && pt.Inv() && t < 10 && pt.procs[t].state == CREATED && HasPages(pt.own[t], 0)
    modifies fat.dev, pt`procs, pt`own, pt.vm, pt.vm.alloc
    ensures fat.Opened(file, bytes)
      && Served(old(fat.dev.faults), old(fat.dev.sectors), fat.dev.faults, fat.dev.sectors) && pt.Inv()
    ensures ProcsBut(old(pt.procs), pt.procs, t) && pt.procs[t].state == CREATED
      && pt.procs[t].waitPid == old(pt.procs)[t].waitPid
    ensures Apart(old(pt.vm.tables), old(pt.vm.live), old(pt.vm.alloc.ram), old(pt.own),
                  pt.vm.tables, pt.vm.live, pt.vm.alloc.ram, pt.own, t)
    ensures StacksKept(old(pt.own), pt.own, old(pt.vm.alloc.ram), pt.vm.alloc.ram, t)
    ensures if ok then HoldsProgram(pt.vm.alloc.ram, pt.own[t], pt.procs[t], bytes)
            else Failed(old(fat.dev.faults), old(fat.dev.sectors), fat.dev.faults) || !Loadable(bytes)
  {
    NothingApart(pt.vm.tables, pt.vm.live, pt.vm.alloc.ram, pt.own, t);
    var h, segs, end;
    ok, h, segs := ReadHeaders(fat, file, bytes);
    if !ok {
      return;
    }
    ok, end := CheckSegments(segs, h.entry, file.size);
    if !ok {
      return;
    }
    ok := LoadInto(pt, fat, file, t, segs, end, h.entry, bytes);
  }
}
