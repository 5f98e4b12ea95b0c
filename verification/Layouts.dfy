// The bytes of the records on disk, field by field, and what the kernel reads in them.
module Layouts {
  import opened Words
  import opened Bits
  import opened Virtio
  import opened Volumes
  import opened Directories
  import opened Fat
  import opened Elf

  /** struct ElfProgramHeader: eight words. */
  datatype ProgramHeader = ProgramHeader(kind: u32, off: u32, vaddr: u32, paddr: u32, filesz: u32, memsz: u32,
                                         flags: u32, align: u32)

  function ProgramHeaderBytes(p: ProgramHeader): (b: seq<byte>)
    ensures |b| == 32
  {
    (Bytes4(p.kind) + Bytes4(p.off) + Bytes4(p.vaddr) + Bytes4(p.paddr))
    + (Bytes4(p.filesz) + Bytes4(p.memsz) + Bytes4(p.flags) + Bytes4(p.align))
  }

  lemma FourWords(a: u32, b: u32, c: u32, d: u32)
    ensures var s := Bytes4(a) + Bytes4(b) + Bytes4(c) + Bytes4(d);
      |s| == 16 && Le32(s, 0) == a && Le32(s, 4) == b && Le32(s, 8) == c && Le32(s, 12) == d
  {
    var s := Bytes4(a) + Bytes4(b) + Bytes4(c) + Bytes4(d);
    ReadBytes4(s, 0, a);
    ReadBytes4(s, 4, b);
    ReadBytes4(s, 8, c);
    ReadBytes4(s, 12, d);
  }

  /** Words of a concatenation. */
  lemma Le32Joined(s: seq<byte>, t: seq<byte>, at: nat)
    ensures at + 4 <= |s| ==> Le32(s + t, at) == Le32(s, at)
    ensures at + 4 <= |t| ==> Le32(s + t, |s| + at) == Le32(t, at)
  {
  }

  lemma Le16Joined(s: seq<byte>, t: seq<byte>, at: nat)
    ensures at + 2 <= |s| ==> Le16(s + t, at) == Le16(s, at)
    ensures at + 2 <= |t| ==> Le16(s + t, |s| + at) == Le16(t, at)
  {
  }

  /** Every field of a program header is read from its own place. */
  lemma SegmentLayout(p: ProgramHeader)
    ensures ParseSegment(ProgramHeaderBytes(p)) == Segment(p.kind, p.off, p.vaddr, p.filesz, p.memsz, p.flags)
  {
    var s := Bytes4(p.kind) + Bytes4(p.off) + Bytes4(p.vaddr) + Bytes4(p.paddr);
    var t := Bytes4(p.filesz) + Bytes4(p.memsz) + Bytes4(p.flags) + Bytes4(p.align);
    FourWords(p.kind, p.off, p.vaddr, p.paddr);
    FourWords(p.filesz, p.memsz, p.flags, p.align);
    Le32Joined(s, t, 0);
    Le32Joined(s, t, 4);
    Le32Joined(s, t, 8);
  }

  /** struct ElfHeader; `ident` are the twelve bytes after the magic number. */
  datatype ElfHeader = ElfHeader(magic: u32, ident: seq<byte>, kind: u16, machine: u16, version: u32, entry: u32,
                                 phoff: u32, shoff: u32, flags: u32, ehsize: u16, phentsize: u16, phnum: u16,
                                 shentsize: u16, shnum: u16, shstrndx: u16)

  function IdentBytes(e: ElfHeader): (b: seq<byte>)
    requires |e.ident| == 12
    ensures |b| == 20
  {
    Bytes4(e.magic) + e.ident + Bytes2(e.kind) + Bytes2(e.machine)
  }

  function SizeBytes(e: ElfHeader): (b: seq<byte>)
    ensures |b| == 12
  {
    Bytes2(e.ehsize) + Bytes2(e.phentsize) + Bytes2(e.phnum) + Bytes2(e.shentsize) + Bytes2(e.shnum)
    + Bytes2(e.shstrndx)
  }

  function ElfHeaderBytes(e: ElfHeader): (b: seq<byte>)
    requires |e.ident| == 12
    ensures |b| == 52
  {
    IdentBytes(e) + (Bytes4(e.version) + Bytes4(e.entry) + Bytes4(e.phoff) + Bytes4(e.shoff))
    + (Bytes4(e.flags) + SizeBytes(e))
  }

  lemma IdentLayout(e: ElfHeader)
    requires |e.ident| == 12
    ensures var b := IdentBytes(e);
      && Le32(b, 0) == e.magic && b[4] == e.ident[0] && b[5] == e.ident[1] && b[6] == e.ident[2]
      && Le16(b, 16) == e.kind && Le16(b, 18) == e.machine
  {
    var b := IdentBytes(e);
    ReadBytes4(b, 0, e.magic);
    ReadBytes2(b, 16, e.kind);
    ReadBytes2(b, 18, e.machine);
  }

  lemma SizeLayout(e: ElfHeader)
    ensures var b := Bytes4(e.flags) + SizeBytes(e);
      Le16(b, 4) == e.ehsize && Le16(b, 6) == e.phentsize && Le16(b, 8) == e.phnum
  {
    var b := SizeBytes(e);
    ReadBytes2(b, 0, e.ehsize);
    ReadBytes2(b, 2, e.phentsize);
    ReadBytes2(b, 4, e.phnum);
    Le16Joined(Bytes4(e.flags), b, 0);
    Le16Joined(Bytes4(e.flags), b, 2);
    Le16Joined(Bytes4(e.flags), b, 4);
  }

  /** Every field of an ELF header is read from its own place. */
  lemma HeaderLayout(e: ElfHeader)
    requires |e.ident| == 12
    ensures ParseHeader(ElfHeaderBytes(e))
         == Elf.Header.Header(e.magic, e.ident[0], e.ident[1], e.ident[2], e.kind, e.machine, e.version, e.entry,
                              e.phoff, e.ehsize, e.phentsize, e.phnum)
  {
    var x, y, z := IdentBytes(e), Bytes4(e.version) + Bytes4(e.entry) + Bytes4(e.phoff) + Bytes4(e.shoff),
                   Bytes4(e.flags) + SizeBytes(e);
    IdentLayout(e);
    FourWords(e.version, e.entry, e.phoff, e.shoff);
    SizeLayout(e);
    Le32Joined(x, y, 0);
    Le32Joined(x + y, z, 0);
    Le16Joined(x, y, 16);
    Le16Joined(x + y, z, 16);
    Le16Joined(x, y, 18);
    Le16Joined(x + y, z, 18);
    Le32Joined(x, y, 4);
    Le32Joined(x, y, 8);
    Le32Joined(x + y, z, 20);
    Le32Joined(x + y, z, 24);
    Le32Joined(x + y, z, 28);
    Le16Joined(x + y, z, 4);
    Le16Joined(x + y, z, 6);
    Le16Joined(x + y, z, 8);
  }

  /** The headers that load_elf accepts, byte by byte. */
  predicate AcceptedBytes(b: seq<byte>)
    requires |b| == 52
  {
    && b[0] == 0x7f && b[1] == 0x45 && b[2] == 0x4c && b[3] == 0x46 && b[4] == b[5] == b[6] == 1
    && b[16] == 2 && b[17] == 0 && b[18] == 40 && b[19] == 0
    && b[20] == 1 && b[21] == b[22] == b[23] == 0 && b[24] % 4 == 0
    && b[40] == 52 && b[41] == 0 && b[42] == 32 && b[43] == 0 && 1 <= b[44] <= 16 && b[45] == 0
  }

  /** A word with these bytes. */
  lemma WordIs(s: seq<byte>, at: nat, w: u32)
    requires at + 4 <= |s|
    ensures Le32(s, at) == w <==> s[at] == w % 0x100 && s[at + 1] == w / 0x100 % 0x100
                                  && s[at + 2] == w / 0x1_0000 % 0x100 && s[at + 3] == w / 0x100_0000
  {
    FourBytes(w);
    LowBytes(s[at], s[at + 1] + 0x100 * Le16(s, at + 2));
    LowBytes(s[at + 1], Le16(s, at + 2));
    LowBytes(s[at + 2], s[at + 3]);
    if Le32(s, at) == w {
      assert w / 0x1_0000 == w / 0x100 / 0x100 && w / 0x100_0000 == w / 0x1_0000 / 0x100;
    }
  }

  lemma LowBytes(low: byte, high: nat)
    ensures (low + 0x100 * high) % 0x100 == low && (low + 0x100 * high) / 0x100 == high
  {
  }

  lemma HeaderAccepted(b: seq<byte>)
    requires |b| == 52
    ensures GoodHeader(ParseHeader(b)) <==> AcceptedBytes(b)
  {
    WordIs(b, 0, 0x464c_457f);
    WordIs(b, 20, 1);
    LastTwoBits(b, 24);
  }

  lemma LastTwoBits(b: seq<byte>, at: nat)
    requires at + 4 <= |b|
    ensures And(Le32(b, at), 3) == b[at] % 4
  {
    assert PowerOfTwo(1) && PowerOfTwo(2) && PowerOfTwo(4);
    AndMask(Le32(b, at), 4);
    var rest := 0x40 * b[at + 1] + 0x4000 * Le16(b, at + 2);
    assert Le32(b, at) == 4 * rest + b[at];
  }

  /** A file with this header at its start. */
  ghost predicate StartsWith(file: seq<byte>, e: ElfHeader) {
    && |e.ident| == 12 && |file| >= 52 && file[..52] == ElfHeaderBytes(e) && AcceptedBytes(file[..52])
    && e.phoff + 32 * e.phnum <= |file|
  }

  lemma FileHeader(file: seq<byte>, e: ElfHeader)
    requires StartsWith(file, e)
    ensures HasHeaders(file) && HeaderOf(file).entry == e.entry
    ensures HeaderOf(file).phoff == e.phoff && HeaderOf(file).phnum == e.phnum
  {
    HeaderLayout(e);
    HeaderAccepted(file[..52]);
  }

  lemma SegmentAt(file: seq<byte>, i: nat)
    requires HasHeaders(file) && i < HeaderOf(file).phnum
    ensures |SegmentsOf(file)| == HeaderOf(file).phnum
    ensures var at := HeaderOf(file).phoff + 32 * i;
      at + 32 <= |file| && SegmentsOf(file)[i] == ParseSegment(file[at..at + 32])
  {
    var at, n := HeaderOf(file).phoff, HeaderOf(file).phnum;
    SliceOfSlice(file, at, at + 32 * n, 32 * i, 32 * i + 32);
  }

  /** A file with an acceptable header and these program headers where it says is read as exactly these
      segments. */
  lemma ProgramLayout(file: seq<byte>, e: ElfHeader, ps: seq<ProgramHeader>, i: nat)
    requires StartsWith(file, e) && |ps| == e.phnum && i < |ps|
    requires file[e.phoff + 32 * i..e.phoff + 32 * i + 32] == ProgramHeaderBytes(ps[i])
    ensures HasHeaders(file) && HeaderOf(file).entry == e.entry && |SegmentsOf(file)| == |ps|
    ensures var p := ps[i]; SegmentsOf(file)[i] == Segment(p.kind, p.off, p.vaddr, p.filesz, p.memsz, p.flags)
  {
    FileHeader(file, e);
    SegmentLayout(ps[i]);
    SegmentAt(file, i);
  }

  /** The entry lies in the file part of a PT_LOAD segment whose execute bit is set. */
  lemma EntersIs(s: Segment, entry: nat)
    ensures Enters(s, entry) <==> s.kind == 1 && s.flags % 2 == 1 && s.vaddr <= entry < s.vaddr + s.filesz
  {
    assert PowerOfTwo(1) && PowerOfTwo(2);
    AndMask(s.flags, 2);
  }

  /** The boot sector of a FAT16 volume. */
  datatype BootRecord = BootRecord(jump: seq<byte>, sectorBytes: u16, spc: byte, reserved: u16, copies: byte,
                                   rootEntries: u16, total16: u16, media: byte, fatSectors: u16, chs: seq<byte>,
                                   total32: u32, code: seq<byte>, signature: u16)

  function BootBytes(r: BootRecord): (b: Sector)
    requires |r.jump| == 11 && |r.chs| == 8 && |r.code| == 474
  {
    r.jump + Bytes2(r.sectorBytes) + [r.spc] + Bytes2(r.reserved) + [r.copies] + Bytes2(r.rootEntries)
    + Bytes2(r.total16) + [r.media] + Bytes2(r.fatSectors) + r.chs + Bytes4(r.total32) + r.code + Bytes2(r.signature)
  }

  lemma BootLayout(r: BootRecord)
    requires |r.jump| == 11 && |r.chs| == 8 && |r.code| == 474
    ensures Parse(BootBytes(r)) == Bpb(r.signature, r.sectorBytes, r.spc, r.reserved, r.copies, r.rootEntries,
                                       r.fatSectors, if r.total16 != 0 then r.total16 else r.total32)
  {
    var b := BootBytes(r);
    ReadBytes2(b, 11, r.sectorBytes);
    ReadBytes2(b, 14, r.reserved);
    ReadBytes2(b, 17, r.rootEntries);
    ReadBytes2(b, 19, r.total16);
    ReadBytes2(b, 22, r.fatSectors);
    ReadBytes4(b, 32, r.total32);
    ReadBytes2(b, 510, r.signature);
  }

  /** The regions of a described volume: the reserved sectors, every copy of the FAT, the root directory
      in whole sectors, and as many whole clusters as the rest holds. */
  lemma DescribedRegions(disk: seq<Sector>, p: Bpb)
    requires p.spc > 0
    ensures var v := Described(disk, p);
      && v.disk == disk && v.spc == p.spc && v.rootEntries == p.rootEntries
      && v.fatStart == p.fatStart && v.fatSectors == p.fatSectors && v.rootStart == p.fatStart + p.copies * p.fatSectors
      && 32 * p.rootEntries <= 512 * (v.dataStart - v.rootStart) < 32 * p.rootEntries + 512
      && (p.total >= v.dataStart ==>
            v.dataStart + Rows(v.clusters, p.spc) <= p.total < v.dataStart + Rows(v.clusters, p.spc) + p.spc)
  {
    var v := Described(disk, p);
    if p.total > v.dataStart {
      QuotientRows(p.total - v.dataStart, p.spc);
    }
  }

  /** A directory entry: name, attributes, dates and reserved bytes, first cluster, size. */
  datatype DirectoryRecord = DirectoryRecord(name: seq<byte>, attributes: byte, dates: seq<byte>, cluster: u16,
                                             size: u32)

  function EntryBytes(r: DirectoryRecord): (e: Entry)
    requires |r.name| == 11 && |r.dates| == 14
  {
    r.name + [r.attributes] + r.dates + Bytes2(r.cluster) + Bytes4(r.size)
  }

  /** The first cluster, the size and the name of an entry; it is a regular file exactly when it is not
      deleted and neither the volume-label nor the directory bit is set. */
  lemma EntryLayout(r: DirectoryRecord)
    requires |r.name| == 11 && |r.dates| == 14
    ensures FileIn(EntryBytes(r)) == FatFile(r.size, r.cluster)
    ensures forall key :: Named(EntryBytes(r), key) <==> key == r.name
    ensures EndMark(EntryBytes(r)) <==> r.name[0] == 0
    ensures Regular(EntryBytes(r)) <==> r.name[0] != 0xe5 && r.attributes / 8 % 2 == 0 && r.attributes / 16 % 2 == 0
  {
    var e := EntryBytes(r);
    ReadBytes2(e, 26, r.cluster);
    ReadBytes4(e, 28, r.size);
    assert e[..11] == r.name && e[11] == r.attributes;
    MaskLabel(r.attributes);
  }

  lemma MaskLabel(x: nat)
    ensures And(x, 0x18) == 0 <==> x / 8 % 2 == 0 && x / 16 % 2 == 0
  {
    AndShifted(x, 6);
    AndTwice(x / 4, 3);
    var y := x / 8;
    assert x / 4 / 2 == y && y / 2 == x / 16;
    assert PowerOfTwo(1) && PowerOfTwo(2) && PowerOfTwo(4);
    AndMask(y, 4);
    assert y % 4 == 0 <==> y % 2 == 0 && y / 2 % 2 == 0;
  }

  lemma AndTwice(x: nat, m: nat)
    ensures And(x, 2 * m) == 2 * And(x / 2, m)
  {
    assert 2 * m / 2 == m;
  }
}
