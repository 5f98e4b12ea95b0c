// What kernel/proc/syscall_exec.c accepts as a program and what its memory then holds.
module Elf {
  import opened Words
  import opened Bits

  const IMAGE_LIMIT: nat := 0x10_0000
  const HEADER_LIMIT: nat := 16

  datatype Header = Header(magic: nat, class_: nat, encoding: nat, identVersion: nat, kind: nat, machine: nat,
                           version: nat, entry: nat, phoff: nat, ehsize: nat, phentsize: nat, phnum: nat)

  datatype Segment = Segment(kind: nat, off: nat, vaddr: nat, filesz: nat, memsz: nat, flags: nat)

  function ParseHeader(b: seq<byte>): (h: Header)
    requires |b| == 52
    ensures h.phoff < 0x1_0000_0000 && h.entry < 0x1_0000_0000
  {
    Header(Le32(b, 0), b[4], b[5], b[6], Le16(b, 16), Le16(b, 18), Le32(b, 20), Le32(b, 24), Le32(b, 28),
           Le16(b, 40), Le16(b, 42), Le16(b, 44))
  }

  function ParseSegment(b: seq<byte>): (s: Segment)
    requires |b| == 32
    ensures s.off < 0x1_0000_0000 && s.vaddr < 0x1_0000_0000 && s.filesz < 0x1_0000_0000 && s.memsz < 0x1_0000_0000
  {
    Segment(Le32(b, 0), Le32(b, 4), Le32(b, 8), Le32(b, 16), Le32(b, 20), Le32(b, 24))
  }

  function ParseSegments(b: seq<byte>, n: nat): (segs: seq<Segment>)
    requires |b| == 32 * n
  {
    seq(n, i requires 0 <= i < n => ParseSegment(b[32 * i..32 * i + 32]))
  }

  /** A 32-bit little-endian ARM executable with one to sixteen program headers and an aligned entry. */
  predicate GoodHeader(h: Header) {
    && h.magic == 0x464c_457f && h.class_ == 1 && h.encoding == 1 && h.identVersion == 1
    && h.kind == 2 && h.machine == 40 && h.version == 1
    && h.ehsize == 52 && h.phentsize == 32 && 1 <= h.phnum <= HEADER_LIMIT && And(h.entry, 3) == 0
  }

  predicate Loads(s: Segment) { s.kind == 1 }

  /** Neither dynamic nor an interpreter; what it loads fits the image and lies in the file. */
  predicate GoodSegment(s: Segment, size: nat) {
    && s.kind != 2 && s.kind != 3
    && (Loads(s) ==> s.filesz <= s.memsz && s.vaddr + s.memsz <= IMAGE_LIMIT && s.off + s.filesz <= size)
  }

  ghost predicate AllGood(segs: seq<Segment>, n: nat, size: nat) {
    forall i :: 0 <= i < n && i < |segs| ==> GoodSegment(segs[i], size)
  }

  /** The entry lies in the file part of an executable segment. */
  predicate Enters(s: Segment, entry: nat) {
    Loads(s) && And(s.flags, 1) != 0 && s.vaddr <= entry < s.vaddr + s.filesz
  }

  ghost predicate SomeEnters(segs: seq<Segment>, n: nat, entry: nat) {
    exists i :: 0 <= i < n && i < |segs| && Enters(segs[i], entry)
  }

  /** The first address beyond the first `n` segments. */
  function End(segs: seq<Segment>, n: nat): (end: nat)
    requires n <= |segs|
  {
    if n == 0 then 0 else
      var s, end := segs[n - 1], End(segs, n - 1);
      if Loads(s) && s.vaddr + s.memsz > end then s.vaddr + s.memsz else end
  }

  /** No good segment reaches beyond the image. */
  lemma {:induction false} EndInImage(segs: seq<Segment>, n: nat, size: nat)
    requires n <= |segs| && AllGood(segs, n, size)
    ensures End(segs, n) <= IMAGE_LIMIT
  {
    if n > 0 {
      EndInImage(segs, n - 1, size);
    }
  }

  /** The end is the largest end of a segment, and 0 when there is none. */
  lemma {:induction false} EndIsLargest(segs: seq<Segment>, n: nat)
    requires n <= |segs|
    ensures forall i :: 0 <= i < n && segs[i].kind == 1 ==> segs[i].vaddr + segs[i].memsz <= End(segs, n)
    ensures End(segs, n) > 0 ==>
      exists i :: 0 <= i < n && segs[i].kind == 1 && segs[i].vaddr + segs[i].memsz == End(segs, n)
  {
    if n > 0 {
      EndIsLargest(segs, n - 1);
      var s := segs[n - 1];
      if s.kind == 1 && s.vaddr + s.memsz > End(segs, n - 1) {
        assert segs[n - 1].vaddr + segs[n - 1].memsz == End(segs, n);
      }
    }
  }

  lemma EndGrows(segs: seq<Segment>, n: nat)
    requires n < |segs|
    ensures End(segs, n + 1) <= End(segs, |segs|) && End(segs, n) <= End(segs, n + 1)
    decreases |segs| - n
  {
    if n + 1 < |segs| {
      EndGrows(segs, n + 1);
    }
  }

  /** The pages that `end` bytes take. */
  function PagesFor(end: nat): nat { (end + 4095) / 4096 }

  /** What a segment puts at its byte `i`: its part of the file, then zeros. */
  function SegmentByte(file: seq<byte>, s: Segment, i: nat): byte
    requires Loads(s) && GoodSegment(s, |file|)
  {
    if i < s.filesz then file[s.off + i] else 0
  }

  ghost function SegmentBytes(file: seq<byte>, s: Segment): (data: seq<byte>)
    requires Loads(s) && GoodSegment(s, |file|)
    ensures |data| == s.memsz
  {
    seq(s.memsz, i requires 0 <= i < s.memsz => SegmentByte(file, s, i))
  }

  /** Within the file part a segment's bytes are the file's, beyond it they are zeros. */
  lemma SegmentPiece(file: seq<byte>, s: Segment, offset: nat, n: nat)
    requires Loads(s) && GoodSegment(s, |file|) && offset + n <= s.memsz
    ensures offset + n <= s.filesz ==>
      SegmentBytes(file, s)[offset..offset + n] == file[s.off + offset..s.off + offset + n]
    ensures offset >= s.filesz ==> SegmentBytes(file, s)[offset..offset + n] == seq(n, _ => 0)
  {
  }

  /** The memory image: the segments, in header order, over zeros. */
  ghost function Image(file: seq<byte>, segs: seq<Segment>, n: nat, length: nat): (image: seq<byte>)
    requires n <= |segs| && AllGood(segs, n, |file|) && End(segs, n) <= length
    ensures |image| == length
  {
    if n == 0 then seq(length, _ => 0)
    else if Loads(segs[n - 1]) then PutBytes(Image(file, segs, n - 1, length), segs[n - 1].vaddr,
                                             SegmentBytes(file, segs[n - 1]))
    else Image(file, segs, n - 1, length)
  }

  /** No page too few and none too many. */
  lemma PagesForEnd(end: nat)
    requires end <= IMAGE_LIMIT
    ensures end <= 4096 * PagesFor(end) < end + 4096 && PagesFor(end) <= 256
  {
  }

  /** The header is good and the program headers lie in the file. */
  predicate HasHeaders(file: seq<byte>) {
    && |file| >= 52
    && var h := ParseHeader(file[..52]); GoodHeader(h) && h.phoff + 32 * h.phnum <= |file|
  }

  function HeaderOf(file: seq<byte>): Header
    requires HasHeaders(file)
  {
    ParseHeader(file[..52])
  }

  function SegmentsOf(file: seq<byte>): seq<Segment>
    requires HasHeaders(file)
  {
    var h := HeaderOf(file);
    ParseSegments(file[h.phoff..h.phoff + 32 * h.phnum], h.phnum)
  }

  /** What a good header and the bytes it points to say about the file. */
  lemma HeadersRead(file: seq<byte>, h: Header)
    requires |file| >= 52 && h == ParseHeader(file[..52]) && GoodHeader(h)
    ensures HasHeaders(file) <==> h.phoff + 32 * h.phnum <= |file|
    ensures HasHeaders(file) ==> h == HeaderOf(file)
    ensures HasHeaders(file) ==> SegmentsOf(file) == ParseSegments(file[h.phoff..h.phoff + 32 * h.phnum], h.phnum)
  {
  }

  /** Every segment is good and the entry lies in one of them. */
  ghost predicate GoodSegments(segs: seq<Segment>, entry: nat, size: nat) {
    AllGood(segs, |segs|, size) && SomeEnters(segs, |segs|, entry)
  }

  /** Everything load_elf asks of a file. */
  ghost predicate Loadable(file: seq<byte>) {
    HasHeaders(file) && GoodSegments(SegmentsOf(file), HeaderOf(file).entry, |file|)
  }

  /** The pages of a program and the image in them. */
  ghost function ProgramPages(file: seq<byte>): (n: nat)
    requires Loadable(file)
    ensures n <= 256
  {
    EndInImage(SegmentsOf(file), |SegmentsOf(file)|, |file|);
    PagesFor(End(SegmentsOf(file), |SegmentsOf(file)|))
  }

  ghost function ProgramImage(file: seq<byte>): (image: seq<byte>)
    requires Loadable(file)
    ensures |image| == 4096 * ProgramPages(file)
  {
    var segs := SegmentsOf(file);
    EndInImage(segs, |segs|, |file|);
    PagesForEnd(End(segs, |segs|));
    Image(file, segs, |segs|, 4096 * ProgramPages(file))
  }

  /** Address `a` holds the byte of the last segment that covers it, or 0 when none does. */
  lemma {:induction false} ImageAt(file: seq<byte>, segs: seq<Segment>, n: nat, length: nat, a: nat, last: int)
    requires n <= |segs| && AllGood(segs, n, |file|) && End(segs, n) <= length && a < length && -1 <= last < n
    requires last >= 0 ==> Loads(segs[last]) && segs[last].vaddr <= a < segs[last].vaddr + segs[last].memsz
    requires forall i :: last < i < n && Loads(segs[i]) ==> !(segs[i].vaddr <= a < segs[i].vaddr + segs[i].memsz)
    ensures last < 0 ==> Image(file, segs, n, length)[a] == 0
    ensures last >= 0 ==> var s, i := segs[last], a - segs[last].vaddr;
      s.off + s.filesz <= |file| && Image(file, segs, n, length)[a] == if i < s.filesz then file[s.off + i] else 0
  {
    if last < n - 1 {
      ImageAt(file, segs, n - 1, length, a, last);
    }
  }
}
