// Bytes, little-endian words and physical memory.
module Words {

  type byte = b: int | 0 <= b < 256
  type u16 = x: int | 0 <= x < 0x1_0000
  type u32 = x: int | 0 <= x < 0x1_0000_0000

  /** RAM is a row of 4096-byte frames: physical address `a` is byte a % 4096 of frame a / 4096. */
  type Frame = s: seq<byte> | |s| == 4096 witness ZEROS
  type Ram = r: seq<Frame> | |r| == 0x1_0000 witness BLANK

  const ZEROS: seq<byte> := seq(4096, _ => 0)
  const BLANK: seq<Frame> := seq(0x1_0000, _ => ZEROS)
  ghost predicate AllZero(s: seq<byte>) {
    forall i :: 0 <= i < |s| ==> s[i] == 0
  }

  const NULL := 0

  /** Kernel virtual address of a physical address, and back. */
  function P2V(physical: nat): nat { physical + 0x8000_0000 }

  function V2P(virtual: int): int { virtual - 0x8000_0000 }

  function RoundDown(x: nat): nat { x / 4096 * 4096 }

  function RoundUp(x: nat): nat { (x + 4095) / 4096 * 4096 }

  function Le16(s: seq<byte>, at: nat): (w: nat)
    requires at + 2 <= |s|
    ensures w < 0x1_0000
  {
    s[at] as int + 0x100 * s[at + 1] as int
  }

  function Le32(s: seq<byte>, at: nat): (w: nat)
    requires at + 4 <= |s|
    ensures w < 0x1_0000_0000
  {
    Le16(s, at) + 0x1_0000 * Le16(s, at + 2)
  }

  /** `after` is `before` with the word `w` at `at` and every other byte unchanged. */
  ghost predicate WordStored(before: seq<byte>, after: seq<byte>, at: nat, w: nat) {
    && |after| == |before| && at + 4 <= |before| && Le32(after, at) == w
    && forall i :: 0 <= i < |before| && !(at <= i < at + 4) ==> after[i] == before[i]
  }

  lemma WordKept(before: seq<byte>, after: seq<byte>, at: nat, w: nat, other: nat)
    requires WordStored(before, after, at, w) && other + 4 <= |before|
    requires other + 4 <= at || at + 4 <= other
    ensures Le32(after, other) == Le32(before, other)
  {
  }

  /** A word is the sum of its four bytes. */
  lemma FourBytes(w: nat)
    ensures w % 0x100 + 0x100 * (w / 0x100 % 0x100) + 0x1_0000 * (w / 0x1_0000 % 0x100) + 0x100_0000 * (w / 0x100_0000)
      == w
  {
    var a := w / 0x100;
    var b := a / 0x100;
    assert w / 0x1_0000 == b;
    assert w / 0x100_0000 == b / 0x100;
  }

  /** A number as its bytes in memory and on disk, the low one first. */
  function Bytes2(w: u16): (s: seq<byte>)
    ensures |s| == 2
  {
    [w % 0x100, w / 0x100]
  }

  function Bytes4(w: u32): (s: seq<byte>)
    ensures |s| == 4
  {
    [w % 0x100, w / 0x100 % 0x100, w / 0x1_0000 % 0x100, w / 0x100_0000]
  }

  /** Reading back a number that was written with its low byte first. */
  lemma ReadBytes2(s: seq<byte>, at: nat, w: u16)
    requires at + 2 <= |s| && s[at] == Bytes2(w)[0] && s[at + 1] == Bytes2(w)[1]
    ensures Le16(s, at) == w
  {
  }

  lemma ReadBytes4(s: seq<byte>, at: nat, w: u32)
    requires at + 4 <= |s| && forall i :: 0 <= i < 4 ==> s[at + i] == Bytes4(w)[i]
    ensures Le32(s, at) == w
  {
    FourBytes(w);
    assert s[at + 0] == Bytes4(w)[0] && s[at + 1] == Bytes4(w)[1];
    assert s[at + 2] == Bytes4(w)[2] && s[at + 3] == Bytes4(w)[3];
  }

  method StoreWord(s: seq<byte>, at: nat, w: nat) returns (r: seq<byte>)
    requires at + 4 <= |s| && w < 0x1_0000_0000
    ensures WordStored(s, r, at, w)
  {
    FourBytes(w);
    var b0, b1, b2, b3 := w % 0x100, w / 0x100 % 0x100, w / 0x1_0000 % 0x100, w / 0x100_0000;
    r := PutBytes(s, at, [b0, b1, b2, b3]);
    assert r[at] == b0 && r[at + 1] == b1 && r[at + 2] == b2 && r[at + 3] == b3;
  }

  /** Replaces the bytes from `at` on by `data`. */
  function PutBytes(s: seq<byte>, at: nat, data: seq<byte>): (r: seq<byte>)
    requires at + |data| <= |s|
    ensures |r| == |s|
    ensures forall i :: 0 <= i < |s| ==> r[i] == if at <= i < at + |data| then data[i - at] else s[i]
  {
    s[..at] + data + s[at + |data|..]
  }

  lemma Quotient(page: nat, offset: nat)
    requires offset < 4096
    ensures (4096 * page + offset) / 4096 == page && (4096 * page + offset) % 4096 == offset
  {
  }
}
