// 8.3 names: the text form that callers use and the padded 11-byte form on disk.
module FatNames {
  import opened Words

  const SPACE: byte := 32
  const DOT: byte := 46

  /** One of "*+,/:;<=>?[\]| */
  predicate Forbidden(ch: byte) {
    ch == 34 || 42 <= ch <= 44 || ch == 47 || 58 <= ch <= 63 || 91 <= ch <= 93 || ch == 124
  }

  predicate Legal(ch: byte) { SPACE < ch < 127 && ch != DOT && !Forbidden(ch) }

  predicate AllLegal(s: seq<byte>) { forall i :: 0 <= i < |s| ==> Legal(s[i]) }

  predicate LowerCase(ch: byte) { 97 <= ch <= 122 }

  function Upper(ch: byte): byte { if 97 <= ch <= 122 then ch - 32 else ch }

  function Uppers(s: seq<byte>): (r: seq<byte>) {
    seq(|s|, i requires 0 <= i < |s| => Upper(s[i]))
  }

  /** The same character, or the lower-case and the upper-case form of one letter. */
  predicate SameLetter(x: byte, y: byte) {
    x == y || (LowerCase(x) && y == x - 32) || (LowerCase(y) && x == y - 32)
  }

  /** Names that differ at most in ASCII case. */
  ghost predicate SameLetters(a: seq<byte>, b: seq<byte>) {
    |a| == |b| && forall i :: 0 <= i < |a| ==> SameLetter(a[i], b[i])
  }

  function Pad(s: seq<byte>, n: nat): seq<byte>
    requires |s| <= n
  {
    s + seq(n - |s|, _ => SPACE)
  }

  /** Where the first `mark` at or after `from` is, or the length. */
  function FindFrom(s: seq<byte>, mark: byte, from: nat): (d: nat)
    requires from <= |s|
    ensures from <= d <= |s| && (d < |s| ==> s[d] == mark)
    ensures forall i :: from <= i < d ==> s[i] != mark
    decreases |s| - from
  {
    if from == |s| || s[from] == mark then from else FindFrom(s, mark, from + 1)
  }

  function Find(s: seq<byte>, mark: byte): nat { FindFrom(s, mark, 0) }

  function Base(name: seq<byte>): seq<byte> { name[..Find(name, DOT)] }

  /** What follows the first dot. */
  function Extension(name: seq<byte>): seq<byte> {
    var d := Find(name, DOT);
    if d == |name| then [] else name[d + 1..]
  }

  /** One to eight legal characters, then nothing or a dot and one to three legal characters. */
  predicate PlainName(name: seq<byte>) {
    && 1 <= |Base(name)| <= 8 && AllLegal(Base(name))
    && |Extension(name)| <= 3 && AllLegal(Extension(name))
    && (Extension(name) == [] ==> Find(name, DOT) == |name|)
  }

  function Key(name: seq<byte>): (key: seq<byte>)
    requires PlainName(name)
    ensures |key| == 11
  {
    Pad(Uppers(Base(name)), 8) + Pad(Uppers(Extension(name)), 3)
  }

  function Trim(s: seq<byte>): seq<byte> { s[..Find(s, SPACE)] }

  /** The text form of an on-disk name. */
  function Render(entry: seq<byte>): seq<byte>
    requires |entry| >= 11
  {
    Trim(entry[..8]) + if entry[8] == SPACE then [] else [DOT] + Trim(entry[8..11])
  }

  /** An upper-case on-disk name: legal characters, then padding, in both fields. */
  predicate Canonical(entry: seq<byte>) {
    && |entry| == 11
    && PaddedField(entry[..8]) && PaddedField(entry[8..]) && entry[0] != SPACE
  }

  predicate PaddedField(s: seq<byte>) {
    && AllLegal(Trim(s)) && (forall i :: 0 <= i < |s| ==> !LowerCase(s[i]))
    && forall i :: Find(s, SPACE) <= i < |s| ==> s[i] == SPACE
  }

  lemma FindAt(s: seq<byte>, mark: byte, d: nat)
    requires d <= |s| && (d < |s| ==> s[d] == mark)
    requires forall i :: 0 <= i < d ==> s[i] != mark
    ensures Find(s, mark) == d
  {
  }

  lemma TrimPad(s: seq<byte>, n: nat)
    requires |s| <= n && AllLegal(s)
    ensures Trim(Pad(s, n)) == s
  {
    FindAt(Pad(s, n), SPACE, |s|);
  }

  lemma UppersLegal(s: seq<byte>)
    requires AllLegal(s)
    ensures AllLegal(Uppers(s))
  {
  }

  lemma UpperDot(name: seq<byte>)
    ensures Find(Uppers(name), DOT) == Find(name, DOT)
    ensures Base(Uppers(name)) == Uppers(Base(name))
    ensures Extension(Uppers(name)) == Uppers(Extension(name))
  {
    FindAt(Uppers(name), DOT, Find(name, DOT));
  }

  lemma KeyFields(b: seq<byte>, e: seq<byte>)
    requires |b| <= 8 && |e| <= 3 && AllLegal(b) && AllLegal(e)
    ensures Render(Pad(b, 8) + Pad(e, 3)) == b + if e == [] then [] else [DOT] + e
  {
    var key := Pad(b, 8) + Pad(e, 3);
    TrimPad(b, 8);
    TrimPad(e, 3);
    assert key[..8] == Pad(b, 8) && key[8..11] == Pad(e, 3);
    assert e != [] ==> Legal(e[0]) && key[8] == e[0];
  }

  lemma UppersFields(name: seq<byte>)
    requires PlainName(name)
    ensures var e := Uppers(Extension(name));
      Uppers(name) == Uppers(Base(name)) + if e == [] then [] else [DOT] + e
  {
    if Extension(name) == [] {
      assert Base(name) == name;
    } else {
      assert name == Base(name) + [DOT] + Extension(name);
    }
  }

  lemma RenderUppers(name: seq<byte>)
    requires PlainName(name)
    ensures Render(Key(name)) == Uppers(name)
  {
    UppersLegal(Base(name));
    UppersLegal(Extension(name));
    KeyFields(Uppers(Base(name)), Uppers(Extension(name)));
    UppersFields(name);
  }

  /** Every accepted name renders back to its upper-case form. */
  lemma RenderKey(name: seq<byte>)
    requires PlainName(name)
    ensures SameLetters(Render(Key(name)), name)
    ensures forall i :: 0 <= i < |name| ==> !LowerCase(Render(Key(name))[i])
  {
    RenderUppers(name);
    assert forall i :: 0 <= i < |name| ==> Uppers(name)[i] == Upper(name[i]);
  }

  lemma PadTrim(s: seq<byte>)
    requires PaddedField(s)
    ensures Pad(Trim(s), |s|) == s && Uppers(Trim(s)) == Trim(s)
  {
  }

  /** Every canonical entry is the key of its own rendering. */
  lemma KeyRender(entry: seq<byte>)
    requires Canonical(entry)
    ensures PlainName(Render(entry)) && Key(Render(entry)) == entry
  {
    var b, x := entry[..8], entry[8..];
    var name := Render(entry);
    assert x == entry[8..11] && Trim(b)[0] == entry[0];
    FindAt(name, DOT, |Trim(b)|);
    assert Base(name) == Trim(b);
    assert Extension(name) == Trim(x);
    PadTrim(b);
    PadTrim(x);
  }

  lemma UppersSame(a: seq<byte>, b: seq<byte>)
    ensures Uppers(a) == Uppers(b) <==> SameLetters(a, b)
  {
    if Uppers(a) == Uppers(b) {
      assert |a| == |Uppers(a)| == |Uppers(b)| == |b|;
      forall i | 0 <= i < |a| ensures SameLetter(a[i], b[i]) {
        assert Uppers(a)[i] == Uppers(b)[i];
      }
    }
  }

  /** Two accepted names have one key exactly when they differ at most in ASCII case. */
  lemma SameKey(a: seq<byte>, b: seq<byte>)
    requires PlainName(a) && PlainName(b)
    ensures Key(a) == Key(b) <==> SameLetters(a, b)
  {
    RenderUppers(a);
    RenderUppers(b);
    UpperDot(a);
    UpperDot(b);
    UppersSame(a, b);
  }

  /** Where every byte of a key comes from: the characters before the dot at `d`, then those after it,
      letters in upper case, and spaces in the rest of both fields. */
  lemma KeyLetters(name: seq<byte>, d: nat, j: nat)
    requires PlainName(name) && j < 11 && d <= |name|
    requires (d < |name| ==> name[d] == 46) && forall i :: 0 <= i < d ==> name[i] != 46
    ensures var from := if j < 8 then j else d + 1 + (j - 8);
      var there := if j < 8 then j < d else from < |name|;
      && (there && LowerCase(name[from]) ==> Key(name)[j] == name[from] - 32)
      && (there && !LowerCase(name[from]) ==> Key(name)[j] == name[from])
      && (!there ==> Key(name)[j] == 32)
      && !LowerCase(Key(name)[j])
  {
    FindAt(name, DOT, d);
  }

  /** The accepted names, character by character, with the first dot at `d`. */
  lemma PlainIs(name: seq<byte>, d: nat)
    requires d <= |name| && (d < |name| ==> name[d] == 46) && forall i :: 0 <= i < d ==> name[i] != 46
    ensures PlainName(name) <==>
      && 1 <= d <= 8 && (d == |name| || 1 <= |name| - d - 1 <= 3)
      && forall i :: 0 <= i < |name| && i != d ==> Legal(name[i])
  {
    FindAt(name, DOT, d);
    assert forall i :: 0 <= i < d ==> Base(name)[i] == name[i];
    assert d < |name| ==> forall i :: d < i < |name| ==> Extension(name)[i - d - 1] == name[i];
  }

  /** How an entry reads: `b` characters of the name field before its padding and `x` of the extension. */
  lemma RenderIs(entry: seq<byte>, b: nat, x: nat)
    requires |entry| >= 11 && b <= 8 && x <= 3
    requires (forall i :: 0 <= i < b ==> entry[i] != 32) && (b < 8 ==> entry[b] == 32)
    requires (forall i :: 8 <= i < 8 + x ==> entry[i] != 32) && (x < 3 ==> entry[8 + x] == 32)
    ensures Render(entry) == entry[..b] + if x == 0 then [] else [46] + entry[8..8 + x]
  {
    FindAt(entry[..8], SPACE, b);
    FindAt(entry[8..11], SPACE, x);
    assert entry[..8][..b] == entry[..b] && entry[8..11][..x] == entry[8..8 + x];
  }

  /** The characters that a name must not have. */
  lemma ForbiddenList(ch: byte)
    ensures Forbidden(ch) <==> ch as char in "\"*+,/:;<=>?[\\]|"
  {
  }

  /** Character `j` of the key when only the first `i` characters of the name, with its dot at `d`, are read. */
  ghost function KeyChar(name: seq<byte>, d: nat, i: nat, j: nat): byte
    requires i <= |name|
  {
    if j < 8 then (if j < d && j < i then Upper(name[j]) else SPACE)
    else if d + j - 7 < i then Upper(name[d + j - 7]) else SPACE
  }

  /** What the scan knows before character `i`: the dot is still ahead, or it was at `d`. */
  ghost predicate Scanned(name: seq<byte>, d: nat, i: nat, pos: nat, limit: nat, key: seq<byte>) {
    && i <= |name| && d == Find(name, DOT) && |key| == 11
    && (forall j :: 0 <= j < i && j != d ==> Legal(name[j]))
    && (forall j: nat :: j < 11 ==> key[j] == KeyChar(name, d, i, j))
    && (if limit == 8 then pos == i <= d && i <= 8
        else limit == 11 && d < i && d + 1 < |name| && 1 <= d <= 8 && pos == 7 + i - d <= 11)
  }

  lemma ScanStart(name: seq<byte>)
    ensures Scanned(name, Find(name, DOT), 0, 0, 8, seq(11, _ => SPACE))
  {
  }

  lemma ScanDot(name: seq<byte>, d: nat, i: nat, pos: nat, limit: nat, key: seq<byte>)
    requires Scanned(name, d, i, pos, limit, key) && i < |name| && name[i] == DOT
    ensures pos == 0 || limit == 11 || i + 1 == |name| ==> !PlainName(name)
    ensures pos != 0 && limit != 11 && i + 1 < |name| ==> Scanned(name, d, i + 1, 8, 11, key)
  {
    if limit == 11 {
      assert Extension(name)[i - d - 1] == DOT;
    }
  }

  lemma ScanChar(name: seq<byte>, d: nat, i: nat, pos: nat, limit: nat, key: seq<byte>)
    requires Scanned(name, d, i, pos, limit, key) && i < |name| && name[i] != DOT
    ensures |key| == 11
    ensures pos == limit || !Legal(name[i]) ==> !PlainName(name)
    ensures pos != limit && Legal(name[i]) ==> Scanned(name, d, i + 1, pos + 1, limit, key[pos := Upper(name[i])])
  {
    if limit == 8 {
      assert Base(name)[i] == name[i];
    } else {
      assert Extension(name)[i - d - 1] == name[i];
    }
  }

  /** A completed scan has read the whole name: its dot, if any, has one to three characters after it. */
  lemma ScanDonePlain(name: seq<byte>, d: nat, pos: nat, limit: nat, key: seq<byte>)
    requires Scanned(name, d, |name|, pos, limit, key) && name != []
    ensures PlainName(name) && |Base(name)| == d
    ensures Extension(name) == if d == |name| then [] else name[d + 1..]
  {
    assert d < |name| ==> forall j :: 0 <= j < |Extension(name)| ==> Extension(name)[j] == name[d + 1 + j];
  }

  lemma ScanDone(name: seq<byte>, d: nat, pos: nat, limit: nat, key: seq<byte>)
    requires Scanned(name, d, |name|, pos, limit, key) && name != []
    ensures PlainName(name) && key == Key(name)
  {
    ScanDonePlain(name, d, pos, limit, key);
    forall j: nat | j < 11 ensures key[j] == Key(name)[j] {
      assert key[j] == KeyChar(name, d, |name|, j);
    }
  }
}
