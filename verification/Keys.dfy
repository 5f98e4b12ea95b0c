// The special keys of include/console.h and how they are told from other input.
module Keys {
  import opened Words

  const ARROW_UP := 0x1001
  const ARROW_DOWN := 0x1002
  const ARROW_RIGHT := 0x1003
  const ARROW_LEFT := 0x1004
  const BACKSPACE := 0x1005

  /** The code of a special key's sequence, or 0. */
  function KeyCode(s: seq<byte>): nat {
    if s == [0x1b, 0x5b, 0x41] then ARROW_UP
    else if s == [0x1b, 0x5b, 0x42] then ARROW_DOWN
    else if s == [0x1b, 0x5b, 0x43] then ARROW_RIGHT
    else if s == [0x1b, 0x5b, 0x44] then ARROW_LEFT
    else if s == [0x7f] || s == [0x08] then BACKSPACE
    else 0
  }

  /** A prefix of some special key's sequence. */
  predicate KeyPrefix(s: seq<byte>) {
    s == [] || s == [0x1b] || s == [0x1b, 0x5b] || KeyCode(s) != 0
  }

  /** The sequences of the special keys, and their beginnings. */
  lemma KeyPrefixIs(s: seq<byte>)
    ensures KeyPrefix(s) <==> exists t: seq<byte> :: KeyCode(t) != 0 && s <= t
  {
    if KeyPrefix(s) {
      if KeyCode(s) == 0 {
        var up: seq<byte> := [0x1b, 0x5b, 0x41];
        assert KeyCode(up) != 0 && s <= up;
      }
    } else {
      forall t: seq<byte> | s <= t ensures KeyCode(t) == 0 {
        assert |s| == 1 ==> s == [t[0]];
        assert |s| == 2 ==> s == [t[0], t[1]];
        assert |s| == 3 && |t| == 3 ==> s == t;
      }
    }
  }

  /** Where the NUL that ends a string is. */
  function StringLength(s: seq<byte>): (n: nat)
    ensures n <= |s| && 0 !in s[..n] && (n < |s| ==> s[n] == 0)
  {
    if s == [] || s[0] == 0 then 0 else
      var n := StringLength(s[1..]);
      assert s[..n + 1] == [s[0]] + s[1..][..n];
      n + 1
  }

  lemma NulFree(s: seq<byte>)
    requires 0 !in s
    ensures StringLength(s) == |s| && s[..|s|] == s
  {
    assert forall i :: 0 <= i < |s| ==> s[i] != 0;
  }

  /** How many bytes of input one call consumes, and the key it returns, if no NUL interferes. */
  function Decode(p: seq<byte>): (r: (nat, nat))
    requires p != []
  {
    if p[0] == 0x7f || p[0] == 0x08 then (1, BACKSPACE)
    else if p[0] != 0x1b || |p| == 1 then (1, p[0])
    else if p[1] != 0x5b || |p| == 2 then (2, p[1])
    else if 0x41 <= p[2] <= 0x44 then (3, ARROW_UP + (p[2] - 0x41)) else (3, p[2])
  }

  /** One call takes one to three bytes; it returns a special key exactly when they are its sequence,
      and otherwise the last of them. */
  lemma DecodeExact(p: seq<byte>)
    requires p != []
    ensures var (n, key) := Decode(p);
      && 1 <= n <= 3 && n <= |p|
      && (key >= 0x1000 <==> KeyCode(p[..n]) != 0)
      && key == if KeyCode(p[..n]) != 0 then KeyCode(p[..n]) else p[n - 1]
  {
  }

  /** What the string functions see of the bytes taken so far. */
  function Text(s: seq<byte>): seq<byte> { s[..StringLength(s)] }

  /** More bytes are wanted: the string is a proper prefix of a special key's sequence. */
  predicate Wanting(s: seq<byte>) { KeyPrefix(Text(s)) && KeyCode(Text(s)) == 0 }

  /** A NUL comes where the next byte of a special key is expected. The bytes after it never show in
      the string, so more and more of them are wanted. */
  predicate Stuck(p: seq<byte>) {
    || (|p| >= 1 && p[0] == 0)
    || (|p| >= 2 && p[0] == 0x1b && p[1] == 0)
    || (|p| >= 3 && p[0] == 0x1b && p[1] == 0x5b && p[2] == 0)
  }

  /** How many bytes one call consumes, and the key it returns. */
  function Consumed(p: seq<byte>): (nat, nat)
    requires p != []
  {
    if Stuck(p) then (|p|, p[|p| - 1]) else Decode(p)
  }

  /** The array for the sequence has room for six bytes. That is enough exactly when at most six bytes
      are pending or no NUL comes where a special key goes on. */
  lemma SequenceFits(p: seq<byte>)
    requires p != []
    ensures Consumed(p).0 <= 6 <==> |p| <= 6 || !Stuck(p)
    ensures Consumed([0x1b, 0, 97, 98, 99, 100, 101]) == (7, 101)
  {
    if !Stuck(p) { DecodeExact(p); }
  }

  /** Each of the first `n` bytes is wanted after those before it. */
  ghost predicate WantedUpTo(p: seq<byte>, n: nat)
    requires n <= |p|
  {
    forall k: nat {:trigger p[..k]} :: k < n ==> Wanting(p[..k])
  }

  /** Reading stops at the end of the input or where no more bytes are wanted. */
  ghost predicate Stopped(p: seq<byte>, n: nat) {
    n <= |p| && (n == |p| || !Wanting(p[..n])) && WantedUpTo(p, n)
  }

  /** Once stuck, a NUL-terminated prefix of a special key is all that shows. */
  lemma StuckWants(p: seq<byte>, k: nat)
    requires Stuck(p) && k <= |p|
    ensures Wanting(p[..k])
  {
    var s, n := p[..k], StringLength(p[..k]);
    assert n <= 2 && Text(s) == [0x1b, 0x5b][..n];
  }

  lemma StuckConsumes(p: seq<byte>, n: nat)
    requires Stuck(p) && Stopped(p, n)
    ensures n == |p| && KeyCode(Text(p[..n])) == 0
  {
    StuckWants(p, n);
  }

  lemma FreeConsumes(p: seq<byte>, n: nat)
    requires p != [] && !Stuck(p) && Stopped(p, n)
    ensures n > 0 && Text(p[..n]) == p[..n]
    ensures Decode(p) == (n, if KeyCode(p[..n]) != 0 then KeyCode(p[..n]) else p[n - 1])
  {
    assert p[..0] == [] && p[..1] == [p[0]];
    NulFree(p[..1]);
    if p[0] == 0x1b && |p| >= 2 {
      assert p[..2] == [p[0], p[1]];
      NulFree(p[..2]);
      if p[1] == 0x5b && |p| >= 3 {
        assert p[..3] == [p[0], p[1], p[2]];
        NulFree(p[..3]);
      }
    }
  }

  lemma StoppedConsumes(p: seq<byte>, n: nat)
    requires p != [] && Stopped(p, n)
    ensures n > 0
    ensures var code := KeyCode(Text(p[..n])); Consumed(p) == (n, if code != 0 then code else p[n - 1])
  {
    if Stuck(p) {
      StuckConsumes(p, n);
    } else {
      FreeConsumes(p, n);
    }
  }
}
