// kernel/console.c: the receive buffer between the UART interrupt and kgetch.
module Console {
  import opened Words
  import opened Keys

  /** The contents of a ring of 16 bytes from `tail` up to `head`. */
  ghost function Ring(buffer: seq<byte>, tail: nat, head: nat): (r: seq<byte>)
    requires |buffer| == 16 && tail < 16 && head < 16
    ensures |r| < 16
  {
    if tail <= head then buffer[tail..head] else buffer[tail..] + buffer[..head]
  }

  function CircularInc(operand: nat, size: nat): nat { if operand + 1 == size then 0 else operand + 1 }

  /** Storing at the head and advancing it appends, unless 15 bytes are pending. */
  lemma RingPush(buffer: seq<byte>, tail: nat, head: nat, b: byte)
    requires |buffer| == 16 && tail < 16 && head < 16
    ensures CircularInc(head, 16) == tail <==> |Ring(buffer, tail, head)| == 15
    ensures CircularInc(head, 16) != tail ==>
      Ring(buffer[head := b], tail, CircularInc(head, 16)) == Ring(buffer, tail, head) + [b]
  {
  }

  lemma RingPop(buffer: seq<byte>, tail: nat, head: nat)
    requires |buffer| == 16 && tail < 16 && head < 16 && head != tail
    ensures Ring(buffer, tail, head) == [buffer[tail]] + Ring(buffer, CircularInc(tail, 16), head)
  {
  }

  lemma OneMore(p: seq<byte>, n: nat, b: byte, rest: seq<byte>)
    requires n <= |p| && p[n..] == [b] + rest
    ensures n < |p| && p[..n] + [b] == p[..n + 1] && rest == p[n + 1..]
    ensures WantedUpTo(p, n) && Wanting(p[..n]) ==> WantedUpTo(p, n + 1)
  {
    assert p[n] == p[n..][0];
  }

  class ReceiveBuffer {
    var buffer: array<byte>
    var head: nat
    var tail: nat
    // Every byte ever taken into the buffer and every byte ever taken out of it.
    ghost var accepted: seq<byte>
    ghost var removed: seq<byte>

    ghost function Pending(): seq<byte>
      requires buffer.Length == 16 && head < 16 && tail < 16
      reads this, buffer
    {
      Ring(buffer[..], tail, head)
    }

    /** First in, first out: what was accepted is what was removed, then what is pending. */
    ghost predicate Valid()
      reads this, buffer
    {
      buffer.Length == 16 && head < 16 && tail < 16 && accepted == removed + Pending()
    }

    constructor ()
      ensures Valid() && fresh(buffer) && accepted == []
    {
      buffer := new byte[16](_ => 0);
      head, tail, accepted, removed := 0, 0, [], [];
    }

    /** Takes one byte, or drops it when 15 are pending. */
    method Receive(b: byte)
      requires Valid()
      modifies this`head, this`accepted, buffer
      ensures Valid() && Pending() == if |old(Pending())| < 15 then old(Pending()) + [b] else old(Pending())
      ensures accepted == if |old(Pending())| < 15 then old(accepted) + [b] else old(accepted)
    {
      RingPush(buffer[..], tail, head, b);
      var newHead := CircularInc(head, 16);
      if newHead != tail {
        ghost var before := buffer[..];
        buffer[head] := b;
        assert buffer[..] == before[head := b];
        head := newHead;
        accepted := accepted + [b];
      }
    }

    /** uart_interrupt_handler: takes what the UART holds, in order, until 15 bytes are pending. */
    method UartInterruptHandler(data: seq<byte>)
      requires Valid()
      modifies this`head, this`accepted, buffer
      ensures Valid() && Pending() == old(Pending()) + Fitting(data, |old(Pending())|)
      ensures accepted == old(accepted) + Fitting(data, |old(Pending())|)
    {
      ghost var p, taken := Pending(), accepted;
      var i := 0;
      while i < |data|
        invariant 0 <= i <= |data| && Valid()
        invariant Pending() == p + Fitting(data[..i], |p|) && accepted == taken + Fitting(data[..i], |p|)
      {
        FittingMore(data, i, |p|, p);
        FittingMore(data, i, |p|, taken);
        Receive(data[i]);
        i := i + 1;
      }
      assert data[..|data|] == data;
    }

    /** Removes the oldest byte. */
    method Take() returns (b: byte)
      requires Valid() && head != tail
      modifies this`tail, this`removed
      ensures Valid() && old(Pending()) == [b] + Pending() && removed == old(removed) + [b]
    {
      RingPop(buffer[..], tail, head);
      b := buffer[tail];
      tail := CircularInc(tail, 16);
      removed := removed + [b];
    }

    /** Takes bytes while they are the start of a special key. The array for them is unbounded here;
        Keys.SequenceFits says when six bytes are enough. */
    method TakeSequence() returns (sequence: seq<byte>)
      requires Valid()
      modifies this`tail, this`removed
      ensures Valid() && removed == old(removed) + sequence && accepted == old(accepted)
      ensures Stopped(old(Pending()), |sequence|)
      ensures sequence == old(Pending())[..|sequence|] && Pending() == old(Pending())[|sequence|..]
    {
      ghost var p := Pending();
      sequence := [];
      assert p[..0] == [];
      while head != tail && Wanting(sequence)
        invariant Valid() && |sequence| <= |p| && sequence == p[..|sequence|] && Pending() == p[|sequence|..]
        invariant removed == old(removed) + sequence
        invariant WantedUpTo(p, |sequence|)
        decreases |p| - |sequence|
      {
        ghost var n := |sequence|;
        var b := Take();
        sequence := sequence + [b];
        OneMore(p, n, b, Pending());
      }
    }

    /** kgetch: 0 from an empty buffer; otherwise the next key, which takes the oldest `n` bytes. */
    method Kgetch() returns (key: nat, ghost n: nat)
      requires Valid()
      modifies this`tail, this`removed
      ensures Valid() && n <= |old(Pending())| && Pending() == old(Pending())[n..]
      ensures removed == old(removed) + old(Pending())[..n] && accepted == old(accepted)
      ensures old(Pending()) == [] ==> key == 0 && n == 0
      ensures old(Pending()) != [] ==> (n, key) == Consumed(old(Pending()))
    {
      var sequence := TakeSequence();
      n := |sequence|;
      if old(Pending()) != [] { StoppedConsumes(old(Pending()), n); }
      key := KeyCode(Text(sequence));
      if key == 0 && |sequence| != 0 {
        key := sequence[|sequence| - 1];
      }
    }
  }

  /** The bytes that fit when `pending` are waiting already. */
  ghost function Fitting(data: seq<byte>, pending: nat): seq<byte>
    requires pending < 16
  {
    if |data| <= 15 - pending then data else data[..15 - pending]
  }

  lemma FittingMore(data: seq<byte>, i: nat, pending: nat, s: seq<byte>)
    requires pending < 16 && i < |data|
    ensures s + Fitting(data[..i + 1], pending) ==
      if pending + |Fitting(data[..i], pending)| < 15 then s + Fitting(data[..i], pending) + [data[i]]
      else s + Fitting(data[..i], pending)
  {
    assert data[..i + 1] == data[..i] + [data[i]];
  }
}
