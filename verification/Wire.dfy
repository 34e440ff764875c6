/** Octets, little-endian fields and the outgoing message buffer. */
module Wire {
  import opened Widths

  type octet = x: int | 0 <= x < 256

  type uint16 = x: int | 0 <= x < 0x1_0000
  type uint32 = x: int | 0 <= x < 0x1_0000_0000

  function Le16(v: uint16): (r: seq<octet>)
    ensures |r| == 2
  {
    [v % 256, v / 256]
  }

  function Le32(v: uint32): (r: seq<octet>)
    ensures |r| == 4
  {
    Le16(v % UINT16) + Le16(v / UINT16)
  }

  lemma Octets32(v: uint32)
    ensures Le32(v) == [v % 256, v / 256 % 256, v / 65536 % 256, v / 16777216]
  {
    var (low, high) := (v % UINT16, v / UINT16);
    var (b0, b1, b2, b3) := (low % 256, low / 256, high % 256, high / 256);
    Digits(v, b0, b1, b2, b3);
    assert Le32(v) == [b0, b1, b2, b3];
  }

  lemma Digits(v: nat, b0: octet, b1: octet, b2: octet, b3: octet)
    requires v == b0 + 256 * b1 + 0x1_0000 * b2 + 0x100_0000 * b3
    ensures v % 256 == b0 && v / 256 % 256 == b1 && v / 65536 % 256 == b2 && v / 16777216 == b3
  {
    assert v / 256 == b1 + 256 * b2 + 0x1_0000 * b3;
    assert v / 65536 == b2 + 256 * b3;
  }

  /** The field that a read pointer into `data` finds; the pointer then moves behind it. */
  function Get16(data: seq<octet>): uint16
    requires |data| >= 2
  {
    data[0] as int + 256 * data[1] as int
  }

  function Get32(data: seq<octet>): uint32
    requires |data| >= 4
  {
    Get16(data) + UINT16 * Get16(data[2..])
  }

  lemma Read16(v: uint16, rest: seq<octet>)
    ensures Get16(Le16(v) + rest) == v && (Le16(v) + rest)[2..] == rest
  {}

  lemma Read32(v: uint32, rest: seq<octet>)
    ensures Get32(Le32(v) + rest) == v && (Le32(v) + rest)[4..] == rest
  {
    var data := Le32(v) + rest;
    assert data[2..] == Le16(v / UINT16) + rest;
    Read16(v / UINT16, rest);
  }

  function Zeros(n: nat): seq<octet> {
    seq(n, _ => 0)
  }

  // ----- the outgoing message -----

  /** A message: the octets before and behind its write position, and its used length. */
  datatype Message = Message(written: seq<octet>, rest: seq<octet>, used: nat)

  predicate Fits(m: Message, n: nat) {
    n <= |m.rest|
  }

  /** The message after data is written at its position. */
  function Appended(m: Message, data: seq<octet>): Message
    requires Fits(m, |data|)
  {
    Message(m.written + data, m.rest[|data|..], m.used + |data|)
  }

  lemma AppendedTwice(m: Message, a: seq<octet>, b: seq<octet>)
    requires Fits(m, |a| + |b|)
    ensures Fits(Appended(m, a), |b|) && Appended(Appended(m, a), b) == Appended(m, a + b)
  {}

  lemma AppendedNothing(m: Message)
    ensures Appended(m, []) == m
  {}

  lemma AppendedToNothing(m: Message, data: seq<octet>)
    requires Fits(m, |data|) && m.written == []
    ensures Appended(m, data).written == data
  {}

  class ENIPMessage {
    const buffer: array<octet>
    var position: nat
    var used: nat

    ghost predicate Valid()
      reads this
    {
      position <= buffer.Length
    }

    ghost function View(): Message
      requires Valid()
      reads this, buffer
    {
      Message(buffer[..position], buffer[position..], used)
    }

    constructor (size: nat)
      ensures Valid() && fresh(buffer) && View() == Message([], Zeros(size), 0)
    {
      buffer := new octet[size](_ => 0);
      position, used := 0, 0;
      new;
      assert buffer[..] == Zeros(size);
    }

    method AddSint(v: octet)
      requires Valid() && Fits(View(), 1)
      modifies this, buffer
      ensures Valid() && View() == Appended(old(View()), [v])
    {
      buffer[position] := v;
      position, used := position + 1, used + 1;
    }

    method AddInt(v: uint16)
      requires Valid() && Fits(View(), 2)
      modifies this, buffer
      ensures Valid() && View() == Appended(old(View()), Le16(v))
    {
      buffer[position] := v % 256;
      buffer[position + 1] := v / 256;
      position, used := position + 2, used + 2;
    }

    method AddDint(v: uint32)
      requires Valid() && Fits(View(), 4)
      modifies this, buffer
      ensures Valid() && View() == Appended(old(View()), Le32(v))
    {
      buffer[position] := v % 256;
      buffer[position + 1] := v / 256 % 256;
      buffer[position + 2] := v / 65536 % 256;
      buffer[position + 3] := v / 16777216;
      Octets32(v);
      position, used := position + 4, used + 4;
    }

    /** Copies data into the message. */
    method AddOctets(data: seq<octet>)
      requires Valid() && Fits(View(), |data|)
      modifies this, buffer
      ensures Valid() && View() == Appended(old(View()), data)
    {
      var i := 0;
      while i < |data|
        invariant 0 <= i <= |data| && position == old(position) && used == old(used)
        invariant forall k :: 0 <= k < position ==> buffer[k] == old(buffer[k])
        invariant forall k :: 0 <= k < i ==> buffer[position + k] == data[k]
        invariant forall k :: position + i <= k < buffer.Length ==> buffer[k] == old(buffer[k])
      {
        buffer[position + i] := data[i];
        i := i + 1;
      }
      assert buffer[..position] == old(buffer[..position]);
      assert buffer[position..position + |data|] == data;
      position, used := position + |data|, used + |data|;
      assert buffer[position..] == old(buffer[position..])[|data|..];
    }

    /** Steps back over the last `n` octets. */
    method StepBack(n: nat)
      requires Valid() && n <= position && n <= used
      modifies this`position, this`used
      ensures Valid()
      ensures View() == SteppedBack(old(View()), n)
    {
      position, used := position - n, used - n;
      assert buffer[position..] == old(buffer[position - n..position]) + old(buffer[position..]);
    }

    /** Copies a stored buffer over this one. */
    method Load(octets: seq<octet>, length: nat)
      requires |octets| == buffer.Length
      modifies this, buffer
      ensures Valid() && View() == Message([], octets, length)
    {
      var i := 0;
      while i < |octets|
        invariant 0 <= i <= |octets|
        invariant buffer[..i] == octets[..i]
      {
        buffer[i] := octets[i];
        i := i + 1;
      }
      position, used := 0, length;
    }

    /** Moves the position to an offset and leaves the used length. */
    method MoveTo(offset: nat)
      requires Valid() && offset <= buffer.Length
      modifies this`position
      ensures Valid() && View() == Moved(old(View()), offset)
    {
      ghost var whole := View().written + View().rest;
      assert whole == buffer[..];
      position := offset;
    }
  }

  function SteppedBack(m: Message, n: nat): Message
    requires n <= |m.written| && n <= m.used
  {
    var k := |m.written| - n;
    Message(m.written[..k], m.written[k..] + m.rest, m.used - n)
  }

  lemma StepBackUndoes(a: seq<octet>, b: seq<octet>, rest: seq<octet>, used: nat)
    requires |b| <= used
    ensures SteppedBack(Message(a + b, rest, used), |b|) == Message(a, b + rest, used - |b|)
  {}

  function Moved(m: Message, offset: nat): Message
    requires offset <= |m.written| + |m.rest|
  {
    var whole := m.written + m.rest;
    Message(whole[..offset], whole[offset..], m.used)
  }

  lemma AppendedBehind(before: seq<octet>, n: nat, body: seq<octet>)
    requires n + |body| <= |before|
    ensures Appended(Moved(Message([], before, 0), n), body) ==
      Message(before[..n] + body, before[n + |body|..], |body|)
  {}

  lemma AppendedInFront(header: seq<octet>, place: seq<octet>, body: seq<octet>, rest: seq<octet>, used: nat)
    requires |place| == |header|
    ensures Moved(Message(place + body, rest, used), 0) == Message([], place + body + rest, used)
    ensures Appended(Message([], place + body + rest, used), header) == Message(header, body + rest, used + |header|)
    ensures Moved(Message(header, body + rest, used + |header|), |header| + |body|) ==
      Message(header + body, rest, used + |header|)
  {
    assert place + body + rest == place + (body + rest);
    assert header + (body + rest) == header + body + rest;
  }

  /** A body written behind the place of its header, then the header in front of it. */
  lemma HeaderInFront(before: seq<octet>, header: seq<octet>, body: seq<octet>)
    requires |header| + |body| <= |before|
    ensures var end := |header| + |body|;
      var assembled := Appended(Moved(Message([], before, 0), |header|), body);
      && |assembled.written| == end && assembled.used == |body|
      && Fits(Moved(assembled, 0), |header|)
      && Moved(Appended(Moved(assembled, 0), header), end) == Message(header + body, before[end..], end)
  {
    AppendedBehind(before, |header|, body);
    AppendedInFront(header, before[..|header|], body, before[|header| + |body|..], |body|);
  }
}
