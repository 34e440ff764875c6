/** Padded EPATHs: the encoder, the decoder and the router request that starts with one. */
module EPaths {
  import opened Wire
  import opened Widths

  datatype EPath = EPath(pathSize: octet, classId: uint16, instance: uint16, attribute: uint16)

  // ----- encoding -----

  const CLASS: octet := 0x20
  const INSTANCE: octet := 0x24
  const ATTRIBUTE: octet := 0x30

  /** Words that a logical segment for an id takes. */
  function Words(id: uint16): nat {
    if id < 256 then 1 else 2
  }

  /** A logical segment: 8-bit format below 256, else 16-bit format behind a pad octet. */
  function SegmentOctets(kind: octet, id: uint16): seq<octet>
    requires kind < 255
  {
    if id < 256 then [kind, id] else [kind + 1, 0] + Le16(id)
  }

  /** The remaining path size is an unsigned word and wraps below zero. */
  function Left(length: uint32, id: uint16): uint32 {
    (length - Words(id)) % UINT32
  }

  /** What follows the class segment. */
  function TailOctets(e: EPath): seq<octet> {
    var left1 := Left(e.pathSize, e.classId);
    if left1 == 0 then []
    else
      SegmentOctets(INSTANCE, e.instance)
      + (if Left(left1, e.instance) > 0 then SegmentOctets(ATTRIBUTE, e.attribute) else [])
  }

  function EPathOctets(e: EPath): seq<octet> {
    SegmentOctets(CLASS, e.classId) + TailOctets(e)
  }

  method EncodeSegment(message: ENIPMessage, kind: octet, id: uint16)
    requires kind < 255 && message.Valid() && Fits(message.View(), 4)
    modifies message, message.buffer
    ensures Fits(old(message.View()), |SegmentOctets(kind, id)|)
    ensures message.Valid() && message.View() == Appended(old(message.View()), SegmentOctets(kind, id))
  {
    ghost var m := message.View();
    if id < 256 {
      message.AddSint(kind);
      message.AddSint(id);
      AppendedTwice(m, [kind], [id]);
      assert [kind] + [id] == SegmentOctets(kind, id);
    } else {
      message.AddSint(kind + 1);
      message.AddSint(0);
      message.AddInt(id);
      AppendedTwice(m, [kind + 1], [0]);
      assert [kind + 1] + [0] == [kind + 1, 0];
      AppendedTwice(m, [kind + 1, 0], Le16(id));
    }
  }

  method EncodeEPath(message: ENIPMessage, e: EPath)
    requires message.Valid() && Fits(message.View(), 12)
    modifies message, message.buffer
    ensures |EPathOctets(e)| <= 12 && message.Valid() && message.View() == Appended(old(message.View()), EPathOctets(e))
  {
    ghost var m := message.View();
    var length := Left(e.pathSize, e.classId);
    EncodeSegment(message, CLASS, e.classId);
    ghost var m1 := message.View();
    if 0 < length {
      EncodeSegment(message, INSTANCE, e.instance);
      length := Left(length, e.instance);
      if 0 < length {
        EncodeSegment(message, ATTRIBUTE, e.attribute);
        AppendedTwice(m1, SegmentOctets(INSTANCE, e.instance), SegmentOctets(ATTRIBUTE, e.attribute));
      } else {
        assert TailOctets(e) == SegmentOctets(INSTANCE, e.instance);
      }
    } else {
      AppendedNothing(m1);
    }
    AppendedTwice(m, SegmentOctets(CLASS, e.classId), TailOctets(e));
  }

  // ----- decoding -----

  /** A decoded path: what it says, the octets behind it, and the path elements that were counted. */
  datatype Decoded = Fault | Decoded(path: EPath, rest: seq<octet>, counted: nat)

  /** What one segment is: the count of elements, the octets it advances, and its effect. */
  datatype Segment = NoSegment | Segment(elements: nat, octets: nat, path: EPath)

  function ReadSegment(data: seq<octet>, e: EPath): (r: Segment)
    requires |data| >= 4
    ensures r.Segment? ==>
      && 1 <= r.elements <= 2 && 2 <= r.octets <= 4 && r.path.pathSize == e.pathSize
      && 2 * r.elements == r.octets + (if data[0] == 0x29 then 2 else 0)
  {
    var id := Get16(data[2..]);
    match data[0]
    case 0x20 => Segment(1, 2, e.(classId := data[1]))
    case 0x21 => Segment(2, 4, e.(classId := id))
    case 0x24 => Segment(1, 2, e.(instance := data[1]))
    case 0x25 => Segment(2, 4, e.(instance := id))
    case 0x30 => Segment(1, 2, e.(attribute := data[1]))
    case 0x31 => Segment(2, 4, e.(attribute := id))
    case 0x28 => Segment(1, 2, e)
    case 0x29 => Segment(2, 2, e)
    case _ => NoSegment
  }

  /** The decoding loop. The caller's memory has to reach as far as the path size lets it read. */
  function DecodeSegments(data: seq<octet>, e: EPath, counted: nat): Decoded
    requires |data| >= 2 * (e.pathSize - counted) + 2
    decreases e.pathSize - counted
  {
    if counted >= e.pathSize then Decoded(e, data, counted)
    else if data[0] % 8 == 7 then Fault
    else
      match ReadSegment(data, e)
      case NoSegment => Fault
      case Segment(elements, octets, path) => DecodeSegments(data[octets..], path, counted + elements)
  }

  /** The memory reaches as far as the decoder may look: the path size octet, the words it announces and
      one word more, by which a last 16-bit segment can overshoot them. */
  predicate InReach(data: seq<octet>) {
    |data| >= 1 && |data| >= 2 * data[0] as int + 3
  }

  function Decode(data: seq<octet>): Decoded
    requires InReach(data)
  {
    DecodeSegments(data[1..], EPath(data[0], 0, 0, 0), 0)
  }

  /** The count of consumed bytes that the decoder reports. */
  function Reported(counted: nat): nat {
    counted * 2 + 1
  }

  method DecodePaddedEPath(data: seq<octet>) returns (result: Decoded, consumed: nat)
    requires InReach(data)
    ensures result == Decode(data)
    ensures result.Decoded? ==> consumed == Reported(result.counted)
  {
    var e := EPath(data[0], 0, 0, 0);
    var runner := data[1..];
    var counted := 0;
    consumed := 0;
    while counted < e.pathSize
      invariant e.pathSize == data[0] && counted <= e.pathSize + 1
      invariant |runner| >= 2 * (e.pathSize - counted) + 2
      invariant DecodeSegments(runner, e, counted) == Decode(data)
      decreases e.pathSize - counted
    {
      if runner[0] % 8 == 7 {
        return Fault, 0;
      }
      var segment := ReadSegment(runner, e);
      if segment.NoSegment? {
        return Fault, 0;
      }
      e := segment.path;
      runner := runner[segment.octets..];
      counted := counted + segment.elements;
    }
    return Decoded(e, runner, counted), counted * 2 + 1;
  }

  // ----- round trip -----

  /** The path size is what the ids present need, and ids that are not present are 0. */
  predicate Exact(e: EPath) {
    var (c, i, a) := (Words(e.classId), Words(e.instance), Words(e.attribute));
    || (e.pathSize == c && e.instance == 0 && e.attribute == 0)
    || (e.pathSize == c + i && e.attribute == 0)
    || e.pathSize == c + i + a
  }

  /** A decoder at an encoded segment reads it whole. */
  lemma SegmentRead(kind: octet, id: uint16, rest: seq<octet>, e: EPath)
    requires kind in {CLASS, INSTANCE, ATTRIBUTE} && |rest| >= 2
    ensures var data := SegmentOctets(kind, id) + rest;
      && data[0] % 8 != 7 && data[2 * Words(id)..] == rest
      && ReadSegment(data, e) == Segment(Words(id), 2 * Words(id), WithId(e, kind, id))
  {
    var data := SegmentOctets(kind, id) + rest;
    if id >= 256 {
      assert data[2..] == Le16(id) + rest;
      Read16(id, rest);
    }
  }

  function WithId(e: EPath, kind: octet, id: uint16): EPath {
    if kind == CLASS then e.(classId := id) else if kind == INSTANCE then e.(instance := id) else e.(attribute := id)
  }

  lemma DecodeOne(kind: octet, id: uint16, rest: seq<octet>, e: EPath, counted: nat)
    requires kind in {CLASS, INSTANCE, ATTRIBUTE} && counted < e.pathSize
    requires |rest| >= 2 && |rest| >= 2 * (e.pathSize - counted - Words(id)) + 2
    ensures DecodeSegments(SegmentOctets(kind, id) + rest, e, counted) ==
      DecodeSegments(rest, WithId(e, kind, id), counted + Words(id))
  {
    SegmentRead(kind, id, rest, e);
    var data := SegmentOctets(kind, id) + rest;
    assert DecodeSegments(data, e, counted) ==
      DecodeSegments(data[2 * Words(id)..], WithId(e, kind, id), counted + Words(id));
  }

  // ----- consumption -----

  /** The 16-bit member segments that the decoding loop meets. */
  function WideMembers(data: seq<octet>, e: EPath, counted: nat): nat
    requires |data| >= 2 * (e.pathSize - counted) + 2
    decreases e.pathSize - counted
  {
    if counted >= e.pathSize || data[0] % 8 == 7 then 0
    else
      match ReadSegment(data, e)
      case NoSegment => 0
      case Segment(elements, octets, path) =>
        (if data[0] == 0x29 then 1 else 0) + WideMembers(data[octets..], path, counted + elements)
  }

  lemma {:induction false} LoopConsumption(data: seq<octet>, e: EPath, counted: nat)
    requires |data| >= 2 * (e.pathSize - counted) + 2 && counted <= e.pathSize + 1
    requires DecodeSegments(data, e, counted).Decoded?
    ensures var d := DecodeSegments(data, e, counted);
      && counted <= d.counted <= e.pathSize + 1 && d.counted >= e.pathSize
      && d.path.pathSize == e.pathSize
      && |d.rest| <= |data| && (counted < e.pathSize ==> |d.rest| < |data|)
      && 2 * (d.counted - counted) == |data| - |d.rest| + 2 * WideMembers(data, e, counted)
    decreases e.pathSize - counted
  {
    if counted < e.pathSize {
      var segment := ReadSegment(data, e);
      assert DecodeSegments(data, e, counted) ==
        DecodeSegments(data[segment.octets..], segment.path, counted + segment.elements);
      LoopConsumption(data[segment.octets..], segment.path, counted + segment.elements);
    }
  }

  lemma DropTwice(all: seq<octet>, i: nat, j: nat)
    requires i + j <= |all|
    ensures all[i..][j..] == all[i + j..]
  {}

  predicate IsEnd(all: seq<octet>, rest: seq<octet>) {
    |rest| <= |all| && rest == all[|all| - |rest|..]
  }

  lemma DropIsEnd(all: seq<octet>, at: nat)
    requires at <= |all|
    ensures IsEnd(all, all[at..])
  {}

  /** What is left over is always an end of the whole message. */
  lemma {:induction false} LoopSuffix(all: seq<octet>, at: nat, e: EPath, counted: nat, d: Decoded)
    requires at <= |all| && |all| - at >= 2 * (e.pathSize - counted) + 2
    requires d == DecodeSegments(all[at..], e, counted) && d.Decoded?
    ensures IsEnd(all, d.rest)
    decreases e.pathSize - counted
  {
    if counted < e.pathSize {
      OneSegment(all, at, e, counted);
      var s := ReadSegment(all[at..], e);
      LoopSuffix(all, at + s.octets, s.path, counted + s.elements, d);
    } else {
      NoSegmentLeft(all, at, e, counted);
    }
  }

  lemma NoSegmentLeft(all: seq<octet>, at: nat, e: EPath, counted: nat)
    requires at <= |all| && |all| - at >= 2 * (e.pathSize - counted) + 2 && counted >= e.pathSize
    ensures DecodeSegments(all[at..], e, counted).Decoded? && IsEnd(all, DecodeSegments(all[at..], e, counted).rest)
  {
    DropIsEnd(all, at);
  }

  lemma OneSegment(all: seq<octet>, at: nat, e: EPath, counted: nat)
    requires at <= |all| && |all| - at >= 2 * (e.pathSize - counted) + 2 && counted < e.pathSize
    requires DecodeSegments(all[at..], e, counted).Decoded?
    ensures var s := ReadSegment(all[at..], e);
      && s.Segment? && s.elements >= 1 && s.path.pathSize == e.pathSize && at + s.octets <= |all|
      && |all| - (at + s.octets) >= 2 * (e.pathSize - (counted + s.elements)) + 2
      && DecodeSegments(all[at..], e, counted)
         == DecodeSegments(all[at + s.octets..], s.path, counted + s.elements)
  {
    DropTwice(all, at, ReadSegment(all[at..], e).octets);
  }

  /** An instance segment in a path that ends with it, or before it. */
  lemma InstanceLast(e: EPath, rest: seq<octet>, tail: seq<octet>)
    requires |rest| >= 2 && Words(e.classId) < e.pathSize <= Words(e.classId) + Words(e.instance)
    requires e.pathSize == Words(e.classId) + Words(e.instance) ==> tail == rest
    requires |tail| >= 2
    ensures var (c, i, a) := (Words(e.classId), Words(e.instance), Words(e.attribute));
      DecodeSegments(SegmentOctets(INSTANCE, e.instance) + tail, EPath(e.pathSize, e.classId, 0, 0), c)
        == Decoded(e, rest, e.pathSize)
      <==> e.pathSize == c + i && e.attribute == 0
  {
    DecodeOne(INSTANCE, e.instance, tail, EPath(e.pathSize, e.classId, 0, 0), Words(e.classId));
  }

  /** An attribute segment behind an instance segment. */
  lemma AttributeLast(e: EPath, rest: seq<octet>)
    requires |rest| >= 2 && e.pathSize > Words(e.classId) + Words(e.instance)
    requires |rest| >= 2 * (e.pathSize - Words(e.classId) - Words(e.instance) - Words(e.attribute)) + 2
    ensures var (c, i, a) := (Words(e.classId), Words(e.instance), Words(e.attribute));
      DecodeSegments(SegmentOctets(ATTRIBUTE, e.attribute) + rest, EPath(e.pathSize, e.classId, e.instance, 0), c + i)
        == Decoded(e, rest, e.pathSize)
      <==> e.pathSize == c + i + a
  {
    var counted := Words(e.classId) + Words(e.instance);
    DecodeOne(ATTRIBUTE, e.attribute, rest, EPath(e.pathSize, e.classId, e.instance, 0), counted);
    var end := counted + Words(e.attribute);
    if e.pathSize > end && DecodeSegments(rest, e, end).Decoded? {
      LoopConsumption(rest, e, end);
    }
  }

  /** The octets behind the class segment, read by a decoder that knows the class. */
  lemma TailRoundTrip(e: EPath, rest: seq<octet>)
    requires |rest| >= 2 && e.pathSize > Words(e.classId)
    requires |TailOctets(e) + rest| >= 2 * (e.pathSize - Words(e.classId)) + 2
    ensures var (c, i, a) := (Words(e.classId), Words(e.instance), Words(e.attribute));
      var (si, sa) := (SegmentOctets(INSTANCE, e.instance), SegmentOctets(ATTRIBUTE, e.attribute));
      DecodeSegments(si + ((if e.pathSize == c + i then [] else sa) + rest), EPath(e.pathSize, e.classId, 0, 0), c)
        == Decoded(e, rest, e.pathSize)
      <==> (e.pathSize == c + i && e.attribute == 0) || e.pathSize == c + i + a
  {
    var (c, i) := (Words(e.classId), Words(e.instance));
    var sa := SegmentOctets(ATTRIBUTE, e.attribute);
    var tail := (if e.pathSize == c + i then [] else sa) + rest;
    assert e.pathSize == c + i ==> tail == rest;
    if e.pathSize <= c + i {
      InstanceLast(e, rest, tail);
    } else {
      DecodeOne(INSTANCE, e.instance, tail, EPath(e.pathSize, e.classId, 0, 0), c);
      AttributeLast(e, rest);
    }
  }

  lemma TailSplit(e: EPath, rest: seq<octet>)
    ensures e.pathSize == Words(e.classId) ==> TailOctets(e) == []
    ensures e.pathSize != Words(e.classId) ==>
      TailOctets(e) + rest == SegmentOctets(INSTANCE, e.instance)
        + ((if e.pathSize == Words(e.classId) + Words(e.instance) then [] else SegmentOctets(ATTRIBUTE, e.attribute)) +
          rest)
  {}

  /** Decoding a path size octet followed by the encoded path gives the path back, with the octets
      behind it left over and the whole path size counted, exactly if the path size is what its ids
      need. */
  lemma PathRoundTrip(e: EPath, rest: seq<octet>)
    requires |rest| >= 2 && InReach([e.pathSize] + (EPathOctets(e) + rest))
    ensures Decode([e.pathSize] + (EPathOctets(e) + rest)) == Decoded(e, rest, e.pathSize) <==> Exact(e)
  {
    var data := [e.pathSize] + (EPathOctets(e) + rest);
    var tail := TailOctets(e) + rest;
    assert data[1..] == SegmentOctets(CLASS, e.classId) + tail;
    TailSplit(e, rest);
    if e.pathSize > 0 {
      DecodeOne(CLASS, e.classId, tail, EPath(e.pathSize, 0, 0, 0), 0);
      if e.pathSize > Words(e.classId) {
        TailRoundTrip(e, rest);
      } else if e.pathSize == Words(e.classId) {
        assert tail == rest;
      }
    }
  }

  /** The count that is reported for a path with the right size is the count of octets encoded. */
  lemma ReportedIsEncoded(e: EPath)
    requires Exact(e)
    ensures Reported(e.pathSize) == 1 + |EPathOctets(e)|
  {}

  /** Every successful decode overshoots the path size by at most one word. It reports exactly the
      octets it advanced if and only if it met no 16-bit member segment: the runner skips two octets
      of such a segment and counts four. */
  lemma DecodeConsumption(data: seq<octet>)
    requires InReach(data) && Decode(data).Decoded?
    ensures var d := Decode(data);
      && d.path.pathSize == data[0]
      && data[0] as int <= d.counted <= data[0] as int + 1
      && IsEnd(data, d.rest)
      && (Reported(d.counted) == |data| - |d.rest| <==> WideMembers(data[1..], EPath(data[0], 0, 0, 0), 0) == 0)
  {
    LoopConsumption(data[1..], EPath(data[0], 0, 0, 0), 0);
    LoopSuffix(data, 1, EPath(data[0], 0, 0, 0), 0, Decode(data));
  }

  /** A path of one 16-bit member segment: three octets are advanced, five are reported. */
  lemma WideMemberMiscounted(rest: seq<octet>)
    requires |rest| >= 4
    ensures var d := Decode([2, 0x29, 0] + rest);
      d.Decoded? && d.rest == rest && Reported(d.counted) == 5 && |[2, 0x29, 0] + rest| - |d.rest| == 3
  {
    var data := [2, 0x29, 0] + rest;
    var e := EPath(2, 0, 0, 0);
    assert data[1..] == [0x29, 0] + rest;
    assert data[1..][2..] == rest;
    assert DecodeSegments(rest, e, 2) == Decoded(e, rest, 2);
  }

  // ----- the router request -----

  datatype RouterRequest =
    | PathSegmentError
    | PathSizeInvalid
    | RouterRequest(service: octet, path: EPath, data: seq<octet>, dataSize: nat)

  /** What is left of a length when the service octet is taken off: it is a signed 16-bit number, so
      below -0x8000 it wraps; compared with and subtracted from an unsigned size it is taken modulo
      2^64. */
  function Available(length: int): nat
    requires -0x8000 <= length < 0x8000
  {
    if length == -0x8000 then 0x7FFF else (length - 1) % UINT64
  }

  /** The router request in `length` octets of data. */
  function Requested(data: seq<octet>, length: int): RouterRequest
    requires |data| >= 1 && InReach(data[1..]) && -0x8000 <= length < 0x8000
  {
    match Decode(data[1..])
    case Fault => PathSegmentError
    case Decoded(path, rest, counted) =>
      if Reported(counted) > Available(length) then PathSizeInvalid
      else RouterRequest(data[0], path, rest, Available(length) - Reported(counted))
  }

  method CreateMessageRouterRequest(data: seq<octet>, length: int) returns (request: RouterRequest)
    requires |data| >= 1 && InReach(data[1..]) && -0x8000 <= length < 0x8000
    ensures request == Requested(data, length)
  {
    var decoded, consumed := DecodePaddedEPath(data[1..]);
    var available: int := if length == -0x8000 then 0x7FFF else length - 1;
    if decoded.Fault? {
      return PathSegmentError;
    }
    if consumed > available % UINT64 {
      return PathSizeInvalid;
    }
    return RouterRequest(data[0], decoded.path, decoded.rest, (available - consumed) % UINT64);
  }

  /** The octets of the path, by the count that the decoder reports. */
  function PathCount(data: seq<octet>): nat
    requires |data| >= 1 && InReach(data[1..])
  {
    match Decode(data[1..])
    case Fault => 0
    case Decoded(_, _, counted) => Reported(counted)
  }

  /** The 16-bit member segments in the path of a request. */
  function MembersIn(data: seq<octet>): nat
    requires |data| >= 1 && InReach(data[1..])
  {
    WideMembers(data[2..], EPath(data[1], 0, 0, 0), 0)
  }

  /** The service octet, the reported path and the request data of an accepted request have the length
      of the message exactly if the message has an octet at all: an empty one wraps around and is
      accepted. They are the message, octet for octet, exactly if in addition the path has no 16-bit
      member segment. */
  lemma RequestAddsUp(data: seq<octet>, length: int)
    requires |data| >= 1 && InReach(data[1..]) && -0x8000 <= length < 0x8000 && Requested(data, length).RouterRequest?
    ensures var r := Requested(data, length);
      && r.service == data[0]
      && (1 + PathCount(data) + r.dataSize == length <==> length >= 1)
      && (1 <= length <= |data| ==>
            (1 + (|data| - 1 - |r.data|) + r.dataSize == length <==> MembersIn(data) == 0))
      && (1 <= length <= |data| && MembersIn(data) == 0 ==>
            r.dataSize <= |r.data| && r.data[..r.dataSize] == data[1 + PathCount(data)..length])
  {
    AvailableIs(length);
    PathConsumed(data);
    if 1 <= length <= |data| && MembersIn(data) == 0 {
      EndOfMessage(data, Requested(data, length).data, 1 + PathCount(data), length);
    }
  }

  lemma AvailableIs(length: int)
    requires -0x8000 <= length < 0x8000
    ensures if length >= 1 then Available(length) == length - 1 else Available(length) >= 0x7FFF
  {}

  /** What the decoder has left of a message, and what it reports. */
  lemma PathConsumed(data: seq<octet>)
    requires |data| >= 1 && InReach(data[1..]) && Decode(data[1..]).Decoded?
    ensures var rest := Decode(data[1..]).rest;
      IsEnd(data[1..], rest) && (1 + PathCount(data) + |rest| == |data| <==> MembersIn(data) == 0)
  {
    DecodeConsumption(data[1..]);
    DropTwice(data, 1, 1);
  }

  /** An end of the message behind its first octet, cut off at a length. */
  lemma EndOfMessage(data: seq<octet>, rest: seq<octet>, at: nat, length: nat)
    requires data != [] && IsEnd(data[1..], rest) && at + |rest| == |data| && at <= length <= |data|
    ensures length - at <= |rest| && rest[..length - at] == data[at..length]
  {
    assert data[1..][at - 1..] == data[at..];
  }

  /** An empty message is accepted with almost 2^64 octets of data behind any path that decodes. */
  lemma EmptyRequestWraps(data: seq<octet>)
    requires |data| >= 1 && InReach(data[1..]) && Decode(data[1..]).Decoded?
    ensures var r := Requested(data, 0); r.RouterRequest? && r.dataSize == UINT64 - 1 - PathCount(data)
  {
    DecodeConsumption(data[1..]);
  }
}
