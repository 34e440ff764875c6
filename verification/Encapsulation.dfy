/** The encapsulation header, in front of replies and in front of what is received. */
module Encapsulation {
  import opened CommonPacketFormat
  import opened Connections
  import opened Wire
  import opened Widths

  const HEADER: nat := 24
  const CONTEXT: nat := 8
  const SUCCESS: uint32 := 0
  const INCORRECT_DATA: uint32 := 3

  datatype Encapsulated = Encapsulated(
    command: uint16, length: uint16, session: uint32, status: uint32, context: seq<octet>, options: uint32)

  function HeaderOctets(e: Encapsulated): (r: seq<octet>)
    requires |e.context| == CONTEXT
    ensures |r| == HEADER
  {
    Le16(e.command) + Le16(e.length) + Le32(e.session) + Le32(e.status) + e.context + Le32(e.options)
  }

  /** The header of a reply to a request; the length is cut to 16 bits. */
  function Answering(request: Encapsulated, length: nat, status: uint32): Encapsulated {
    request.(length := length % UINT16, status := status, options := 0)
  }

  method GenerateEncapsulationHeader(request: Encapsulated, length: nat, status: uint32, message: ENIPMessage)
    requires |request.context| == CONTEXT
    requires message.Valid() && Fits(message.View(), HEADER)
    modifies message, message.buffer
    ensures message.Valid() && message.View() ==
      Appended(old(message.View()), HeaderOctets(Answering(request, length, status)))
  {
    ghost var m := message.View();
    ghost var e := Answering(request, length, status);
    ghost var (o0, o2, o4, o8) := (Le16(e.command), Le16(e.length), Le32(e.session), Le32(e.status));
    message.AddInt(request.command);
    message.AddInt(length % UINT16);
    AppendedTwice(m, o0, o2);
    message.AddDint(request.session);
    AppendedTwice(m, o0 + o2, o4);
    message.AddDint(status);
    AppendedTwice(m, o0 + o2 + o4, o8);
    message.AddOctets(request.context);
    AppendedTwice(m, o0 + o2 + o4 + o8, e.context);
    message.AddDint(0);
    AppendedTwice(m, o0 + o2 + o4 + o8 + e.context, Le32(0));
  }

  function ReadHeader(data: seq<octet>): Encapsulated
    requires |data| >= HEADER
  {
    Encapsulated(Get16(data), Get16(data[2..]), Get32(data[4..]), Get32(data[8..]), data[12..20], Get32(data[20..]))
  }

  /** Reads a header; what remains is positive if more than one message was received, and negative
      if only part of one was. */
  method CreateEncapsulationStructure(data: seq<octet>, received: nat) returns (e: Encapsulated, body: seq<octet>,
                                      remaining: int)
    requires |data| >= HEADER
    ensures e == ReadHeader(data) && body == data[HEADER..] && remaining == received - HEADER - e.length
  {
    var pointer := data;
    var command := Get16(pointer);
    pointer := pointer[2..];
    var length := Get16(pointer);
    pointer := pointer[2..];
    var session := Get32(pointer);
    pointer := pointer[4..];
    var status := Get32(pointer);
    pointer := pointer[4..];
    var context := pointer[..CONTEXT];
    pointer := pointer[CONTEXT..];
    var options := Get32(pointer);
    body := pointer[4..];
    e := Encapsulated(command, length, session, status, context, options);
    remaining := received - HEADER - length;
    assert context == data[12..20];
  }

  lemma HeaderRead(e: Encapsulated, rest: seq<octet>)
    requires |e.context| == CONTEXT
    ensures ReadHeader(HeaderOctets(e) + rest) == e && (HeaderOctets(e) + rest)[HEADER..] == rest
  {
    var data := HeaderOctets(e) + rest;
    var d20 := Le32(e.options) + rest;
    var d12 := e.context + d20;
    var d8 := Le32(e.status) + d12;
    var d4 := Le32(e.session) + d8;
    var d2 := Le16(e.length) + d4;
    Behind(Le16(e.command), Le16(e.length), Le32(e.session), Le32(e.status), e.context, Le32(e.options), rest);
    Read16(e.command, d2);
    Read16(e.length, d4);
    Read32(e.session, d8);
    Read32(e.status, d12);
    Read32(e.options, rest);
  }

  lemma Behind(a: seq<octet>, b: seq<octet>, c: seq<octet>, d: seq<octet>, e: seq<octet>, f: seq<octet>, g: seq<octet>)
    requires |a| == |b| == 2 && |c| == |d| == |f| == 4 && |e| == CONTEXT
    ensures var data := a + b + c + d + e + f + g;
      && data == a + (b + (c + (d + (e + (f + g)))))
      && data[2..] == b + (c + (d + (e + (f + g))))
      && data[4..] == c + (d + (e + (f + g)))
      && data[8..] == d + (e + (f + g))
      && data[12..20] == e && data[20..] == f + g && data[HEADER..] == g
  {}

  // ----- replies -----

  /** A body behind a header that answers a request. */
  function Framed(request: Encapsulated, body: seq<octet>): seq<octet>
    requires |request.context| == CONTEXT
  {
    HeaderOctets(Answering(request, |body|, SUCCESS)) + body
  }

  function Refusal(request: Encapsulated): seq<octet>
    requires |request.context| == CONTEXT
  {
    HeaderOctets(Answering(request, 0, INCORRECT_DATA))
  }

  /** Assembles a reply behind the place of its header, then puts the header in front. */
  method FrameReply(request: Encapsulated, r: Response, c: Cpf, message: ENIPMessage)
    requires |request.context| == CONTEXT && c.dataLength <= |c.data|
    requires message.Valid() && message.View().written == [] && message.used == 0
    requires Fits(message.View(), HEADER + |Assembled(Some(r), c)|)
    modifies message, message.buffer
    ensures message.Valid()
    ensures var reply := Framed(request, Assembled(Some(r), c));
      message.View() == Message(reply, old(message.View().rest)[|reply|..], |reply|)
  {
    ghost var before := message.View().rest;
    ghost var body := Assembled(Some(r), c);
    HeaderInFront(before, HeaderOctets(Answering(request, |body|, SUCCESS)), body);
    message.MoveTo(HEADER);
    var _ := AssembleLinearMessage(Some(r), c, message);
    var end := message.position;
    message.MoveTo(0);
    GenerateEncapsulationHeader(request, message.used, SUCCESS, message);
    message.MoveTo(end);
  }

  /** What is sent for a request: nothing if it cannot be parsed or the router fails. */
  function Reply(request: Encapsulated, parsed: Option<Cpf>, router: seq<octet> -> Option<Response>): Option<seq<octet>>
    requires |request.context| == CONTEXT
    requires parsed.Some? ==> parsed.value.dataLength <= |parsed.value.data|
  {
    match parsed
    case None => None
    case Some(c) =>
      if c.addressType != NULL_ADDRESS || c.dataType != UNCONNECTED_DATA then Some(Refusal(request))
      else
        match router(c.data[..c.dataLength])
        case None => None
        case Some(r) => Some(Framed(request, Assembled(Some(r), c)))
  }

  method NotifyCommonPacketFormat(request: Encapsulated, data: seq<octet>, prior: Cpf,
                                  router: seq<octet> -> Option<Response>,
                                  message: ENIPMessage)
    returns (c: Option<Cpf>, sent: bool)
    requires |request.context| == CONTEXT && |data| >= request.length + SLACK
    requires prior.dataLength <= |prior.data|
    requires message.Valid() && message.View().written == [] && message.used == 0
    requires var reply := Reply(request, Parse(data, request.length, prior), router);
      reply.Some? ==> Fits(message.View(), |reply.value|)
    modifies message, message.buffer
    ensures message.Valid() && c == Parse(data, request.length, prior)
    ensures var reply := Reply(request, c, router);
      && sent == reply.Some?
      && (sent ==> message.View().written == reply.value && message.used == |reply.value|)
      && (!sent ==> message.View() == old(message.View()))
  {
    c := CreateCommonPacketFormatStructure(data, request.length, prior);
    if c.None? {
      return c, false;
    }
    if c.value.addressType == NULL_ADDRESS {
      if c.value.dataType == UNCONNECTED_DATA {
        var answer := router(c.value.data[..c.value.dataLength]);
        if answer.None? {
          return c, false;
        }
        FrameReply(request, answer.value, c.value, message);
      } else {
        GenerateEncapsulationHeader(request, 0, INCORRECT_DATA, message);
      }
    } else {
      GenerateEncapsulationHeader(request, 0, INCORRECT_DATA, message);
    }
    return c, true;
  }

  /** A framed reply is one whole message, neither more nor less, exactly if its body is shorter than
      the length field can say; the requester's command, session and context come back. */
  lemma FramedIsWhole(request: Encapsulated, body: seq<octet>)
    requires |request.context| == CONTEXT
    ensures var (reply, e) := (Framed(request, body), ReadHeader(Framed(request, body)));
      && reply[HEADER..] == body
      && e == request.(length := |body| % UINT16, status := SUCCESS, options := 0)
      && (|reply| - HEADER - e.length == 0 <==> |body| < 0x1_0000)
  {
    HeaderRead(Answering(request, |body|, SUCCESS), body);
  }

  /** What the requester reads in a reply: its own header fields, nothing left over, interface handle
      and timeout 0, and a packet with the response. */
  lemma ReplyRoundTrip(request: Encapsulated, r: Response, c: Cpf, slack: seq<octet>, prior: Cpf)
    requires |request.context| == CONTEXT
    requires c.dataLength <= |c.data| && Consistent(c) && |slack| >= SLACK
    requires r.statusSize <= 2 && |Assembled(Some(r), c)| < 0x1_0000
    ensures var reply := Framed(request, Assembled(Some(r), c));
      var e := ReadHeader(reply);
      && e == request.(length := e.length, status := SUCCESS, options := 0)
      && |reply| == HEADER + e.length && e.length >= 6
      && reply[HEADER..HEADER + 6] == Zeros(6)
      && Parse(reply[HEADER + 6..] + slack, e.length - 6, prior) == Some(RereadCpf(c, Payload(r, c), prior))
  {
    var body := Assembled(Some(r), c);
    FramedIsWhole(request, body);
    var reply := Framed(request, body);
    PayloadShorter(r, c);
    assert reply[HEADER..HEADER + 6] == body[..6] && reply[HEADER + 6..] == body[6..];
    assert body[..6] == Zeros(6) && body[6..] == PacketOctets(Some(r), c);
    PacketRoundTrip(Some(r), c, slack, prior);
  }

  lemma PayloadShorter(r: Response, c: Cpf)
    requires c.dataLength <= |c.data| && Consistent(c)
    ensures |Payload(r, c)| <= |Assembled(Some(r), c)| - 6
  {}
}
