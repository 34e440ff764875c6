/** Explicit requests on a class 3 connection: repeated sequence counts are answered from memory. */
module ExplicitReplies {
  import opened CommonPacketFormat
  import opened Connections
  import opened Encapsulation
  import opened Wire
  import opened Widths

  /** The last count seen and the body of the last reply sent, without its header. */
  datatype Memory = Memory(count: uint16, last: Option<seq<octet>>)

  const FRESH: Memory := Memory(0, None)

  /** A request on a connection: its header, its packet, its count, and the answer that the message
      router has for it, if it is asked; no answer is a router error. */
  datatype ExplicitRequest = ExplicitRequest(header: Encapsulated, c: Cpf, count: uint16, answer: Option<Response>)

  predicate WellFormed(q: ExplicitRequest) {
    |q.header.context| == CONTEXT && q.c.dataLength <= |q.c.data|
  }

  /** The packet of the reply: it names the producing side and repeats the count. */
  function ReplyCpf(c: Cpf, count: uint16, producedId: uint32): Cpf {
    c.(connectionId := producedId, sequence := count)
  }

  function ReplyBody(q: ExplicitRequest, producedId: uint32): seq<octet>
    requires WellFormed(q) && q.answer.Some?
  {
    Assembled(q.answer, ReplyCpf(q.c, q.count, producedId))
  }

  /** What a request leads to: whether the router was called, and what is sent. */
  datatype Outcome = Outcome(called: bool, sent: Option<seq<octet>>)

  /** A repeat before any reply was stored sends a message of no octets. */
  function Step(k: Memory, q: ExplicitRequest, producedId: uint32): (Memory, Outcome)
    requires WellFormed(q)
  {
    if q.count == k.count then
      (k, Outcome(false, Some(if k.last.Some? then Framed(q.header, k.last.value) else [])))
    else if q.answer.None? then (k.(count := q.count), Outcome(true, None))
    else
      var body := ReplyBody(q, producedId);
      (Memory(q.count, Some(body)), Outcome(true, Some(Framed(q.header, body))))
  }

  lemma HeaderReplaced(h: seq<octet>, stored: seq<octet>, used: nat)
    requires |h| == HEADER <= |stored| && (used == 0 || HEADER <= used <= |stored|)
    ensures (h + stored[HEADER..])[..used] == if used == 0 then [] else h + stored[HEADER..used]
  {}

  /** The message, cut at its used length, is what is sent. */
  ghost predicate Sends(message: ENIPMessage, sent: seq<octet>)
    reads message, message.buffer
  {
    var length := message.used % UINT64;
    length <= message.buffer.Length && message.buffer[..length] == sent
  }

  class Class3Connection {
    const producedId: uint32
    var countConsuming: uint16
    var lastReply: seq<octet>
    var lastUsed: nat

    ghost predicate Valid()
      reads this
    {
      lastUsed == 0 || HEADER <= lastUsed <= |lastReply|
    }

    ghost function Remembered(): Memory
      requires Valid()
      reads this
    {
      Memory(countConsuming, if lastUsed == 0 then None else Some(lastReply[HEADER..lastUsed]))
    }

    constructor (producedId: uint32, size: nat)
      ensures Valid() && Remembered() == FRESH && this.producedId == producedId && |lastReply| == size
    {
      this.producedId := producedId;
      countConsuming, lastReply, lastUsed := 0, Zeros(size), 0;
    }

    /** Sends the stored reply behind a new header. */
    method RepeatReply(header: Encapsulated, message: ENIPMessage)
      requires Valid() && |header.context| == CONTEXT
      requires message.buffer.Length == |lastReply| && HEADER <= |lastReply| < UINT64
      modifies message, message.buffer
      ensures Sends(message, if Remembered().last.Some? then Framed(header, Remembered().last.value) else [])
    {
      message.Load(lastReply, lastUsed);
      var length := (lastUsed - HEADER) % UINT64;
      message.used := length;
      GenerateEncapsulationHeader(header, length, SUCCESS, message);
      ghost var h := HeaderOctets(Answering(header, length, SUCCESS));
      assert message.buffer[..] == message.View().written + message.View().rest;
      HeaderReplaced(h, lastReply, lastUsed);
      if lastUsed == 0 {
        assert message.used == UINT64;
      } else {
        assert length == lastUsed - HEADER == |lastReply[HEADER..lastUsed]|;
        assert message.used % UINT64 == lastUsed;
        assert message.buffer[..lastUsed] == h + lastReply[HEADER..lastUsed];
      }
    }

    /** Sends the answer of the router and stores what is sent. */
    method AnswerRequest(header: Encapsulated, r: Response, c: Cpf, message: ENIPMessage)
      requires |header.context| == CONTEXT && c.dataLength <= |c.data|
      requires message.Valid() && message.View().written == [] && message.used == 0
      requires message.buffer.Length == |lastReply| && HEADER <= |lastReply| < UINT64
      requires HEADER + |Assembled(Some(r), c)| <= |lastReply|
      modifies this`lastReply, this`lastUsed, message, message.buffer
      ensures Valid() && |lastReply| == old(|lastReply|)
      ensures Remembered() == Memory(countConsuming, Some(Assembled(Some(r), c)))
      ensures Sends(message, Framed(header, Assembled(Some(r), c)))
    {
      ghost var reply := Framed(header, Assembled(Some(r), c));
      FrameReply(header, r, c, message);
      assert message.buffer[..message.used] == reply && message.used % UINT64 == message.used == |reply|;
      lastReply, lastUsed := message.buffer[..], message.used;
      FramedIsWhole(header, Assembled(Some(r), c));
      assert lastReply[HEADER..lastUsed] == reply[HEADER..];
    }

    /** A request on this connection. `item` are the octets from its data item on. The used length of
        the message counts on where a size wraps around. */
    method NotifyConnectedCommonPacketFormat(header: Encapsulated, parsed: Cpf, item: seq<octet>,
                                             router: (seq<octet>, int) -> Option<Response>, message: ENIPMessage)
      returns (ghost q: ExplicitRequest, send: bool)
      requires Valid() && |item| >= 2
      requires |header.context| == CONTEXT && parsed.dataLength <= |parsed.data|
      requires parsed.addressType == CONNECTION_ADDRESS && parsed.dataType == CONNECTED_DATA
      requires message.Valid() && message.View().written == [] && message.used == 0
      requires message.buffer.Length == |lastReply| && HEADER <= |lastReply| < UINT64
      requires var q := ExplicitRequest(header, parsed, Get16(item), router(item[2..], parsed.dataLength - 2));
        q.answer.Some? ==> HEADER + |ReplyBody(q, producedId)| <= |lastReply|
      modifies this, message, message.buffer
      ensures Valid() && |lastReply| == old(|lastReply|)
      ensures q == ExplicitRequest(header, parsed, Get16(item), router(item[2..], parsed.dataLength - 2))
      ensures Remembered() == Step(old(Remembered()), q, producedId).0
      ensures var outcome := Step(old(Remembered()), q, producedId).1;
        && send == outcome.sent.Some?
        && (send ==> Sends(message, outcome.sent.value))
    {
      var count := Get16(item);
      q := ExplicitRequest(header, parsed, count, router(item[2..], parsed.dataLength - 2));
      if countConsuming == count {
        RepeatReply(header, message);
        return q, true;
      }
      countConsuming := count;
      var answer := router(item[2..], parsed.dataLength - 2);
      if answer.None? {
        return q, false;
      }
      AnswerRequest(header, answer.value, ReplyCpf(parsed, count, producedId), message);
      return q, true;
    }
  }

  // ----- runs -----

  ghost predicate AllWellFormed(qs: seq<ExplicitRequest>) {
    forall i :: 0 <= i < |qs| ==> WellFormed(qs[i])
  }

  /** The memory after a run of requests. */
  function After(k: Memory, qs: seq<ExplicitRequest>, producedId: uint32): Memory
    requires AllWellFormed(qs)
  {
    if qs == [] then k else Step(After(k, qs[..|qs| - 1], producedId), qs[|qs| - 1], producedId).0
  }

  /** The outcome of one request of a run. */
  function At(k: Memory, qs: seq<ExplicitRequest>, i: nat, producedId: uint32): Outcome
    requires AllWellFormed(qs) && i < |qs|
  {
    Step(After(k, qs[..i], producedId), qs[i], producedId).1
  }

  /** Requests at which the router was called. */
  function Calls(k: Memory, qs: seq<ExplicitRequest>, producedId: uint32): nat
    requires AllWellFormed(qs)
  {
    if qs == [] then 0
    else Calls(k, qs[..|qs| - 1], producedId) + if At(k, qs, |qs| - 1, producedId).called then 1 else 0
  }

  /** Blocks of equal consecutive counts. */
  function Blocks(qs: seq<ExplicitRequest>): nat {
    if qs == [] then 0
    else Blocks(qs[..|qs| - 1]) + if |qs| >= 2 && qs[|qs| - 2].count == qs[|qs| - 1].count then 0 else 1
  }

  /** The last count is remembered, also when the router failed. */
  lemma {:induction false} CountRemembered(k: Memory, qs: seq<ExplicitRequest>, producedId: uint32)
    requires AllWellFormed(qs) && qs != []
    ensures After(k, qs, producedId).count == qs[|qs| - 1].count
  {}

  /** On a new connection the router is called once for each block of equal counts, whatever it
      answers, unless the first count is 0: then it is called once less. */
  lemma {:induction false} OneCallPerBlock(qs: seq<ExplicitRequest>, producedId: uint32)
    requires AllWellFormed(qs)
    ensures Calls(FRESH, qs, producedId) == Blocks(qs) - if qs != [] && qs[0].count == 0 then 1 else 0
  {
    if qs != [] {
      var before := qs[..|qs| - 1];
      OneCallPerBlock(before, producedId);
      if before != [] {
        CountRemembered(FRESH, before, producedId);
      }
    }
  }

  /** A stretch of requests with one count, behind a first one that the router answered, leaves the
      memory as that first one left it. */
  lemma {:induction false} BlockRemembered(k: Memory, qs: seq<ExplicitRequest>, i: nat, j: nat, producedId: uint32)
    requires AllWellFormed(qs) && i < j <= |qs|
    requires forall m :: i <= m < j ==> qs[m].count == qs[i].count
    ensures After(k, qs[..j], producedId) == After(k, qs[..i + 1], producedId)
  {
    if j > i + 1 {
      BlockRemembered(k, qs, i, j - 1, producedId);
      CountRemembered(k, qs[..i + 1], producedId);
      assert qs[..j][..j - 1] == qs[..j - 1];
      assert After(k, qs[..j], producedId) == Step(After(k, qs[..j - 1], producedId), qs[j - 1], producedId).0;
    }
  }

  /** In any run, each repeat of a request that the router answered is answered without calling the
      router again: the repeat's own header fields, the same octets behind the header, and a length
      field that says how many they are. */
  lemma RepeatsGetSameReply(k: Memory, qs: seq<ExplicitRequest>, i: nat, j: nat, producedId: uint32)
    requires AllWellFormed(qs) && i < j < |qs|
    requires forall m :: i <= m <= j ==> qs[m].count == qs[i].count
    requires At(k, qs, i, producedId).called && qs[i].answer.Some?
    requires |ReplyBody(qs[i], producedId)| < 0x1_0000
    ensures var (first, repeat) := (At(k, qs, i, producedId), At(k, qs, j, producedId));
      && first.sent.Some? && !repeat.called && repeat.sent.Some?
      && |first.sent.value| >= HEADER && |repeat.sent.value| == |first.sent.value|
      && repeat.sent.value[HEADER..] == first.sent.value[HEADER..]
      && ReadHeader(repeat.sent.value)
         == qs[j].header.(length := |repeat.sent.value| - HEADER, status := SUCCESS, options := 0)
  {
    var body := ReplyBody(qs[i], producedId);
    assert qs[..i + 1][..i] == qs[..i];
    assert After(k, qs[..i + 1], producedId) == Memory(qs[i].count, Some(body));
    BlockRemembered(k, qs, i, j, producedId);
    FramedIsWhole(qs[i].header, body);
    FramedIsWhole(qs[j].header, body);
  }

  /** After a router error the count is remembered but no reply is: in any run each repeat of the
      failed request gets the reply that was stored before it, to an older request, and nothing if there
      was none. */
  lemma RepeatAfterError(k: Memory, qs: seq<ExplicitRequest>, i: nat, j: nat, producedId: uint32)
    requires AllWellFormed(qs) && i < j < |qs|
    requires forall m :: i <= m <= j ==> qs[m].count == qs[i].count
    requires At(k, qs, i, producedId).called && qs[i].answer.None?
    ensures var older := After(k, qs[..i], producedId).last;
      && At(k, qs, i, producedId) == Outcome(true, None)
      && At(k, qs, j, producedId)
         == Outcome(false, Some(if older.Some? then Framed(qs[j].header, older.value) else []))
  {
    assert qs[..i + 1][..i] == qs[..i];
    assert After(k, qs[..i + 1], producedId) == After(k, qs[..i], producedId).(count := qs[i].count);
    BlockRemembered(k, qs, i, j, producedId);
  }

  /** A packet on a connection: it names the producing side, and its data are the count and the response. */
  predicate NamesConnection(p: Cpf, producedId: uint32, count: uint16, r: Response) {
    && p.addressType == 0x00A1 && p.connectionId == producedId && p.dataType == 0x00B1
    && |p.data| >= 2 && Get16(p.data) == count && p.data[2..] == ResponseOctets(r)
  }

  lemma PayloadNames(r: Response, c: Cpf, prior: Cpf)
    requires c.addressType == CONNECTION_ADDRESS && c.dataType == CONNECTED_DATA && c.sequence < 0x1_0000
    requires |Payload(r, c)| < 0x1_0000
    ensures NamesConnection(RereadCpf(c, Payload(r, c), prior), c.connectionId, c.sequence, r)
  {
    assert Payload(r, c) == Le16(c.sequence) + ResponseOctets(r);
    Read16(c.sequence, ResponseOctets(r));
  }

  /** The reply to a request that the router answered, as the requester parses it: it names the
      producing side of the connection, and its data are the count of the request and the response. */
  lemma ReplyNamesConnection(k: Memory, q: ExplicitRequest, producedId: uint32, slack: seq<octet>, prior: Cpf)
    requires WellFormed(q) && q.count != k.count && q.answer.Some? && q.answer.value.statusSize <= 2
    requires Consistent(q.c) && q.c.addressType == CONNECTION_ADDRESS && q.c.dataType == CONNECTED_DATA
    requires |ReplyBody(q, producedId)| < 0x1_0000 && |slack| >= SLACK
    ensures var sent := Step(k, q, producedId).1.sent;
      && sent.Some? && |sent.value| >= HEADER + 6
      && var packet := sent.value[HEADER + 6..];
         var p := Parse(packet + slack, |packet|, prior);
         p.Some? && NamesConnection(p.value, producedId, q.count, q.answer.value)
  {
    ReplySplit(q, producedId);
    ReplyRead(q, producedId, slack, prior);
  }

  lemma ReplyRead(q: ExplicitRequest, producedId: uint32, slack: seq<octet>, prior: Cpf)
    requires WellFormed(q) && q.answer.Some? && q.answer.value.statusSize <= 2
    requires Consistent(q.c) && q.c.addressType == CONNECTION_ADDRESS && q.c.dataType == CONNECTED_DATA
    requires |ReplyBody(q, producedId)| < 0x1_0000 && |slack| >= SLACK
    ensures var packet := PacketOctets(q.answer, ReplyCpf(q.c, q.count, producedId));
      var p := Parse(packet + slack, |packet|, prior);
      p.Some? && NamesConnection(p.value, producedId, q.count, q.answer.value)
  {
    var (r, c) := (q.answer.value, ReplyCpf(q.c, q.count, producedId));
    assert Items(c) == Items(q.c);
    PayloadShorter(r, c);
    PacketRoundTrip(Some(r), c, slack, prior);
    PayloadNames(r, c, prior);
  }

  lemma ReplySplit(q: ExplicitRequest, producedId: uint32)
    requires WellFormed(q) && q.answer.Some? && KnownAddress(q.c)
    ensures |Framed(q.header, ReplyBody(q, producedId))| >= HEADER + 6
    ensures Framed(q.header, ReplyBody(q, producedId))[HEADER + 6..]
         == PacketOctets(q.answer, ReplyCpf(q.c, q.count, producedId))
  {
    var packet := PacketOctets(q.answer, ReplyCpf(q.c, q.count, producedId));
    assert ReplyBody(q, producedId) == Zeros(6) + packet;
  }
}
