/** The messages octet by octet, with the item types and statuses that a peer expects in them. */
module WireLayouts {
  import opened CommonPacketFormat
  import opened Connections
  import opened Encapsulation
  import opened IoFrames
  import opened Wire
  import opened Widths
  import ExplicitReplies

  /** The octets of a word, lowest first. */
  function Two(v: uint16): seq<octet> {
    [v % 256, v / 256]
  }

  function Four(v: uint32): seq<octet> {
    [v % 256, v / 256 % 256, v / 65536 % 256, v / 16777216]
  }

  lemma FourIs(v: uint32)
    ensures Le32(v) == Four(v)
  {
    Octets32(v);
  }

  /** A header: command, length, session, status, the sender's context and options 0. */
  function Head(e: Encapsulated, length: uint16, status: octet): seq<octet>
    requires |e.context| == CONTEXT
  {
    Two(e.command) + Two(length) + Four(e.session) + [status, 0, 0, 0] + e.context + [0, 0, 0, 0]
  }

  lemma HeadIs(e: Encapsulated, length: uint16, status: octet)
    requires |e.context| == CONTEXT
    ensures HeaderOctets(Answering(e, length, status)) == Head(e, length, status)
  {
    FourIs(e.session);
    FourIs(status);
    FourIs(0);
  }

  /** A packet with another address or another kind of data is answered by a header with status 3 and
      nothing behind it; what cannot be parsed, and what the router has no answer for, is not answered. */
  lemma RefusalLayout(request: Encapsulated, c: Cpf, router: seq<octet> -> Option<Response>)
    requires |request.context| == CONTEXT && c.dataLength <= |c.data|
    ensures Encapsulation.Reply(request, None, router) == None
    ensures (c.addressType, c.dataType) != (0, 0xB2) ==>
      Encapsulation.Reply(request, Some(c), router) == Some(Head(request, 0, 3))
    ensures (c.addressType, c.dataType) == (0, 0xB2) && router(c.data[..c.dataLength]) == None ==>
      Encapsulation.Reply(request, Some(c), router) == None
  {
    HeadIs(request, 0, 3);
  }

  /** Service, reserved octet, status, and the additional status words with their number. */
  function Words(r: Response): seq<octet> {
    if r.statusSize == 0 then []
    else if r.statusSize == 1 then Two(r.status0)
    else Two(r.status0) + Two(r.status1)
  }

  function Answer(r: Response): seq<octet> {
    [r.replyService, r.reserved, r.generalStatus, r.statusSize] + Words(r) + r.data
  }

  lemma AnswerIs(r: Response)
    ensures ResponseOctets(r) == Answer(r)
  {}

  predicate NoFurtherItems(c: Cpf) {
    c.itemCount == 2 && Items(c) == 0
  }

  lemma NoItemOctets(c: Cpf)
    requires NoFurtherItems(c)
    ensures ItemsOctets(c) == []
  {}

  lemma Joined(a: seq<octet>, b: seq<octet>, c: seq<octet>, d: seq<octet>)
    ensures a + b + (c + d) + [] == a + (b + (c + d))
  {}

  lemma ResponsePacket(r: Response, c: Cpf)
    requires c.dataLength <= |c.data| && NoFurtherItems(c) && CarriesData(c)
    requires r.statusSize <= 2 && |Payload(r, c)| < 0x1_0000
    ensures PacketOctets(Some(r), c) ==
      Le16(2) + (AddressOctets(c) + (ItemHead(c.dataType, |Payload(r, c)|) + Payload(r, c)))
  {
    NoItemOctets(c);
    BodyAnnounced(Some(r), c);
    Joined(Le16(2), AddressOctets(c), ItemHead(c.dataType, |Payload(r, c)|), Payload(r, c));
  }

  /** The packet of an unconnected reply: two items, a null address, and type 0x00B2 with the response. */
  lemma UnconnectedPacket(r: Response, c: Cpf)
    requires c.dataLength <= |c.data| && NoFurtherItems(c)
    requires c.addressType == NULL_ADDRESS && c.dataType == UNCONNECTED_DATA
    requires r.statusSize <= 2 && |Answer(r)| < 0x1_0000
    ensures PacketOctets(Some(r), c) == [2, 0, 0, 0, 0, 0, 0xB2, 0] + Two(|Answer(r)|) + Answer(r)
  {
    AnswerIs(r);
    assert Payload(r, c) == Answer(r);
    ResponsePacket(r, c);
  }

  /** A whole unconnected reply. */
  lemma UnconnectedReplyLayout(request: Encapsulated, c: Cpf, router: seq<octet> -> Option<Response>, r: Response)
    requires |request.context| == CONTEXT && c.dataLength <= |c.data| && NoFurtherItems(c)
    requires c.addressType == 0 && c.dataType == 0xB2 && router(c.data[..c.dataLength]) == Some(r)
    requires r.statusSize <= 2 && |Answer(r)| + 16 < 0x1_0000
    ensures Encapsulation.Reply(request, Some(c), router) == Some(
      Head(request, |Answer(r)| + 16, 0)
        + ([0, 0, 0, 0, 0, 0] + ([2, 0, 0, 0, 0, 0, 0xB2, 0] + Two(|Answer(r)|) + Answer(r))))
  {
    UnconnectedPacket(r, c);
    HeadIs(request, |Answer(r)| + 16, 0);
    assert Zeros(6) == [0, 0, 0, 0, 0, 0];
  }

  lemma ConnectedOctets(id: seq<octet>, n: uint16, count: seq<octet>, answer: seq<octet>)
    ensures Le16(2) + (ItemHead(CONNECTION_ADDRESS, 4) + id + (ItemHead(CONNECTED_DATA, n) + (count + answer)))
         == [2, 0, 0xA1, 0, 4, 0] + id + [0xB1, 0] + Two(n) + count + answer
  {}

  /** The packet of a reply on a connection: a connection address with the producing side's id, and type
      0x00B1 with the count in front of the response. */
  lemma ConnectedPacket(r: Response, c: Cpf)
    requires c.dataLength <= |c.data| && NoFurtherItems(c) && c.sequence < 0x1_0000
    requires c.addressType == CONNECTION_ADDRESS && c.dataType == CONNECTED_DATA
    requires r.statusSize <= 2 && |Answer(r)| + 2 < 0x1_0000
    ensures PacketOctets(Some(r), c) ==
      [2, 0, 0xA1, 0, 4, 0] + Four(c.connectionId) + [0xB1, 0]
        + Two(|Answer(r)| + 2) + Two(c.sequence) + Answer(r)
  {
    AnswerIs(r);
    FourIs(c.connectionId);
    assert Payload(r, c) == Two(c.sequence) + Answer(r);
    ResponsePacket(r, c);
    ConnectedOctets(Four(c.connectionId), |Answer(r)| + 2, Two(c.sequence), Answer(r));
  }

  /** A whole reply to an explicit request on a connection. */
  lemma ConnectedReplyLayout(k: ExplicitReplies.Memory, q: ExplicitReplies.ExplicitRequest, producedId: uint32)
    requires ExplicitReplies.WellFormed(q) && q.count != k.count && q.answer.Some? && NoFurtherItems(q.c)
    requires q.c.addressType == 0xA1 && q.c.dataType == 0xB1
    requires q.answer.value.statusSize <= 2 && |Answer(q.answer.value)| + 22 < 0x1_0000
    ensures var answer := Answer(q.answer.value);
      ExplicitReplies.Step(k, q, producedId).1 == ExplicitReplies.Outcome(true, Some(
        Head(q.header, |answer| + 22, 0)
          + ([0, 0, 0, 0, 0, 0]
            + ([2, 0, 0xA1, 0, 4, 0] + Four(producedId) + [0xB1, 0] + Two(|answer| + 2) + Two(q.count) + answer))))
  {
    var c := ExplicitReplies.ReplyCpf(q.c, q.count, producedId);
    assert NoFurtherItems(c);
    ConnectedPacket(q.answer.value, c);
    HeadIs(q.header, |Answer(q.answer.value)| + 22, 0);
    assert Zeros(6) == [0, 0, 0, 0, 0, 0];
  }

  // ----- socket address items -----

  /** Family and port as they stand in memory, then the address and eight octets of zero. */
  function Socket(s: Sockaddr): seq<octet> {
    Two(s.length) + [0, 2] + Two(s.port) + Four(s.address) + [0, 0, 0, 0, 0, 0, 0, 0]
  }

  lemma SocketIs(s: Sockaddr)
    ensures SockaddrOctets(s) == Two(s.typeId) + Socket(s)
  {
    FourIs(s.address);
    assert Zeros(8) == [0, 0, 0, 0, 0, 0, 0, 0];
    var (a, b, c, d, e, f) := (Two(s.typeId), Two(s.length), Two(0x0200), Two(s.port), Four(s.address), Zeros(8));
    assert a + b + c + d + e + f == a + (b + c + d + e + f);
  }

  /** Two socket address items: the one of O->T, of type 0x8000, goes first, the one of T->O, of type
      0x8001, behind it, in whatever order they are held. */
  lemma SocketItemsLayout(c: Cpf)
    requires Items(c) == 2 && c.item0.typeId != c.item1.typeId
    ensures var (o, t) := if c.item0.typeId == 0x8000 then (c.item0, c.item1) else (c.item1, c.item0);
      && o.typeId == 0x8000 && t.typeId == 0x8001
      && ItemsOctets(c) == [0x00, 0x80] + Socket(o) + ([0x01, 0x80] + Socket(t))
  {
    SocketIs(c.item0);
    SocketIs(c.item1);
  }

  // ----- I/O frames -----

  /** The count that goes out in a class 1 frame: one more than the last if the data are new. */
  function NextCount(last: uint16, changed: bool): uint16 {
    if changed then (last + 1) % 0x1_0000 else last
  }

  /** The payload of a frame: in class 1 the count, then the run/idle word unless there are no data. */
  function Contents(transport: nat, count: uint16, runIdle: Option<uint32>, assembly: seq<octet>): seq<octet> {
    var data := if runIdle.Some? && assembly != [] then Four(runIdle.value) + assembly else assembly;
    if transport == 1 then Two(count) + data else data
  }

  lemma ContentsAre(transport: nat, count: uint16, runIdle: Option<uint32>, assembly: seq<octet>)
    ensures ItemPayload(transport, count, runIdle, assembly) == Contents(transport, count, runIdle, assembly)
  {
    if runIdle.Some? {
      FourIs(runIdle.value);
    }
  }

  /** A whole frame sent after k: in class 0 a connection address, in the others a sequenced address
      with the next sequence number; then type 0x00B1 with the payload. */
  lemma FrameLayout(transport: nat, connectionId: uint32, k: Counters, changed: bool, runIdle: Option<uint32>,
                    assembly: seq<octet>, mine: Cpf)
    requires |assembly| + 6 < 0x1_0000
    ensures var sent := Sent(k, changed);
      var payload := ItemPayload(transport, sent.producing, runIdle, assembly);
      var contents := Contents(transport, NextCount(k.producing, changed), runIdle, assembly);
      Frame(SentCpf(transport, connectionId, sent.eipProducing, payload, mine), payload) ==
        (if transport == 0 then [2, 0, 0xA1, 0, 4, 0] + Four(connectionId)
         else [2, 0, 0x02, 0x80, 8, 0] + Four(connectionId) + Four((k.eipProducing + 1) % 0x1_0000_0000))
          + [0xB1, 0] + Two(|contents|) + contents
  {
    var (sent, count) := (Sent(k, changed), NextCount(k.producing, changed));
    assert sent.producing == count && sent.eipProducing == (k.eipProducing + 1) % 0x1_0000_0000;
    ContentsAre(transport, count, runIdle, assembly);
    var contents := Contents(transport, count, runIdle, assembly);
    FrameOctets(SentCpf(transport, connectionId, sent.eipProducing, contents, mine), contents);
  }

  lemma FrameOctets(c: Cpf, contents: seq<octet>)
    requires c.itemCount == 2 && c.addressType in {CONNECTION_ADDRESS, SEQUENCED_ADDRESS}
    requires c.dataType == CONNECTED_DATA && |contents| < 0x1_0000
    ensures Frame(c, contents) ==
      (if c.addressType == CONNECTION_ADDRESS then [2, 0, 0xA1, 0, 4, 0] + Four(c.connectionId)
       else [2, 0, 0x02, 0x80, 8, 0] + Four(c.connectionId) + Four(c.sequence))
        + [0xB1, 0] + Two(|contents|) + contents
  {
    FourIs(c.connectionId);
    FourIs(c.sequence);
  }

  /** The first two octets of the payload of a class 1 frame are the last count plus 1 modulo 2^16 if the
      data are new, and the last count otherwise. */
  lemma CountInFrame(connectionId: uint32, k: Counters, changed: bool, runIdle: Option<uint32>, assembly: seq<octet>,
                     mine: Cpf)
    requires |assembly| + 6 < 0x1_0000
    ensures var sent := Sent(k, changed);
      var payload := ItemPayload(1, sent.producing, runIdle, assembly);
      var frame := Frame(SentCpf(1, connectionId, sent.eipProducing, payload, mine), payload);
      && |frame| >= 20
      && frame[18] as int + 256 * frame[19] as int == if changed then (k.producing + 1) % 0x1_0000 else k.producing
  {
    FrameLayout(1, connectionId, k, changed, runIdle, assembly, mine);
    CountAt18(connectionId, (k.eipProducing + 1) % 0x1_0000_0000, NextCount(k.producing, changed), runIdle, assembly);
  }

  lemma CountAt18(connectionId: uint32, sequence: uint32, count: uint16, runIdle: Option<uint32>,
                  assembly: seq<octet>)
    requires |assembly| + 6 < 0x1_0000
    ensures var contents := Contents(1, count, runIdle, assembly);
      var frame := [2, 0, 0x02, 0x80, 8, 0] + Four(connectionId) + Four(sequence) + [0xB1, 0] + Two(|contents|)
        + contents;
      |frame| >= 20 && frame[18] as int + 256 * frame[19] as int == count
  {}

  // ----- which packets are accepted -----

  /** The octets of an address item behind its head: an id if there is room for one, and a sequence number
      only if the item is exactly as long as both. */
  function AddressRoom(addressLength: uint16): nat {
    if addressLength < 4 then 0 else if addressLength == 8 then 8 else 4
  }

  /** Where the data item of a packet starts. */
  function DataAt(data: seq<octet>): (at: nat)
    requires |data| >= SLACK
    ensures 6 <= at <= 14
  {
    6 + AddressRoom(Get16(data[4..]))
  }

  lemma FrontAt(data: seq<octet>, prior: Cpf)
    requires |data| >= SLACK && Get16(data) >= 1
    ensures var (at, p) := (DataAt(data), ParseFront(data, prior));
      && p.rest == data[at..] && p.count == at && p.c.itemCount == Get16(data)
      && p.c.addressType == Get16(data[2..])
      && p.c.connectionId == (if at >= 10 then Get32(data[6..]) else prior.connectionId)
      && p.c.sequence == (if at == 14 then Get32(data[10..]) else prior.sequence)
  {
    assert data[2..][2..] == data[4..] && data[2..][4..] == data[6..];
    assert data[2..][8..] == data[10..] && data[2..][12..] == data[14..];
  }

  /** A packet of two items is accepted exactly if its announced length is that of its items. One that
      announces more is accepted exactly if the length holds the first two; and without a data item the
      length has to be that of what is there. */
  lemma PacketAccepted(data: seq<octet>, length: nat, prior: Cpf)
    requires |data| >= length + SLACK
    ensures var (items, at) := (Get16(data), DataAt(data));
      var end := at + 4 + Get16(data[at + 2..]);
      Parse(data, length, prior).Some? <==>
        if items == 0 then length == 2
        else if items == 1 then length == at
        else if items == 2 then length == end
        else length >= end
  {
    if Get16(data) >= 1 {
      FrontAt(data, prior);
      var at := DataAt(data);
      assert data[at..][2..] == data[at + 2..];
    }
  }

  /** What a packet of two items says: each field where it stands, and what it does not have as it was. */
  lemma PacketSays(data: seq<octet>, length: nat, prior: Cpf)
    requires |data| >= length + SLACK && Get16(data) == 2 && Parse(data, length, prior).Some?
    ensures var (c, at) := (Parse(data, length, prior).value, DataAt(data));
      && c.addressType == Get16(data[2..])
      && c.connectionId == (if at >= 10 then Get32(data[6..]) else prior.connectionId)
      && c.sequence == (if at == 14 then Get32(data[10..]) else prior.sequence)
      && c.dataType == Get16(data[at..]) && c.dataLength == Get16(data[at + 2..]) == length - at - 4
      && c.data == data[at + 4..length]
  {
    FrontAt(data, prior);
    PacketAccepted(data, length, prior);
    var (at, p) := (DataAt(data), ParseFront(data, prior));
    assert p.rest[2..] == data[at + 2..];
    assert p.rest[4..4 + Get16(data[at + 2..])] == data[at + 4..length];
  }
}
