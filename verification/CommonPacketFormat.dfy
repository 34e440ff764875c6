/** The Common Packet Format: assembling a message and taking one apart. */
module CommonPacketFormat {
  import opened Connections
  import opened Wire
  import opened Widths

  const NULL_ADDRESS: uint16 := 0x0000
  const CONNECTION_ADDRESS: uint16 := 0x00A1
  const CONNECTED_DATA: uint16 := 0x00B1
  const UNCONNECTED_DATA: uint16 := 0x00B2
  const SOCKADDR_O_TO_T: uint16 := 0x8000
  const SOCKADDR_T_TO_O: uint16 := 0x8001
  const SEQUENCED_ADDRESS: uint16 := 0x8002

  /** AF_INET in network byte order, read on a little-endian host. */
  const FAMILY: uint16 := 0x0200

  datatype Sockaddr = Sockaddr(typeId: uint16, length: uint16, family: uint16, port: uint16, address: uint32,
    zeros: seq<octet>)

  /** The one structure that packets are parsed into and assembled from. */
  datatype Cpf = Cpf(
    itemCount: uint16,
    addressType: uint16, addressLength: uint16, connectionId: uint32, sequence: uint32,
    dataType: uint16, dataLength: uint16, data: seq<octet>,
    item0: Sockaddr, item1: Sockaddr)

  datatype Response = Response(
    replyService: octet, reserved: octet, generalStatus: octet,
    statusSize: octet, status0: uint16, status1: uint16,
    data: seq<octet>)

  // ----- assembling -----

  predicate KnownAddress(c: Cpf) {
    c.addressType in {NULL_ADDRESS, CONNECTION_ADDRESS, SEQUENCED_ADDRESS}
  }

  /** Type id and length, which every item starts with. */
  function ItemHead(typeId: uint16, length: uint16): (r: seq<octet>)
    ensures |r| == 4
  {
    Le16(typeId) + Le16(length)
  }

  function AddressOctets(c: Cpf): seq<octet> {
    if c.addressType == NULL_ADDRESS then ItemHead(NULL_ADDRESS, 0)
    else if c.addressType == CONNECTION_ADDRESS then ItemHead(CONNECTION_ADDRESS, 4) + Le32(c.connectionId)
    else ItemHead(SEQUENCED_ADDRESS, 8) + Le32(c.connectionId) + Le32(c.sequence)
  }

  /** At most two additional status words are written, whatever their count says. */
  function StatusOctets(r: Response): seq<octet> {
    StatusWords(r, r.statusSize)
  }

  function StatusWords(r: Response, n: nat): (s: seq<octet>)
    ensures |s| == 2 * (if n < 2 then n else 2)
  {
    if n == 0 then [] else if n == 1 then Le16(r.status0) else Le16(r.status0) + Le16(r.status1)
  }

  function HeadOctets(r: Response): seq<octet> {
    [r.replyService, r.reserved, r.generalStatus, r.statusSize]
  }

  function ResponseOctets(r: Response): seq<octet> {
    HeadOctets(r) + StatusOctets(r) + r.data
  }

  /** The length field of the data item of a response. */
  function ResponseLength(r: Response, connected: bool): uint16 {
    (|r.data| + 4 + (if connected then 2 else 0) + 2 * r.statusSize) % UINT16
  }

  /** What the data item of a response carries. */
  function Payload(r: Response, c: Cpf): seq<octet> {
    SequenceOctets(c) + ResponseOctets(r)
  }

  function SequenceOctets(c: Cpf): seq<octet> {
    if c.dataType == CONNECTED_DATA then Le16(c.sequence % UINT16) else []
  }

  predicate CarriesData(c: Cpf) {
    c.dataType == CONNECTED_DATA || c.dataType == UNCONNECTED_DATA
  }

  function DataOctets(r: Option<Response>, c: Cpf): seq<octet>
    requires c.dataLength <= |c.data|
  {
    if !CarriesData(c) then []
    else match r
      case Some(response) =>
        ItemHead(c.dataType, ResponseLength(response, c.dataType == CONNECTED_DATA)) + Payload(response, c)
      case None => ItemHead(c.dataType, c.dataLength) + c.data[..c.dataLength]
  }

  function SockaddrOctets(s: Sockaddr): seq<octet> {
    Le16(s.typeId) + Le16(s.length) + Le16(FAMILY) + Le16(s.port) + Le32(s.address) + Zeros(8)
  }

  /** The first of the two items with a type id, as it is written. */
  function ItemOctets(c: Cpf, typeId: uint16): seq<octet> {
    if c.item0.typeId == typeId then SockaddrOctets(c.item0)
    else if c.item1.typeId == typeId then SockaddrOctets(c.item1)
    else []
  }

  /** The O->T item goes first, whatever order the two are held in. */
  function ItemsOctets(c: Cpf): seq<octet> {
    ItemOctets(c, SOCKADDR_O_TO_T) + ItemOctets(c, SOCKADDR_T_TO_O)
  }

  /** Everything behind the interface handle and timeout. */
  function PacketOctets(r: Option<Response>, c: Cpf): seq<octet>
    requires c.dataLength <= |c.data|
  {
    Le16(c.itemCount) + AddressOctets(c) + DataOctets(r, c) + ItemsOctets(c)
  }

  function PrefixOctets(r: Option<Response>): seq<octet> {
    if r.Some? then Zeros(6) else []
  }

  // ----- parsing -----

  /** A parse in progress: the structure so far, the octets ahead, the length counted so far. */
  datatype Progress = Progress(c: Cpf, rest: seq<octet>, count: nat)

  function ParseAddress(data: seq<octet>, c: Cpf, count: nat): Progress
    requires |data| >= 12
  {
    var length := Get16(data[2..]);
    var c1 := c.(addressType := Get16(data), addressLength := length);
    if length < 4 then Progress(c1, data[4..], count + 4)
    else
      var c2 := c1.(connectionId := Get32(data[4..]));
      if length != 8 then Progress(c2, data[8..], count + 8)
      else Progress(c2.(sequence := Get32(data[8..])), data[12..], count + 12)
  }

  /** One socket address item; anything else is marked as not set and not skipped, though its type
      id is counted. */
  function ParseItem(data: seq<octet>, prior: Sockaddr): (Sockaddr, seq<octet>, nat)
    requires |data| >= 20
  {
    var typeId := Get16(data);
    if typeId == SOCKADDR_O_TO_T || typeId == SOCKADDR_T_TO_O
    then (Sockaddr(typeId, Get16(data[2..]), Get16(data[4..]), Get16(data[6..]), Get32(data[8..]), data[12..20]),
      data[20..], 20)
    else (prior.(typeId := 0), data, 2)
  }

  function ParseItems(p: Progress): Progress
    requires |p.rest| >= 40
  {
    var c := p.c;
    if c.itemCount < 3 then p
    else
      var (i0, rest0, n0) := ParseItem(p.rest, c.item0);
      var p0 := Progress(c.(item0 := i0), rest0, p.count + n0);
      if c.itemCount < 4 then p0
      else
        var (i1, rest1, n1) := ParseItem(rest0, c.item1);
        Progress(p0.c.(item1 := i1), rest1, p0.count + n1)
  }

  /** The data item, if the announced length holds it. */
  function ParseData(p: Progress, length: nat): Option<Progress>
    requires |p.rest| >= 4 && |p.rest| + p.count >= length
  {
    var dataLength := Get16(p.rest[2..]);
    if length < p.count + 4 + dataLength then None
    else
      var c := p.c.(dataType := Get16(p.rest), dataLength := dataLength, data := p.rest[4..4 + dataLength]);
      Some(Progress(c, p.rest[4 + dataLength..], p.count + 4 + dataLength))
  }

  /** Octets that the parser may read beyond the announced length. */
  const SLACK: nat := 60

  function Unset(c: Cpf): Cpf {
    c.(item0 := c.item0.(typeId := 0), item1 := c.item1.(typeId := 0))
  }

  /** Items that were not announced count as not received. */
  function Trimmed(c: Cpf): Cpf {
    var c1 := if c.itemCount < 4 then c.(item1 := c.item1.(typeId := 0)) else c;
    if c.itemCount < 3 then c1.(item0 := c1.item0.(typeId := 0)) else c1
  }

  /** The item count and the address item. */
  function ParseFront(data: seq<octet>, prior: Cpf): (p: Progress)
    requires |data| >= 14
    ensures p.c.itemCount == Get16(data) && |p.rest| + p.count == |data|
  {
    var c := Unset(prior).(itemCount := Get16(data));
    if c.itemCount >= 1 then ParseAddress(data[2..], c, 2) else Progress(c, data[2..], 2)
  }

  /** A length that does not add up is forgiven when further items were announced. */
  function Concluded(c: Cpf, count: nat, length: nat): Option<Cpf> {
    if count == length || c.itemCount > 2 then Some(Trimmed(c)) else None
  }

  /** Fields that a packet does not have keep what `prior` held. */
  function Parse(data: seq<octet>, length: nat, prior: Cpf): Option<Cpf>
    requires |data| >= length + SLACK
  {
    var p := ParseFront(data, prior);
    if p.c.itemCount < 2 then Concluded(p.c, p.count, length)
    else match ParseData(p, length)
      case None => None
      case Some(q) => Concluded(ParseItems(q).c, ParseItems(q).count, length)
  }

  /** At most two items are looked at, however many are announced. */
  method ReadItems(c0: Cpf, data0: seq<octet>, count0: nat) returns (c: Cpf, count: nat)
    requires |data0| >= 40 && c0.itemCount >= 2
    ensures c == ParseItems(Progress(c0, data0, count0)).c && count == ParseItems(Progress(c0, data0, count0)).count
  {
    c, count := c0, count0;
    var data := data0;
    var items := if c.itemCount - 2 > 2 then 2 else c.itemCount - 2;
    ghost var (i0, rest0, n0) := ParseItem(data0, c0.item0);
    var j := 0;
    while j < items
      invariant 0 <= j <= items
      invariant j == 0 ==> c == c0 && data == data0 && count == count0
      invariant j == 1 ==> c == c0.(item0 := i0) && data == rest0 && count == count0 + n0
      invariant j == 2 ==> Progress(c, data, count) == ParseItems(Progress(c0, data0, count0))
    {
      var (item, rest, n) := ParseItem(data, if j == 0 then c.item0 else c.item1);
      c := if j == 0 then c.(item0 := item) else c.(item1 := item);
      data, count := rest, count + n;
      j := j + 1;
    }
  }

  method ReadFront(input: seq<octet>, prior: Cpf) returns (c: Cpf, data: seq<octet>, count: nat)
    requires |input| >= 14
    ensures Progress(c, data, count) == ParseFront(input, prior)
  {
    c := Unset(prior).(itemCount := Get16(input));
    data, count := input[2..], 2;
    if c.itemCount >= 1 {
      c := c.(addressType := Get16(data), addressLength := Get16(data[2..]));
      data, count := data[4..], count + 4;
      if c.addressLength >= 4 {
        c := c.(connectionId := Get32(data));
        data, count := data[4..], count + 4;
      }
      if c.addressLength == 8 {
        c := c.(sequence := Get32(data));
        data, count := data[4..], count + 4;
      }
    }
  }

  method Conclude(c0: Cpf, count: nat, length: nat) returns (r: Option<Cpf>)
    ensures r == Concluded(c0, count, length)
  {
    var c := c0;
    if c.itemCount < 4 {
      c := c.(item1 := c.item1.(typeId := 0));
      if c.itemCount < 3 {
        c := c.(item0 := c.item0.(typeId := 0));
      }
    }
    if count == length || c.itemCount > 2 {
      return Some(c);
    }
    return None;
  }

  /** The parser, reading field by field from a moving pointer. */
  method CreateCommonPacketFormatStructure(input: seq<octet>, length: nat, prior: Cpf) returns (r: Option<Cpf>)
    requires |input| >= length + SLACK
    ensures r == Parse(input, length, prior)
  {
    var c, data, count: nat := ReadFront(input, prior);
    if c.itemCount >= 2 {
      ghost var p := Progress(c, data, count);
      var dataLength: nat := Get16(data[2..]);
      if length < count + 4 + dataLength {
        assert ParseData(p, length) == None;
        return None;
      }
      c := c.(dataType := Get16(data), dataLength := dataLength, data := data[4..4 + dataLength]);
      data, count := data[4 + dataLength..], count + 4 + dataLength;
      assert ParseData(p, length) == Some(Progress(c, data, count));
      c, count := ReadItems(c, data, count);
    }
    r := Conclude(c, count, length);
  }

  // ----- the assembler, field by field -----

  method EncodeAddressItem(c: Cpf, message: ENIPMessage)
    requires message.Valid() && Fits(message.View(), |AddressOctets(c)|)
    modifies message, message.buffer
    ensures message.Valid() && message.View() == Appended(old(message.View()), AddressOctets(c))
  {
    ghost var m := message.View();
    if c.addressType == NULL_ADDRESS {
      message.AddInt(NULL_ADDRESS);
      message.AddInt(0);
      AppendedTwice(m, Le16(NULL_ADDRESS), Le16(0));
    } else {
      var sequenced := c.addressType != CONNECTION_ADDRESS;
      var length := if sequenced then 8 else 4;
      message.AddInt(if sequenced then SEQUENCED_ADDRESS else CONNECTION_ADDRESS);
      message.AddInt(length);
      ghost var head := Le16(if sequenced then SEQUENCED_ADDRESS else CONNECTION_ADDRESS) + Le16(length);
      AppendedTwice(m, head[..2], Le16(length));
      message.AddDint(c.connectionId);
      AppendedTwice(m, head, Le32(c.connectionId));
      if sequenced {
        message.AddDint(c.sequence);
        AppendedTwice(m, head + Le32(c.connectionId), Le32(c.sequence));
      }
    }
  }

  method EncodeExtendedStatusDataItems(r: Response, message: ENIPMessage)
    requires message.Valid() && Fits(message.View(), |StatusOctets(r)|)
    modifies message, message.buffer
    ensures message.Valid() && message.View() == Appended(old(message.View()), StatusOctets(r))
  {
    ghost var m := message.View();
    var i := 0;
    AppendedNothing(m);
    while i < r.statusSize && i < 2
      invariant 0 <= i <= r.statusSize && i <= 2
      invariant message.Valid() && message.View() == Appended(m, StatusWords(r, i))
    {
      var word := if i == 0 then r.status0 else r.status1;
      message.AddInt(word);
      AppendedTwice(m, StatusWords(r, i), Le16(word));
      assert StatusWords(r, i) + Le16(word) == StatusWords(r, i + 1);
      i := i + 1;
    }
  }

  method EncodeStatus(r: Response, message: ENIPMessage)
    requires message.Valid() && Fits(message.View(), 4)
    modifies message, message.buffer
    ensures message.Valid() && message.View() == Appended(old(message.View()), HeadOctets(r))
  {
    ghost var m := message.View();
    message.AddSint(r.replyService);
    message.AddSint(r.reserved);
    AppendedTwice(m, [r.replyService], [r.reserved]);
    message.AddSint(r.generalStatus);
    AppendedTwice(m, [r.replyService] + [r.reserved], [r.generalStatus]);
    message.AddSint(r.statusSize);
    AppendedTwice(m, [r.replyService] + [r.reserved] + [r.generalStatus], [r.statusSize]);
    assert [r.replyService] + [r.reserved] + [r.generalStatus] + [r.statusSize] == HeadOctets(r);
  }

  method EncodeResponse(r: Response, message: ENIPMessage)
    requires message.Valid() && Fits(message.View(), |ResponseOctets(r)|)
    modifies message, message.buffer
    ensures message.Valid() && message.View() == Appended(old(message.View()), ResponseOctets(r))
  {
    ghost var m := message.View();
    EncodeStatus(r, message);
    EncodeExtendedStatusDataItems(r, message);
    AppendedTwice(m, HeadOctets(r), StatusOctets(r));
    message.AddOctets(r.data);
    AppendedTwice(m, HeadOctets(r) + StatusOctets(r), r.data);
  }

  method EncodeResponseItem(r: Response, c: Cpf, message: ENIPMessage)
    requires CarriesData(c)
    requires message.Valid() && Fits(message.View(), 4 + |Payload(r, c)|)
    modifies message, message.buffer
    ensures message.Valid()
    ensures message.View() == Appended(old(message.View()),
      ItemHead(c.dataType, ResponseLength(r, c.dataType == CONNECTED_DATA)) + Payload(r, c))
  {
    ghost var m := message.View();
    var connected := c.dataType == CONNECTED_DATA;
    var length := ResponseLength(r, connected);
    message.AddInt(c.dataType);
    message.AddInt(length);
    AppendedTwice(m, Le16(c.dataType), Le16(length));
    ghost var m1 := message.View();
    if connected {
      message.AddInt(c.sequence % UINT16);
    } else {
      AppendedNothing(m1);
    }
    EncodeResponse(r, message);
    AppendedTwice(m1, SequenceOctets(c), ResponseOctets(r));
    AppendedTwice(m, ItemHead(c.dataType, length), Payload(r, c));
  }

  method EncodeDataItem(r: Option<Response>, c: Cpf, message: ENIPMessage)
    requires c.dataLength <= |c.data| && CarriesData(c)
    requires message.Valid() && Fits(message.View(), |DataOctets(r, c)|)
    modifies message, message.buffer
    ensures message.Valid() && message.View() == Appended(old(message.View()), DataOctets(r, c))
  {
    ghost var m := message.View();
    if r.Some? {
      EncodeResponseItem(r.value, c, message);
    } else {
      message.AddInt(c.dataType);
      message.AddInt(c.dataLength);
      AppendedTwice(m, Le16(c.dataType), Le16(c.dataLength));
      message.AddOctets(c.data[..c.dataLength]);
      AppendedTwice(m, ItemHead(c.dataType, c.dataLength), c.data[..c.dataLength]);
    }
  }

  method EncodeSockaddr(s: Sockaddr, message: ENIPMessage)
    requires message.Valid() && Fits(message.View(), 20)
    modifies message, message.buffer
    ensures message.Valid() && message.View() == Appended(old(message.View()), SockaddrOctets(s))
  {
    ghost var m := message.View();
    message.AddInt(s.typeId);
    message.AddInt(s.length);
    AppendedTwice(m, Le16(s.typeId), Le16(s.length));
    message.AddInt(FAMILY);
    ghost var head := Le16(s.typeId) + Le16(s.length);
    AppendedTwice(m, head, Le16(FAMILY));
    message.AddInt(s.port);
    AppendedTwice(m, head + Le16(FAMILY), Le16(s.port));
    message.AddDint(s.address);
    AppendedTwice(m, head + Le16(FAMILY) + Le16(s.port), Le32(s.address));
    message.AddOctets(Zeros(8));
    AppendedTwice(m, head + Le16(FAMILY) + Le16(s.port) + Le32(s.address), Zeros(8));
  }

  /** All that is written: after an unknown address item nothing follows the item count. */
  function Assembled(r: Option<Response>, c: Cpf): seq<octet>
    requires c.dataLength <= |c.data|
  {
    PrefixOctets(r) + (if KnownAddress(c) then PacketOctets(r, c) else Le16(c.itemCount))
  }

  method AssembleLinearMessage(r: Option<Response>, c: Cpf, message: ENIPMessage) returns (ok: bool)
    requires c.dataLength <= |c.data|
    requires message.Valid() && Fits(message.View(), |Assembled(r, c)|)
    modifies message, message.buffer
    ensures ok == KnownAddress(c)
    ensures message.Valid() && message.View() == Appended(old(message.View()), Assembled(r, c))
  {
    ghost var m := message.View();
    if r.Some? {
      message.AddDint(0);
      message.AddInt(0);
      AppendedTwice(m, Le32(0), Le16(0));
      assert Le32(0) + Le16(0) == Zeros(6);
    } else {
      AppendedNothing(m);
    }
    ghost var m1 := message.View();
    message.AddInt(c.itemCount);
    if !KnownAddress(c) {
      AppendedTwice(m, PrefixOctets(r), Le16(c.itemCount));
      return false;
    }
    EncodeAddressItem(c, message);
    ghost var done := Le16(c.itemCount) + AddressOctets(c);
    AppendedTwice(m1, Le16(c.itemCount), AddressOctets(c));
    if CarriesData(c) {
      EncodeDataItem(r, c, message);
    } else {
      AppendedNothing(message.View());
    }
    AppendedTwice(m1, done, DataOctets(r, c));
    EncodeItems(c, message);
    AppendedTwice(m1, done + DataOctets(r, c), ItemsOctets(c));
    AppendedTwice(m, PrefixOctets(r), PacketOctets(r, c));
    return true;
  }

  method EncodeItems(c: Cpf, message: ENIPMessage)
    requires message.Valid() && Fits(message.View(), |ItemsOctets(c)|)
    modifies message, message.buffer
    ensures message.Valid() && message.View() == Appended(old(message.View()), ItemsOctets(c))
  {
    ghost var m := message.View();
    ghost var (first, second) := (ItemOctets(c, SOCKADDR_O_TO_T), ItemOctets(c, SOCKADDR_T_TO_O));
    AppendedNothing(m);
    var typeId: uint16 := SOCKADDR_O_TO_T;
    while typeId <= SOCKADDR_T_TO_O
      invariant SOCKADDR_O_TO_T <= typeId <= SOCKADDR_T_TO_O + 1
      invariant message.Valid() && message.View() == Appended(m,
        if typeId == SOCKADDR_O_TO_T then [] else if typeId == SOCKADDR_T_TO_O then first else first + second)
    {
      ghost var done := if typeId == SOCKADDR_O_TO_T then [] else first;
      var j := 0;
      while j < 2
        invariant 0 <= j <= 2
        invariant j >= 1 ==> c.item0.typeId != typeId
        invariant j == 2 ==> c.item1.typeId != typeId
        invariant message.Valid() && message.View() == Appended(m, done)
      {
        var item := if j == 0 then c.item0 else c.item1;
        if item.typeId == typeId {
          break;
        }
        j := j + 1;
      }
      if j < 2 {
        EncodeSockaddr(if j == 0 then c.item0 else c.item1, message);
      }
      if j < 2 {
        AppendedTwice(m, done, ItemOctets(c, typeId));
      }
      assert [] + first == first && done + [] == done;
      typeId := typeId + 1;
    }
  }

  // ----- what is parsed is what was assembled -----

  predicate Carried(typeId: uint16) {
    typeId == SOCKADDR_O_TO_T || typeId == SOCKADDR_T_TO_O
  }

  function Items(c: Cpf): nat {
    (if Carried(c.item0.typeId) then 1 else 0) + (if Carried(c.item1.typeId) then 1 else 0)
  }

  /** An item count that matches, and at most one item of each kind. */
  predicate Consistent(c: Cpf) {
    && KnownAddress(c) && CarriesData(c)
    && c.itemCount == 2 + Items(c)
    && (Carried(c.item0.typeId) ==> c.item0.typeId != c.item1.typeId)
  }

  /** What the data item carries when it is written for a response, or as held. */
  function Body(r: Option<Response>, c: Cpf): seq<octet>
    requires c.dataLength <= |c.data|
  {
    match r
    case Some(response) => Payload(response, c)
    case None => c.data[..c.dataLength]
  }

  function Reread(s: Sockaddr): Sockaddr {
    s.(family := FAMILY, zeros := Zeros(8))
  }

  /** The items as they come back: the O->T item in front. */
  function RereadItems(c: Cpf, prior: Cpf): (Sockaddr, Sockaddr) {
    var (p0, p1) := (prior.item0.(typeId := 0), prior.item1.(typeId := 0));
    if Items(c) == 0 then (p0, p1)
    else if Items(c) == 1 then (Reread(if Carried(c.item0.typeId) then c.item0 else c.item1), p1)
    else if c.item0.typeId == SOCKADDR_O_TO_T then (Reread(c.item0), Reread(c.item1))
    else (Reread(c.item1), Reread(c.item0))
  }

  function AddressLength(c: Cpf): uint16 {
    if c.addressType == NULL_ADDRESS then 0 else if c.addressType == CONNECTION_ADDRESS then 4 else 8
  }

  /** The structure read back; ids that the packet does not carry keep what was held before. */
  function RereadCpf(c: Cpf, body: seq<octet>, prior: Cpf): Cpf
    requires |body| < 0x1_0000
  {
    var (i0, i1) := RereadItems(c, prior);
    Cpf(c.itemCount,
        c.addressType, AddressLength(c),
        if c.addressType == NULL_ADDRESS then prior.connectionId else c.connectionId,
        if c.addressType == SEQUENCED_ADDRESS then c.sequence else prior.sequence,
        c.dataType, |body|, body, i0, i1)
  }

  lemma HeadRead(typeId: uint16, length: uint16, rest: seq<octet>)
    ensures var data := ItemHead(typeId, length) + rest;
            Get16(data) == typeId && Get16(data[2..]) == length && data[4..] == rest
  {
    assert ItemHead(typeId, length) + rest == Le16(typeId) + (Le16(length) + rest);
    Read16(typeId, Le16(length) + rest);
    Read16(length, rest);
  }

  lemma AddressRead(c: Cpf, rest: seq<octet>, base: Cpf, count: nat)
    requires KnownAddress(c) && |rest| >= 12
    ensures ParseAddress(AddressOctets(c) + rest, base, count) == Progress(
      base.(addressType := c.addressType, addressLength := AddressLength(c),
            connectionId := if c.addressType == NULL_ADDRESS then base.connectionId else c.connectionId,
            sequence := if c.addressType == SEQUENCED_ADDRESS then c.sequence else base.sequence),
      rest, count + |AddressOctets(c)|)
  {
    var sequenced := c.addressType == SEQUENCED_ADDRESS;
    var rest1 := (if sequenced then Le32(c.sequence) else []) + rest;
    var rest2 := (if c.addressType == NULL_ADDRESS then [] else Le32(c.connectionId)) + rest1;
    var data := AddressOctets(c) + rest;
    assert data == ItemHead(c.addressType, AddressLength(c)) + rest2;
    HeadRead(c.addressType, AddressLength(c), rest2);
    if c.addressType != NULL_ADDRESS {
      Read32(c.connectionId, rest1);
      assert data[8..] == rest1;
    }
    if sequenced {
      Read32(c.sequence, rest);
      assert data[12..] == rest;
    }
  }

  lemma FrontRead(c: Cpf, rest: seq<octet>, prior: Cpf)
    requires KnownAddress(c) && |rest| >= 12 && c.itemCount >= 1
    ensures ParseFront(Le16(c.itemCount) + (AddressOctets(c) + rest), prior) == Progress(
      Unset(prior).(
        itemCount := c.itemCount, addressType := c.addressType, addressLength := AddressLength(c),
        connectionId := if c.addressType == NULL_ADDRESS then prior.connectionId else c.connectionId,
        sequence := if c.addressType == SEQUENCED_ADDRESS then c.sequence else prior.sequence),
      rest, 2 + |AddressOctets(c)|)
  {
    Read16(c.itemCount, AddressOctets(c) + rest);
    AddressRead(c, rest, Unset(prior).(itemCount := c.itemCount), 2);
  }

  lemma DataRead(typeId: uint16, body: seq<octet>, rest: seq<octet>, base: Cpf, count: nat, length: nat)
    requires |body| < 0x1_0000 && count + 4 + |body| <= length <= count + 4 + |body| + |rest|
    ensures ParseData(Progress(base, ItemHead(typeId, |body|) + (body + rest), count), length)
         == Some(Progress(base.(dataType := typeId, dataLength := |body|, data := body), rest, count + 4 + |body|))
  {
    var data := ItemHead(typeId, |body|) + (body + rest);
    HeadRead(typeId, |body|, body + rest);
    assert data[4..4 + |body|] == body && data[4 + |body|..] == rest;
  }

  lemma ItemRead(s: Sockaddr, rest: seq<octet>, prior: Sockaddr)
    requires Carried(s.typeId)
    ensures ParseItem(SockaddrOctets(s) + rest, prior) == (Reread(s), rest, 20)
  {
    var data := SockaddrOctets(s) + rest;
    var d8 := Le32(s.address) + (Zeros(8) + rest);
    var d6 := Le16(s.port) + d8;
    var d4 := Le16(FAMILY) + d6;
    var d2 := Le16(s.length) + d4;
    assert data == Le16(s.typeId) + d2;
    Read16(s.typeId, d2);
    Read16(s.length, d4);
    Read16(FAMILY, d6);
    Read16(s.port, d8);
    Read32(s.address, Zeros(8) + rest);
    assert data[2..] == d2 && data[4..] == d4 && data[6..] == d6 && data[8..] == d8;
    assert data[12..20] == Zeros(8) && data[20..] == rest;
  }

  lemma ItemsRead(c: Cpf, slack: seq<octet>, base: Cpf, count: nat)
    requires Consistent(c) && |slack| >= 40 && base.itemCount == c.itemCount
    ensures var q := ParseItems(Progress(base, ItemsOctets(c) + slack, count));
            var (i0, i1) := RereadItems(c, base);
            && q.count == count + |ItemsOctets(c)|
            && q.c == base.(item0 := if Items(c) >= 1 then i0 else base.item0, item1 := if Items(c) == 2 then i1
                 else base.item1)
  {
    var (first, second) := (ItemOctets(c, SOCKADDR_O_TO_T), ItemOctets(c, SOCKADDR_T_TO_O));
    if Items(c) == 1 {
      var s := if Carried(c.item0.typeId) then c.item0 else c.item1;
      assert ItemsOctets(c) == SockaddrOctets(s);
      ItemRead(s, slack, base.item0);
    } else if Items(c) == 2 {
      var (s, t) := if c.item0.typeId == SOCKADDR_O_TO_T then (c.item0, c.item1) else (c.item1, c.item0);
      assert ItemsOctets(c) + slack == SockaddrOctets(s) + (SockaddrOctets(t) + slack);
      ItemRead(s, SockaddrOctets(t) + slack, base.item0);
      ItemRead(t, slack, base.item1);
    }
  }

  lemma BodyAnnounced(r: Option<Response>, c: Cpf)
    requires c.dataLength <= |c.data| && CarriesData(c)
    requires r.Some? ==> r.value.statusSize <= 2 && |Payload(r.value, c)| < 0x1_0000
    ensures |Body(r, c)| < 0x1_0000 && DataOctets(r, c) == ItemHead(c.dataType, |Body(r, c)|) + Body(r, c)
  {
    if r.Some? {
      assert |Payload(r.value, c)| == ResponseLength(r.value, c.dataType == CONNECTED_DATA);
    }
  }

  lemma PacketSplit(r: Option<Response>, c: Cpf, slack: seq<octet>)
    requires c.dataLength <= |c.data| && CarriesData(c)
    requires r.Some? ==> r.value.statusSize <= 2 && |Payload(r.value, c)| < 0x1_0000
    ensures var body := Body(r, c);
            && |body| < 0x1_0000
            && PacketOctets(r, c) + slack
               == Le16(c.itemCount) + (AddressOctets(c) +
                 (ItemHead(c.dataType, |body|) + (body + (ItemsOctets(c) + slack))))
            && |PacketOctets(r, c)| == 2 + |AddressOctets(c)| + 4 + |body| + |ItemsOctets(c)|
  {
    var body := Body(r, c);
    var (address, items) := (AddressOctets(c), ItemsOctets(c));
    BodyAnnounced(r, c);
    Regroup(Le16(c.itemCount), address, ItemHead(c.dataType, |body|), body, items, slack);
  }

  lemma Regroup(a: seq<octet>, b: seq<octet>, c: seq<octet>, d: seq<octet>, e: seq<octet>, f: seq<octet>)
    ensures a + b + (c + d) + e + f == a + (b + (c + (d + (e + f))))
  {}

  /** The data item and the further items, read behind the address item. */
  lemma BackRead(c: Cpf, body: seq<octet>, slack: seq<octet>, base: Cpf, count: nat)
    requires Consistent(c) && |slack| >= SLACK && base.itemCount == c.itemCount && |body| < 0x1_0000
    ensures var length := count + 4 + |body| + |ItemsOctets(c)|;
      var q := ParseData(Progress(base, ItemHead(c.dataType, |body|) + (body + (ItemsOctets(c) + slack)), count),
        length);
      var (i0, i1) := RereadItems(c, base);
      && q.Some?
      && ParseItems(q.value).count == length
      && ParseItems(q.value).c == base.(
           dataType := c.dataType, dataLength := |body|, data := body,
           item0 := if Items(c) >= 1 then i0 else base.item0, item1 := if Items(c) == 2 then i1 else base.item1)
  {
    var length := count + 4 + |body| + |ItemsOctets(c)|;
    var rest := ItemsOctets(c) + slack;
    DataRead(c.dataType, body, rest, base, count, length);
    ItemsRead(c, slack, base.(dataType := c.dataType, dataLength := |body|, data := body), count + 4 + |body|);
  }

  /** A packet read back, whatever the structure held before and whatever lies behind the packet. */
  lemma PacketRoundTrip(r: Option<Response>, c: Cpf, slack: seq<octet>, prior: Cpf)
    requires c.dataLength <= |c.data| && Consistent(c)
    requires r.Some? ==> r.value.statusSize <= 2 && |Payload(r.value, c)| < 0x1_0000
    requires |slack| >= SLACK
    ensures Parse(PacketOctets(r, c) + slack, |PacketOctets(r, c)|, prior) == Some(RereadCpf(c, Body(r, c), prior))
  {
    var packet := PacketOctets(r, c);
    var body := Body(r, c);
    PacketSplit(r, c, slack);
    FrontRead(c, ItemHead(c.dataType, |body|) + (body + (ItemsOctets(c) + slack)), prior);
    var p := ParseFront(packet + slack, prior);
    BackRead(c, body, slack, p.c, p.count);
    var z := ParseItems(ParseData(p, |packet|).value);
    assert Trimmed(z.c) == RereadCpf(c, body, prior);
  }

  lemma LengthRead(data: seq<octet>, length: nat, prior: Cpf)
    requires |data| >= length + SLACK && Get16(data) >= 2
    ensures var r := Parse(data, length, prior);
            r.Some? ==> r.value.dataLength == Get16(ParseFront(data, prior).rest[2..])
  {}

  /** The octets of a response packet up to its data item, whose length field counts every status word. */
  lemma AnnouncedLength(r: Response, c: Cpf, slack: seq<octet>, prior: Cpf)
    requires Consistent(c) && c.dataLength <= |c.data| && |slack| >= SLACK
    ensures Get16(ParseFront(PacketOctets(Some(r), c) + slack, prior).rest[2..]) ==
      ResponseLength(r, c.dataType == CONNECTED_DATA)
    ensures Get16(PacketOctets(Some(r), c) + slack) == c.itemCount
  {
    var (body, items) := (Payload(r, c), ItemsOctets(c));
    var announced := ResponseLength(r, c.dataType == CONNECTED_DATA);
    var rest := ItemHead(c.dataType, announced) + (body + (items + slack));
    Regroup(Le16(c.itemCount), AddressOctets(c), ItemHead(c.dataType, announced), body, items, slack);
    FrontRead(c, rest, prior);
    HeadRead(c.dataType, announced, body + (items + slack));
  }

  lemma AnnouncedTooMuch(r: Response, c: Cpf)
    requires CarriesData(c) && |r.data| + 6 + 2 * r.statusSize < 0x1_0000 && r.statusSize > 2
    ensures |Payload(r, c)| < ResponseLength(r, c.dataType == CONNECTED_DATA)
  {
    assert |StatusOctets(r)| == 4;
    assert ResponseLength(r, c.dataType == CONNECTED_DATA) == |r.data| + 4 + |SequenceOctets(c)| + 2 * r.statusSize;
  }

  /** The announced length counts every status word, but two at most are written: a response comes
      back exactly when it has no more. */
  lemma ResponseRoundTrip(r: Response, c: Cpf, slack: seq<octet>, prior: Cpf)
    requires c.dataLength <= |c.data| && Consistent(c)
    requires |r.data| + 6 + 2 * r.statusSize < 0x1_0000
    requires |slack| >= SLACK
    ensures var packet := PacketOctets(Some(r), c);
            Parse(packet + slack, |packet|, prior) == Some(RereadCpf(c, Payload(r, c), prior)) <==> r.statusSize <= 2
  {
    if r.statusSize <= 2 {
      PacketRoundTrip(Some(r), c, slack, prior);
    } else {
      var packet := PacketOctets(Some(r), c);
      AnnouncedLength(r, c, slack, prior);
      LengthRead(packet + slack, |packet|, prior);
      AnnouncedTooMuch(r, c);
    }
  }
}
