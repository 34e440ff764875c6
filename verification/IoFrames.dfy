/** I/O data frames: what a connection sends and what a peer delivers from it. */
module IoFrames {
  import opened CommonPacketFormat
  import opened Connections
  import opened Wire
  import opened Widths

  /** The state of a connection that sending and receiving touch. */
  datatype Counters = Counters(eipProducing: uint32, producing: uint16, consuming: uint16)

  const CLASS0: nat := 0
  const CLASS1: nat := 1

  /** The data item: the class 1 count, the run/idle word unless the data is a heartbeat, the data. */
  function ItemPayload(transport: nat, count: uint16, runIdle: Option<uint32>, assembly: seq<octet>): seq<octet> {
    CountOctets(transport, count) + (RunIdleOctets(runIdle, assembly) + assembly)
  }

  function CountOctets(transport: nat, count: uint16): seq<octet> {
    if transport == CLASS1 then Le16(count) else []
  }

  function RunIdleOctets(runIdle: Option<uint32>, assembly: seq<octet>): seq<octet> {
    if runIdle.Some? && assembly != [] then Le32(runIdle.value) else []
  }

  /** The structure that is assembled, with the data item still empty. */
  function Prepared(transport: nat, connectionId: uint32, sequence: uint32, prior: Cpf): Cpf {
    prior.(
      itemCount := 2,
      addressType := if transport != CLASS0 then SEQUENCED_ADDRESS else CONNECTION_ADDRESS,
      addressLength := if transport != CLASS0 then 8 else 4,
      connectionId := connectionId,
      sequence := if transport != CLASS0 then sequence else prior.sequence,
      dataType := CONNECTED_DATA, dataLength := 0,
      item0 := prior.item0.(typeId := 0), item1 := prior.item1.(typeId := 0))
  }

  /** The frame: an assembled structure with the payload as its data item. */
  function Frame(c: Cpf, payload: seq<octet>): seq<octet> {
    Le16(c.itemCount) + AddressOctets(c) + ItemHead(c.dataType, |payload| % UINT16) + payload
  }

  class IoConnection {
    const transport: nat
    const producedId: uint32
    var eipProducing: uint32
    var producing: uint16
    var consuming: uint16

    ghost function View(): Counters
      reads this
    {
      Counters(eipProducing, producing, consuming)
    }

    constructor (transport: nat, producedId: uint32)
      ensures this.transport == transport && this.producedId == producedId && View() == Counters(0, 0, 0)
    {
      this.transport, this.producedId := transport, producedId;
      eipProducing, producing, consuming := 0, 0, 0;
    }

    /** Sends the assembly data; `changed` is the application's word that they are new. */
    method SendConnectedData(assembly: seq<octet>, changed: bool, runIdle: Option<uint32>, prior: Cpf,
                             message: ENIPMessage)
      returns (c: Cpf)
      requires |assembly| < 0x1_0000
      requires message.Valid() && message.View().written == [] && message.used == 0 &&
        Fits(message.View(), 24 + |assembly|)
      modifies this, message, message.buffer
      ensures View() == Sent(old(View()), changed)
      ensures eipProducing == (old(eipProducing) + 1) % 0x1_0000_0000
      ensures producing == if changed then (old(producing) + 1) % 0x1_0000 else old(producing)
      ensures var payload := ItemPayload(transport, producing, runIdle, assembly);
        && c == Prepared(transport, producedId, eipProducing, prior).(dataLength := |payload| % UINT16)
        && message.Valid() && message.View().written == Frame(c, payload) && message.used == |Frame(c, payload)|
    {
      Advance(changed);
      c := Prepared(transport, producedId, eipProducing, prior);
      AssembleFront(c, message);
      var length := ItemLength(assembly, runIdle);
      c := c.(dataLength := length);
      ghost var payload := ItemPayload(transport, producing, runIdle, assembly);
      ghost var m := message.View();
      message.AddInt(length);
      AddPayload(assembly, runIdle, message);
      AppendedTwice(m, Le16(length), payload);
      FrameSplit(c, payload);
    }

    method Advance(changed: bool)
      modifies this`eipProducing, this`producing
      ensures View() == Sent(old(View()), changed)
      ensures eipProducing == (old(eipProducing) + 1) % 0x1_0000_0000
      ensures producing == if changed then (old(producing) + 1) % 0x1_0000 else old(producing)
    {
      eipProducing := (eipProducing + 1) % UINT32;
      if changed {
        producing := (producing + 1) % UINT16;
      }
    }

    /** The length of the data item, counted in 16 bits. */
    method ItemLength(assembly: seq<octet>, runIdle: Option<uint32>) returns (length: uint16)
      requires |assembly| < 0x1_0000
      ensures length == |ItemPayload(transport, producing, runIdle, assembly)| % UINT16
    {
      var heartbeat := |assembly| == 0;
      length := |assembly|;
      if runIdle.Some? && !heartbeat {
        length := (length + 4) % UINT16;
      }
      if transport == CLASS1 {
        length := (length + 2) % UINT16;
      }
    }

    /** Assembles an empty data item and steps back over its length field. */
    static method AssembleFront(c: Cpf, message: ENIPMessage)
      requires c.dataType == CONNECTED_DATA && c.dataLength == 0 && KnownAddress(c) && c.itemCount == 2
      requires c.item0.typeId == 0 && c.item1.typeId == 0
      requires message.Valid() && message.View().written == [] && message.used == 0 &&
        Fits(message.View(), |Front(c)| + 2)
      modifies message, message.buffer
      ensures message.Valid() && message.View().written == Front(c) && message.used == |Front(c)|
      ensures |message.View().rest| == old(|message.View().rest|) - |Front(c)|
    {
      EmptyItem(c);
      AppendedToNothing(message.View(), Front(c) + Le16(0));
      var _ := AssembleLinearMessage(None, c, message);
      StepBackUndoes(Front(c), Le16(0), message.View().rest, message.used);
      message.StepBack(2);
    }

    method AddPayload(assembly: seq<octet>, runIdle: Option<uint32>, message: ENIPMessage)
      requires message.Valid() && Fits(message.View(), |ItemPayload(transport, producing, runIdle, assembly)|)
      modifies message, message.buffer
      ensures message.Valid()
      ensures message.View() == Appended(old(message.View()), ItemPayload(transport, producing, runIdle, assembly))
    {
      ghost var m1 := message.View();
      if transport == CLASS1 {
        message.AddInt(producing);
      } else {
        AppendedNothing(m1);
      }
      ghost var m2 := message.View();
      if runIdle.Some? && |assembly| != 0 {
        message.AddDint(runIdle.value);
      } else {
        AppendedNothing(m2);
      }
      message.AddOctets(assembly);
      AppendedTwice(m2, RunIdleOctets(runIdle, assembly), assembly);
      AppendedTwice(m1, CountOctets(transport, producing), RunIdleOctets(runIdle, assembly) + assembly);
    }

    /** Receives a data item: `data` are the octets from the item on, `length` those that belong to it. */
    method HandleReceivedIoConnectionData(data: seq<octet>, length: uint16, runIdle: Option<uint32>)
      returns (delivery: Option<Delivery>, runIdle': Option<uint32>, mode: Option<Mode>)
      requires |data| >= 6
      modifies this`consuming
      ensures (View(), delivery, runIdle', mode) == (
        old(View()).(consuming := Counted(transport, old(consuming), data)),
        Delivered(transport, old(consuming), runIdle.Some?, data, length),
        NewRunIdle(transport, runIdle, data, length),
        NewMode(transport, runIdle, data, length))
    {
      var pointer, left := data, length as int;
      var stale := false;
      delivery, runIdle', mode := None, runIdle, None;
      if transport == CLASS1 {
        var count := Get16(pointer);
        pointer := pointer[2..];
        stale := SeqLeq16(count, consuming);
        consuming := count;
        left := (left - 2) % UINT16;
      }
      if left > 0 {
        if runIdle.Some? {
          var word := Get32(pointer);
          mode := Some(Mode(word % 2 == 1, word != runIdle.value));
          runIdle' := Some(word);
          pointer := pointer[4..];
          left := (left - 4) % UINT16;
        }
        if !stale {
          delivery := Some(Delivery(pointer, left));
        }
      }
    }
  }

  function Sent(k: Counters, changed: bool): Counters {
    k.(eipProducing := (k.eipProducing + 1) % UINT32, producing := if changed then (k.producing + 1) % UINT16
      else k.producing)
  }

  /** What the application gets: a pointer and a length. */
  datatype Delivery = Delivery(data: seq<octet>, length: uint16)

  /** A data item behind its class 1 count; lengths are 16 bits wide and wrap below zero. */
  function Stripped(transport: nat, data: seq<octet>, length: uint16): Delivery
    requires |data| >= 2
  {
    if transport == CLASS1 then Delivery(data[2..], (length - 2) % UINT16) else Delivery(data, length)
  }

  function Delivered(transport: nat, consuming: uint16, runIdle: bool, data: seq<octet>,
                     length: uint16): Option<Delivery>
    requires |data| >= 6
  {
    var d := Stripped(transport, data, length);
    if d.length == 0 || (transport == CLASS1 && SeqLeq16(Get16(data), consuming)) then None
    else if runIdle then Some(Delivery(d.data[4..], (d.length - 4) % UINT16))
    else Some(d)
  }

  /** The count of the last class 1 item, whether or not it is delivered. */
  function Counted(transport: nat, consuming: uint16, data: seq<octet>): uint16
    requires |data| >= 2
  {
    if transport == CLASS1 then Get16(data) else consuming
  }

  /** The run/idle word, which a stale item sets as well as a new one. */
  function NewRunIdle(transport: nat, runIdle: Option<uint32>, data: seq<octet>, length: uint16): Option<uint32>
    requires |data| >= 6
  {
    var d := Stripped(transport, data, length);
    if runIdle.None? || d.length == 0 then runIdle else Some(Get32(d.data))
  }

  /** A frame up to its length field. */
  function Front(c: Cpf): (r: seq<octet>)
    ensures |r| <= 16
  {
    Le16(c.itemCount) + AddressOctets(c) + Le16(c.dataType)
  }

  lemma FrameSplit(c: Cpf, payload: seq<octet>)
    ensures Frame(c, payload) == Front(c) + (Le16(|payload| % UINT16) + payload)
  {}

  lemma EmptyItem(c: Cpf)
    requires c.dataType == CONNECTED_DATA && c.dataLength == 0 && KnownAddress(c) && c.itemCount == 2
    requires c.item0.typeId == 0 && c.item1.typeId == 0
    ensures Assembled(None, c) == Front(c) + Le16(0)
  {}

  // ----- what is sent is what is delivered -----

  /** The structure as it was sent, with the payload as its data. */
  function SentCpf(transport: nat, connectionId: uint32, sequence: uint32, payload: seq<octet>, prior: Cpf): Cpf {
    Prepared(transport, connectionId, sequence, prior).(dataLength := |payload| % UINT16, data := payload)
  }

  /** The parser takes a frame as one packet with the sender's connection id, its sequence number unless
      the class is 0, and the payload, exactly if the payload fits the length field. */
  lemma FrameParses(transport: nat, connectionId: uint32, sequence: uint32, payload: seq<octet>, mine: Cpf,
                    slack: seq<octet>, prior: Cpf)
    requires |slack| >= SLACK && |payload| < 2 * 0x1_0000
    ensures var frame := Frame(SentCpf(transport, connectionId, sequence, payload, mine), payload);
      var r := Parse(frame + slack, |frame|, prior);
      && (r.Some? <==> |payload| < 0x1_0000)
      && (r.Some? ==>
            && r.value.connectionId == connectionId
            && r.value.sequence == (if transport != CLASS0 then sequence else prior.sequence)
            && r.value.dataType == CONNECTED_DATA && r.value.dataLength == |payload| && r.value.data == payload
            && r.value.item0.typeId == 0 && r.value.item1.typeId == 0)
  {
    var c := SentCpf(transport, connectionId, sequence, payload, mine);
    var frame := Frame(c, payload);
    if |payload| < 0x1_0000 {
      NoItems(c);
      FrameIsPacket(c, payload);
      PacketRoundTrip(None, c, slack, prior);
    } else {
      LongPayloadRejected(c, payload, slack, prior);
    }
  }

  lemma FrameIsPacket(c: Cpf, payload: seq<octet>)
    requires |payload| < 0x1_0000 && c.dataLength == |payload| && c.data == payload
    requires c.dataType == CONNECTED_DATA && c.item0.typeId == 0 && c.item1.typeId == 0
    ensures Frame(c, payload) == PacketOctets(None, c) && Body(None, c) == payload
  {
    assert c.data[..c.dataLength] == payload;
    NoItems(c);
    var d := ItemHead(c.dataType, |payload|) + payload;
    assert DataOctets(None, c) == d;
    Associates(Le16(c.itemCount) + AddressOctets(c), ItemHead(c.dataType, |payload|), payload);
    PacketWithoutItems(c, d);
  }

  lemma PacketWithoutItems(c: Cpf, d: seq<octet>)
    requires c.dataLength <= |c.data| && DataOctets(None, c) == d && ItemsOctets(c) == []
    ensures PacketOctets(None, c) == Le16(c.itemCount) + AddressOctets(c) + d
  {
    var front := Le16(c.itemCount) + AddressOctets(c) + d;
    assert front + [] == front;
  }

  lemma Associates(a: seq<octet>, b: seq<octet>, c: seq<octet>)
    ensures a + b + c == a + (b + c)
  {}

  lemma NoItems(c: Cpf)
    requires c.item0.typeId == 0 && c.item1.typeId == 0
    ensures Items(c) == 0 && ItemsOctets(c) == []
  {}

  lemma LongPayloadRejected(c: Cpf, payload: seq<octet>, slack: seq<octet>, prior: Cpf)
    requires KnownAddress(c) && c.itemCount == 2 && 0x1_0000 <= |payload| < 2 * 0x1_0000 && |slack| >= SLACK
    ensures Parse(Frame(c, payload) + slack, |Frame(c, payload)|, prior) == None
  {
    var frame := Frame(c, payload);
    var announced := |payload| % UINT16;
    var rest := ItemHead(c.dataType, announced) + (payload + slack);
    assert frame + slack == Le16(c.itemCount) + (AddressOctets(c) + rest);
    FrontRead(c, rest, prior);
    HeadRead(c.dataType, announced, payload + slack);
  }

  /** What the device is told by a run/idle word: the mode that its status shows, and whether the
      application is notified of a change. */
  datatype Mode = Mode(running: bool, notified: bool)

  function NewMode(transport: nat, runIdle: Option<uint32>, data: seq<octet>, length: uint16): Option<Mode>
    requires |data| >= 6
  {
    var d := Stripped(transport, data, length);
    if runIdle.None? || d.length == 0 then None
    else Some(Mode(Get32(d.data) % 2 == 1, Get32(d.data) != runIdle.value))
  }

  lemma CountStripped(transport: nat, count: uint16, inner: seq<octet>, behind: seq<octet>)
    requires |CountOctets(transport, count) + inner| < 0x1_0000 && |behind| >= 6
    ensures var payload := CountOctets(transport, count) + inner;
      && Stripped(transport, payload + behind, |payload|) == Delivery(inner + behind, |inner|)
      && (transport == CLASS1 ==> Get16(payload + behind) == count)
  {
    var data := CountOctets(transport, count) + inner + behind;
    if transport == CLASS1 {
      assert data == Le16(count) + (inner + behind);
      Read16(count, inner + behind);
    } else {
      assert CountOctets(transport, count) + inner == inner;
    }
  }

  lemma RunIdleStripped(produced: Option<uint32>, assembly: seq<octet>, behind: seq<octet>)
    requires |behind| >= 6
    ensures var data := RunIdleOctets(produced, assembly) + assembly + behind;
      if produced.Some? && assembly != [] then Get32(data) == produced.value && data[4..] == assembly + behind
      else data == assembly + behind
    ensures (assembly + behind)[..|assembly|] == assembly
  {
    if produced.Some? && assembly != [] {
      assert RunIdleOctets(produced, assembly) + assembly + behind == Le32(produced.value) + (assembly + behind);
      Read32(produced.value, assembly + behind);
    }
  }

  /** A delivery that hands over exactly the data. */
  predicate HandsOver(d: Delivery, assembly: seq<octet>) {
    d.length <= |d.data| && d.data[..d.length] == assembly
  }

  /** From the payload of a frame, read with the receiver's own setting for the run/idle word, a
      heartbeat delivers nothing and neither does a class 1 count that is not later than the last;
      everything else is delivered, and is exactly the assembly data if and only if sender and receiver
      have the same setting. */
  lemma PayloadDelivers(transport: nat, count: uint16, produced: Option<uint32>, assembly: seq<octet>,
                        consuming: uint16, consumed: Option<uint32>, behind: seq<octet>)
    requires |ItemPayload(transport, count, produced, assembly)| < 0x1_0000 && |behind| >= 6
    ensures var payload := ItemPayload(transport, count, produced, assembly);
      var d := Delivered(transport, consuming, consumed.Some?, payload + behind, |payload|);
      && (d.Some? <==> assembly != [] && (transport == CLASS1 ==> !SeqLeq16(count, consuming)))
      && (d.Some? ==> (HandsOver(d.value, assembly) <==> produced.Some? == consumed.Some?))
      && (produced.Some? == consumed.Some? ==>
            NewRunIdle(transport, consumed, payload + behind, |payload|)
              == if assembly == [] then consumed else produced)
      && (produced.Some? && consumed.Some? && assembly != [] ==>
            NewMode(transport, consumed, payload + behind, |payload|)
              == Some(Mode(produced.value % 2 == 1, produced.value != consumed.value)))
  {
    var inner := RunIdleOctets(produced, assembly) + assembly;
    CountStripped(transport, count, inner, behind);
    RunIdleStripped(produced, assembly, behind);
  }

  /** A frame sent after `k` and received on the other end of the connection: it names the connection,
      carries the next sequence number, and hands over the data that were sent. */
  lemma IoFrameRoundTrip(transport: nat, connectionId: uint32, k: Counters, changed: bool, runIdle: Option<uint32>,
                         assembly: seq<octet>,
                         mine: Cpf, slack: seq<octet>, prior: Cpf, consuming: uint16, consumed: Option<uint32>,
                           behind: seq<octet>)
    requires |ItemPayload(transport, Sent(k, changed).producing, runIdle, assembly)| < 0x1_0000
    requires |slack| >= SLACK && |behind| >= 6 && runIdle.Some? == consumed.Some?
    ensures var sent := Sent(k, changed);
      var payload := ItemPayload(transport, sent.producing, runIdle, assembly);
      var frame := Frame(SentCpf(transport, connectionId, sent.eipProducing, payload, mine), payload);
      var r := Parse(frame + slack, |frame|, prior);
      && r.Some? && r.value.connectionId == connectionId
      && (transport != CLASS0 ==> r.value.sequence == (k.eipProducing + 1) % UINT32)
      && var d := Delivered(transport, consuming, consumed.Some?, r.value.data + behind, r.value.dataLength);
         if assembly == [] || (transport == CLASS1 && SeqLeq16(sent.producing, consuming)) then d == None
         else d.Some? && HandsOver(d.value, assembly)
  {
    var sent := Sent(k, changed);
    var payload := ItemPayload(transport, sent.producing, runIdle, assembly);
    FrameParses(transport, connectionId, sent.eipProducing, payload, mine, slack, prior);
    PayloadDelivers(transport, sent.producing, runIdle, assembly, consuming, consumed, behind);
  }
}
