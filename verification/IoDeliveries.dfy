/** Whole conversations over one I/O connection: the frames one end sends, some of which are lost, and
    the data that the application at the other end gets. */
module IoDeliveries {
  import opened CommonPacketFormat
  import opened Connections
  import opened IoFrames
  import opened Wire
  import opened Widths

  /** What the buffers of the two ends held before, and what lies behind the octets received. */
  datatype Surroundings = Surroundings(mine: Cpf, prior: Cpf, slack: seq<octet>, behind: seq<octet>)

  /** One datum to send: whether the application says it is new, and whether its frame arrives. */
  datatype Datum = Datum(assembly: seq<octet>, changed: bool, heard: bool, around: Surroundings)

  predicate Sendable(d: Datum) {
    |d.assembly| + 6 < 0x1_0000 && |d.around.slack| >= SLACK && |d.around.behind| >= 6
  }

  ghost predicate AllSendable(ds: seq<Datum>) {
    forall i :: 0 <= i < |ds| ==> Sendable(ds[i])
  }

  /** What does not change during a conversation. */
  datatype Setting = Setting(transport: nat, connectionId: uint32, produced: Option<uint32>, consumed: Option<uint32>)

  /** The counters of the sender, the count of the receiver, and all that was delivered. */
  datatype Exchange = Exchange(sender: Counters, consuming: uint16, delivered: seq<seq<octet>>)

  /** The frame that goes out after k. */
  function FrameAfter(s: Setting, k: Counters, d: Datum): seq<octet> {
    var sent := Sent(k, d.changed);
    var payload := ItemPayload(s.transport, sent.producing, s.produced, d.assembly);
    Frame(SentCpf(s.transport, s.connectionId, sent.eipProducing, payload, d.around.mine), payload)
  }

  /** What the receiver makes of a frame: its new count, and the data it hands over. */
  function Received(s: Setting, consuming: uint16, frame: seq<octet>, around: Surroundings)
    : (uint16, Option<seq<octet>>)
    requires |around.slack| >= SLACK && |around.behind| >= 6
  {
    match Parse(frame + around.slack, |frame|, around.prior)
    case None => (consuming, None)
    case Some(c) =>
      var item := c.data + around.behind;
      var count := Counted(s.transport, consuming, item);
      match Delivered(s.transport, consuming, s.consumed.Some?, item, c.dataLength)
      case None => (count, None)
      case Some(d) => (count, if d.length <= |d.data| then Some(d.data[..d.length]) else None)
  }

  function ExchangeStep(s: Setting, x: Exchange, d: Datum): Exchange
    requires Sendable(d)
  {
    var sender := Sent(x.sender, d.changed);
    if !d.heard then x.(sender := sender)
    else
      var (consuming, datum) := Received(s, x.consuming, FrameAfter(s, x.sender, d), d.around);
      Exchange(sender, consuming, if datum.Some? then x.delivered + [datum.value] else x.delivered)
  }

  /** The conversation from k on, with a receiver at the given count. */
  function Conversation(s: Setting, k: Counters, consuming: uint16, ds: seq<Datum>): Exchange
    requires AllSendable(ds)
  {
    if ds == [] then Exchange(k, consuming, [])
    else ExchangeStep(s, Conversation(s, k, consuming, ds[..|ds| - 1]), ds[|ds| - 1])
  }

  /** The receiver reads the count that was sent, and gets the datum unless it is empty or, in class 1,
      its count is not later. */
  lemma OneFrame(s: Setting, k: Counters, consuming: uint16, d: Datum)
    requires Sendable(d) && s.produced.Some? == s.consumed.Some?
    ensures var count := Sent(k, d.changed).producing;
      Received(s, consuming, FrameAfter(s, k, d), d.around) == (
        if s.transport == CLASS1 then count else consuming,
        if d.assembly != [] && (s.transport == CLASS1 ==> !SeqLeq16(count, consuming)) then Some(d.assembly) else None)
  {
    var sent := Sent(k, d.changed);
    var payload := ItemPayload(s.transport, sent.producing, s.produced, d.assembly);
    FrameParses(s.transport, s.connectionId, sent.eipProducing, payload, d.around.mine, d.around.slack, d.around.prior);
    PayloadDelivers(s.transport, sent.producing, s.produced, d.assembly, consuming, s.consumed, d.around.behind);
    CountStripped(s.transport, sent.producing, RunIdleOctets(s.produced, d.assembly) + d.assembly, d.around.behind);
  }

  // ----- what has to be delivered -----

  function One(b: bool): nat {
    if b then 1 else 0
  }

  /** The new data since the last frame that arrived. */
  function Unheard(ds: seq<Datum>): nat {
    if ds == [] then 0
    else
      var d := ds[|ds| - 1];
      if d.heard then 0 else Unheard(ds[..|ds| - 1]) + One(d.changed)
  }

  /** A receiver takes a frame for new if there were new data since the last that it heard: at least
      one, counted modulo 2^16, and less than 2^15. */
  predicate TakenForNew(changes: nat) {
    0 < changes % 0x1_0000 < 0x8000
  }

  /** A frame arrives, is not empty and, in class 1, is taken for new. */
  predicate IsDue(transport: nat, d: Datum, changes: nat) {
    d.heard && d.assembly != [] && (transport == CLASS1 ==> TakenForNew(changes))
  }

  /** The data that are due, in order. */
  function Due(transport: nat, ds: seq<Datum>): seq<seq<octet>> {
    if ds == [] then []
    else
      var (before, d) := (ds[..|ds| - 1], ds[|ds| - 1]);
      var due := Due(transport, before);
      if IsDue(transport, d, Unheard(before) + One(d.changed)) then due + [d.assembly] else due
  }

  /** The count of a sender that is so many new data ahead. */
  predicate AheadBy(producing: uint16, consuming: uint16, changes: nat) {
    producing == (consuming + changes) % 0x1_0000
  }

  lemma OneMoreChange(k: Counters, consuming: uint16, changes: nat, changed: bool)
    requires AheadBy(k.producing, consuming, changes)
    ensures AheadBy(Sent(k, changed).producing, consuming, changes + One(changed))
  {}

  lemma NewIfAhead(producing: uint16, consuming: uint16, changes: nat)
    requires AheadBy(producing, consuming, changes)
    ensures !SeqLeq16(producing, consuming) <==> TakenForNew(changes)
  {
    var r := changes % 0x1_0000;
    assert producing == (consuming + r) % 0x1_0000;
    assert (producing - consuming) % 0x1_0000 == r;
  }

  /** The receiver is as many new data behind as were not heard. */
  predicate InStep(transport: nat, x: Exchange, changes: nat) {
    transport == CLASS1 ==> AheadBy(x.sender.producing, x.consuming, changes)
  }

  /** The exchange that a datum leads to, told by the counts. */
  function Expected(transport: nat, x: Exchange, d: Datum): Exchange {
    var sender := Sent(x.sender, d.changed);
    if !d.heard then x.(sender := sender)
    else
      Exchange(
        sender, if transport == CLASS1 then sender.producing else x.consuming,
        if d.assembly != [] && (transport == CLASS1 ==> !SeqLeq16(sender.producing, x.consuming))
        then x.delivered + [d.assembly] else x.delivered)
  }

  lemma ExchangeExpected(s: Setting, x: Exchange, d: Datum)
    requires Sendable(d) && s.produced.Some? == s.consumed.Some?
    ensures ExchangeStep(s, x, d) == Expected(s.transport, x, d)
  {
    OneFrame(s, x.sender, x.consuming, d);
  }

  lemma OneExchange(transport: nat, x: Exchange, d: Datum, changes: nat)
    requires InStep(transport, x, changes)
    ensures var y := Expected(transport, x, d);
      var more := changes + One(d.changed);
      && y.delivered == (if IsDue(transport, d, more) then x.delivered + [d.assembly] else x.delivered)
      && InStep(transport, y, if d.heard then 0 else more)
  {
    if transport == CLASS1 {
      OneMoreChange(x.sender, x.consuming, changes, d.changed);
      NewIfAhead(Sent(x.sender, d.changed).producing, x.consuming, changes + One(d.changed));
    }
  }

  lemma ConversationMore(s: Setting, k: Counters, consuming: uint16, ds: seq<Datum>)
    requires AllSendable(ds) && ds != []
    ensures var (before, d) := (ds[..|ds| - 1], ds[|ds| - 1]);
      && AllSendable(before) && Sendable(d)
      && Conversation(s, k, consuming, ds) == ExchangeStep(s, Conversation(s, k, consuming, before), d)
  {}

  /** Between two ends that start with the same count and agree on the run/idle word, exactly the data
      that are due are delivered, in order and octet for octet, whatever frames are lost. */
  lemma {:induction false} DueIsDelivered(s: Setting, k: Counters, consuming: uint16, ds: seq<Datum>)
    requires AllSendable(ds) && s.produced.Some? == s.consumed.Some? && consuming == k.producing
    ensures var x := Conversation(s, k, consuming, ds);
      x.delivered == Due(s.transport, ds) && InStep(s.transport, x, Unheard(ds))
  {
    if ds != [] {
      var before := ds[..|ds| - 1];
      ConversationMore(s, k, consuming, ds);
      DueIsDelivered(s, k, consuming, before);
      var x := Conversation(s, k, consuming, before);
      ExchangeExpected(s, x, ds[|ds| - 1]);
      OneExchange(s.transport, x, ds[|ds| - 1], Unheard(before));
    }
  }

  /** The data that an application has to get if nothing is lost: those that are not empty and, in
      class 1, new. */
  function Wanted(transport: nat, ds: seq<Datum>): seq<seq<octet>> {
    if ds == [] then []
    else
      var (wanted, d) := (Wanted(transport, ds[..|ds| - 1]), ds[|ds| - 1]);
      if d.assembly != [] && (transport == CLASS1 ==> d.changed) then wanted + [d.assembly] else wanted
  }

  lemma {:induction false} DueIfHeard(transport: nat, ds: seq<Datum>)
    requires forall i :: 0 <= i < |ds| ==> ds[i].heard
    ensures Due(transport, ds) == Wanted(transport, ds) && Unheard(ds) == 0
  {
    if ds != [] {
      DueIfHeard(transport, ds[..|ds| - 1]);
    }
  }

  /** On a new connection that loses no frame each new datum is delivered once, and in class 1 no
      datum that is not new. */
  lemma NewDataDelivered(s: Setting, ds: seq<Datum>)
    requires AllSendable(ds) && s.produced.Some? == s.consumed.Some?
    requires forall i :: 0 <= i < |ds| ==> ds[i].heard
    ensures Conversation(s, Counters(0, 0, 0), 0, ds).delivered == Wanted(s.transport, ds)
  {
    DueIsDelivered(s, Counters(0, 0, 0), 0, ds);
    DueIfHeard(s.transport, ds);
  }
}
