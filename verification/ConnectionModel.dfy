/** The connection life cycle as steps on a value: the list of active connections in list order,
    the slot each of them occupies, and the counter behind the connection ids. A slot that is not
    in the table is NonExistent. */
module ConnectionModel {
  import opened Connections
  import opened Widths

  /** One frame of a multicast group: its EIP-level count, which every class but 0 sends along as the
      sequence number, and its produced connection id. */
  datatype Frame = Frame(sequence: nat, id: nat)

  /** `history` lists, for each input assembly, the frames sent for its multicast group since the
      group was opened. */
  datatype Model = Model(
    active: seq<Slot>,
    conns: map<Slot, Connection>,
    lastId: nat,
    history: map<nat, seq<Frame>>)

  /** What the environment contributes to one tick: for a connection that times out, the handles
      of the encapsulation sessions whose peer is its originator. */
  datatype Environment = Environment(closing: map<Slot, seq<nat>>)

  datatype Event =
    | ForwardOpen(request: Request)
    | ForwardClose(triad: Triad, address: bv32)
    | Tick(elapsed: nat, environment: Environment)
    | Receive(id: nat, sequence: nat, from: bv32)
    | ExplicitRequest(id: nat)
    | EndSession(session: nat)
    | ReceiveFailure(slot: Slot)
    | CloseAll

  const Boot := Model([], map[], 18, map[])

  // ----- primitive changes -----

  function Search(m: Model, q: Query): Option<Slot> {
    First(m.active, m.conns, q)
  }

  function Put(m: Model, x: Slot, c: Connection): Model {
    m.(conns := m.conns[x := c])
  }

  function Drop(m: Model, gone: set<Slot>): Model {
    m.(active := Without(m.active, gone), conns := m.conns - gone)
  }

  function Push(m: Model, x: Slot, c: Connection): Model {
    m.(active := [x] + m.active, conns := m.conns[x := c])
  }

  function Sent(m: Model, input: nat): seq<Frame> {
    if input in m.history then m.history[input] else []
  }

  // ----- closing and timing out -----

  /** The connections of one kind at an input point. */
  function OfKind(m: Model, input: nat, kind: Kind): set<Slot> {
    set x | x in m.conns && m.conns[x].terms.kind == kind && m.conns[x].terms.input == input
  }

  /** The producing socket of x moves on to y, with the EIP-level sequence and the pacing. */
  function HandOver(m: Model, x: Slot, y: Slot): Model
    requires x in m.conns && y in m.conns
  {
    var (c, d) := (m.conns[x], m.conns[y]);
    Put(Put(m, y, d.(producing := c.producing, eipProducing := c.eipProducing, transmission := c.transmission)),
        x, c.(producing := false))
  }

  predicate ControlsGroup(c: Connection) {
    (c.terms.kind.ExclusiveOwner? || c.terms.kind.InputOnly?) && c.terms.tToO.Multicast? && c.producing
  }

  /** A controlling connection gives up its group: to the next master if there is one, else every
      listen only connection on the input point goes. */
  function Relinquish(m: Model, x: Slot): Model
    requires x in m.conns
  {
    var input := m.conns[x].terms.input;
    match Search(m, MasterFor(input))
    case Some(y) => HandOver(m, x, y)
    case None => Drop(m, OfKind(m, input, ListenOnly))
  }

  function Retire(m: Model, x: Slot, state: State): Model
    requires x in m.conns
  {
    Put(m, x, m.conns[x].(state := state))
  }

  function CloseIo(m: Model, x: Slot): Model
    requires x in m.conns
  {
    var m1 := Retire(m, x, NonExistent);
    Drop(if ControlsGroup(m1.conns[x]) then Relinquish(m1, x) else m1, {x})
  }

  function Close(m: Model, x: Slot): Model
    requires x in m.conns
  {
    if IsIo(m.conns[x]) then CloseIo(m, x) else Drop(m, {x})
  }

  /** The first class 3 connection of a session is closed; the walk stops there, because it reads
      its way on from the list node that this close has just cleared. */
  function CloseSession(m: Model, session: nat): Model {
    match Search(m, MessagingOf(session))
    case Some(y) => Close(m, y)
    case None => m
  }

  function CloseSessions(m: Model, sessions: seq<nat>): Model
    decreases |sessions|
  {
    if sessions == [] then m else CloseSessions(CloseSession(m, sessions[0]), sessions[1..])
  }

  function SessionsOf(environment: Environment, x: Slot): seq<nat> {
    if x in environment.closing then environment.closing[x] else []
  }

  /** The encapsulation sessions of an originator end with its last live connection. */
  function EndOriginator(m: Model, x: Slot, environment: Environment): Model
    requires x in m.conns
  {
    var c := m.conns[x];
    if c.lastPackage == c.watchdog && Search(m, OtherLiveOf(c.terms.triad.originator, x)).None?
    then CloseSessions(m, SessionsOf(environment, x))
    else m
  }

  function CloseDependents(m: Model, input: nat): Model {
    Drop(Drop(m, OfKind(m, input, InputOnly)), OfKind(Drop(m, OfKind(m, input, InputOnly)), input, ListenOnly))
  }

  function TimeOutIo(m: Model, x: Slot, environment: Environment): Model
    requires x in m.conns
  {
    var c := m.conns[x];
    var m1 := EndOriginator(Retire(m, x, TimedOut), x, environment);
    var controls := ControlsGroup(c) && x in m1.conns;
    var handover := controls && Search(m1, MasterFor(c.terms.input)).Some?;
    var m2 := if controls then Relinquish(m1, x) else m1;
    if c.terms.kind.ExclusiveOwner? && !handover then CloseDependents(m2, c.terms.input) else m2
  }

  function TimeOut(m: Model, x: Slot, environment: Environment): Model
    requires x in m.conns
  {
    if IsIo(m.conns[x]) then TimeOutIo(m, x, environment) else Drop(m, {x})
  }

  // ----- one tick -----

  predicate Watched(c: Connection) {
    c.terms.consuming || c.terms.server
  }

  /** One frame goes out; frames of a multicast group are recorded. */
  function Send(m: Model, x: Slot): Model
    requires x in m.conns
  {
    var c := m.conns[x];
    var d := c.(eipProducing := (c.eipProducing + 1) % UINT32);
    var input := c.terms.input;
    var history := if IsMulticastIo(c)
      then m.history[input := Sent(m, input) + [Frame(d.eipProducing, c.terms.producedId)]]
      else m.history;
    Put(m, x, d).(history := history)
  }

  /** The transmission trigger timer after a tick, and whether a frame goes out in it. */
  function Pace(timer: nat, interval: nat, elapsed: nat): (bool, nat) {
    if timer <= elapsed
    then (true, if timer + interval > elapsed then timer + interval - elapsed else 0)
    else (false, timer - elapsed)
  }

  function Produce(cfg: Config, m: Model, x: Slot, elapsed: nat): Model
    requires cfg.tick > 0 && x in m.conns
  {
    var c := m.conns[x];
    if ExpectedRate(c.terms.tToOInterval, cfg.tick) != 0 && c.producing then
      var (due, timer) := Pace(c.transmission, RequestedInterval(c.terms.tToOInterval, cfg.tick), elapsed);
      var m1 := if due then Send(m, x) else m;
      Put(m1, x, m1.conns[x].(transmission := timer))
    else m
  }

  function Watch(m: Model, x: Slot, elapsed: nat, environment: Environment): Model
    requires x in m.conns
  {
    var c := m.conns[x];
    if !Watched(c) then m
    else if elapsed >= c.watchdog then TimeOut(m, x, environment)
    else Put(m, x, c.(watchdog := c.watchdog - elapsed, lastPackage := (c.lastPackage - elapsed) % UINT64))
  }

  /** What a tick does to one connection. */
  function Process(cfg: Config, m: Model, x: Slot, elapsed: nat, environment: Environment): Model
    requires cfg.tick > 0 && x in m.conns
  {
    if !m.conns[x].state.Established? then m
    else
      var m1 := Watch(m, x, elapsed, environment);
      if x in m1.conns && m1.conns[x].state.Established? then Produce(cfg, m1, x, elapsed) else m1
  }

  /** A tick visits the connections in list order, without those that a cascade has removed by
      then, and ends early at a connection that is itself removed. */
  function TickOver(cfg: Config, m: Model, rest: seq<Slot>, elapsed: nat, environment: Environment): Model
    requires cfg.tick > 0
    decreases |rest|
  {
    if rest == [] then m
    else if rest[0] !in m.conns then TickOver(cfg, m, rest[1..], elapsed, environment)
    else
      var m1 := Process(cfg, m, rest[0], elapsed, environment);
      if rest[0] in m1.conns then TickOver(cfg, m1, rest[1..], elapsed, environment) else m1
  }

  // ----- opening -----

  /** The slot a request is given, and whether a timed-out connection has to leave it first. */
  datatype Choice = Chosen(slot: Slot, evict: bool) | Unsuited | Conflict(status: nat)

  function FindPoint(points: seq<Point>, t: Terms, i: nat): Option<nat>
    requires i <= |points|
    decreases |points| - i
  {
    if i == |points| then None
    else if points[i] == Point(t.output, t.input, t.config) then Some(i)
    else FindPoint(points, t, i + 1)
  }

  function SelectOwner(cfg: Config, m: Model, t: Terms): Choice {
    match FindPoint(cfg.owners, t, 0)
    case None => Unsuited
    case Some(i) =>
      match Search(m, OwnerOf(t.input))
      case None => Chosen(Owner(i), false)
      case Some(o) =>
        if m.conns[o].state.TimedOut? && m.conns[o].terms.triad.originator == t.triad.originator
        then Chosen(Owner(i), true)
        else Conflict(0x0106)
  }

  function SlotAt(kind: Kind, i: nat, j: nat): Slot {
    if kind.InputOnly? then Input(i, j) else Listen(i, j)
  }

  predicate Recyclable(m: Model, x: Slot, o: Originator) {
    x in m.conns && m.conns[x].state.TimedOut? && m.conns[x].terms.triad.originator == o
  }

  predicate Free(m: Model, x: Slot) {
    x !in m.conns || m.conns[x].state.NonExistent?
  }

  function FindRecyclable(m: Model, kind: Kind, i: nat, j: nat, count: nat, o: Originator): (r: Option<nat>)
    ensures r.Some? ==> j <= r.value < count && Recyclable(m, SlotAt(kind, i, r.value), o)
    decreases count - j
  {
    if j >= count then None
    else if Recyclable(m, SlotAt(kind, i, j), o) then Some(j)
    else FindRecyclable(m, kind, i, j + 1, count, o)
  }

  function FindFree(m: Model, kind: Kind, i: nat, j: nat, count: nat): (r: Option<nat>)
    ensures r.Some? ==> j <= r.value < count && Free(m, SlotAt(kind, i, r.value))
    decreases count - j
  {
    if j >= count then None
    else if Free(m, SlotAt(kind, i, j)) then Some(j)
    else FindFree(m, kind, i, j + 1, count)
  }

  function SelectIndex(m: Model, kind: Kind, i: nat, count: nat, o: Originator): Choice {
    match FindRecyclable(m, kind, i, 0, count, o)
    case Some(j) => Chosen(SlotAt(kind, i, j), true)
    case None =>
      match FindFree(m, kind, i, 0, count)
      case Some(j) => Chosen(SlotAt(kind, i, j), false)
      case None => Conflict(0x011A)
  }

  /** The scan of the input only or listen only points. A point that shares only the output
      assembly leaves its error behind, which the end of the scan reports. */
  function SelectPoint(m: Model, t: Terms, kind: Kind, points: seq<Point>, count: nat, i: nat, error: nat): Choice
    requires i <= |points|
    decreases |points| - i
  {
    if i == |points| then (if error == 0 then Unsuited else Conflict(error))
    else if points[i].output != t.output then SelectPoint(m, t, kind, points, count, i + 1, error)
    else if points[i].input != t.input then SelectPoint(m, t, kind, points, count, i + 1, 0x012B)
    else if points[i].config != t.config then SelectPoint(m, t, kind, points, count, i + 1, 0x012F)
    else if kind.ListenOnly? && Search(m, ProducerOf(t.input, false)).None? then Conflict(0x0119)
    else SelectIndex(m, kind, i, count, t.triad.originator)
  }

  /** Exclusive owner, then input only, then listen only. */
  function Select(cfg: Config, m: Model, t: Terms): (Kind, Choice) {
    var owner := SelectOwner(cfg, m, t);
    if !owner.Unsuited? then (ExclusiveOwner, owner)
    else
      var input := SelectPoint(m, t, InputOnly, cfg.inputs, cfg.inputsPerPoint, 0, 0);
      if !input.Unsuited? then (InputOnly, input)
      else
        var listen := SelectPoint(m, t, ListenOnly, cfg.listens, cfg.listensPerPoint, 0, 0);
        (ListenOnly, if listen.Unsuited? then Conflict(0x012F) else listen)
  }

  /** The production inhibit time of a cyclic connection; 256 stands for "not given". */
  function InhibitTime(t: Terms): Option<nat> {
    if !t.trigger.Cyclic? then Some(t.inhibit)
    else if t.inhibit == 256 then Some(t.tToOInterval / 4000 % UINT16)
    else if t.inhibit > t.tToOInterval / 1000 then None
    else Some(t.inhibit)
  }

  function NextId(last: nat): nat {
    (last + 1) % UINT16
  }

  function ConnectionId(cfg: Config, counter: nat): nat {
    cfg.incarnation * UINT16 + counter
  }

  /** The ids the target chooses: consumed for O->T point-to-point, produced for T->O multicast. */
  function Identify(cfg: Config, t: Terms, last: nat): (Terms, nat) {
    var (t1, last1) := if t.oToT.PointToPoint? then (t.(consumedId := ConnectionId(cfg, NextId(last))), NextId(last))
      else (t, last);
    if t.tToO.Multicast? then (t1.(producedId := ConnectionId(cfg, NextId(last1))), NextId(last1)) else (t1, last1)
  }

  function Fresh(t: Terms): Connection {
    Connection(t, Established, false, InitialWatchdog(t), 0, 0, 0, 0, false)
  }

  /** The extended status for the size of one direction, 0 when the assembly fits. */
  function SizeStatus(cfg: Config, instance: nat, size: nat, transport: TransportClass, runIdle: bool,
                      noInstance: nat, wrongSize: nat): nat {
    if instance !in cfg.assemblies then noInstance
    else
      var length := cfg.assemblies[instance];
      var size1: int := if transport.Class1? then size - 2 else size;
      var size2 := if runIdle && size1 > 0 && length != 0 then size1 - 4 else size1;
      if length != size2 then wrongSize else 0
  }

  function ProduceStatus(cfg: Config, m: Model, t: Terms, size: nat): nat {
    match Search(m, DisagreesWith(t))
    case Some(y) => Mismatch(t, m.conns[y].terms)
    case None => SizeStatus(cfg, t.input, size, t.transport, cfg.produceRunIdle, 0x012B, 0x0128)
  }

  /** The extended status of the checks before the communication channels are opened. */
  function SetupStatus(cfg: Config, m: Model, t: Terms, r: Request): nat {
    var consume := if t.oToT.NullLink? then 0
      else SizeStatus(cfg, t.output, r.oToTSize, t.transport, cfg.consumeRunIdle, 0x012A, 0x0127);
    if consume != 0 then consume
    else
      var produce := if t.tToO.NullLink? then 0 else ProduceStatus(cfg, m, t, r.tToOSize);
      if produce != 0 then produce else r.configStatus
  }

  const O_TO_T_ITEM: nat := 0x8000
  const T_TO_O_ITEM: nat := 0x8001

  /** Which of the two socket address items serves a direction: the first unused or matching one. */
  function Allocate(item0: nat, item1: nat, item: nat): Option<nat> {
    if item0 == 0 || item0 == item then Some(0)
    else if item1 == 0 || item1 == item then Some(1)
    else None
  }

  /** Both directions find a socket address item. */
  predicate ItemsSuffice(r: Request) {
    match Allocate(r.item0, r.item1, O_TO_T_ITEM)
    case None => false
    case Some(i) =>
      var item0 := if i == 0 then O_TO_T_ITEM else r.item0;
      var item1 := if i == 1 then O_TO_T_ITEM else r.item1;
      r.terms.tToO.Multicast? ==> Allocate(item0, item1, T_TO_O_ITEM).Some?
  }

  /** The channels are opened and the connection enters at the head of the list. The first
      multicast connection of an input assembly starts a group; a later one joins it, and an
      exclusive owner takes its producing socket. */
  function Admit(m: Model, x: Slot, c: Connection): Model {
    if !c.terms.tToO.Multicast? then Push(m, x, c.(producing := true))
    else
      match Search(m, ProducerOf(c.terms.input, true))
      case None =>
        Push(m, x, c.(producing := true)).(history := m.history[c.terms.input := []])
      case Some(e) =>
        var joined := c.(terms := c.terms.(producedId := m.conns[e].terms.producedId));
        if c.terms.kind.ExclusiveOwner?
        then Push(Put(m, e, m.conns[e].(producing := false)), x, joined.(producing := true))
        else Push(m, x, joined)
  }

  function EstablishIo(cfg: Config, m: Model, r: Request): (Model, Reply) {
    var (kind, choice) := Select(cfg, m, r.terms);
    match choice
    case Unsuited => (m, Refused(1, 0x012F))
    case Conflict(status) => (m, Refused(1, status))
    case Chosen(x, evict) =>
      var m1 := if evict && x in m.conns then Close(m, x) else m;
      match InhibitTime(r.terms)
      case None => (m1, Refused(1, 0x011B))
      case Some(inhibit) =>
        var (t, last) := Identify(cfg, r.terms.(kind := kind, inhibit := inhibit), m1.lastId);
        var m2 := m1.(lastId := last);
        var status := SetupStatus(cfg, m2, t, r);
        if status != 0 then (m2, Refused(1, status))
        else if !ItemsSuffice(r) then (m2, Refused(1, 0))
        else
          var m3 := Admit(m2, x, Fresh(t.(consuming := !t.oToT.NullLink?)));
          (m3, Opened(m3.conns[x].terms.consumedId, m3.conns[x].terms.producedId))
  }

  function FindFreeExplicit(m: Model, k: nat, count: nat): (r: Option<nat>)
    ensures r.Some? ==> k <= r.value < count && Free(m, Explicit(r.value))
    decreases count - k
  {
    if k >= count then None
    else if Free(m, Explicit(k)) then Some(k)
    else FindFreeExplicit(m, k + 1, count)
  }

  function EstablishExplicit(cfg: Config, m: Model, r: Request): (Model, Reply) {
    match FindFreeExplicit(m, 0, cfg.explicits)
    case None => (m, Refused(1, 0x0113))
    case Some(k) =>
      var (t, last) := Identify(cfg, r.terms.(kind := ExplicitMessaging, consuming := false), m.lastId);
      (Push(m.(lastId := last), Explicit(k), Fresh(t)), Opened(t.consumedId, t.producedId))
  }

  predicate OffSubnet(cfg: Config, address: bv32) {
    (address & cfg.networkMask) != (cfg.interfaceAddress & cfg.networkMask)
  }

  /** The status with which a request is refused before a slot is looked for, 0 for none. */
  function EarlyRefusal(cfg: Config, m: Model, t: Terms): nat {
    if t.oToT.InvalidLink? then 0x0123
    else if t.tToO.InvalidLink? then 0x0124
    else if t.tToO.Multicast? && OffSubnet(cfg, t.address) then 0x0813
    else if t.oToT.NullLink? && t.tToO.NullLink? then 0x0132
    else if Search(m, EstablishedTriad(t.triad)).Some? then 0x0100
    else if t.trigger.InvalidTrigger? then 0x0103
    else 0
  }

  function Open(cfg: Config, m: Model, r: Request): (Model, Reply) {
    var status := EarlyRefusal(cfg, m, r.terms);
    if status != 0 then (m, Refused(1, status))
    else match r.target
      case MessageRouter => EstablishExplicit(cfg, m, r)
      case Assembly => EstablishIo(cfg, m, r)
  }

  // ----- the other requests -----

  const CLOSED: nat := 0
  const WRONG_CLOSER: nat := 0xFFFF
  const NOT_FOUND: nat := 0x0107

  /** Forward Close: the first listed connection with the triad, if its originator asks. */
  function CloseByTriad(m: Model, triad: Triad, address: bv32): (Model, nat) {
    match Search(m, ListedTriad(triad))
    case None => (m, NOT_FOUND)
    case Some(x) =>
      if m.conns[x].terms.address == address then (Close(m, x), CLOSED) else (m, WRONG_CLOSER)
  }

  function Accept(m: Model, id: nat, sequence: nat, from: bv32): Model {
    match Search(m, ConsumerOf(id))
    case None => m
    case Some(x) =>
      var c := m.conns[x];
      if c.terms.address != from then m
      else
        var d := c.(lastPackage := Watchdog(c.terms));
        if SeqGt32(sequence, c.eipConsuming) || !c.eipReceived
        then Put(m, x, d.(watchdog := Watchdog(c.terms), eipConsuming := sequence, eipReceived := true))
        else Put(m, x, d)
  }

  function Touch(m: Model, id: nat): Model {
    match Search(m, ConsumerOf(id))
    case None => m
    case Some(x) => Put(m, x, m.conns[x].(watchdog := Watchdog(m.conns[x].terms)))
  }

  function Step(cfg: Config, m: Model, e: Event): Model
    requires cfg.tick > 0
  {
    match e
    case ForwardOpen(r) => Open(cfg, m, r).0
    case ForwardClose(triad, address) => CloseByTriad(m, triad, address).0
    case Tick(elapsed, environment) => TickOver(cfg, m, m.active, elapsed, environment)
    case Receive(id, sequence, from) => Accept(m, id, sequence, from)
    case ExplicitRequest(id) => Touch(m, id)
    case EndSession(session) => CloseSession(m, session)
    case ReceiveFailure(x) => if x in m.conns && IsIo(m.conns[x]) then Close(m, x) else m
    case CloseAll => m.(active := [], conns := map[])
  }

  function Run(cfg: Config, m: Model, events: seq<Event>): Model
    requires cfg.tick > 0
  {
    if events == [] then m
    else Step(cfg, Run(cfg, m, events[..|events| - 1]), events[|events| - 1])
  }
}
