/** The records of the connection layer: what a Forward Open asks for, what a connection slot
    holds, and the searches the stack makes over its list of active connections. */
module Connections {
  import opened Widths

  datatype Option<+T> = None | Some(value: T)

  /** A position in one of the four fixed slot arrays. */
  datatype Slot =
    | Owner(point: nat)
    | Input(point: nat, index: nat)
    | Listen(point: nat, index: nat)
    | Explicit(index: nat)

  datatype Kind = ExplicitMessaging | ExclusiveOwner | InputOnly | ListenOnly
  datatype Link = NullLink | Multicast | PointToPoint | InvalidLink
  datatype State = NonExistent | Established | TimedOut
  datatype TransportClass = Class0 | Class1 | Class2 | Class3 | InvalidClass
  datatype Trigger = Cyclic | ChangeOfState | ApplicationObject | InvalidTrigger
  datatype Target = MessageRouter | Assembly

  datatype Originator = Originator(vendor: nat, serial: nat)
  datatype Triad = Triad(connection: nat, originator: Originator)

  /** What stays fixed from the moment a connection is opened. */
  datatype Terms = Terms(
    kind: Kind,
    triad: Triad,
    address: bv32,
    session: nat,
    output: nat, input: nat, config: nat,
    transport: TransportClass, trigger: Trigger, server: bool,
    oToT: Link, tToO: Link,
    tToOVariable: bool, tToOPriority: nat,
    oToTInterval: nat, tToOInterval: nat,
    multiplier: nat,
    inhibit: nat,
    consumedId: nat, producedId: nat,
    consuming: bool)

  /** An active connection. `producing` says that its producing socket is valid. */
  datatype Connection = Connection(
    terms: Terms,
    state: State,
    producing: bool,
    watchdog: nat, lastPackage: nat, transmission: nat,
    eipProducing: nat, eipConsuming: nat, eipReceived: bool)

  /** A parsed Forward Open request. `configStatus` is the verdict of the application on the
      configuration data that came with it, 0 for none or accepted; the items are the type ids
      of the two socket address items. */
  datatype Request = Request(
    target: Target,
    terms: Terms,
    oToTSize: nat, tToOSize: nat,
    item0: nat, item1: nat,
    configStatus: nat)

  datatype Reply = Opened(consumedId: nat, producedId: nat) | Refused(general: nat, extended: nat)

  datatype Point = Point(output: nat, input: nat, config: nat)

  /** What the device is built with. `assemblies` gives each assembly instance its data length;
      `multicastInputs` are the input assemblies that are produced by multicast. */
  datatype Config = Config(
    owners: seq<Point>, inputs: seq<Point>, listens: seq<Point>,
    inputsPerPoint: nat, listensPerPoint: nat, explicits: nat,
    assemblies: map<nat, nat>,
    consumeRunIdle: bool, produceRunIdle: bool,
    multicastInputs: set<nat>,
    interfaceAddress: bv32, networkMask: bv32,
    incarnation: nat,
    tick: nat)
  {
    /** Exclusive owner points have pairwise distinct input assemblies. */
    ghost predicate Valid() {
      && tick > 0
      && forall i, j :: 0 <= i < j < |owners| ==> owners[i].input != owners[j].input
    }

    function LinkOf(input: nat): Link {
      if input in multicastInputs then Multicast else PointToPoint
    }
  }

  predicate IsIo(c: Connection) {
    !c.terms.kind.ExplicitMessaging?
  }

  predicate IsMulticastIo(c: Connection) {
    IsIo(c) && c.terms.tToO.Multicast?
  }

  /** The searches over the active list. */
  datatype Query =
    | MasterFor(input: nat)
    | ProducerOf(input: nat, multicastOnly: bool)
    | OwnerOf(input: nat)
    | ConsumerOf(id: nat)
    | EstablishedTriad(triad: Triad)
    | ListedTriad(triad: Triad)
    | OtherLiveOf(originator: Originator, except: Slot)
    | MessagingOf(session: nat)
    | DisagreesWith(terms: Terms)

  predicate Hit(q: Query, x: Slot, c: Connection) {
    match q
    case MasterFor(input) =>
      && (c.terms.kind.ExclusiveOwner? || c.terms.kind.InputOnly?)
      && c.state.Established? && c.terms.input == input && c.terms.tToO.Multicast? && !c.producing
    case ProducerOf(input, multicastOnly) =>
      && IsIo(c) && c.terms.input == input && c.producing
      && (c.terms.tToO.Multicast? || (!multicastOnly && c.terms.tToO.PointToPoint?))
    case OwnerOf(input) =>
      c.terms.kind.ExclusiveOwner? && !c.state.NonExistent? && c.terms.input == input
    case ConsumerOf(id) =>
      c.state.Established? && c.terms.consumedId == id
    case EstablishedTriad(triad) =>
      c.state.Established? && c.terms.triad == triad
    case ListedTriad(triad) =>
      !c.state.NonExistent? && c.terms.triad == triad
    case OtherLiveOf(originator, except) =>
      c.terms.triad.originator == originator && x != except && !c.state.TimedOut?
    case MessagingOf(session) =>
      c.terms.transport.Class3? && c.terms.session == session
    case DisagreesWith(terms) =>
      terms.tToO.Multicast? && c.terms.input == terms.input && Mismatch(terms, c.terms) != 0
  }

  /** The extended status for the first T->O parameter on which two connections differ. */
  function Mismatch(a: Terms, b: Terms): nat {
    if a.tToOInterval != b.tToOInterval then 0x0112
    else if a.tToOVariable != b.tToOVariable then 0x0135
    else if a.tToOPriority != b.tToOPriority then 0x0136
    else if a.transport != b.transport then 0x0137
    else if a.trigger != b.trigger then 0x0138
    else if a.inhibit != b.inhibit then 0x0139
    else 0
  }

  /** The first element of the list that a query hits. */
  function First(active: seq<Slot>, conns: map<Slot, Connection>, q: Query): (r: Option<Slot>)
    ensures r.Some? ==> r.value in active && r.value in conns && Hit(q, r.value, conns[r.value])
    ensures r.None? ==> forall x :: x in active && x in conns ==> !Hit(q, x, conns[x])
  {
    if active == [] then None
    else if active[0] in conns && Hit(q, active[0], conns[active[0]]) then Some(active[0])
    else First(active[1..], conns, q)
  }

  /** A query sees only what it hits: two tables that agree on that have the same first hit. */
  lemma {:induction false} FirstDependsOnHits(active: seq<Slot>, a: map<Slot, Connection>, b: map<Slot, Connection>,
                                              q: Query)
    requires forall x :: x in active ==>
      ((x in a && Hit(q, x, a[x])) <==> (x in b && Hit(q, x, b[x])))
    ensures First(active, a, q) == First(active, b, q)
  {
    if active != [] {
      assert active[0] in active;
      assert forall x :: x in active[1..] ==> x in active;
      FirstDependsOnHits(active[1..], a, b, q);
    }
  }

  predicate Distinct<T(==)>(a: seq<T>) {
    forall i, j :: 0 <= i < j < |a| ==> a[i] != a[j]
  }

  /** A list without the elements of a set, in the same order. */
  function Without(a: seq<Slot>, gone: set<Slot>): (r: seq<Slot>)
    ensures forall x :: x in r <==> x in a && x !in gone
    ensures |r| <= |a|
  {
    if a == [] then []
    else (if a[0] in gone then [] else [a[0]]) + Without(a[1..], gone)
  }

  lemma {:induction false} WithoutDistinct(a: seq<Slot>, gone: set<Slot>)
    requires Distinct(a)
    ensures Distinct(Without(a, gone))
  {
    if a != [] {
      assert Distinct(a[1..]);
      WithoutDistinct(a[1..], gone);
      assert forall x :: x in Without(a[1..], gone) ==> x in a[1..];
    }
  }

  lemma {:induction false} WithoutNothing(a: seq<Slot>, gone: set<Slot>)
    requires forall x :: x in a ==> x !in gone
    ensures Without(a, gone) == a
  {
    if a != [] {
      assert a[0] in a;
      WithoutNothing(a[1..], gone);
    }
  }

  lemma {:induction false} WithoutTwice(a: seq<Slot>, s: set<Slot>, t: set<Slot>)
    ensures Without(Without(a, s), t) == Without(a, s + t)
  {
    if a != [] {
      var rest := Without(a[1..], s);
      WithoutTwice(a[1..], s, t);
      if a[0] in s {
        assert Without(a, s) == rest;
      } else {
        assert Without(a, s)[1..] == rest;
      }
    }
  }

  lemma {:induction false} WithoutConcat(a: seq<Slot>, b: seq<Slot>, gone: set<Slot>)
    ensures Without(a + b, gone) == Without(a, gone) + Without(b, gone)
  {
    if a == [] {
      assert a + b == b;
    } else {
      assert (a + b)[1..] == a[1..] + b;
      WithoutConcat(a[1..], b, gone);
    }
  }

  // ----- timer values -----

  function Pow2(n: nat): nat {
    if n == 0 then 1 else 2 * Pow2(n - 1)
  }

  /** The regular inactivity watchdog value in milliseconds, in 64 bits. */
  function Watchdog(t: Terms): nat {
    (t.oToTInterval / 1000 * Pow2(2 + t.multiplier)) % UINT64
  }

  function InitialWatchdog(t: Terms): nat {
    if Watchdog(t) > 10000 then Watchdog(t) else 10000
  }

  /** The T->O interval in milliseconds, rounded down to the timer tick, in 16 bits. */
  function RequestedInterval(interval: nat, tick: nat): nat
    requires tick > 0
  {
    var remainder := interval % (tick * 1000);
    if remainder == 0 then interval / 1000 % UINT16
    else (interval / 1000 - remainder / 1000) % UINT16
  }

  /** The T->O interval in milliseconds, rounded up to the timer tick, in 16 bits. */
  function ExpectedRate(interval: nat, tick: nat): nat
    requires tick > 0
  {
    var remainder := interval % (tick * 1000);
    if remainder == 0 then interval / 1000 % UINT16
    else (interval / 1000 + (tick - remainder / 1000)) % UINT16
  }

  // ----- serial number comparison -----

  /** The signed reading of an unsigned difference of the given width. */
  function SignedDifference(a: nat, b: nat, modulus: nat): int
    requires modulus > 0
  {
    var d := (a - b) % modulus;
    if d < modulus / 2 then d else d - modulus
  }

  predicate SeqGt32(a: nat, b: nat) {
    SignedDifference(a, b, UINT32) > 0
  }

  predicate SeqLeq16(a: nat, b: nat) {
    SignedDifference(a, b, UINT16) <= 0
  }
}
