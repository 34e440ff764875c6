/** Runs from boot that reach the states in which the connection layer does less than its steps suggest:
    a group nobody sends for, a repeated sequence number, a tick that ends early, a session that is
    closed with a connection left over. */
module ConnectionExamples {
  import opened Connections
  import opened ConnectionModel
  import opened ConnectionInvariants
  import opened ConnectionOpening
  import opened ConnectionRuns
  import opened ConnectionSequence
  import opened ConnectionSilence
  import opened ConnectionTicks
  import opened Widths

  const INPUT: nat := 2

  /** One input assembly, produced by multicast, with an exclusive owner point and an input-only point
      of two connections. */
  const DEVICE := Config(
    [Point(4, INPUT, 3)], [Point(1, INPUT, 3)], [], 2, 0, 2,
    map[1 := 8, INPUT := 8, 4 := 8],
    false, false, {INPUT}, 0, 0, 7, 10)

  const QUIET := Environment(map[])

  /** An I/O request of an originator for the connection point with the given output assembly, with an
      O->T RPI of a second and a given T->O RPI. */
  function AskAt(originator: nat, output: nat, interval: nat): Request {
    Request(
      Assembly,
      Terms(ExplicitMessaging, Triad(originator, Originator(1, originator)), 0, 0, output, INPUT, 3,
            Class0, Cyclic, false, PointToPoint, Multicast, false, 0,
            1_000_000, interval, 0, 0, 0, 0, false),
      8, 8, 0, 0, 0)
  }

  function AskIo(originator: nat, output: nat): Request {
    AskAt(originator, output, 1_000_000)
  }

  /** A request of an originator for a class 3 connection on session 1. */
  function AskMessaging(originator: nat): Request {
    Request(
      MessageRouter,
      Terms(ExplicitMessaging, Triad(originator, Originator(1, originator)), 0, 1, 0, 0, 0,
            Class3, Cyclic, true, PointToPoint, PointToPoint, false, 0,
            1_000_000, 1_000_000, 0, 0, 0, 0, false),
      0, 0, 0, 0, 0)
  }

  lemma InScopeAt(originator: nat, output: nat, interval: nat)
    ensures DEVICE.Valid() && InScope(DEVICE, AskAt(originator, output, interval))
  {
    assert DEVICE.LinkOf(INPUT) == Multicast;
    assert AskAt(originator, output, interval).terms.tToO == Multicast;
    assert AskAt(originator, output, interval).terms.input == INPUT;
  }

  lemma InScopeHere(originator: nat, output: nat)
    ensures DEVICE.Valid()
    ensures InScope(DEVICE, AskIo(originator, output))
    ensures InScope(DEVICE, AskMessaging(originator))
  {
    InScopeAt(originator, output, 1_000_000);
  }

  lemma RunOfTwo(cfg: Config, a: Event, b: Event)
    requires cfg.tick > 0
    ensures Run(cfg, Boot, [a, b]) == Step(cfg, Step(cfg, Boot, a), b)
  {
    assert [a, b][..1] == [a] && [a][..0] == [];
    assert Run(cfg, Boot, []) == Boot && Run(cfg, Boot, [a]) == Step(cfg, Boot, a);
  }

  lemma ScopeOfTwo(a: Event, b: Event)
    requires EventInScope(DEVICE, a) && EventInScope(DEVICE, b)
    ensures EventsInScope(DEVICE, [a, b])
  {}

  // ----- a silent group -----

  /** An input-only connection, alone on its point, is opened. */
  lemma FirstOpen(interval: nat)
    ensures var m := Step(DEVICE, Boot, ForwardOpen(AskAt(1, 1, interval)));
      && m.active == [Input(0, 0)] && m.conns.Keys == {Input(0, 0)} && Sent(m, INPUT) == []
      && var c := m.conns[Input(0, 0)];
      && c.state == Established && c.producing && IsMulticastIo(c) && c.terms.input == INPUT
      && c.terms.kind == InputOnly && c.terms.consuming && c.watchdog == 10000 && c.lastPackage == 0
      && c.transmission == 0 && c.eipProducing == 0
      && c.terms.triad == Triad(1, Originator(1, 1)) && c.terms.tToOInterval == interval
      && Mismatch(AskAt(2, 1, interval).terms, c.terms) == 0
  {
    var r := AskAt(1, 1, interval);
    assert FindPoint(DEVICE.owners, r.terms, 1) == None;
    assert FindPoint(DEVICE.owners, r.terms, 0) == None;
    assert FindFree(Boot, InputOnly, 0, 0, 2) == Some(0);
    assert FindRecyclable(Boot, InputOnly, 0, 2, 2, r.terms.triad.originator) == None;
    assert FindRecyclable(Boot, InputOnly, 0, 1, 2, r.terms.triad.originator) == None;
    assert FindRecyclable(Boot, InputOnly, 0, 0, 2, r.terms.triad.originator) == None;
    assert SelectIndex(Boot, InputOnly, 0, 2, r.terms.triad.originator) == Chosen(Input(0, 0), false);
    assert SelectPoint(Boot, r.terms, InputOnly, DEVICE.inputs, 2, 0, 0) == Chosen(Input(0, 0), false);
    assert Select(DEVICE, Boot, r.terms) == (InputOnly, Chosen(Input(0, 0), false));
  }

  /** Nothing arrives for 20 s: it times out and, with no master left, keeps its producing socket. */
  lemma FirstTimesOut()
    ensures var m := Step(DEVICE, Boot, ForwardOpen(AskIo(1, 1)));
      var m1 := Step(DEVICE, m, Tick(20000, QUIET));
      && Input(0, 0) in m.conns && m1.active == [Input(0, 0)] && m1.conns.Keys == {Input(0, 0)} && Sent(m1, INPUT) == []
      && m1.conns[Input(0, 0)] == m.conns[Input(0, 0)].(state := TimedOut)
  {
    FirstOpen(1_000_000);
    var m := Step(DEVICE, Boot, ForwardOpen(AskIo(1, 1)));
    var x := Input(0, 0);
    var m0 := Retire(m, x, TimedOut);
    assert EndOriginator(m0, x, QUIET) == m0;
    assert First([], m0.conns, MasterFor(INPUT)) == None;
    assert Search(m0, MasterFor(INPUT)) == None;
    assert OfKind(m0, INPUT, ListenOnly) == {};
    assert m0.active[1..] == [];
    assert Without(m0.active, {}) == [x];
    assert Relinquish(m0, x) == m0;
    assert TimeOut(m, x, QUIET) == m0;
    assert Process(DEVICE, m, x, 20000, QUIET) == m0;
    assert TickOver(DEVICE, m0, [], 20000, QUIET) == m0;
    assert m.active[1..] == [];
  }

  /** A request for the first input-only point finds its second slot free if only the first is taken, by
      somebody else. */
  lemma SecondSlot(m: Model, originator: nat)
    requires m.active == [Input(0, 0)] && m.conns.Keys == {Input(0, 0)}
    requires m.conns[Input(0, 0)].terms.triad.originator == Originator(1, 1) && originator != 1
    requires !m.conns[Input(0, 0)].state.NonExistent?
    ensures Select(DEVICE, m, AskIo(originator, 1).terms) == (InputOnly, Chosen(Input(0, 1), false))
  {
    var t := AskIo(originator, 1).terms;
    var o := t.triad.originator;
    assert FindPoint(DEVICE.owners, t, 1) == None;
    assert FindPoint(DEVICE.owners, t, 0) == None;
    assert FindFree(m, InputOnly, 0, 1, 2) == Some(1);
    assert FindFree(m, InputOnly, 0, 0, 2) == Some(1);
    assert FindRecyclable(m, InputOnly, 0, 2, 2, o) == None;
    assert FindRecyclable(m, InputOnly, 0, 1, 2, o) == None;
    assert FindRecyclable(m, InputOnly, 0, 0, 2, o) == None;
    assert SelectIndex(m, InputOnly, 0, 2, o) == Chosen(Input(0, 1), false);
    assert SelectPoint(m, t, InputOnly, DEVICE.inputs, 2, 0, 0) == Chosen(Input(0, 1), false);
  }

  /** The search of a list of one. */
  lemma SearchOne(m: Model, q: Query)
    requires m.active == [Input(0, 0)] && Input(0, 0) in m.conns
    ensures Search(m, q) == if Hit(q, Input(0, 0), m.conns[Input(0, 0)]) then Some(Input(0, 0)) else None
  {
    assert m.active[1..] == [];
    assert First([], m.conns, q) == None;
  }

  /** A request of the second originator passes all checks while only the first one's connection is
      there, and its connection is admitted. */
  lemma SecondPasses(m: Model, output: nat)
    requires m.active == [Input(0, 0)] && m.conns.Keys == {Input(0, 0)} && (output == 1 || output == 4)
    requires var c := m.conns[Input(0, 0)];
      && c.terms.input == INPUT && c.terms.triad == Triad(1, Originator(1, 1)) &&
           Mismatch(AskIo(2, 1).terms, c.terms) == 0
    requires Select(DEVICE, m, AskIo(2, output).terms) == (if output == 1 then InputOnly else ExclusiveOwner,
      Chosen(if output == 1 then Input(0, 1) else Owner(0), false))
    ensures var (r, x) := (AskIo(2, output), if output == 1 then Input(0, 1) else Owner(0));
      && Acceptable(DEVICE, m, r)
      && var (m2, c) := Admission(DEVICE, m, r);
         m2 == m.(lastId := m2.lastId) && Step(DEVICE, m, ForwardOpen(r)) == Admit(m2, x, c)
  {
    var r := AskIo(2, output);
    SearchOne(m, EstablishedTriad(r.terms.triad));
    assert EarlyRefusal(DEVICE, m, r.terms) == 0;
    var (m2, t) := Configured(DEVICE, m, r);
    SecondConfigured(m2, t, output);
    OpenedIfAcceptable(DEVICE, m, r);
    EstablishIoShape(DEVICE, m, r);
  }

  lemma SecondConfigured(m: Model, t: Terms, output: nat)
    requires m.active == [Input(0, 0)] && m.conns.Keys == {Input(0, 0)} && (output == 1 || output == 4)
    requires m.conns[Input(0, 0)].terms.input == INPUT && Mismatch(AskIo(2, 1).terms, m.conns[Input(0, 0)].terms) == 0
    requires t == AskIo(2, output).terms.(kind := t.kind, inhibit := 0, consumedId := t.consumedId,
      producedId := t.producedId)
    ensures SetupStatus(DEVICE, m, t, AskIo(2, output)) == 0 && ItemsSuffice(AskIo(2, output))
  {
    SearchOne(m, DisagreesWith(t));
  }

  /** The two-element state after an input-only connection joins. */
  lemma Joins(m: Model, x: Slot, c: Connection)
    requires m.active == [Input(0, 0)] && m.conns.Keys == {Input(0, 0)} && x != Input(0, 0)
    requires Holds(m, Input(0, 0), INPUT) && c.terms.tToO.Multicast? && c.terms.input == INPUT
    ensures Search(m, ProducerOf(INPUT, true)) == Some(Input(0, 0))
    ensures var m1 := Admit(m, x, c);
      && m1.active == [x, Input(0, 0)] && x in m1.conns && Input(0, 0) in m1.conns
      && var (d, e) := (m1.conns[x], m1.conns[Input(0, 0)]);
      && d == c.(terms := d.terms, producing := d.producing)
      && d.terms == c.terms.(producedId := m.conns[Input(0, 0)].terms.producedId)
      && d.producing == (if c.terms.kind.ExclusiveOwner? then true else c.producing)
      && e == (if c.terms.kind.ExclusiveOwner? then m.conns[Input(0, 0)].(producing := false) else m.conns[Input(0, 0)])
      && m1.history == m.history
  {
    SearchOne(m, ProducerOf(INPUT, true));
    assert [x] + [Input(0, 0)] == [x, Input(0, 0)];
  }

  /** A second originator joins a group whose holder has timed out: it is Established, gets the id of
      the group, and nobody sends for it. */
  lemma SilentGroup()
    ensures var events := [ForwardOpen(AskIo(1, 1)), Tick(20000, QUIET)];
      var m := Run(DEVICE, Boot, events);
      var m1 := Step(DEVICE, m, ForwardOpen(AskIo(2, 1)));
      && DEVICE.Valid() && EventsInScope(DEVICE, events) && InScope(DEVICE, AskIo(2, 1))
      && OpensSilent(DEVICE, m, AskIo(2, 1))
      && m1.active == [Input(0, 1), Input(0, 0)] && Input(0, 1) in m1.conns && Input(0, 0) in m1.conns
      && m1.conns[Input(0, 1)].state == Established && !m1.conns[Input(0, 1)].producing
      && Holds(m1, Input(0, 0), INPUT) && m1.conns[Input(0, 0)].state == TimedOut
      && !Sounding(DEVICE, m1)
  {
    var (a, b) := (ForwardOpen(AskIo(1, 1)), Tick(20000, QUIET));
    InScopeHere(1, 1);
    InScopeHere(2, 1);
    ScopeOfTwo(a, b);
    RunOfTwo(DEVICE, a, b);
    FirstOpen(1_000_000);
    FirstTimesOut();
    SilentJoin(Run(DEVICE, Boot, [a, b]));
  }

  lemma SilentJoin(m: Model)
    requires m.active == [Input(0, 0)] && m.conns.Keys == {Input(0, 0)}
    requires var c := m.conns[Input(0, 0)];
      && c.terms.triad == Triad(1, Originator(1, 1)) && Mismatch(AskIo(2, 1).terms, c.terms) == 0
      && c.state == TimedOut && Holds(m, Input(0, 0), INPUT)
    ensures OpensSilent(DEVICE, m, AskIo(2, 1))
    ensures var m1 := Step(DEVICE, m, ForwardOpen(AskIo(2, 1)));
      && m1.active == [Input(0, 1), Input(0, 0)] && Input(0, 1) in m1.conns && Input(0, 0) in m1.conns
      && m1.conns[Input(0, 1)].state == Established && !m1.conns[Input(0, 1)].producing
      && Holds(m1, Input(0, 0), INPUT) && m1.conns[Input(0, 0)].state == TimedOut
      && !Sounding(DEVICE, m1)
  {
    SecondSlot(m, 2);
    SecondPasses(m, 1);
    var (m2, c) := Admission(DEVICE, m, AskIo(2, 1));
    Joins(m, Input(0, 1), c);
    Joins(m2, Input(0, 1), c);
    var m1 := Admit(m2, Input(0, 1), c);
    assert Member(m1, Input(0, 1), INPUT) && Holds(m1, Input(0, 0), INPUT);
  }

  /** A request whose packet rate comes to 0 is accepted: the connection is Established, holds the group
      and never sends. Such T->O RPIs are 0 and 327.68 s. */
  lemma SilentRate(interval: nat, elapsed: nat)
    requires ExpectedRate(interval, DEVICE.tick) == 0
    ensures var (r, events) := (AskAt(1, 1, interval), [ForwardOpen(AskAt(1, 1, interval))]);
      var m := Run(DEVICE, Boot, events);
      && EventsInScope(DEVICE, events) && OpensSilent(DEVICE, Boot, r) && Open(DEVICE, Boot, r).1.Opened?
      && m.active == [Input(0, 0)] && Input(0, 0) in m.conns
      && m.conns[Input(0, 0)].state == Established && Holds(m, Input(0, 0), INPUT) && !Sounding(DEVICE, m)
      && Produce(DEVICE, m, Input(0, 0), elapsed) == m
    ensures ExpectedRate(0, DEVICE.tick) == 0 && ExpectedRate(327_680_000, DEVICE.tick) == 0
  {
    var (a, x) := (ForwardOpen(AskAt(1, 1, interval)), Input(0, 0));
    InScopeAt(1, 1, interval);
    FirstOpen(interval);
    var m := Step(DEVICE, Boot, a);
    assert [a][..0] == [] && Run(DEVICE, Boot, []) == Boot && Run(DEVICE, Boot, [a]) == m;
    assert Member(m, x, INPUT) && Holds(m, x, INPUT);
    assert Open(DEVICE, Boot, AskAt(1, 1, interval)).1.Opened?;
    OpenedIfAcceptable(DEVICE, Boot, AskAt(1, 1, interval));
  }

  // ----- a repeated sequence number -----

  lemma FirstSends()
    ensures var m := Step(DEVICE, Boot, ForwardOpen(AskIo(1, 1)));
      var m1 := Step(DEVICE, m, Tick(10, QUIET));
      && m1.active == [Input(0, 0)] && m1.conns.Keys == {Input(0, 0)} && Input(0, 0) in m.conns
      && var (c, d) := (m.conns[Input(0, 0)], m1.conns[Input(0, 0)]);
      && d.terms == c.terms && d.state == Established && d.producing && d.eipProducing == 1 && d.watchdog == 9990
      && Sent(m1, INPUT) == [Frame(1, c.terms.producedId)]
  {
    FirstOpen(1_000_000);
    var m := Step(DEVICE, Boot, ForwardOpen(AskIo(1, 1)));
    var x := Input(0, 0);
    assert ExpectedRate(1_000_000, 10) == 1000 && m.conns[x].terms.tToOInterval == 1_000_000;
    var m1 := Watch(m, x, 10, QUIET);
    assert m1.conns[x] == m.conns[x].(watchdog := 9990, lastPackage := UINT64 - 10);
    FirstProduces(m1, x);
    var m2 := Produce(DEVICE, m1, x, 10);
    assert Process(DEVICE, m, x, 10, QUIET) == m2;
    assert TickOver(DEVICE, m2, [], 10, QUIET) == m2;
    assert m.active[1..] == [];
  }

  /** A holder whose timer stands at 0 sends its first frame. */
  lemma FirstProduces(m: Model, x: Slot)
    requires x in m.conns && m.conns[x].producing && IsMulticastIo(m.conns[x])
    requires m.conns[x].terms.tToOInterval == 1_000_000 && m.conns[x].transmission == m.conns[x].eipProducing == 0
    ensures var m1 := Produce(DEVICE, m, x, 10);
      && m1.active == m.active && m1.conns.Keys == m.conns.Keys
      && m1.conns[x] == m.conns[x].(eipProducing := 1, transmission := m1.conns[x].transmission)
      && Sent(m1, m.conns[x].terms.input) == Sent(m, m.conns[x].terms.input) + [Frame(1, m.conns[x].terms.producedId)]
  {
    assert ExpectedRate(1_000_000, 10) == 1000;
    assert Pace(0, RequestedInterval(1_000_000, 10), 10).0;
  }

  /** The exclusive owner point is free while only the input-only connection is there. */
  lemma OwnerSlot(m: Model)
    requires m.active == [Input(0, 0)] && Input(0, 0) in m.conns && m.conns[Input(0, 0)].terms.kind == InputOnly
    ensures Select(DEVICE, m, AskIo(2, 4).terms) == (ExclusiveOwner, Chosen(Owner(0), false))
  {
    var t := AskIo(2, 4).terms;
    SearchOne(m, OwnerOf(INPUT));
    assert FindPoint(DEVICE.owners, t, 0) == Some(0);
  }

  /** An exclusive owner takes over a group that has sent its first frame: it gets the id and the socket
      but not the count, and the next frame of the group repeats the number of the last one. */
  lemma TakeOver()
    ensures var events := [ForwardOpen(AskIo(1, 1)), Tick(10, QUIET)];
      var m := Run(DEVICE, Boot, events);
      var m1 := Step(DEVICE, m, ForwardOpen(AskIo(2, 4)));
      var m2 := Step(DEVICE, m1, Tick(10, QUIET));
      && DEVICE.Valid() && EventsInScope(DEVICE, events) && InScope(DEVICE, AskIo(2, 4))
      && TakesOver(DEVICE, m, AskIo(2, 4)) && !Continuous(m1, false)
      && Input(0, 0) in m.conns
      && var f := Frame(1, m.conns[Input(0, 0)].terms.producedId);
         Sent(m, INPUT) == Sent(m1, INPUT) == [f] && Sent(m2, INPUT) == [f, f]
  {
    var (a, b) := (ForwardOpen(AskIo(1, 1)), Tick(10, QUIET));
    InScopeHere(1, 1);
    InScopeHere(2, 4);
    ScopeOfTwo(a, b);
    RunOfTwo(DEVICE, a, b);
    FirstOpen(1_000_000);
    FirstSends();
    var m := Run(DEVICE, Boot, [a, b]);
    RunningTakeOver(m);
    RepeatedNumber(Step(DEVICE, m, ForwardOpen(AskIo(2, 4))));
  }

  lemma RunningTakeOver(m: Model)
    requires m.active == [Input(0, 0)] && m.conns.Keys == {Input(0, 0)}
    requires var c := m.conns[Input(0, 0)];
      && c.terms.triad == Triad(1, Originator(1, 1)) && Mismatch(AskIo(2, 1).terms, c.terms) == 0
      && c.terms.kind == InputOnly && c.eipProducing == 1 && Holds(m, Input(0, 0), INPUT)
      && Sent(m, INPUT) == [Frame(1, c.terms.producedId)]
    ensures TakesOver(DEVICE, m, AskIo(2, 4))
    ensures var m1 := Step(DEVICE, m, ForwardOpen(AskIo(2, 4)));
      && m1.active == [Owner(0), Input(0, 0)] && Owner(0) in m1.conns && Input(0, 0) in m1.conns
      && Holds(m1, Owner(0), INPUT) && m1.conns[Owner(0)].eipProducing == 0
      && m1.conns[Owner(0)] == Fresh(m1.conns[Owner(0)].terms).(producing := true)
      && m1.conns[Owner(0)].terms.producedId == m.conns[Input(0, 0)].terms.producedId
      && m1.conns[Owner(0)].terms.tToOInterval == 1_000_000
      && m1.conns[Input(0, 0)] == m.conns[Input(0, 0)].(producing := false)
      && Sent(m1, INPUT) == Sent(m, INPUT) && !Continuous(m1, false)
  {
    OwnerSlot(m);
    SecondPasses(m, 4);
    var (m2, c) := Admission(DEVICE, m, AskIo(2, 4));
    Joins(m, Owner(0), c);
    Joins(m2, Owner(0), c);
    var m1 := Admit(m2, Owner(0), c);
    assert Holds(m1, Owner(0), INPUT);
    assert !InStep(m1.conns[Owner(0)], Sent(m1, INPUT), false);
  }

  /** The owner sends its first frame in the next tick. */
  lemma RepeatedNumber(m: Model)
    requires m.active == [Owner(0), Input(0, 0)] && Owner(0) in m.conns && Input(0, 0) in m.conns
    requires var (c, d) := (m.conns[Owner(0)], m.conns[Input(0, 0)]);
      && c == Fresh(c.terms).(producing := true) && IsMulticastIo(c) && c.terms.input == INPUT
      && c.terms.tToOInterval == 1_000_000
      && !d.producing && d.state.Established? && 10 < d.watchdog
      && Sent(m, INPUT) == [Frame(1, c.terms.producedId)]
    ensures var f := Frame(1, m.conns[Owner(0)].terms.producedId);
      Sent(Step(DEVICE, m, Tick(10, QUIET)), INPUT) == [f, f]
  {
    var (x, y) := (Owner(0), Input(0, 0));
    OwnerSends(m);
    var m2 := Process(DEVICE, m, x, 10, QUIET);
    IdleLeavesHistory(m2, y, 10);
    var m3 := Process(DEVICE, m2, y, 10, QUIET);
    assert TickOver(DEVICE, m3, [], 10, QUIET) == m3;
    assert TickOver(DEVICE, m2, [y], 10, QUIET).history == m3.history by {
      assert [y][1..] == [];
    }
    assert m.active[1..] == [y];
  }

  lemma OwnerSends(m: Model)
    requires Owner(0) in m.conns && Input(0, 0) in m.conns
    requires var c := m.conns[Owner(0)];
      && c == Fresh(c.terms).(producing := true) && IsMulticastIo(c) && c.terms.input == INPUT
      && c.terms.tToOInterval == 1_000_000
    ensures var m1 := Process(DEVICE, m, Owner(0), 10, QUIET);
      && Owner(0) in m1.conns && Input(0, 0) in m1.conns && m1.conns[Input(0, 0)] == m.conns[Input(0, 0)]
      && Sent(m1, INPUT) == Sent(m, INPUT) + [Frame(1, m.conns[Owner(0)].terms.producedId)]
  {
    assert ExpectedRate(1_000_000, 10) == 1000;
    var m1 := Watch(m, Owner(0), 10, QUIET);
    assert m1.history == m.history && m1.conns[Owner(0)].transmission == 0 && m1.conns[Owner(0)].state == Established;
    assert Pace(0, RequestedInterval(1_000_000, 10), 10).0;
  }

  /** A connection without a producing socket that is not due to expire sends nothing. */
  lemma IdleLeavesHistory(m: Model, y: Slot, elapsed: nat)
    requires y in m.conns && !m.conns[y].producing && m.conns[y].state.Established? && elapsed < m.conns[y].watchdog
    ensures var m1 := Process(DEVICE, m, y, elapsed, QUIET); y in m1.conns && m1.history == m.history
  {}

  // ----- two messaging connections -----

  /** A class 3 connection enters at the head, in the first free explicit slot. */
  lemma MessagingOpens(m: Model, originator: nat, k: nat)
    requires Search(m, EstablishedTriad(Triad(originator, Originator(1, originator)))) == None
    requires FindFreeExplicit(m, 0, 2) == Some(k)
    ensures var m1 := Step(DEVICE, m, ForwardOpen(AskMessaging(originator)));
      && m1.active == [Explicit(k)] + m.active && Explicit(k) in m1.conns
      && m1.conns == m.conns[Explicit(k) := m1.conns[Explicit(k)]]
      && var c := m1.conns[Explicit(k)];
      && c.state == Established && !IsIo(c) && Watched(c) && c.watchdog == 10000
      && c.terms.transport == Class3 && c.terms.session == 1
      && c.terms.triad == Triad(originator, Originator(1, originator))
  {
    var r := AskMessaging(originator);
    assert EarlyRefusal(DEVICE, m, r.terms) == 0;
    assert Step(DEVICE, m, ForwardOpen(r)) == EstablishExplicit(DEVICE, m, r).0;
  }

  lemma TwoInScope()
    ensures DEVICE.Valid()
    ensures EventsInScope(DEVICE, [ForwardOpen(AskMessaging(1)), ForwardOpen(AskMessaging(2))])
  {
    InScopeHere(1, 1);
    InScopeHere(2, 1);
    ScopeOfTwo(ForwardOpen(AskMessaging(1)), ForwardOpen(AskMessaging(2)));
  }

  /** Two originators open a class 3 connection each; the later one is in front. */
  lemma TwoMessaging()
    ensures var m := Run(DEVICE, Boot, [ForwardOpen(AskMessaging(1)), ForwardOpen(AskMessaging(2))]);
      && DEVICE.Valid()
      && EventsInScope(DEVICE, [ForwardOpen(AskMessaging(1)), ForwardOpen(AskMessaging(2))])
      && m.active == [Explicit(1), Explicit(0)] && m.conns.Keys == {Explicit(0), Explicit(1)}
      && forall k :: 0 <= k < 2 ==>
           var c := m.conns[Explicit(k)];
           && c.state == Established && !IsIo(c) && Watched(c) && c.watchdog == 10000
           && c.terms.transport == Class3 && c.terms.session == 1
  {
    var (a, b) := (ForwardOpen(AskMessaging(1)), ForwardOpen(AskMessaging(2)));
    TwoInScope();
    RunOfTwo(DEVICE, a, b);
    assert FindFreeExplicit(Boot, 0, 2) == Some(0);
    MessagingOpens(Boot, 1, 0);
    var m := Step(DEVICE, Boot, a);
    SecondMessaging(m);
    MessagingOpens(m, 2, 1);
  }

  lemma SecondMessaging(m: Model)
    requires m.active == [Explicit(0)] && m.conns.Keys == {Explicit(0)}
    requires !Free(m, Explicit(0)) && m.conns[Explicit(0)].terms.triad == Triad(1, Originator(1, 1))
    ensures Search(m, EstablishedTriad(Triad(2, Originator(1, 2)))) == None
    ensures FindFreeExplicit(m, 0, 2) == Some(1)
  {
    assert m.active[1..] == [];
    assert First([], m.conns, EstablishedTriad(Triad(2, Originator(1, 2)))) == None;
    assert FindFreeExplicit(m, 1, 2) == Some(1);
  }

  /** Both are due, but the tick ends with the first: the second keeps its state and its watchdog. */
  lemma ShortTick()
    ensures var m := Run(DEVICE, Boot, [ForwardOpen(AskMessaging(1)), ForwardOpen(AskMessaging(2))]);
      var m1 := Step(DEVICE, m, Tick(20000, QUIET));
      && m.active == [Explicit(1), Explicit(0)] && Explicit(0) in m.conns && Explicit(1) in m.conns
      && Expires(m.conns[Explicit(1)], 20000) && Expires(m.conns[Explicit(0)], 20000)
      && NoSessionEnds(m, QUIET)
      && m1.active == [Explicit(0)] && m1.conns == map[Explicit(0) := m.conns[Explicit(0)]]
  {
    TwoMessaging();
    var m := Run(DEVICE, Boot, [ForwardOpen(AskMessaging(1)), ForwardOpen(AskMessaging(2))]);
    assert m.active[1..] == [Explicit(0)];
    assert Without([Explicit(0)], {Explicit(1)}) == [Explicit(0)];
    assert Without(m.active, {Explicit(1)}) == [Explicit(0)];
    assert Process(DEVICE, m, Explicit(1), 20000, QUIET) == Drop(m, {Explicit(1)});
  }

  /** Both belong to one session: when it ends, one of them is left. */
  lemma SessionLeftover()
    ensures var m := Run(DEVICE, Boot, [ForwardOpen(AskMessaging(1)), ForwardOpen(AskMessaging(2))]);
      var m1 := Step(DEVICE, m, EndSession(1));
      && m1.active == [Explicit(0)] && Explicit(0) in m1.conns
      && m1.conns[Explicit(0)].terms.session == 1 && m1.conns[Explicit(0)].state == Established
      && Search(m1, MessagingOf(1)).Some?
  {
    TwoMessaging();
    var m := Run(DEVICE, Boot, [ForwardOpen(AskMessaging(1)), ForwardOpen(AskMessaging(2))]);
    assert m.active[1..] == [Explicit(0)];
    assert Search(m, MessagingOf(1)) == Some(Explicit(1));
    assert Without([Explicit(0)], {Explicit(1)}) == [Explicit(0)];
    assert Without(m.active, {Explicit(1)}) == [Explicit(0)];
  }
}
