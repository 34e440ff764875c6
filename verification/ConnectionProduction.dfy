/** When a connection produces, point-to-point or for a group: in one tick, and over runs. */
module ConnectionProduction {
  import opened Connections
  import opened ConnectionModel
  import opened ConnectionInvariants
  import opened ConnectionOpening
  import opened ConnectionPacing
  import opened ConnectionRuns
  import opened ConnectionSequence
  import opened ConnectionSilence
  import opened ConnectionTicks
  import opened Timing
  import opened Widths

  // ----- one visit -----

  /** What a tick makes of a producing connection: with a packet rate it counts one frame on exactly if its
      timer is due, and the timer moves on; without a rate it stands still. */
  predicate ProducedOnce(cfg: Config, c: Connection, d: Connection, elapsed: nat) {
    && d.terms == c.terms && d.state == c.state && d.producing
    && var interval := IntervalOf(cfg, c.terms);
       if !HasRate(cfg, c.terms) then d.eipProducing == c.eipProducing && d.transmission == c.transmission
       else if c.transmission <= elapsed then
         && d.eipProducing == (c.eipProducing + 1) % UINT32
         && d.transmission == (if c.transmission + interval > elapsed then c.transmission + interval - elapsed else 0)
       else d.eipProducing == c.eipProducing && d.transmission == c.transmission - elapsed
  }

  lemma VisitProduces(cfg: Config, m: Model, y: Slot, elapsed: nat, environment: Environment)
    requires cfg.tick > 0 && y in m.conns && m.conns[y].producing && m.conns[y].state.Established?
    requires !Expires(m.conns[y], elapsed)
    ensures var m1 := Process(cfg, m, y, elapsed, environment);
      y in m1.conns && ProducedOnce(cfg, m.conns[y], m1.conns[y], elapsed)
  {
    var m1 := Watch(m, y, elapsed, environment);
    assert y in m1.conns && m1.conns[y].transmission == m.conns[y].transmission;
  }

  // ----- the visits of others -----

  /** Whoever produces and is not z keeps its record or goes. */
  ghost predicate Untouched(m: Model, m1: Model, z: Slot) {
    forall y :: y in m1.conns && y != z ==> y in m.conns && (m.conns[y].producing ==> m1.conns[y] == m.conns[y])
  }

  lemma UntouchedOn(m: Model, m1: Model, m2: Model, z: Slot)
    requires Untouched(m, m1, z) && Untouched(m1, m2, z)
    ensures Untouched(m, m2, z)
  {}

  lemma RelinquishUntouched(m: Model, z: Slot)
    requires z in m.conns
    ensures Untouched(m, Relinquish(m, z), z)
  {}

  lemma DependentsUntouched(m: Model, input: nat, z: Slot)
    ensures Untouched(m, CloseDependents(m, input), z)
  {}

  lemma CloseUntouched(m: Model, z: Slot)
    requires z in m.conns
    ensures Untouched(m, Close(m, z), z)
  {
    if IsIo(m.conns[z]) {
      var m1 := Retire(m, z, NonExistent);
      RelinquishUntouched(m1, z);
      UntouchedOn(m, m1, if ControlsGroup(m1.conns[z]) then Relinquish(m1, z) else m1, z);
    }
  }

  lemma ExpiryUntouched(cfg: Config, m: Model, z: Slot, environment: Environment)
    requires Inv(cfg, m) && z in m.conns && IsIo(m.conns[z])
    ensures Untouched(m, EndOriginator(Retire(m, z, TimedOut), z, environment), z)
  {
    ExpiryAside(cfg, m, z, environment);
  }

  lemma TimeOutUntouched(cfg: Config, m: Model, z: Slot, environment: Environment)
    requires Inv(cfg, m) && z in m.conns
    ensures Untouched(m, TimeOut(m, z, environment), z)
  {
    if IsIo(m.conns[z]) {
      var m1 := EndOriginator(Retire(m, z, TimedOut), z, environment);
      ExpiryUntouched(cfg, m, z, environment);
      ExpiryAside(cfg, m, z, environment);
      var m2 := if ControlsGroup(m.conns[z]) then Relinquish(m1, z) else m1;
      RelinquishUntouched(m1, z);
      UntouchedOn(m, m1, m2, z);
      DependentsUntouched(m2, m.conns[z].terms.input, z);
      UntouchedOn(m, m2, CloseDependents(m2, m.conns[z].terms.input), z);
    }
  }

  lemma WatchUntouched(cfg: Config, m: Model, z: Slot, elapsed: nat, environment: Environment)
    requires Inv(cfg, m) && z in m.conns
    ensures Untouched(m, Watch(m, z, elapsed, environment), z)
  {
    if Watched(m.conns[z]) && elapsed >= m.conns[z].watchdog {
      TimeOutUntouched(cfg, m, z, environment);
    }
  }

  lemma ProduceUntouched(cfg: Config, m: Model, z: Slot, elapsed: nat)
    requires cfg.tick > 0 && z in m.conns
    ensures Untouched(m, Produce(cfg, m, z, elapsed), z)
  {}

  lemma VisitUntouched(cfg: Config, m: Model, z: Slot, elapsed: nat, environment: Environment)
    requires Inv(cfg, m) && cfg.tick > 0 && z in m.conns
    ensures Untouched(m, Process(cfg, m, z, elapsed, environment), z)
  {
    if m.conns[z].state.Established? {
      var m1 := Watch(m, z, elapsed, environment);
      WatchUntouched(cfg, m, z, elapsed, environment);
      if z in m1.conns && m1.conns[z].state.Established? {
        ProduceUntouched(cfg, m1, z, elapsed);
        UntouchedOn(m, m1, Produce(cfg, m1, z, elapsed), z);
      }
    }
  }

  // ----- one tick -----

  /** Behind its visit nobody touches a producing connection any more. */
  lemma {:induction false} TickUntouched(cfg: Config, m: Model, rest: seq<Slot>, elapsed: nat,
                                         environment: Environment, y: Slot)
    requires Inv(cfg, m) && cfg.tick > 0 && y !in rest
    ensures var m1 := TickOver(cfg, m, rest, elapsed, environment);
      y in m1.conns ==> y in m.conns && (m.conns[y].producing ==> m1.conns[y] == m.conns[y])
    decreases |rest|
  {
    if rest != [] {
      assert rest[0] in rest;
      if rest[0] in m.conns {
        ProcessKeeps(cfg, m, rest[0], elapsed, environment);
        VisitUntouched(cfg, m, rest[0], elapsed, environment);
        var m1 := Process(cfg, m, rest[0], elapsed, environment);
        if rest[0] in m1.conns {
          TickUntouched(cfg, m1, rest[1..], elapsed, environment, y);
        }
      } else {
        TickUntouched(cfg, m, rest[1..], elapsed, environment, y);
      }
    }
  }

  /** What the tick makes of the connection at position i, unless a cascade removes it. */
  ghost predicate TickProducesAt(cfg: Config, m: Model, rest: seq<Slot>, i: nat, elapsed: nat, environment: Environment)
    requires cfg.tick > 0 && i < |rest| && rest[i] in m.conns
  {
    var (y, m1) := (rest[i], TickOver(cfg, m, rest, elapsed, environment));
    y in m1.conns ==> ProducedOnce(cfg, m.conns[y], m1.conns[y], elapsed)
  }

  /** In a tick every producing connection that is Established, does not expire and is reached sends one
      frame if it has a packet rate and its timer is due, and none otherwise. */
  lemma {:induction false} TickProduces(cfg: Config, m: Model, rest: seq<Slot>, i: nat, elapsed: nat,
                                        environment: Environment)
    requires Inv(cfg, m) && cfg.tick > 0 && Distinct(rest) && i < |rest| && rest[i] in m.conns
    requires m.conns[rest[i]].producing && m.conns[rest[i]].state.Established? && !Expires(m.conns[rest[i]], elapsed)
    requires NoMessagingExpiry(m, rest, i, elapsed)
    ensures TickProducesAt(cfg, m, rest, i, elapsed, environment)
    decreases |rest|
  {
    if i == 0 {
      FirstProduces(cfg, m, rest, elapsed, environment);
    } else if rest[0] !in m.conns {
      NextSkipped(m, rest, i, elapsed);
      TickProduces(cfg, m, rest[1..], i - 1, elapsed, environment);
    } else {
      var m1 := Process(cfg, m, rest[0], elapsed, environment);
      NextUntouched(cfg, m, rest, i, elapsed, environment);
      if rest[i] in m1.conns {
        TickProduces(cfg, m1, rest[1..], i - 1, elapsed, environment);
      }
      TickOnlyRemoves(cfg, m1, rest[1..], elapsed, environment, rest[i]);
    }
  }

  lemma FirstProduces(cfg: Config, m: Model, rest: seq<Slot>, elapsed: nat, environment: Environment)
    requires Inv(cfg, m) && cfg.tick > 0 && Distinct(rest) && rest != [] && rest[0] in m.conns
    requires m.conns[rest[0]].producing && m.conns[rest[0]].state.Established? && !Expires(m.conns[rest[0]], elapsed)
    ensures TickProducesAt(cfg, m, rest, 0, elapsed, environment)
  {
    ProcessKeeps(cfg, m, rest[0], elapsed, environment);
    VisitProduces(cfg, m, rest[0], elapsed, environment);
    TickUntouched(cfg, Process(cfg, m, rest[0], elapsed, environment), rest[1..], elapsed, environment, rest[0]);
  }

  /** The visit of a connection further in front. */
  lemma NextUntouched(cfg: Config, m: Model, rest: seq<Slot>, i: nat, elapsed: nat, environment: Environment)
    requires Inv(cfg, m) && cfg.tick > 0 && Distinct(rest) && 0 < i < |rest| && rest[i] in m.conns
    requires m.conns[rest[i]].producing && rest[0] in m.conns && NoMessagingExpiry(m, rest, i, elapsed)
    ensures var m1 := Process(cfg, m, rest[0], elapsed, environment);
      && Inv(cfg, m1) && rest[0] in m1.conns && rest[1..][i - 1] == rest[i] && Distinct(rest[1..])
      && (rest[i] in m1.conns ==> m1.conns[rest[i]] == m.conns[rest[i]])
      && NoMessagingExpiry(m1, rest[1..], i - 1, elapsed)
  {
    VisitPasses(cfg, m, rest, i, elapsed, environment);
    VisitUntouched(cfg, m, rest[0], elapsed, environment);
  }

  // ----- other steps -----

  /** What producing looks at, in a connection that goes on producing. */
  ghost predicate SameOutput(m: Model, m1: Model, y: Slot) {
    y in m.conns && y in m1.conns && m.conns[y].producing && m1.conns[y].producing ==>
      && m1.conns[y].terms == m.conns[y].terms
      && m1.conns[y].eipProducing == m.conns[y].eipProducing && m1.conns[y].transmission == m.conns[y].transmission
  }

  lemma AdmitSameOutput(m: Model, x: Slot, c: Connection, y: Slot)
    requires x !in m.conns && y != x
    ensures SameOutput(m, Admit(m, x, c), y) && (y in Admit(m, x, c).conns ==> y in m.conns)
    ensures y in Admit(m, x, c).conns && Admit(m, x, c).conns[y].producing ==> m.conns[y].producing
  {}

  lemma VacateSameOutput(cfg: Config, m: Model, r: Request, y: Slot)
    requires Inv(cfg, m) && cfg.Valid() && Select(cfg, m, r.terms).1.Chosen?
    requires y in m.conns && m.conns[y].producing && m.conns[y].state.Established?
    ensures var Chosen(x, evict) := Select(cfg, m, r.terms).1;
      var m1 := if evict && x in m.conns then Close(m, x) else m;
      x != y && x !in m1.conns && (y in m1.conns ==> m1.conns[y] == m.conns[y])
  {
    EvictionSpares(cfg, m, r, y);
    var Chosen(x, evict) := Select(cfg, m, r.terms).1;
    if evict && x in m.conns {
      CloseUntouched(m, x);
    }
  }

  lemma IoOpenSameOutput(cfg: Config, m: Model, r: Request, y: Slot)
    requires Inv(cfg, m) && cfg.Valid() && y in m.conns && m.conns[y].producing && m.conns[y].state.Established?
    ensures SameOutput(m, EstablishIo(cfg, m, r).0, y)
  {
    if Select(cfg, m, r.terms).1.Chosen? {
      VacateSameOutput(cfg, m, r, y);
      if InhibitTime(r.terms).Some? {
        var (m2, c) := Admission(cfg, m, r);
        EstablishIoShape(cfg, m, r);
        AdmitSameOutput(m2, Select(cfg, m, r.terms).1.slot, c, y);
      }
    }
  }

  lemma ExplicitSameOutput(cfg: Config, m: Model, r: Request, y: Slot)
    requires y in m.conns && m.conns[y].state.Established?
    ensures SameOutput(m, EstablishExplicit(cfg, m, r).0, y)
  {}

  lemma OpenSameOutput(cfg: Config, m: Model, r: Request, y: Slot)
    requires Inv(cfg, m) && cfg.Valid() && y in m.conns && m.conns[y].producing && m.conns[y].state.Established?
    ensures SameOutput(m, Open(cfg, m, r).0, y)
  {
    ExplicitSameOutput(cfg, m, r, y);
    IoOpenSameOutput(cfg, m, r, y);
  }

  lemma CloseSameOutput(cfg: Config, m: Model, x: Slot, y: Slot)
    requires Inv(cfg, m) && x in m.conns
    ensures SameOutput(m, Close(m, x), y)
  {
    CloseKeeps(cfg, m, x);
    CloseUntouched(m, x);
  }

  lemma DataSameOutput(cfg: Config, m: Model, e: Event, y: Slot)
    requires cfg.tick > 0 && (e.Receive? || e.ExplicitRequest?)
    ensures SameOutput(m, Step(cfg, m, e), y)
  {}

  /** Nothing but a tick moves the count and the timer of a connection that goes on producing. */
  lemma StepSameOutput(cfg: Config, m: Model, e: Event, y: Slot)
    requires Inv(cfg, m) && cfg.Valid() && !e.Tick?
    requires y in m.conns && m.conns[y].producing && m.conns[y].state.Established?
    ensures SameOutput(m, Step(cfg, m, e), y)
  {
    match e
    case ForwardOpen(r) => OpenSameOutput(cfg, m, r, y);
    case ForwardClose(triad, _) =>
      if Search(m, ListedTriad(triad)).Some? {
        CloseSameOutput(cfg, m, Search(m, ListedTriad(triad)).value, y);
      }
    case EndSession(session) =>
      if Search(m, MessagingOf(session)).Some? {
        CloseSameOutput(cfg, m, Search(m, MessagingOf(session)).value, y);
      }
    case ReceiveFailure(x) =>
      if x in m.conns {
        CloseSameOutput(cfg, m, x, y);
      }
    case Receive(_, _, _) => DataSameOutput(cfg, m, e, y);
    case ExplicitRequest(_) => DataSameOutput(cfg, m, e, y);
    case CloseAll =>
  }

  // ----- runs -----

  /** y is Established and produces in every state of the run, and every tick reaches it. */
  ghost predicate ProducesThroughout(cfg: Config, m: Model, events: seq<Event>, y: Slot)
    requires cfg.tick > 0
  {
    && y in Run(cfg, m, events).conns
    && Run(cfg, m, events).conns[y].producing && Run(cfg, m, events).conns[y].state.Established?
    && (events != [] ==>
          var (before, e) := (events[..|events| - 1], events[|events| - 1]);
          && ProducesThroughout(cfg, m, before, y)
          && (e.Tick? ==> LeavesAlone(Run(cfg, m, before), e, y)))
  }

  lemma ProducersAreWatched(cfg: Config, m: Model, y: Slot)
    requires Inv(cfg, m) && y in m.conns && m.conns[y].producing
    ensures Watched(m.conns[y])
  {
    assert Fits(cfg, y, m.conns[y]);
  }

  lemma TickStepProduces(cfg: Config, m: Model, e: Event, y: Slot)
    requires Inv(cfg, m) && cfg.Valid() && e.Tick? && LeavesAlone(m, e, y)
    requires y in m.conns && m.conns[y].producing && m.conns[y].state.Established?
    requires y in Step(cfg, m, e).conns && Step(cfg, m, e).conns[y].state.Established?
    ensures ProducedOnce(cfg, m.conns[y], Step(cfg, m, e).conns[y], e.elapsed)
  {
    ProducersAreWatched(cfg, m, y);
    StepTicks(cfg, m, e, y);
    assert y in m.active;
    var i :| 0 <= i < |m.active| && m.active[i] == y;
    TickProduces(cfg, m, m.active, i, e.elapsed, e.environment);
  }

  /** The connection d stands where a pacer that started with c stands after the ticks. */
  predicate CountsLikePacer(cfg: Config, c: Connection, ticks: seq<nat>, d: Connection) {
    var p := PaceAll(c.transmission, ticks, IntervalOf(cfg, c.terms));
    d.terms == c.terms && d.transmission == p.timer && d.eipProducing == (c.eipProducing + p.sends) % UINT32
  }

  lemma OneMoreTick(cfg: Config, c: Connection, ticks: seq<nat>, d0: Connection, d: Connection, elapsed: nat)
    requires CountsLikePacer(cfg, c, ticks, d0) && HasRate(cfg, c.terms) && ProducedOnce(cfg, d0, d, elapsed)
    ensures CountsLikePacer(cfg, c, ticks + [elapsed], d)
  {
    PacedOnceMore(c.transmission, ticks, elapsed, IntervalOf(cfg, c.terms));
    CountOnceMore(c.eipProducing, PaceAll(c.transmission, ticks, IntervalOf(cfg, c.terms)).sends);
  }

  lemma CountOnceMore(start: nat, sends: nat)
    ensures ((start + sends) % UINT32 + 1) % UINT32 == (start + (sends + 1)) % UINT32
  {}

  lemma CountsAtStart(cfg: Config, c: Connection)
    requires c.eipProducing < UINT32
    ensures CountsLikePacer(cfg, c, [], c)
  {}

  lemma SameTicks(cfg: Config, c: Connection, ticks: seq<nat>, d0: Connection, d: Connection)
    requires CountsLikePacer(cfg, c, ticks, d0)
    requires d.terms == d0.terms && d.eipProducing == d0.eipProducing && d.transmission == d0.transmission
    ensures CountsLikePacer(cfg, c, ticks, d)
  {}

  lemma TickCounts(cfg: Config, c: Connection, ticks: seq<nat>, m: Model, e: Event, y: Slot, d: Connection)
    requires Inv(cfg, m) && cfg.Valid() && y in m.conns && m.conns[y].producing && m.conns[y].state.Established?
    requires y in Step(cfg, m, e).conns && d == Step(cfg, m, e).conns[y] && d.state.Established?
    requires e.Tick? && LeavesAlone(m, e, y)
    requires HasRate(cfg, c.terms) && CountsLikePacer(cfg, c, ticks, m.conns[y])
    ensures CountsLikePacer(cfg, c, ticks + [e.elapsed], d)
  {
    TickStepProduces(cfg, m, e, y);
    OneMoreTick(cfg, c, ticks, m.conns[y], d, e.elapsed);
  }

  lemma OtherCounts(cfg: Config, c: Connection, ticks: seq<nat>, m: Model, e: Event, y: Slot, d: Connection)
    requires Inv(cfg, m) && cfg.Valid() && y in m.conns && m.conns[y].producing && m.conns[y].state.Established?
    requires y in Step(cfg, m, e).conns && d == Step(cfg, m, e).conns[y] && d.producing && !e.Tick?
    requires CountsLikePacer(cfg, c, ticks, m.conns[y])
    ensures CountsLikePacer(cfg, c, ticks, d)
  {
    StepSameOutput(cfg, m, e, y);
    SameTicks(cfg, c, ticks, m.conns[y], d);
  }

  /** Over any run in which a connection with a packet rate is Established and produces, multicast or
      point-to-point, and every tick reaches it, its count has gone up by the frames of the pacer and its
      timer stands where the pacer's does, whatever else happens. */
  lemma {:induction false} ConnectionPaces(cfg: Config, m: Model, events: seq<Event>, y: Slot)
    requires Inv(cfg, m) && cfg.Valid() && EventsInScope(cfg, events) && ProducesThroughout(cfg, m, events, y)
    requires y in m.conns && m.conns[y].eipProducing < UINT32 && HasRate(cfg, m.conns[y].terms)
    ensures CountsLikePacer(cfg, m.conns[y], Ticks(events), Run(cfg, m, events).conns[y])
  {
    if events == [] {
      CountsAtStart(cfg, m.conns[y]);
    } else {
      var (before, e) := (events[..|events| - 1], events[|events| - 1]);
      ConnectionPaces(cfg, m, before, y);
      RunKeepsFrom(cfg, m, before);
      var d := Run(cfg, m, events).conns[y];
      if e.Tick? {
        TickCounts(cfg, m.conns[y], Ticks(before), Run(cfg, m, before), e, y, d);
      } else {
        OtherCounts(cfg, m.conns[y], Ticks(before), Run(cfg, m, before), e, y, d);
      }
    }
  }

  // ----- point-to-point connections -----

  /** Every point-to-point connection has its producing socket. */
  ghost predicate OneToOne(m: Model) {
    forall x :: x in m.conns && IsIo(m.conns[x]) && m.conns[x].terms.tToO == PointToPoint ==> m.conns[x].producing
  }

  /** Whoever has lost the socket is multicast, and nobody has changed its link or kind. */
  ghost predicate SocketsStay(m: Model, m1: Model) {
    forall x :: x in m1.conns ==>
      && x in m.conns
      && m1.conns[x].terms.tToO == m.conns[x].terms.tToO && m1.conns[x].terms.kind == m.conns[x].terms.kind
      && (m.conns[x].producing && !m1.conns[x].producing ==> m.conns[x].terms.tToO == Multicast)
  }

  lemma SocketsStayOn(m: Model, m1: Model, m2: Model)
    requires SocketsStay(m, m1) && SocketsStay(m1, m2)
    ensures SocketsStay(m, m2)
  {}

  lemma SocketsKeep(m: Model, m1: Model)
    requires OneToOne(m) && SocketsStay(m, m1)
    ensures OneToOne(m1)
  {}

  lemma RelinquishSockets(m: Model, x: Slot)
    requires x in m.conns && ControlsGroup(m.conns[x])
    ensures SocketsStay(m, Relinquish(m, x))
  {}

  lemma CloseSockets(m: Model, x: Slot)
    requires x in m.conns
    ensures SocketsStay(m, Close(m, x))
  {
    if IsIo(m.conns[x]) {
      var m1 := Retire(m, x, NonExistent);
      if ControlsGroup(m1.conns[x]) {
        RelinquishSockets(m1, x);
        SocketsStayOn(m, m1, Relinquish(m1, x));
      }
    }
  }

  lemma DependentsSockets(m: Model, input: nat)
    ensures SocketsStay(m, CloseDependents(m, input))
  {}

  lemma TimeOutSockets(cfg: Config, m: Model, x: Slot, environment: Environment)
    requires Inv(cfg, m) && x in m.conns
    ensures SocketsStay(m, TimeOut(m, x, environment))
  {
    if IsIo(m.conns[x]) {
      ExpiryAside(cfg, m, x, environment);
      ExpiredSockets(m, EndOriginator(Retire(m, x, TimedOut), x, environment), x, environment);
    }
  }

  lemma ExpiredSockets(m: Model, m1: Model, x: Slot, environment: Environment)
    requires x in m.conns && IsIo(m.conns[x]) && m1 == EndOriginator(Retire(m, x, TimedOut), x, environment)
    requires x in m1.conns && m1.conns[x] == m.conns[x].(state := TimedOut)
    requires forall y :: y in m1.conns && y != x ==> y in m.conns && m1.conns[y] == m.conns[y]
    ensures SocketsStay(m, TimeOut(m, x, environment))
  {
    var c := m.conns[x];
    var m2 := if ControlsGroup(c) then Relinquish(m1, x) else m1;
    if ControlsGroup(c) {
      RelinquishSockets(m1, x);
    }
    SocketsStayOn(m, m1, m2);
    DependentsSockets(m2, c.terms.input);
    SocketsStayOn(m, m2, CloseDependents(m2, c.terms.input));
  }

  lemma VisitSockets(cfg: Config, m: Model, x: Slot, elapsed: nat, environment: Environment)
    requires Inv(cfg, m) && cfg.tick > 0 && x in m.conns
    ensures SocketsStay(m, Process(cfg, m, x, elapsed, environment))
  {
    if m.conns[x].state.Established? {
      var m1 := Watch(m, x, elapsed, environment);
      WatchSockets(cfg, m, x, elapsed, environment);
      if x in m1.conns && m1.conns[x].state.Established? {
        ProduceSockets(cfg, m1, x, elapsed);
        SocketsStayOn(m, m1, Produce(cfg, m1, x, elapsed));
      }
    }
  }

  lemma WatchSockets(cfg: Config, m: Model, x: Slot, elapsed: nat, environment: Environment)
    requires Inv(cfg, m) && x in m.conns
    ensures SocketsStay(m, Watch(m, x, elapsed, environment))
  {
    if Watched(m.conns[x]) && elapsed >= m.conns[x].watchdog {
      TimeOutSockets(cfg, m, x, environment);
    }
  }

  lemma ProduceSockets(cfg: Config, m: Model, x: Slot, elapsed: nat)
    requires cfg.tick > 0 && x in m.conns
    ensures SocketsStay(m, Produce(cfg, m, x, elapsed))
  {}

  lemma {:induction false} TickSockets(cfg: Config, m: Model, rest: seq<Slot>, elapsed: nat, environment: Environment)
    requires Inv(cfg, m) && cfg.tick > 0
    ensures SocketsStay(m, TickOver(cfg, m, rest, elapsed, environment))
    decreases |rest|
  {
    if rest != [] {
      if rest[0] in m.conns {
        var m1 := Process(cfg, m, rest[0], elapsed, environment);
        ProcessKeeps(cfg, m, rest[0], elapsed, environment);
        VisitSockets(cfg, m, rest[0], elapsed, environment);
        if rest[0] in m1.conns {
          TickSockets(cfg, m1, rest[1..], elapsed, environment);
          SocketsStayOn(m, m1, TickOver(cfg, m1, rest[1..], elapsed, environment));
        }
      } else {
        TickSockets(cfg, m, rest[1..], elapsed, environment);
      }
    }
  }

  lemma AdmitSockets(m: Model, x: Slot, c: Connection)
    requires OneToOne(m)
    ensures OneToOne(Admit(m, x, c))
  {}

  lemma OpenSockets(cfg: Config, m: Model, r: Request)
    requires OneToOne(m)
    ensures OneToOne(Open(cfg, m, r).0)
  {
    var choice := Select(cfg, m, r.terms).1;
    if r.target.Assembly? && EarlyRefusal(cfg, m, r.terms) == 0 && choice.Chosen? {
      if choice.slot in m.conns {
        CloseSockets(m, choice.slot);
        SocketsKeep(m, Close(m, choice.slot));
      }
      if InhibitTime(r.terms).Some? {
        var (m2, c) := Admission(cfg, m, r);
        EstablishIoShape(cfg, m, r);
        AdmitSockets(m2, choice.slot, c);
      }
    }
  }

  lemma RequestSockets(cfg: Config, m: Model, e: Event)
    requires Inv(cfg, m) && cfg.tick > 0 && OneToOne(m) && (e.ForwardClose? || e.ReceiveFailure? || e.EndSession?)
    ensures OneToOne(Step(cfg, m, e))
  {
    match e
    case ForwardClose(triad, _) =>
      if Search(m, ListedTriad(triad)).Some? {
        CloseSockets(m, Search(m, ListedTriad(triad)).value);
      }
    case EndSession(session) => CloseSessionKeeps(cfg, m, session);
    case ReceiveFailure(x) =>
      if x in m.conns {
        CloseSockets(m, x);
      }
  }

  lemma ArrivalSockets(cfg: Config, m: Model, e: Event)
    requires cfg.tick > 0 && OneToOne(m) && (e.Receive? || e.ExplicitRequest?)
    ensures OneToOne(Step(cfg, m, e))
  {}

  lemma StepSockets(cfg: Config, m: Model, e: Event)
    requires Inv(cfg, m) && cfg.tick > 0 && OneToOne(m)
    ensures OneToOne(Step(cfg, m, e))
  {
    match e
    case ForwardOpen(r) => OpenSockets(cfg, m, r);
    case Tick(elapsed, environment) =>
      TickSockets(cfg, m, m.active, elapsed, environment);
      SocketsKeep(m, Step(cfg, m, e));
    case Receive(_, _, _) => ArrivalSockets(cfg, m, e);
    case ExplicitRequest(_) => ArrivalSockets(cfg, m, e);
    case CloseAll =>
    case _ => RequestSockets(cfg, m, e);
  }

  /** In every reachable state each point-to-point connection has its producing socket. */
  lemma {:induction false} PointToPointProduces(cfg: Config, events: seq<Event>)
    requires cfg.Valid() && EventsInScope(cfg, events)
    ensures OneToOne(Run(cfg, Boot, events))
  {
    if events != [] {
      var before := events[..|events| - 1];
      PointToPointProduces(cfg, before);
      RunKeeps(cfg, before);
      StepSockets(cfg, Run(cfg, Boot, before), events[|events| - 1]);
    }
  }
}
