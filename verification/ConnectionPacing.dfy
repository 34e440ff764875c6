/** The pace of a multicast group: when its holder sends in a tick, over runs with one holder, and how
    many frames a group can send whatever becomes of its holders. */
module ConnectionPacing {
  import opened Connections
  import opened ConnectionModel
  import opened ConnectionInvariants
  import opened ConnectionOpening
  import opened ConnectionRuns
  import opened ConnectionSequence
  import opened ConnectionSilence
  import opened ConnectionTicks
  import opened Timing
  import opened Widths

  /** The interval in which a connection sends, in milliseconds. */
  function IntervalOf(cfg: Config, t: Terms): nat {
    if cfg.tick > 0 then RequestedInterval(t.tToOInterval, cfg.tick) else 0
  }

  // ----- one visit -----

  /** h holds the group in both states, with the same terms and state, and has sent and paced as one tick
      demands: a frame goes out exactly if there is a packet rate and the timer is due. */
  ghost predicate PacedOnce(cfg: Config, m: Model, m1: Model, h: Slot, input: nat, elapsed: nat)
    requires Holds(m, h, input)
  {
    && Holds(m1, h, input)
    && var (c, d) := (m.conns[h], m1.conns[h]);
    && d.terms == c.terms && d.state == c.state
    && var (due, timer) := Pace(c.transmission, IntervalOf(cfg, c.terms), elapsed);
       if HasRate(cfg, c.terms) then
         && d.transmission == timer
         && d.eipProducing == (if due then (c.eipProducing + 1) % UINT32 else c.eipProducing)
         && Sent(m1, input) == Sent(m, input) + if due then [Frame(d.eipProducing, c.terms.producedId)] else []
       else d.transmission == c.transmission && d.eipProducing == c.eipProducing && Sent(m1, input) == Sent(m, input)
  }

  /** h holds the group in both states and has neither sent nor paced. */
  ghost predicate Unpaced(m: Model, m1: Model, h: Slot, input: nat)
    requires Holds(m, h, input)
  {
    && Holds(m1, h, input)
    && var (c, d) := (m.conns[h], m1.conns[h]);
    && d.terms == c.terms && d.state == c.state && d.watchdog == c.watchdog
    && d.transmission == c.transmission && d.eipProducing == c.eipProducing && Sent(m1, input) == Sent(m, input)
  }

  /** A visit of a holder that does not expire paces it once. */
  lemma VisitPaces(cfg: Config, m: Model, h: Slot, input: nat, elapsed: nat, environment: Environment)
    requires cfg.tick > 0 && Holds(m, h, input) && m.conns[h].state.Established? && !Expires(m.conns[h], elapsed)
    ensures PacedOnce(cfg, m, Process(cfg, m, h, elapsed, environment), h, input, elapsed)
  {
    var m1 := Watch(m, h, elapsed, environment);
    assert h in m1.conns && m1.history == m.history && m1.conns[h].transmission == m.conns[h].transmission;
  }

  /** Somebody else on the list sends nothing for the group. */
  lemma ProduceAside(cfg: Config, m: Model, z: Slot, elapsed: nat, h: Slot, input: nat)
    requires cfg.tick > 0 && OneHolder(m) && z in m.conns && z != h && Holds(m, h, input)
    ensures Unpaced(m, Produce(cfg, m, z, elapsed), h, input)
  {
    assert !Holds(m, z, input);
  }

  /** And its time-out leaves the holder where it is: an Established exclusive owner on the input point
      would itself be the holder. */
  lemma TimeOutAside(cfg: Config, m: Model, z: Slot, environment: Environment, h: Slot, input: nat)
    requires Inv(cfg, m) && z in m.conns && m.conns[z].state.Established? && z != h && Holds(m, h, input)
    ensures Unpaced(m, TimeOut(m, z, environment), h, input)
  {
    TimeOutCarries(cfg, m, z, environment);
    if IsIo(m.conns[z]) {
      assert !Holds(m, z, input);
      OwnersApart(cfg, m, z, h, input);
      ExpiryAside(cfg, m, z, environment);
      TimeOutPasses(m, EndOriginator(Retire(m, z, TimedOut), z, environment), z, environment, h, input);
    }
  }

  lemma OwnersApart(cfg: Config, m: Model, z: Slot, h: Slot, input: nat)
    requires Inv(cfg, m) && z in m.conns && m.conns[z].state.Established? && z != h && Holds(m, h, input)
    ensures m.conns[z].terms.kind.ExclusiveOwner? || ControlsGroup(m.conns[z]) ==> m.conns[z].terms.input != input
  {
    assert Fits(cfg, z, m.conns[z]) && Fits(cfg, h, m.conns[h]);
    assert !Holds(m, z, input);
  }

  lemma RelinquishPasses(m: Model, z: Slot, h: Slot, input: nat)
    requires z in m.conns && z != h && Holds(m, h, input) && m.conns[z].terms.input != input
    ensures h in Relinquish(m, z).conns && Relinquish(m, z).conns[h] == m.conns[h]
  {}

  lemma DependentsPass(m: Model, other: nat, h: Slot, input: nat)
    requires Holds(m, h, input) && other != input
    ensures h in CloseDependents(m, other).conns && CloseDependents(m, other).conns[h] == m.conns[h]
  {}

  /** The time-out once the sessions are closed. */
  lemma TimeOutPasses(m: Model, m1: Model, z: Slot, environment: Environment, h: Slot, input: nat)
    requires z in m.conns && IsIo(m.conns[z]) && m1 == EndOriginator(Retire(m, z, TimedOut), z, environment)
    requires z in m1.conns && m1.conns[z] == m.conns[z].(state := TimedOut)
    requires z != h && Holds(m, h, input) && h in m1.conns && m1.conns[h] == m.conns[h]
    requires m.conns[z].terms.kind.ExclusiveOwner? || ControlsGroup(m.conns[z]) ==> m.conns[z].terms.input != input
    ensures h in TimeOut(m, z, environment).conns && TimeOut(m, z, environment).conns[h] == m.conns[h]
  {
    var c := m.conns[z];
    if ControlsGroup(c) {
      RelinquishPasses(m1, z, h, input);
    }
    if c.terms.kind.ExclusiveOwner? {
      DependentsPass(if ControlsGroup(c) then Relinquish(m1, z) else m1, c.terms.input, h, input);
    }
  }

  lemma UnpacedOn(m: Model, m1: Model, m2: Model, h: Slot, input: nat)
    requires Holds(m, h, input) && Unpaced(m, m1, h, input) && Unpaced(m1, m2, h, input)
    ensures Unpaced(m, m2, h, input)
  {}

  /** A visit of anybody else leaves the group alone. */
  lemma VisitAside(cfg: Config, m: Model, z: Slot, elapsed: nat, environment: Environment, h: Slot, input: nat)
    requires Inv(cfg, m) && cfg.tick > 0 && z in m.conns && z != h && Holds(m, h, input)
    ensures Unpaced(m, Process(cfg, m, z, elapsed, environment), h, input)
  {
    if m.conns[z].state.Established? {
      var m1 := Watch(m, z, elapsed, environment);
      if Expires(m.conns[z], elapsed) {
        TimeOutAside(cfg, m, z, environment, h, input);
      }
      assert Unpaced(m, m1, h, input);
      if z in m1.conns && m1.conns[z].state.Established? {
        WatchKeeps(cfg, m, z, elapsed, environment);
        ProduceAside(cfg, m1, z, elapsed, h, input);
        UnpacedOn(m, m1, Produce(cfg, m1, z, elapsed), h, input);
      }
    }
  }

  // ----- one tick -----

  /** Behind the holder nobody touches the group any more. */
  lemma {:induction false} TickAside(cfg: Config, m: Model, rest: seq<Slot>, elapsed: nat, environment: Environment,
                                     h: Slot, input: nat)
    requires Inv(cfg, m) && cfg.tick > 0 && h !in rest && Holds(m, h, input)
    ensures Unpaced(m, TickOver(cfg, m, rest, elapsed, environment), h, input)
    decreases |rest|
  {
    if rest != [] {
      assert rest[0] in rest;
      if rest[0] in m.conns {
        var m1 := Process(cfg, m, rest[0], elapsed, environment);
        ProcessKeeps(cfg, m, rest[0], elapsed, environment);
        VisitAside(cfg, m, rest[0], elapsed, environment, h, input);
        if rest[0] in m1.conns {
          TickAside(cfg, m1, rest[1..], elapsed, environment, h, input);
          UnpacedOn(m, m1, TickOver(cfg, m1, rest[1..], elapsed, environment), h, input);
        }
      } else {
        TickAside(cfg, m, rest[1..], elapsed, environment, h, input);
      }
    }
  }

  lemma PacedBefore(cfg: Config, m: Model, m1: Model, m2: Model, h: Slot, input: nat, elapsed: nat)
    requires Holds(m, h, input) && Unpaced(m, m1, h, input) && PacedOnce(cfg, m1, m2, h, input, elapsed)
    ensures PacedOnce(cfg, m, m2, h, input, elapsed)
  {}

  lemma PacedAfter(cfg: Config, m: Model, m1: Model, m2: Model, h: Slot, input: nat, elapsed: nat)
    requires Holds(m, h, input) && PacedOnce(cfg, m, m1, h, input, elapsed) && Unpaced(m1, m2, h, input)
    ensures PacedOnce(cfg, m, m2, h, input, elapsed)
  {}

  /** In a tick the holder of a group that is Established, does not expire and is reached sends one frame
      if it has a packet rate and its timer is due, and none otherwise; nobody else sends for the group,
      whatever times out and closes around it. */
  lemma {:induction false} TickPaces(cfg: Config, m: Model, rest: seq<Slot>, i: nat, input: nat, elapsed: nat,
                                     environment: Environment)
    requires Inv(cfg, m) && cfg.tick > 0 && Distinct(rest) && i < |rest| && Holds(m, rest[i], input)
    requires m.conns[rest[i]].state.Established? && !Expires(m.conns[rest[i]], elapsed)
    requires NoMessagingExpiry(m, rest, i, elapsed)
    ensures PacedOnce(cfg, m, TickOver(cfg, m, rest, elapsed, environment), rest[i], input, elapsed)
    decreases |rest|
  {
    if i == 0 {
      FirstPaces(cfg, m, rest, input, elapsed, environment);
    } else if rest[0] !in m.conns {
      NextSkipped(m, rest, i, elapsed);
      TickPaces(cfg, m, rest[1..], i - 1, input, elapsed, environment);
      SkipPaces(cfg, m, rest, i, input, elapsed, environment);
    } else {
      var m1 := Process(cfg, m, rest[0], elapsed, environment);
      NextPaces(cfg, m, rest, i, input, elapsed, environment);
      TickPaces(cfg, m1, rest[1..], i - 1, input, elapsed, environment);
      PacedBefore(cfg, m, m1, TickOver(cfg, m1, rest[1..], elapsed, environment), rest[i], input, elapsed);
    }
  }

  lemma NextSkipped(m: Model, rest: seq<Slot>, i: nat, elapsed: nat)
    requires Listed(m) && Distinct(rest) && 0 < i < |rest| && rest[0] !in m.conns
    requires NoMessagingExpiry(m, rest, i, elapsed)
    ensures Distinct(rest[1..]) && rest[1..][i - 1] == rest[i] && NoMessagingExpiry(m, rest[1..], i - 1, elapsed)
  {
    KeepSpares(m, m, rest[0]);
    ExpiryAhead(m, m, rest, i, elapsed);
  }

  lemma SkipPaces(cfg: Config, m: Model, rest: seq<Slot>, i: nat, input: nat, elapsed: nat, environment: Environment)
    requires cfg.tick > 0 && 0 < i < |rest| && rest[0] !in m.conns && Holds(m, rest[i], input)
    requires PacedOnce(cfg, m, TickOver(cfg, m, rest[1..], elapsed, environment), rest[1..][i - 1], input, elapsed)
    ensures PacedOnce(cfg, m, TickOver(cfg, m, rest, elapsed, environment), rest[i], input, elapsed)
  {}

  /** The visit of a connection further in front. */
  lemma NextPaces(cfg: Config, m: Model, rest: seq<Slot>, i: nat, input: nat, elapsed: nat, environment: Environment)
    requires Inv(cfg, m) && cfg.tick > 0 && Distinct(rest) && 0 < i < |rest| && Holds(m, rest[i], input)
    requires rest[0] in m.conns && NoMessagingExpiry(m, rest, i, elapsed)
    ensures var m1 := Process(cfg, m, rest[0], elapsed, environment);
      && Inv(cfg, m1) && rest[0] in m1.conns && rest[1..][i - 1] == rest[i] && Distinct(rest[1..])
      && Unpaced(m, m1, rest[i], input) && NoMessagingExpiry(m1, rest[1..], i - 1, elapsed)
      && (Expires(m1.conns[rest[i]], elapsed) <==> Expires(m.conns[rest[i]], elapsed))
  {
    VisitPasses(cfg, m, rest, i, elapsed, environment);
    VisitAside(cfg, m, rest[0], elapsed, environment, rest[i], input);
  }

  lemma FirstPaces(cfg: Config, m: Model, rest: seq<Slot>, input: nat, elapsed: nat, environment: Environment)
    requires Inv(cfg, m) && cfg.tick > 0 && Distinct(rest) && rest != [] && Holds(m, rest[0], input)
    requires m.conns[rest[0]].state.Established? && !Expires(m.conns[rest[0]], elapsed)
    ensures PacedOnce(cfg, m, TickOver(cfg, m, rest, elapsed, environment), rest[0], input, elapsed)
  {
    var m1 := Process(cfg, m, rest[0], elapsed, environment);
    ProcessKeeps(cfg, m, rest[0], elapsed, environment);
    VisitPaces(cfg, m, rest[0], input, elapsed, environment);
    TickAside(cfg, m1, rest[1..], elapsed, environment, rest[0], input);
    PacedAfter(cfg, m, m1, TickOver(cfg, m1, rest[1..], elapsed, environment), rest[0], input, elapsed);
  }

  // ----- runs with one holder -----

  /** h holds the group, Established, in every state of the run, and every tick reaches it. */
  ghost predicate HeldThroughout(cfg: Config, m: Model, events: seq<Event>, h: Slot, input: nat)
    requires cfg.tick > 0
  {
    && Holds(Run(cfg, m, events), h, input) && Run(cfg, m, events).conns[h].state.Established?
    && (events != [] ==>
          var (before, e) := (events[..|events| - 1], events[|events| - 1]);
          && HeldThroughout(cfg, m, before, h, input)
          && (e.Tick? ==> LeavesAlone(Run(cfg, m, before), e, h)))
  }

  function Ticks(events: seq<Event>): seq<nat> {
    if events == [] then []
    else
      var e := events[|events| - 1];
      var ticks := Ticks(events[..|events| - 1]);
      if e.Tick? then ticks + [e.elapsed] else ticks
  }

  /** The holder h in m is as k in m1, as far as pacing goes, and no frame lies between. */
  ghost predicate Stands(m: Model, h: Slot, m1: Model, k: Slot, input: nat)
    requires Holds(m, h, input) && Holds(m1, k, input)
  {
    && m1.conns[k].transmission == m.conns[h].transmission
    && m1.conns[k].terms.tToOInterval == m.conns[h].terms.tToOInterval
    && Sent(m1, input) == Sent(m, input)
  }

  lemma CarriedStands(m: Model, m1: Model, x: Slot, h: Slot, input: nat)
    requires OneHolder(m) && Carried(m, m1, x) && Holds(m, h, input) && Holds(m1, h, input)
    ensures Stands(m, h, m1, h, input)
  {
    assert Succeeds(m, h, m1, h, input) || Succeeds(m, x, m1, h, input);
  }

  lemma StandsOn(m: Model, m1: Model, m2: Model, h: Slot, input: nat)
    requires Holds(m, h, input) && Holds(m1, h, input) && Holds(m2, h, input)
    requires Stands(m, h, m1, h, input) && Stands(m1, h, m2, h, input)
    ensures Stands(m, h, m2, h, input)
  {}

  /** Admitting a connection, for a group that has a holder: it goes on as it was or is seized. */
  lemma AdmitStands(m: Model, x: Slot, c: Connection, h: Slot, k: Slot, input: nat)
    requires Listed(m) && OneHolder(m) && x !in m.conns && IsIo(c) && c == Fresh(c.terms)
    requires Holds(m, h, input) && Holds(Admit(m, x, c), k, input)
    ensures k == x || (k == h && Stands(m, h, Admit(m, x, c), h, input))
    ensures k == x ==> c.terms.kind.ExclusiveOwner? && c.terms.tToO.Multicast? && c.terms.input == input
    ensures Sent(Admit(m, x, c), input) == Sent(m, input)
  {
    HolderFound(m, c.terms.input);
    if k != x {
      assert Holds(m, k, input);
    }
  }

  /** A step that is not a tick leaves the pace of a holder that stays Established and in hold. */
  lemma StepStands(cfg: Config, m: Model, e: Event, h: Slot, input: nat)
    requires Inv(cfg, m) && cfg.Valid() && EventInScope(cfg, e) && !e.Tick?
    requires Holds(m, h, input) && m.conns[h].state.Established? && Holds(Step(cfg, m, e), h, input)
    ensures Stands(m, h, Step(cfg, m, e), h, input)
  {
    if e.ForwardOpen? && EarlyRefusal(cfg, m, e.request.terms) == 0 && e.request.target.Assembly? {
      if Select(cfg, m, e.request.terms).1.Chosen? {
        OpenStands(cfg, m, e.request, h, input);
      }
    } else {
      var x := StepCarries(cfg, m, e);
      CarriedStands(m, Step(cfg, m, e), x, h, input);
    }
  }

  lemma OpenStands(cfg: Config, m: Model, r: Request, h: Slot, input: nat)
    requires Inv(cfg, m) && cfg.Valid() && Select(cfg, m, r.terms).1.Chosen?
    requires Holds(m, h, input) && m.conns[h].state.Established? && Holds(EstablishIo(cfg, m, r).0, h, input)
    ensures Stands(m, h, EstablishIo(cfg, m, r).0, h, input)
  {
    EvictionSpares(cfg, m, r, h);
    if InhibitTime(r.terms).Some? {
      AdmissionReady(cfg, m, r);
      HeldInAdmission(cfg, m, r, h, input);
      AdmissionIsIo(cfg, m, r);
      AdmissionStands(cfg, m, r, h, input);
    } else {
      InhibitRefusalCarries(cfg, m, r);
      CarriedStands(m, EstablishIo(cfg, m, r).0, Select(cfg, m, r.terms).1.slot, h, input);
    }
  }

  lemma AdmissionIsIo(cfg: Config, m: Model, r: Request)
    requires Select(cfg, m, r.terms).1.Chosen? && InhibitTime(r.terms).Some?
    ensures IsIo(Admission(cfg, m, r).1)
  {
    ConfiguredTerms(cfg, m, r);
  }

  lemma AdmissionStands(cfg: Config, m: Model, r: Request, h: Slot, input: nat)
    requires Select(cfg, m, r.terms).1.Chosen? && InhibitTime(r.terms).Some? && OneHolder(m)
    requires var (x, m2) := (Select(cfg, m, r.terms).1.slot, Admission(cfg, m, r).0);
      && Carried(m, m2, x) && Listed(m2) && OneHolder(m2) && x !in m2.conns && h != x
      && Holds(m, h, input) && Holds(m2, h, input) && Holds(EstablishIo(cfg, m, r).0, h, input)
    requires IsIo(Admission(cfg, m, r).1)
    ensures Stands(m, h, EstablishIo(cfg, m, r).0, h, input)
  {
    var (m2, c) := Admission(cfg, m, r);
    EstablishIoShape(cfg, m, r);
    CarriedStands(m, m2, Select(cfg, m, r.terms).1.slot, h, input);
    if EstablishIo(cfg, m, r).1.Opened? {
      AdmitStands(m2, Select(cfg, m, r.terms).1.slot, c, h, h, input);
      StandsOn(m, m2, Admit(m2, Select(cfg, m, r.terms).1.slot, c), h, input);
    }
  }

  /** Who holds after the open and is not new has held before the admission. */
  lemma HeldInAdmission(cfg: Config, m: Model, r: Request, h: Slot, input: nat)
    requires Select(cfg, m, r.terms).1.Chosen? && InhibitTime(r.terms).Some?
    requires h != Select(cfg, m, r.terms).1.slot && Holds(EstablishIo(cfg, m, r).0, h, input)
    ensures Holds(Admission(cfg, m, r).0, h, input)
  {
    EstablishIoShape(cfg, m, r);
    var (m2, c) := Admission(cfg, m, r);
    HeldBefore(m2, Select(cfg, m, r.terms).1.slot, c, h, input);
  }

  lemma HeldBefore(m: Model, x: Slot, c: Connection, h: Slot, input: nat)
    requires h != x
    ensures Holds(Admit(m, x, c), h, input) ==> Holds(m, h, input)
  {}

  /** Every step that is neither a tick nor an I/O open carries the groups on. */
  lemma StepCarries(cfg: Config, m: Model, e: Event) returns (x: Slot)
    requires Inv(cfg, m) && cfg.Valid() && !e.Tick?
    requires e.ForwardOpen? && e.request.target.Assembly? ==>
      EarlyRefusal(cfg, m, e.request.terms) != 0 || !Select(cfg, m, e.request.terms).1.Chosen?
    ensures Carried(m, Step(cfg, m, e), x)
  {
    x := Explicit(0);
    NothingCarries(m, m, x);
    match e
    case ForwardOpen(r) =>
      if EarlyRefusal(cfg, m, r.terms) == 0 && r.target.MessageRouter? {
        ExplicitCarries(cfg, m, r, x);
      }
    case ForwardClose(triad, _) =>
      if Search(m, ListedTriad(triad)).Some? {
        x := Search(m, ListedTriad(triad)).value;
        CloseCarries(cfg, m, x);
        NothingCarries(m, m, x);
      }
    case Receive(_, _, _) => x := ConsumerCarries(cfg, m, e);
    case ExplicitRequest(_) => x := ConsumerCarries(cfg, m, e);
    case EndSession(session) => CloseSessionCarries(cfg, m, session, x);
    case ReceiveFailure(y) =>
      if y in m.conns && IsIo(m.conns[y]) {
        x := y;
        CloseCarries(cfg, m, y);
      }
    case CloseAll =>
  }

  lemma ConsumerCarries(cfg: Config, m: Model, e: Event) returns (x: Slot)
    requires cfg.tick > 0 && (e.Receive? || e.ExplicitRequest?)
    ensures Carried(m, Step(cfg, m, e), x)
  {
    x := Explicit(0);
    if Search(m, ConsumerOf(e.id)).Some? {
      x := Search(m, ConsumerOf(e.id)).value;
      UpdateCarries(m, Step(cfg, m, e), x);
    } else {
      NothingCarries(m, m, x);
    }
  }

  lemma InhibitRefusalCarries(cfg: Config, m: Model, r: Request)
    requires Inv(cfg, m) && cfg.Valid() && Select(cfg, m, r.terms).1.Chosen? && InhibitTime(r.terms).None?
    ensures Carried(m, EstablishIo(cfg, m, r).0, Select(cfg, m, r.terms).1.slot)
  {
    SelectReady(cfg, m, r.terms);
    var choice := Select(cfg, m, r.terms).1;
    if choice.evict {
      CloseCarries(cfg, m, choice.slot);
    } else {
      NothingCarries(m, m, choice.slot);
    }
  }

  /** A tick that leaves the holder Established paces it once. */
  lemma TickStepPaces(cfg: Config, m: Model, e: Event, h: Slot, input: nat)
    requires Inv(cfg, m) && cfg.Valid() && e.Tick? && LeavesAlone(m, e, h)
    requires Holds(m, h, input) && m.conns[h].state.Established?
    requires Holds(Step(cfg, m, e), h, input) && Step(cfg, m, e).conns[h].state.Established?
    ensures PacedOnce(cfg, m, Step(cfg, m, e), h, input, e.elapsed)
  {
    assert Fits(cfg, h, m.conns[h]) && Watched(m.conns[h]);
    StepTicks(cfg, m, e, h);
    assert h in m.active;
    var i :| 0 <= i < |m.active| && m.active[i] == h;
    TickPaces(cfg, m, m.active, i, input, e.elapsed, e.environment);
  }

  /** The group in m1, with s frames more than at the start, stands where a pacer stands after the ticks. */
  ghost predicate AtPacer(cfg: Config, c: Connection, sent: nat, ticks: seq<nat>, m1: Model, h: Slot, input: nat)
    requires h in m1.conns
  {
    var p := PaceAll(c.transmission, ticks, IntervalOf(cfg, c.terms));
    && m1.conns[h].terms.tToOInterval == c.terms.tToOInterval
    && m1.conns[h].transmission == p.timer && |Sent(m1, input)| == sent + p.sends
  }

  lemma TickAtPacer(cfg: Config, c: Connection, sent: nat, ticks: seq<nat>, elapsed: nat, m: Model, m1: Model,
                    h: Slot, input: nat)
    requires Holds(m, h, input) && AtPacer(cfg, c, sent, ticks, m, h, input) && HasRate(cfg, c.terms)
    requires PacedOnce(cfg, m, m1, h, input, elapsed)
    ensures AtPacer(cfg, c, sent, ticks + [elapsed], m1, h, input)
  {
    PacedOnceMore(c.transmission, ticks, elapsed, IntervalOf(cfg, c.terms));
  }

  lemma StandAtPacer(cfg: Config, c: Connection, sent: nat, ticks: seq<nat>, m: Model, m1: Model, h: Slot, input: nat)
    requires Holds(m, h, input) && Holds(m1, h, input) && Stands(m, h, m1, h, input)
    requires AtPacer(cfg, c, sent, ticks, m, h, input)
    ensures AtPacer(cfg, c, sent, ticks, m1, h, input)
  {}

  /** Over a run in which h holds the group and every tick reaches it, the frames of the group and the
      timer follow the pacer, whatever else is opened, closed, received or timed out. */
  lemma {:induction false} GroupPaces(cfg: Config, m: Model, events: seq<Event>, h: Slot, input: nat)
    requires Inv(cfg, m) && cfg.Valid() && EventsInScope(cfg, events) && HeldThroughout(cfg, m, events, h, input)
    requires h in m.conns && HasRate(cfg, m.conns[h].terms)
    ensures AtPacer(cfg, m.conns[h], |Sent(m, input)|, Ticks(events), Run(cfg, m, events), h, input)
  {
    if events != [] {
      var (before, e) := (events[..|events| - 1], events[|events| - 1]);
      GroupPaces(cfg, m, before, h, input);
      RunKeepsFrom(cfg, m, before);
      var (m0, m1) := (Run(cfg, m, before), Run(cfg, m, events));
      if e.Tick? {
        TickStepPaces(cfg, m0, e, h, input);
        TickAtPacer(cfg, m.conns[h], |Sent(m, input)|, Ticks(before), e.elapsed, m0, m1, h, input);
      } else {
        StepStands(cfg, m0, e, h, input);
        StandAtPacer(cfg, m.conns[h], |Sent(m, input)|, Ticks(before), m0, m1, h, input);
      }
    }
  }

  lemma {:induction false} TimeOfPacer(events: seq<Event>, start: nat, interval: nat)
    ensures PaceAll(start, Ticks(events), interval).total == Elapsed(events)
  {
    if events != [] {
      var (before, e) := (events[..|events| - 1], events[|events| - 1]);
      TimeOfPacer(before, start, interval);
      if e.Tick? {
        PacedOnceMore(start, Ticks(before), e.elapsed, interval);
      }
    }
  }

  /** The time that a number of frames takes: their product with the interval. */
  function Span(frames: int, interval: nat): int
    decreases if frames < 0 then -frames else frames
  {
    if frames == 0 then 0
    else if frames > 0 then Span(frames - 1, interval) + interval
    else Span(frames + 1, interval) - interval
  }

  lemma {:induction false} SpanIsProduct(frames: int, interval: nat)
    ensures Span(frames, interval) == frames * interval
    decreases if frames < 0 then -frames else frames
  {
    if frames > 0 {
      SpanIsProduct(frames - 1, interval);
      assert frames * interval == (frames - 1) * interval + interval;
    } else if frames < 0 {
      SpanIsProduct(frames + 1, interval);
      assert frames * interval == (frames + 1) * interval - interval;
    }
  }

  /** So in a run after which the group stands at the pacer, k frames in time T from timer t keep the
      pace: the span of k intervals and t make T and the timer if no tick is longer than the interval, and
      are never more. */
  lemma GroupOnTime(cfg: Config, c: Connection, sent: nat, events: seq<Event>, m1: Model, h: Slot, input: nat,
                    interval: nat)
    requires h in m1.conns && AtPacer(cfg, c, sent, Ticks(events), m1, h, input)
    requires interval == IntervalOf(cfg, c.terms) > 0 && c.transmission <= interval
    ensures var (k, t, timer) := (|Sent(m1, input)| - sent, c.transmission, m1.conns[h].transmission);
      && Span(k, interval) + t <= Elapsed(events) + timer <= Elapsed(events) + interval
      && ((forall i :: 0 <= i < |Ticks(events)| ==> Ticks(events)[i] <= interval) ==>
            Span(k, interval) + t == Elapsed(events) + timer)
  {
    TimeOfPacer(events, c.transmission, interval);
    PacingStaysInBounds(c.transmission, Ticks(events), interval);
    SpanIsProduct(|Sent(m1, input)| - sent, interval);
  }

  // ----- all runs -----

  lemma {:induction false} SpanLess(frames: int, interval: nat, more: nat)
    ensures Span(frames - more, interval) <= Span(frames, interval)
    decreases more
  {
    if more > 0 {
      SpanLess(frames, interval, more - 1);
    }
  }

  /** Of a group that has sent `sent` frames in the time `total`, with a holder whose timer stands at
      `timer`: they fit into that time and what the timer stands for. */
  predicate WithinPace(sent: int, interval: nat, timer: nat, total: int) {
    timer <= interval && Span(sent, interval) <= total + timer
  }

  /** In a tick, every holder of the input assembly is within its pace, but for `base` frames; who is
      still to be visited has the time of the tick to come. */
  ghost predicate Paced(cfg: Config, m: Model, input: nat, base: nat, total: nat, elapsed: nat, rest: seq<Slot>) {
    forall h :: Holds(m, h, input) ==>
      WithinPace(|Sent(m, input)| - base, IntervalOf(cfg, m.conns[h].terms), m.conns[h].transmission,
        if h in rest then total else total + elapsed)
  }

  lemma CarriedFrom(m: Model, m1: Model, x: Slot, k: Slot, input: nat) returns (h: Slot)
    requires Carried(m, m1, x) && Holds(m1, k, input)
    ensures Holds(m, h, input) && Stands(m, h, m1, k, input) && (h == k || h == x)
  {
    h := if Succeeds(m, k, m1, k, input) then k else x;
  }

  /** A change that carries the groups on keeps them within their pace, if x is still to be visited. */
  lemma CarriedPaced(cfg: Config, m: Model, m1: Model, x: Slot, input: nat, base: nat, total: nat, elapsed: nat,
                     rest: seq<Slot>)
    requires Paced(cfg, m, input, base, total, elapsed, rest) && Carried(m, m1, x)
    requires x in rest
    ensures Paced(cfg, m1, input, base, total, elapsed, rest)
  {
    forall k | Holds(m1, k, input)
      ensures WithinPace(|Sent(m1, input)| - base, IntervalOf(cfg, m1.conns[k].terms), m1.conns[k].transmission,
        if k in rest then total else total + elapsed)
    {
      var h := CarriedFrom(m, m1, x, k, input);
      assert WithinPace(|Sent(m, input)| - base, IntervalOf(cfg, m.conns[h].terms), m.conns[h].transmission,
        if h in rest then total else total + elapsed);
    }
  }

  /** Every holder of the input assembly is within its pace, but for `base` frames. */
  ghost predicate InPace(cfg: Config, m: Model, input: nat, base: nat, total: nat) {
    forall h :: Holds(m, h, input) ==>
      WithinPace(|Sent(m, input)| - base, IntervalOf(cfg, m.conns[h].terms), m.conns[h].transmission, total)
  }

  lemma CarriedInPace(cfg: Config, m: Model, m1: Model, x: Slot, input: nat, base: nat, total: nat)
    requires InPace(cfg, m, input, base, total) && Carried(m, m1, x)
    ensures InPace(cfg, m1, input, base, total)
  {
    forall k | Holds(m1, k, input)
      ensures WithinPace(|Sent(m1, input)| - base, IntervalOf(cfg, m1.conns[k].terms), m1.conns[k].transmission, total)
    {
      var h := CarriedFrom(m, m1, x, k, input);
      assert WithinPace(|Sent(m, input)| - base, IntervalOf(cfg, m.conns[h].terms), m.conns[h].transmission, total);
    }
  }

  /** The holder of the group has been visited. */
  lemma HolderPaced(cfg: Config, m: Model, m1: Model, x: Slot, input: nat, base: nat, total: nat, elapsed: nat,
                    rest: seq<Slot>)
    requires rest != [] && rest[0] == x && Distinct(rest) && Holds(m, x, input)
    requires PacedOnce(cfg, m, m1, x, input, elapsed) && forall h :: Holds(m1, h, input) ==> h == x
    requires Paced(cfg, m, input, base, total, elapsed, rest)
    ensures Paced(cfg, m1, input, base, total, elapsed, rest[1..])
  {
    var c := m.conns[x];
    assert x !in rest[1..];
    assert WithinPace(|Sent(m, input)| - base, IntervalOf(cfg, c.terms), c.transmission, total);
  }

  /** Somebody else has been visited. */
  lemma OtherPaced(cfg: Config, m: Model, m1: Model, x: Slot, input: nat, base: nat, total: nat, elapsed: nat,
                   rest: seq<Slot>)
    requires rest != [] && rest[0] == x && !Holds(m, x, input)
    requires Sent(m1, input) == Sent(m, input)
    requires forall h :: Holds(m1, h, input) ==> Holds(m, h, input) && Unpaced(m, m1, h, input)
    requires Paced(cfg, m, input, base, total, elapsed, rest)
    ensures Paced(cfg, m1, input, base, total, elapsed, rest[1..])
  {
    forall h | Holds(m1, h, input)
      ensures WithinPace(|Sent(m1, input)| - base, IntervalOf(cfg, m1.conns[h].terms), m1.conns[h].transmission,
        if h in rest[1..] then total else total + elapsed)
    {
      assert h in rest ==> h in rest[1..];
      assert WithinPace(|Sent(m, input)| - base, IntervalOf(cfg, m.conns[h].terms), m.conns[h].transmission,
        if h in rest then total else total + elapsed);
    }
  }

  lemma ProduceOwn(cfg: Config, m: Model, x: Slot, input: nat, elapsed: nat)
    requires cfg.tick > 0 && OneHolder(m) && Holds(m, x, input)
    ensures var m1 := Produce(cfg, m, x, elapsed);
      PacedOnce(cfg, m, m1, x, input, elapsed) && forall h :: Holds(m1, h, input) ==> h == x
  {
    assert forall h :: Holds(Produce(cfg, m, x, elapsed), h, input) ==> Holds(m, h, input);
  }

  lemma ProduceOther(cfg: Config, m: Model, x: Slot, input: nat, elapsed: nat)
    requires cfg.tick > 0 && OneHolder(m) && x in m.conns && !Holds(m, x, input)
    ensures var m1 := Produce(cfg, m, x, elapsed);
      && Sent(m1, input) == Sent(m, input)
      && forall h :: Holds(m1, h, input) ==> Holds(m, h, input) && Unpaced(m, m1, h, input)
  {
    forall h | Holds(Produce(cfg, m, x, elapsed), h, input)
      ensures Holds(m, h, input) && Unpaced(m, Produce(cfg, m, x, elapsed), h, input)
    {
      assert h != x && Holds(m, h, input);
      ProduceAside(cfg, m, x, elapsed, h, input);
    }
  }

  lemma ProducePaced(cfg: Config, m: Model, x: Slot, input: nat, base: nat, total: nat, elapsed: nat, rest: seq<Slot>)
    requires cfg.tick > 0 && OneHolder(m) && x in m.conns && rest != [] && rest[0] == x && Distinct(rest)
    requires Paced(cfg, m, input, base, total, elapsed, rest)
    ensures Paced(cfg, Produce(cfg, m, x, elapsed), input, base, total, elapsed, rest[1..])
  {
    var m1 := Produce(cfg, m, x, elapsed);
    if Holds(m, x, input) {
      ProduceOwn(cfg, m, x, input, elapsed);
      HolderPaced(cfg, m, m1, x, input, base, total, elapsed, rest);
    } else {
      ProduceOther(cfg, m, x, input, elapsed);
      OtherPaced(cfg, m, m1, x, input, base, total, elapsed, rest);
    }
  }

  /** Whoever is not visited has its time. */
  lemma FewerToVisit(cfg: Config, m: Model, input: nat, base: nat, total: nat, elapsed: nat, rest: seq<Slot>,
                     fewer: seq<Slot>)
    requires Paced(cfg, m, input, base, total, elapsed, rest) && forall h :: h in fewer ==> h in rest
    ensures Paced(cfg, m, input, base, total, elapsed, fewer)
  {
    forall h | Holds(m, h, input)
      ensures WithinPace(|Sent(m, input)| - base, IntervalOf(cfg, m.conns[h].terms), m.conns[h].transmission,
        if h in fewer then total else total + elapsed)
    {
      assert WithinPace(|Sent(m, input)| - base, IntervalOf(cfg, m.conns[h].terms), m.conns[h].transmission,
        if h in rest then total else total + elapsed);
    }
  }

  lemma VisitPaced(cfg: Config, m: Model, input: nat, base: nat, total: nat, elapsed: nat, environment: Environment,
                   rest: seq<Slot>)
    requires Inv(cfg, m) && cfg.tick > 0 && rest != [] && rest[0] in m.conns && Distinct(rest)
    requires Paced(cfg, m, input, base, total, elapsed, rest)
    ensures Paced(cfg, Process(cfg, m, rest[0], elapsed, environment), input, base, total, elapsed, rest[1..])
  {
    var x := rest[0];
    if !m.conns[x].state.Established? {
      FewerToVisit(cfg, m, input, base, total, elapsed, rest, rest[1..]);
    } else {
      var m1 := Watch(m, x, elapsed, environment);
      WatchCarries(cfg, m, x, elapsed, environment);
      CarriedPaced(cfg, m, m1, x, input, base, total, elapsed, rest);
      if x in m1.conns && m1.conns[x].state.Established? {
        WatchKeeps(cfg, m, x, elapsed, environment);
        ProducePaced(cfg, m1, x, input, base, total, elapsed, rest);
      } else {
        FewerToVisit(cfg, m1, input, base, total, elapsed, rest, rest[1..]);
      }
    }
  }

  /** In a tick each group is paced at most once, by whom it has when its turn comes. */
  lemma {:induction false} TickPaced(cfg: Config, m: Model, input: nat, base: nat, total: nat, elapsed: nat,
                                     environment: Environment, rest: seq<Slot>)
    requires Inv(cfg, m) && cfg.tick > 0 && Distinct(rest) && Paced(cfg, m, input, base, total, elapsed, rest)
    ensures Paced(cfg, TickOver(cfg, m, rest, elapsed, environment), input, base, total, elapsed, [])
    decreases |rest|
  {
    if rest != [] && rest[0] in m.conns {
      var m1 := Process(cfg, m, rest[0], elapsed, environment);
      ProcessKeeps(cfg, m, rest[0], elapsed, environment);
      VisitPaced(cfg, m, input, base, total, elapsed, environment, rest);
      if rest[0] in m1.conns {
        TickPaced(cfg, m1, input, base, total, elapsed, environment, rest[1..]);
      } else {
        FewerToVisit(cfg, m1, input, base, total, elapsed, rest[1..], []);
      }
    } else if rest != [] {
      FewerToVisit(cfg, m, input, base, total, elapsed, rest, rest[1..]);
      TickPaced(cfg, m, input, base, total, elapsed, environment, rest[1..]);
    }
  }

  lemma PaceAllows(sent: int, interval: nat, timer: nat, total: nat, more: nat)
    requires WithinPace(sent, interval, timer, total)
    ensures WithinPace(sent - more, interval, timer, total)
    ensures WithinPace(sent - 1, interval, 0, total)
  {
    SpanLess(sent, interval, more);
  }

  lemma BaseGrows(cfg: Config, m: Model, input: nat, base: nat, total: nat, more: nat)
    requires InPace(cfg, m, input, base, total)
    ensures InPace(cfg, m, input, base + more, total)
  {
    forall h | Holds(m, h, input)
      ensures WithinPace(|Sent(m, input)| - (base + more), IntervalOf(cfg, m.conns[h].terms), m.conns[h].transmission,
        total)
    {
      PaceAllows(|Sent(m, input)| - base, IntervalOf(cfg, m.conns[h].terms), m.conns[h].transmission, total, more);
    }
  }

  /** The connection is an exclusive owner of the input assembly, and its group has a holder. */
  predicate SeizesFor(m: Model, c: Connection, input: nat) {
    && c.terms.kind.ExclusiveOwner? && c.terms.tToO.Multicast? && c.terms.input == input
    && Search(m, ProducerOf(input, true)).Some?
  }

  /** A newcomer of the same interval keeps the pace, but for one frame if it seizes the group: its timer
      starts at 0. */
  lemma AdmitPaced(cfg: Config, m: Model, x: Slot, c: Connection, input: nat, base: nat, total: nat)
    requires Listed(m) && OneHolder(m) && x !in m.conns && IsIo(c) && c == Fresh(c.terms)
    requires c.terms.tToO.Multicast? ==>
      match Search(m, ProducerOf(c.terms.input, true))
      case Some(e) => m.conns[e].terms.tToOInterval == c.terms.tToOInterval
      case None => true
    requires InPace(cfg, m, input, base, total)
    ensures InPace(cfg, Admit(m, x, c), input, base + (if SeizesFor(m, c, input) then 1 else 0), total)
  {
    var (m1, e) := (Admit(m, x, c), Search(m, ProducerOf(c.terms.input, true)));
    var base1 := base + (if SeizesFor(m, c, input) then 1 else 0);
    HolderFound(m, c.terms.input);
    forall k | Holds(m1, k, input)
      ensures WithinPace(|Sent(m1, input)| - base1, IntervalOf(cfg, m1.conns[k].terms), m1.conns[k].transmission, total)
    {
      if k != x {
        assert Holds(m, k, input) && Sent(m1, input) == Sent(m, input) && !SeizesFor(m, c, input);
      } else if e.None? {
        assert Sent(m1, input) == [] && m1.conns[k].transmission == 0;
        PaceAllows(0, IntervalOf(cfg, m1.conns[k].terms), 0, total, base1);
      } else {
        var h := e.value;
        assert Holds(m, h, input) && SeizesFor(m, c, input) && Sent(m1, input) == Sent(m, input);
        PaceAllows(|Sent(m, input)| - base, IntervalOf(cfg, m.conns[h].terms), m.conns[h].transmission, total, 0);
      }
    }
  }

  lemma SeizesMet(cfg: Config, m: Model, r: Request)
    requires Inv(cfg, m) && cfg.Valid() && Select(cfg, m, r.terms).1.Chosen? && InhibitTime(r.terms).Some?
    ensures Seizes(cfg, m, r) <==>
      Acceptable(cfg, m, r) && SeizesFor(Admission(cfg, m, r).0, Admission(cfg, m, r).1, r.terms.input)
  {
    HolderMet(cfg, m, r);
    ConfiguredTerms(cfg, m, r);
  }

  lemma AdmissionAgrees(cfg: Config, m: Model, r: Request)
    requires Acceptable(cfg, m, r) && r.terms.tToO.Multicast?
    ensures var (m2, c) := Admission(cfg, m, r);
      match Search(m2, ProducerOf(c.terms.input, true))
      case Some(e) => m2.conns[e].terms.tToOInterval == c.terms.tToOInterval
      case None => true
  {
    var (m2, t) := Configured(cfg, m, r);
    ConfiguredTerms(cfg, m, r);
    HolderAgrees(cfg, m2, t, r);
  }

  /** One frame for a Forward Open that seizes the group of the input assembly. */
  function Seizure(cfg: Config, m: Model, e: Event, input: nat): nat {
    if e.ForwardOpen? && e.request.terms.input == input && Seizes(cfg, m, e.request) then 1 else 0
  }

  lemma SeizureMet(cfg: Config, m: Model, r: Request, input: nat)
    requires Inv(cfg, m) && cfg.Valid() && Select(cfg, m, r.terms).1.Chosen? && InhibitTime(r.terms).Some?
    ensures var (m2, c) := Admission(cfg, m, r);
      Seizure(cfg, m, ForwardOpen(r), input) == if Acceptable(cfg, m, r) && SeizesFor(m2, c, input) then 1 else 0
  {
    SeizesMet(cfg, m, r);
    ConfiguredTerms(cfg, m, r);
  }

  /** An I/O request that has come to its slot is admitted exactly if it is acceptable. */
  lemma AdmittedIfAcceptable(cfg: Config, m: Model, r: Request)
    requires r.target.Assembly? && EarlyRefusal(cfg, m, r.terms) == 0
    requires Select(cfg, m, r.terms).1.Chosen? && InhibitTime(r.terms).Some?
    ensures var (m2, c) := Admission(cfg, m, r);
      EstablishIo(cfg, m, r).0 ==
        if Acceptable(cfg, m, r) then Admit(m2, Select(cfg, m, r.terms).1.slot, c) else m2
  {
    EstablishIoShape(cfg, m, r);
    OpenedIfAcceptable(cfg, m, r);
  }

  lemma OpenPaced(cfg: Config, m: Model, r: Request, input: nat, base: nat, total: nat)
    requires Inv(cfg, m) && cfg.Valid() && Select(cfg, m, r.terms).1.Chosen? && r.target.Assembly?
    requires EarlyRefusal(cfg, m, r.terms) == 0 && InPace(cfg, m, input, base, total)
    ensures InPace(cfg, EstablishIo(cfg, m, r).0, input, base + Seizure(cfg, m, ForwardOpen(r), input), total)
  {
    var x := Select(cfg, m, r.terms).1.slot;
    if InhibitTime(r.terms).None? {
      InhibitRefusalCarries(cfg, m, r);
      CarriedInPace(cfg, m, EstablishIo(cfg, m, r).0, x, input, base, total);
    } else {
      AdmissionReady(cfg, m, r);
      CarriedInPace(cfg, m, Admission(cfg, m, r).0, x, input, base, total);
      SeizureMet(cfg, m, r, input);
      AdmittedIfAcceptable(cfg, m, r);
      if Acceptable(cfg, m, r) {
        AcceptedPaced(cfg, m, r, input, base, total);
      }
    }
  }

  lemma AcceptedPaced(cfg: Config, m: Model, r: Request, input: nat, base: nat, total: nat)
    requires Acceptable(cfg, m, r)
    requires var (x, m2) := (Select(cfg, m, r.terms).1.slot, Admission(cfg, m, r).0);
      Listed(m2) && OneHolder(m2) && x !in m2.conns && InPace(cfg, m2, input, base, total)
    ensures var (x, (m2, c)) := (Select(cfg, m, r.terms).1.slot, Admission(cfg, m, r));
      InPace(cfg, Admit(m2, x, c), input, base + (if SeizesFor(m2, c, input) then 1 else 0), total)
  {
    var (m2, c) := Admission(cfg, m, r);
    AdmissionIsIo(cfg, m, r);
    ConfiguredTerms(cfg, m, r);
    if r.terms.tToO.Multicast? {
      AdmissionAgrees(cfg, m, r);
    }
    AdmitPaced(cfg, m2, Select(cfg, m, r.terms).1.slot, c, input, base, total);
  }

  lemma PacedIs(cfg: Config, m: Model, input: nat, base: nat, total: nat, base': nat, total': nat)
    requires InPace(cfg, m, input, base, total) && base' == base && total' == total
    ensures InPace(cfg, m, input, base', total')
  {}

  /** The pace after a step: the time grows with a tick, and a seizure counts as a frame. */
  lemma StepPaced(cfg: Config, m: Model, e: Event, input: nat, base: nat, total: nat, base': nat, total': nat)
    requires Inv(cfg, m) && cfg.Valid() && InPace(cfg, m, input, base, total)
    requires base' == base + Seizure(cfg, m, e, input) && total' == total + if e.Tick? then e.elapsed else 0
    ensures InPace(cfg, Step(cfg, m, e), input, base', total')
  {
    if e.Tick? {
      TickStepPaced(cfg, m, e, input, base, total, total');
    } else if e.ForwardOpen? && e.request.target.Assembly? && EarlyRefusal(cfg, m, e.request.terms) == 0 &&
      Select(cfg, m, e.request.terms).1.Chosen? {
      OpenStepPaced(cfg, m, e.request, input, base, total, base');
    } else {
      NothingSeized(cfg, m, e, input);
      OtherStepPaced(cfg, m, e, input, base, total);
    }
  }

  lemma OpenStepPaced(cfg: Config, m: Model, r: Request, input: nat, base: nat, total: nat, base': nat)
    requires Inv(cfg, m) && cfg.Valid() && Select(cfg, m, r.terms).1.Chosen? && r.target.Assembly?
    requires EarlyRefusal(cfg, m, r.terms) == 0 && InPace(cfg, m, input, base, total)
    requires base' == base + Seizure(cfg, m, ForwardOpen(r), input)
    ensures InPace(cfg, Step(cfg, m, ForwardOpen(r)), input, base', total)
  {
    OpenPaced(cfg, m, r, input, base, total);
    PacedIs(cfg, EstablishIo(cfg, m, r).0, input, base + Seizure(cfg, m, ForwardOpen(r), input), total, base', total);
  }

  lemma OtherStepPaced(cfg: Config, m: Model, e: Event, input: nat, base: nat, total: nat)
    requires Inv(cfg, m) && cfg.Valid() && !e.Tick? && InPace(cfg, m, input, base, total)
    requires e.ForwardOpen? && e.request.target.Assembly? ==>
      EarlyRefusal(cfg, m, e.request.terms) != 0 || !Select(cfg, m, e.request.terms).1.Chosen?
    ensures InPace(cfg, Step(cfg, m, e), input, base, total)
  {
    var x := StepCarries(cfg, m, e);
    CarriedInPace(cfg, m, Step(cfg, m, e), x, input, base, total);
  }

  lemma NothingSeized(cfg: Config, m: Model, e: Event, input: nat)
    requires e.ForwardOpen? && e.request.target.Assembly? ==>
      EarlyRefusal(cfg, m, e.request.terms) != 0 || !Select(cfg, m, e.request.terms).1.Chosen?
    ensures Seizure(cfg, m, e, input) == 0
  {}

  /** At the start of a tick everybody is still to be visited, at its end nobody is. */
  lemma TickBegins(cfg: Config, m: Model, input: nat, base: nat, total: nat, elapsed: nat)
    requires Listed(m) && InPace(cfg, m, input, base, total)
    ensures Paced(cfg, m, input, base, total, elapsed, m.active)
  {
    forall h | Holds(m, h, input)
      ensures WithinPace(|Sent(m, input)| - base, IntervalOf(cfg, m.conns[h].terms), m.conns[h].transmission,
        if h in m.active then total else total + elapsed)
    {
      assert WithinPace(|Sent(m, input)| - base, IntervalOf(cfg, m.conns[h].terms), m.conns[h].transmission, total);
    }
  }

  lemma TickEnds(cfg: Config, m: Model, input: nat, base: nat, total: nat, elapsed: nat)
    requires Paced(cfg, m, input, base, total, elapsed, [])
    ensures InPace(cfg, m, input, base, total + elapsed)
  {}

  lemma TickStepPaced(cfg: Config, m: Model, e: Event, input: nat, base: nat, total: nat, total': nat)
    requires Inv(cfg, m) && cfg.tick > 0 && e.Tick? && InPace(cfg, m, input, base, total)
    requires total' == total + e.elapsed
    ensures InPace(cfg, Step(cfg, m, e), input, base, total')
  {
    TickBegins(cfg, m, input, base, total, e.elapsed);
    TickPaced(cfg, m, input, base, total, e.elapsed, e.environment, m.active);
    TickEnds(cfg, Step(cfg, m, e), input, base, total, e.elapsed);
  }

  /** How often the group of the input assembly is seized in a run. */
  function Seizures(cfg: Config, m: Model, events: seq<Event>, input: nat): nat
    requires cfg.tick > 0
  {
    if events == [] then 0
    else
      var (before, e) := (events[..|events| - 1], events[|events| - 1]);
      Seizures(cfg, m, before, input) + Seizure(cfg, Run(cfg, m, before), e, input)
  }

  lemma LastStepPaced(cfg: Config, m: Model, events: seq<Event>, input: nat, base: nat)
    requires Inv(cfg, m) && cfg.Valid() && EventsInScope(cfg, events) && events != []
    requires var before := events[..|events| - 1];
      InPace(cfg, Run(cfg, m, before), input, base + Seizures(cfg, m, before, input), Elapsed(before))
    ensures InPace(cfg, Run(cfg, m, events), input, base + Seizures(cfg, m, events, input), Elapsed(events))
  {
    var (before, e) := (events[..|events| - 1], events[|events| - 1]);
    RunKeepsFrom(cfg, m, before);
    StepPaced(cfg, Run(cfg, m, before), e, input, base + Seizures(cfg, m, before, input), Elapsed(before),
      base + Seizures(cfg, m, events, input), Elapsed(events));
  }

  /** Over any run, in a time T a group sends no more frames than go into T and what the holder's timer
      stands for, which is at most one interval, and one more each time an exclusive owner seizes it;
      whatever else is opened, closed, handed over or timed out in between. `base` sets aside the frames
      sent before. */
  lemma {:induction false} FramesBounded(cfg: Config, m: Model, events: seq<Event>, input: nat, base: nat)
    requires Inv(cfg, m) && cfg.Valid() && EventsInScope(cfg, events) && InPace(cfg, m, input, base, 0)
    ensures InPace(cfg, Run(cfg, m, events), input, base + Seizures(cfg, m, events, input), Elapsed(events))
  {
    if events == [] {
      PacedIs(cfg, m, input, base, 0, base + Seizures(cfg, m, events, input), Elapsed(events));
    } else {
      FramesBounded(cfg, m, events[..|events| - 1], input, base);
      LastStepPaced(cfg, m, events, input, base);
    }
  }

  /** A group that is within its pace is so with all its frames set aside. */
  lemma PacedAnew(cfg: Config, m: Model, input: nat, base: nat, total: nat)
    requires InPace(cfg, m, input, base, total)
    ensures InPace(cfg, m, input, |Sent(m, input)|, 0)
  {
    forall h | Holds(m, h, input)
      ensures WithinPace(0, IntervalOf(cfg, m.conns[h].terms), m.conns[h].transmission, 0)
    {
      assert WithinPace(|Sent(m, input)| - base, IntervalOf(cfg, m.conns[h].terms), m.conns[h].transmission, total);
    }
  }

  /** So that bound counts from every reachable state: with the frames sent until then set aside, each
      group is within its pace, its holder's timer standing within the interval. */
  lemma ReachableInPace(cfg: Config, events: seq<Event>, input: nat)
    requires cfg.Valid() && EventsInScope(cfg, events)
    ensures var m := Run(cfg, Boot, events); InPace(cfg, m, input, |Sent(m, input)|, 0)
  {
    FramesBounded(cfg, Boot, events, input, 0);
    PacedAnew(cfg, Run(cfg, Boot, events), input, 0 + Seizures(cfg, Boot, events, input), Elapsed(events));
  }
}
