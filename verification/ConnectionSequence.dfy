/** The EIP-level sequence numbers of a multicast group across every change of its holder. */
module ConnectionSequence {
  import opened Connections
  import opened ConnectionModel
  import opened ConnectionInvariants
  import opened ConnectionOpening
  import opened ConnectionRuns
  import opened Widths

  /** A frame and the next one of its group: the numbers follow each other modulo 2^32, or the group
      has been taken over and starts again at 1. */
  predicate Follows(f: Frame, g: Frame) {
    g.id == f.id && (g.sequence == (f.sequence + 1) % UINT32 || g.sequence == 1)
  }

  /** Frames are numbered 1, 2, 3, ... modulo 2^32, all under one produced connection id; with
      restarts, every frame but the first follows the one before it. */
  ghost predicate Numbered(frames: seq<Frame>, restarts: bool) {
    if restarts then
      && (frames != [] ==> frames[0].sequence == 1)
      && forall j, k :: 0 <= j < |frames| && 0 <= k < |frames| && k == j + 1 ==> Follows(frames[j], frames[k])
    else forall k :: 0 <= k < |frames| ==> frames[k].sequence == (k + 1) % UINT32 && frames[k].id == frames[0].id
  }

  /** The holder stands at the last frame of its group; with restarts, it may stand at 0. */
  ghost predicate InStep(c: Connection, frames: seq<Frame>, restarts: bool) {
    if restarts then
      && (c.eipProducing == 0 || (frames != [] && c.eipProducing == frames[|frames| - 1].sequence))
      && (frames != [] ==> frames[|frames| - 1].id == c.terms.producedId)
    else
      && c.eipProducing == |frames| % UINT32
      && forall k :: 0 <= k < |frames| ==> frames[k].id == c.terms.producedId
  }

  ghost predicate Continuous(m: Model, restarts: bool) {
    && (forall input :: Numbered(Sent(m, input), restarts))
    && forall h, input :: Holds(m, h, input) ==> InStep(m.conns[h], Sent(m, input), restarts)
  }

  /** k, a holder in m1, carries on the count, the id and the pace of the holder h of its group in m. */
  ghost predicate Succeeds(m: Model, h: Slot, m1: Model, k: Slot, input: nat)
    requires k in m1.conns
  {
    && Holds(m, h, input)
    && m1.conns[k].eipProducing == m.conns[h].eipProducing
    && m1.conns[k].transmission == m.conns[h].transmission
    && m1.conns[k].terms.producedId == m.conns[h].terms.producedId
    && m1.conns[k].terms.tToOInterval == m.conns[h].terms.tToOInterval
  }

  /** Every holder in m1 carries on for itself or for x. */
  ghost predicate Carried(m: Model, m1: Model, x: Slot) {
    && m1.history == m.history
    && forall k, input :: Holds(m1, k, input) ==> Succeeds(m, k, m1, k, input) || Succeeds(m, x, m1, k, input)
  }

  lemma CarriedContinues(m: Model, m1: Model, x: Slot, restarts: bool)
    requires Continuous(m, restarts) && Carried(m, m1, x)
    ensures Continuous(m1, restarts)
  {
    forall input ensures Numbered(Sent(m1, input), restarts) {
      assert Numbered(Sent(m, input), restarts);
    }
    forall k, input | Holds(m1, k, input)
      ensures InStep(m1.conns[k], Sent(m1, input), restarts)
    {
      var h := if Succeeds(m, k, m1, k, input) then k else x;
      assert InStep(m.conns[h], Sent(m, input), restarts);
    }
  }

  lemma CarriedOn(m: Model, m1: Model, m2: Model, x: Slot)
    requires Carried(m, m1, x) && Carried(m1, m2, x)
    ensures Carried(m, m2, x)
  {
    forall k, input | Holds(m2, k, input)
      ensures Succeeds(m, k, m2, k, input) || Succeeds(m, x, m2, k, input)
    {
      var j := if Succeeds(m1, k, m2, k, input) then k else x;
      assert Succeeds(m1, j, m2, k, input) && Holds(m1, j, input);
    }
  }

  lemma DropCarries(m: Model, gone: set<Slot>, x: Slot)
    ensures Carried(m, Drop(m, gone), x)
  {
    assert forall k, input :: Holds(Drop(m, gone), k, input) ==> Succeeds(m, k, Drop(m, gone), k, input);
  }

  lemma UpdateCarries(m: Model, m1: Model, x: Slot)
    requires Updated(m, m1, x) && m1.history == m.history
    requires m1.conns[x].eipProducing == m.conns[x].eipProducing && m1.conns[x].transmission == m.conns[x].transmission
    ensures Carried(m, m1, x)
  {
    assert forall k, input :: Holds(m1, k, input) ==> Succeeds(m, k, m1, k, input);
  }

  lemma HandOverCarries(cfg: Config, m: Model, x: Slot, y: Slot)
    requires Core(cfg, m) && x in m.conns && ControlsGroup(m.conns[x]) && !m.conns[x].state.Established?
    requires y in m.conns && Hit(MasterFor(m.conns[x].terms.input), y, m.conns[y])
    ensures Carried(m, HandOver(m, x, y), x)
  {
    assert Holds(m, x, m.conns[x].terms.input);
    HandOverKeepsGroups(m, x, y);
    assert Mismatch(m.conns[x].terms, m.conns[y].terms) == 0;
    HandOverHolders(m, x, y);
  }

  lemma HandOverHolders(m: Model, x: Slot, y: Slot)
    requires x in m.conns && y in m.conns && x != y && Holds(m, x, m.conns[x].terms.input)
    requires m.conns[y].terms.input == m.conns[x].terms.input &&
      m.conns[y].terms.producedId == m.conns[x].terms.producedId &&
      m.conns[y].terms.tToOInterval == m.conns[x].terms.tToOInterval
    ensures Carried(m, HandOver(m, x, y), x)
  {
    var m1 := HandOver(m, x, y);
    forall k, input | Holds(m1, k, input)
      ensures Succeeds(m, k, m1, k, input) || Succeeds(m, x, m1, k, input)
    {
      assert Succeeds(m, if k == y then x else k, m1, k, input);
    }
  }

  lemma RelinquishCarries(cfg: Config, m: Model, x: Slot)
    requires Core(cfg, m) && x in m.conns && ControlsGroup(m.conns[x]) && !m.conns[x].state.Established?
    ensures Carried(m, Relinquish(m, x), x)
  {
    match Search(m, MasterFor(m.conns[x].terms.input))
    case Some(y) => HandOverCarries(cfg, m, x, y);
    case None => DropCarries(m, OfKind(m, m.conns[x].terms.input, ListenOnly), x);
  }

  lemma CloseCarries(cfg: Config, m: Model, x: Slot)
    requires Inv(cfg, m) && x in m.conns
    ensures Carried(m, Close(m, x), x)
  {
    if IsIo(m.conns[x]) {
      var m1 := Retire(m, x, NonExistent);
      UpdateKeeps(cfg, m, m1, x);
      UpdateCarries(m, m1, x);
      var m2 := if ControlsGroup(m1.conns[x]) then Relinquish(m1, x) else m1;
      if ControlsGroup(m1.conns[x]) {
        RelinquishCarries(cfg, m1, x);
        CarriedOn(m, m1, m2, x);
      }
      DropCarries(m2, {x}, x);
      CarriedOn(m, m2, Drop(m2, {x}), x);
    } else {
      DropCarries(m, {x}, x);
    }
  }

  lemma NothingCarries(m: Model, m1: Model, x: Slot)
    requires m1.conns == m.conns && m1.history == m.history
    ensures Carried(m, m1, x)
  {
    assert forall k, input :: Holds(m1, k, input) ==> Succeeds(m, k, m1, k, input);
  }

  lemma CloseSessionCarries(cfg: Config, m: Model, session: nat, x: Slot)
    requires Inv(cfg, m)
    ensures Carried(m, CloseSession(m, session), x)
  {
    match Search(m, MessagingOf(session))
    case Some(y) =>
      assert !IsIo(m.conns[y]);
      DropCarries(m, {y}, x);
    case None => NothingCarries(m, m, x);
  }

  lemma {:induction false} CloseSessionsCarry(cfg: Config, m: Model, sessions: seq<nat>, x: Slot)
    requires Inv(cfg, m)
    ensures Carried(m, CloseSessions(m, sessions), x)
    decreases |sessions|
  {
    NothingCarries(m, m, x);
    if sessions != [] {
      var m1 := CloseSession(m, sessions[0]);
      CloseSessionCarries(cfg, m, sessions[0], x);
      CloseSessionKeeps(cfg, m, sessions[0]);
      CloseSessionsCarry(cfg, m1, sessions[1..], x);
      CarriedOn(m, m1, CloseSessions(m1, sessions[1..]), x);
    }
  }

  lemma CloseDependentsCarries(m: Model, input: nat, x: Slot)
    ensures Carried(m, CloseDependents(m, input), x)
  {
    var m1 := Drop(m, OfKind(m, input, InputOnly));
    DropCarries(m, OfKind(m, input, InputOnly), x);
    DropCarries(m1, OfKind(m1, input, ListenOnly), x);
    CarriedOn(m, m1, CloseDependents(m, input), x);
  }

  lemma ExpireCarries(cfg: Config, m: Model, x: Slot, environment: Environment)
    requires Inv(cfg, m) && x in m.conns
    ensures Carried(m, EndOriginator(Retire(m, x, TimedOut), x, environment), x)
  {
    var m0 := Retire(m, x, TimedOut);
    UpdateKeepsInv(cfg, m, m0, x);
    UpdateCarries(m, m0, x);
    NothingCarries(m0, m0, x);
    CloseSessionsCarry(cfg, m0, SessionsOf(environment, x), x);
    CarriedOn(m, m0, EndOriginator(m0, x, environment), x);
  }

  lemma TimeOutCarries(cfg: Config, m: Model, x: Slot, environment: Environment)
    requires Inv(cfg, m) && x in m.conns
    ensures Carried(m, TimeOut(m, x, environment), x)
  {
    var c := m.conns[x];
    if IsIo(c) {
      var m1 := EndOriginator(Retire(m, x, TimedOut), x, environment);
      ExpireKeeps(cfg, m, x, environment);
      ExpireCarries(cfg, m, x, environment);
      var m2 := if ControlsGroup(c) then Relinquish(m1, x) else m1;
      if ControlsGroup(c) {
        RelinquishCarries(cfg, m1, x);
        CarriedOn(m, m1, m2, x);
      }
      CloseDependentsCarries(m2, c.terms.input, x);
      CarriedOn(m, m2, CloseDependents(m2, c.terms.input), x);
    } else {
      DropCarries(m, {x}, x);
    }
  }

  /** The part of a tick that watches, for a connection that goes on or times out. */
  lemma WatchCarries(cfg: Config, m: Model, x: Slot, elapsed: nat, environment: Environment)
    requires Inv(cfg, m) && x in m.conns
    ensures Carried(m, Watch(m, x, elapsed, environment), x)
  {
    var c := m.conns[x];
    if !Watched(c) {
      NothingCarries(m, m, x);
    } else if elapsed >= c.watchdog {
      TimeOutCarries(cfg, m, x, environment);
    } else {
      UpdateCarries(m, Watch(m, x, elapsed, environment), x);
    }
  }

  // ----- sending -----

  lemma NumberedGrows(frames: seq<Frame>, c: Connection, restarts: bool)
    requires Numbered(frames, restarts) && InStep(c, frames, restarts)
    ensures var d := c.(eipProducing := (c.eipProducing + 1) % UINT32);
      var more := frames + [Frame(d.eipProducing, c.terms.producedId)];
      Numbered(more, restarts) && InStep(d, more, restarts)
  {}

  lemma SendContinues(m: Model, x: Slot, restarts: bool)
    requires Continuous(m, restarts) && OneHolder(m) && x in m.conns && m.conns[x].producing
    ensures Continuous(Send(m, x), restarts)
  {
    var c := m.conns[x];
    var m1 := Send(m, x);
    var input := c.terms.input;
    if IsMulticastIo(c) {
      assert Holds(m, x, input);
      NumberedGrows(Sent(m, input), c, restarts);
    }
    forall i ensures Numbered(Sent(m1, i), restarts) {
      assert Numbered(Sent(m, i), restarts);
    }
    forall h, i | Holds(m1, h, i) ensures InStep(m1.conns[h], Sent(m1, i), restarts) {
      assert Holds(m, h, i);
    }
  }

  lemma ProcessContinues(cfg: Config, m: Model, x: Slot, elapsed: nat, environment: Environment, restarts: bool)
    requires Inv(cfg, m) && cfg.tick > 0 && x in m.conns && Continuous(m, restarts)
    ensures Continuous(Process(cfg, m, x, elapsed, environment), restarts)
  {
    var c := m.conns[x];
    if c.state.Established? {
      var m1 := Watch(m, x, elapsed, environment);
      WatchCarries(cfg, m, x, elapsed, environment);
      CarriedContinues(m, m1, x, restarts);
      if x in m1.conns && m1.conns[x].state.Established? {
        WatchKeeps(cfg, m, x, elapsed, environment);
        ProduceContinues(cfg, m1, x, elapsed, restarts);
      }
    }
  }

  lemma TimerAside(m: Model, x: Slot, timer: nat, restarts: bool)
    requires Continuous(m, restarts) && x in m.conns
    ensures Continuous(Put(m, x, m.conns[x].(transmission := timer)), restarts)
  {
    var m1 := Put(m, x, m.conns[x].(transmission := timer));
    assert forall input :: Sent(m1, input) == Sent(m, input);
    assert forall h, input :: Holds(m1, h, input) ==> Holds(m, h, input);
  }

  lemma ProduceContinues(cfg: Config, m: Model, x: Slot, elapsed: nat, restarts: bool)
    requires cfg.tick > 0 && Continuous(m, restarts) && OneHolder(m) && x in m.conns
    ensures Continuous(Produce(cfg, m, x, elapsed), restarts)
  {
    var c := m.conns[x];
    if ExpectedRate(c.terms.tToOInterval, cfg.tick) != 0 && c.producing {
      var (due, timer) := Pace(c.transmission, RequestedInterval(c.terms.tToOInterval, cfg.tick), elapsed);
      var m1 := if due then Send(m, x) else m;
      if due {
        SendContinues(m, x, restarts);
      }
      TimerAside(m1, x, timer, restarts);
    }
  }

  lemma {:induction false} TickContinues(cfg: Config, m: Model, rest: seq<Slot>, elapsed: nat,
                                         environment: Environment, restarts: bool)
    requires Inv(cfg, m) && cfg.tick > 0 && Continuous(m, restarts)
    ensures Continuous(TickOver(cfg, m, rest, elapsed, environment), restarts)
    decreases |rest|
  {
    if rest != [] {
      if rest[0] in m.conns {
        ProcessKeeps(cfg, m, rest[0], elapsed, environment);
        ProcessContinues(cfg, m, rest[0], elapsed, environment, restarts);
        var m1 := Process(cfg, m, rest[0], elapsed, environment);
        if rest[0] in m1.conns {
          TickContinues(cfg, m1, rest[1..], elapsed, environment, restarts);
        }
      } else {
        TickContinues(cfg, m, rest[1..], elapsed, environment, restarts);
      }
    }
  }

  // ----- opening -----

  /** An exclusive owner joins a group whose holder has sent: the socket and the id pass to it, the
      sequence number does not. */
  predicate TakesOverRunning(m: Model, c: Connection) {
    && c.terms.kind.ExclusiveOwner? && c.terms.tToO.Multicast?
    && match Search(m, ProducerOf(c.terms.input, true))
       case Some(e) => m.conns[e].eipProducing != 0
       case None => false
  }

  /** Admitting a connection keeps the numbering exactly if it does not take over a running group. */
  lemma AdmitContinuity(m: Model, x: Slot, c: Connection, restarts: bool)
    requires Listed(m) && OneHolder(m) && Continuous(m, restarts) && x !in m.conns && IsIo(c) && c == Fresh(c.terms)
    ensures Continuous(Admit(m, x, c), restarts) <==> restarts || !TakesOverRunning(m, c)
  {
    if !restarts && TakesOverRunning(m, c) {
      AdmitBreaks(m, x, c);
    } else {
      AdmitContinues(m, x, c, restarts);
    }
  }

  lemma AdmitBreaks(m: Model, x: Slot, c: Connection)
    requires Continuous(m, false) && x !in m.conns && IsIo(c) && c == Fresh(c.terms) && TakesOverRunning(m, c)
    ensures !Continuous(Admit(m, x, c), false)
  {
    var (m1, input) := (Admit(m, x, c), c.terms.input);
    var e := Search(m, ProducerOf(input, true)).value;
    assert Holds(m, e, input) && InStep(m.conns[e], Sent(m, input), false);
    assert Holds(m1, x, input) && !InStep(m1.conns[x], Sent(m1, input), false);
  }

  lemma AdmitContinues(m: Model, x: Slot, c: Connection, restarts: bool)
    requires Listed(m) && OneHolder(m) && Continuous(m, restarts) && x !in m.conns && IsIo(c) && c == Fresh(c.terms)
    requires restarts || !TakesOverRunning(m, c)
    ensures Continuous(Admit(m, x, c), restarts)
  {
    var (m1, e) := (Admit(m, x, c), Search(m, ProducerOf(c.terms.input, true)));
    HolderFound(m, c.terms.input);
    forall i ensures Numbered(Sent(m1, i), restarts) {
      assert Numbered(Sent(m, i), restarts);
    }
    forall h, i | Holds(m1, h, i) ensures InStep(m1.conns[h], Sent(m1, i), restarts) {
      if h != x {
        assert Holds(m, h, i);
        assert c.terms.tToO.Multicast? && i == c.terms.input ==> e == Some(h);
      } else if e.Some? {
        assert InStep(m.conns[e.value], Sent(m, c.terms.input), restarts);
      }
    }
  }

  /** An acceptable request of an exclusive owner for an input assembly that has a multicast group. The
      holder of the group sits outside the slot that the request vacates, or leaves a master behind. */
  predicate Seizes(cfg: Config, m: Model, r: Request) {
    && Acceptable(cfg, m, r) && Select(cfg, m, r.terms).0.ExclusiveOwner? && r.terms.tToO.Multicast?
    && match Search(m, ProducerOf(r.terms.input, true))
       case Some(e) => e == Select(cfg, m, r.terms).1.slot ==> Search(m, MasterFor(r.terms.input)).Some?
       case None => false
  }

  /** And the group has sent: its holder has counted frames. */
  predicate TakesOver(cfg: Config, m: Model, r: Request) {
    && Seizes(cfg, m, r)
    && m.conns[Search(m, ProducerOf(r.terms.input, true)).value].eipProducing != 0
  }

  lemma TakesOverMet(cfg: Config, m: Model, r: Request)
    requires Inv(cfg, m) && cfg.Valid() && Select(cfg, m, r.terms).1.Chosen? && InhibitTime(r.terms).Some?
    ensures TakesOver(cfg, m, r) <==>
      Acceptable(cfg, m, r) && TakesOverRunning(Admission(cfg, m, r).0, Admission(cfg, m, r).1)
  {
    HolderMet(cfg, m, r);
    ConfiguredTerms(cfg, m, r);
  }

  /** The state before an admission carries on the groups. */
  lemma AdmissionReady(cfg: Config, m: Model, r: Request)
    requires Inv(cfg, m) && cfg.Valid() && Select(cfg, m, r.terms).1.Chosen? && InhibitTime(r.terms).Some?
    ensures var (m2, x) := (Admission(cfg, m, r).0, Select(cfg, m, r.terms).1.slot);
      Carried(m, m2, x) && Listed(m2) && OneHolder(m2) && x !in m2.conns
  {
    SelectReady(cfg, m, r.terms);
    var choice := Select(cfg, m, r.terms).1;
    var m1 := if choice.evict then Close(m, choice.slot) else m;
    if choice.evict {
      CloseKeeps(cfg, m, choice.slot);
      CloseCarries(cfg, m, choice.slot);
    } else {
      NothingCarries(m, m1, choice.slot);
    }
    var m2 := Admission(cfg, m, r).0;
    CounterAside(cfg, m1, m2.lastId);
    NothingCarries(m1, m2, choice.slot);
    CarriedOn(m, m1, m2, choice.slot);
  }

  lemma EstablishIoContinuity(cfg: Config, m: Model, r: Request, restarts: bool)
    requires Inv(cfg, m) && cfg.Valid() && Continuous(m, restarts)
    requires Select(cfg, m, r.terms).1.Chosen? && InhibitTime(r.terms).Some?
    requires Select(cfg, m, r.terms).0 != ExplicitMessaging
    ensures var (m2, c) := Admission(cfg, m, r);
      Continuous(EstablishIo(cfg, m, r).0, restarts) <==>
        restarts || !(EstablishIo(cfg, m, r).1.Opened? && TakesOverRunning(m2, c))
  {
    var (m2, c) := Admission(cfg, m, r);
    EstablishIoShape(cfg, m, r);
    AdmissionReady(cfg, m, r);
    CarriedContinues(m, m2, Select(cfg, m, r.terms).1.slot, restarts);
    AdmitContinuity(m2, Select(cfg, m, r.terms).1.slot, c, restarts);
  }

  /** A request that is refused at its inhibit time leaves only the eviction behind. */
  lemma InhibitRefusalContinues(cfg: Config, m: Model, r: Request, restarts: bool)
    requires Inv(cfg, m) && cfg.Valid() && Continuous(m, restarts)
    requires Select(cfg, m, r.terms).1.Chosen? && InhibitTime(r.terms).None?
    ensures Continuous(EstablishIo(cfg, m, r).0, restarts) && EstablishIo(cfg, m, r).1.Refused?
  {
    SelectReady(cfg, m, r.terms);
    var choice := Select(cfg, m, r.terms).1;
    if choice.evict {
      CloseCarries(cfg, m, choice.slot);
      CarriedContinues(m, Close(m, choice.slot), choice.slot, restarts);
    }
  }

  /** Forward Open keeps the numbering of every group exactly if it is not a take-over. */
  lemma OpenContinuity(cfg: Config, m: Model, r: Request, restarts: bool)
    requires Inv(cfg, m) && cfg.Valid() && InScope(cfg, r) && Continuous(m, restarts)
    ensures Continuous(Open(cfg, m, r).0, restarts) <==> restarts || !TakesOver(cfg, m, r)
  {
    if EarlyRefusal(cfg, m, r.terms) == 0 {
      if r.target.MessageRouter? {
        ExplicitContinues(cfg, m, r, restarts);
      } else if Select(cfg, m, r.terms).1.Chosen? {
        if InhibitTime(r.terms).Some? {
          EstablishIoContinuity(cfg, m, r, restarts);
          TakesOverMet(cfg, m, r);
          OpenedIfAcceptable(cfg, m, r);
        } else {
          InhibitRefusalContinues(cfg, m, r, restarts);
        }
      }
    }
  }

  lemma ExplicitCarries(cfg: Config, m: Model, r: Request, x: Slot)
    ensures Carried(m, EstablishExplicit(cfg, m, r).0, x)
  {
    var m1 := EstablishExplicit(cfg, m, r).0;
    assert forall k, input :: Holds(m1, k, input) ==> Succeeds(m, k, m1, k, input);
  }

  lemma ExplicitContinues(cfg: Config, m: Model, r: Request, restarts: bool)
    requires Inv(cfg, m) && Continuous(m, restarts)
    ensures Continuous(EstablishExplicit(cfg, m, r).0, restarts)
  {
    ExplicitCarries(cfg, m, r, Explicit(0));
    CarriedContinues(m, EstablishExplicit(cfg, m, r).0, Explicit(0), restarts);
  }

  // ----- runs -----

  ghost predicate NoTakeOver(cfg: Config, events: seq<Event>)
    requires cfg.tick > 0
  {
    events != [] ==>
      var (before, e) := (events[..|events| - 1], events[|events| - 1]);
      NoTakeOver(cfg, before) && (e.ForwardOpen? ==> !TakesOver(cfg, Run(cfg, Boot, before), e.request))
  }

  lemma StepContinues(cfg: Config, m: Model, e: Event, restarts: bool)
    requires Inv(cfg, m) && cfg.Valid() && EventInScope(cfg, e) && Continuous(m, restarts)
    requires e.ForwardOpen? ==> restarts || !TakesOver(cfg, m, e.request)
    ensures Continuous(Step(cfg, m, e), restarts)
  {
    match e
    case ForwardOpen(r) => OpenContinuity(cfg, m, r, restarts);
    case ForwardClose(triad, _) =>
      if Search(m, ListedTriad(triad)).Some? {
        var x := Search(m, ListedTriad(triad)).value;
        CloseCarries(cfg, m, x);
        CarriedContinues(m, Close(m, x), x, restarts);
      }
    case Tick(elapsed, environment) => TickContinues(cfg, m, m.active, elapsed, environment, restarts);
    case Receive(id, _, _) => ConsumerContinues(cfg, m, e, restarts);
    case ExplicitRequest(id) => ConsumerContinues(cfg, m, e, restarts);
    case EndSession(session) =>
      CloseSessionCarries(cfg, m, session, Explicit(0));
      CarriedContinues(m, CloseSession(m, session), Explicit(0), restarts);
    case ReceiveFailure(x) =>
      if x in m.conns && IsIo(m.conns[x]) {
        CloseCarries(cfg, m, x);
        CarriedContinues(m, Close(m, x), x, restarts);
      }
    case CloseAll =>
      assert Carried(m, Step(cfg, m, e), Explicit(0));
      CarriedContinues(m, Step(cfg, m, e), Explicit(0), restarts);
  }

  lemma ConsumerContinues(cfg: Config, m: Model, e: Event, restarts: bool)
    requires cfg.tick > 0 && Continuous(m, restarts) && (e.Receive? || e.ExplicitRequest?)
    ensures Continuous(Step(cfg, m, e), restarts)
  {
    var m1 := Step(cfg, m, e);
    if Search(m, ConsumerOf(e.id)).Some? {
      var x := Search(m, ConsumerOf(e.id)).value;
      UpdateCarries(m, m1, x);
      CarriedContinues(m, m1, x, restarts);
    }
  }

  lemma {:induction false} RunContinues(cfg: Config, events: seq<Event>, restarts: bool)
    requires cfg.Valid() && EventsInScope(cfg, events) && (restarts || NoTakeOver(cfg, events))
    ensures Continuous(Run(cfg, Boot, events), restarts)
  {
    if events != [] {
      var (before, e) := (events[..|events| - 1], events[|events| - 1]);
      RunContinues(cfg, before, restarts);
      RunKeeps(cfg, before);
      StepContinues(cfg, Run(cfg, Boot, before), e, restarts);
    }
  }

  /** Over every run without a take-over, the EIP-level count of the frames of a multicast group goes 1,
      2, 3, ... modulo 2^32 under one produced connection id, through every hand-over on close or
      time-out, and the current holder goes on from the last of them. The frames of a class 0 connection
      are counted without carrying their number. */
  lemma FramesConsecutive(cfg: Config, events: seq<Event>, input: nat, h: Slot)
    requires cfg.Valid() && EventsInScope(cfg, events) && NoTakeOver(cfg, events)
    ensures var m := Run(cfg, Boot, events);
      var frames := Sent(m, input);
      && (forall k :: 0 <= k < |frames| ==> frames[k].sequence == (k + 1) % UINT32 && frames[k].id == frames[0].id)
      && (Holds(m, h, input) && frames != [] ==>
            m.conns[h].eipProducing == frames[|frames| - 1].sequence && m.conns[h].terms.producedId == frames[0].id)
  {
    RunContinues(cfg, events, false);
    assert Numbered(Sent(Run(cfg, Boot, events), input), false);
  }

  /** Over every run whatsoever, each frame of a multicast group follows the one before it or, after a
      take-over, starts again at 1, always under the same id; the current holder goes on from the last
      frame or from 0. */
  lemma FramesFollow(cfg: Config, events: seq<Event>, input: nat, h: Slot, k: nat)
    requires cfg.Valid() && EventsInScope(cfg, events)
    ensures var m := Run(cfg, Boot, events);
      var frames := Sent(m, input);
      && (frames != [] ==> frames[0].sequence == 1)
      && (0 < k < |frames| ==> Follows(frames[k - 1], frames[k]))
      && (Holds(m, h, input) ==>
            && (m.conns[h].eipProducing == 0
                || (frames != [] && m.conns[h].eipProducing == frames[|frames| - 1].sequence))
            && (frames != [] ==> m.conns[h].terms.producedId == frames[|frames| - 1].id))
  {
    RunContinues(cfg, events, true);
    assert Numbered(Sent(Run(cfg, Boot, events), input), true);
  }
}
