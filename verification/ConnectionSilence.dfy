/** Whether a multicast group is heard: only an Established holder with a packet rate sends. A group can
    be left with a holder that has timed out, and can be opened with a rate of 0. */
module ConnectionSilence {
  import opened Connections
  import opened ConnectionModel
  import opened ConnectionInvariants
  import opened ConnectionOpening
  import opened ConnectionRuns

  ghost predicate Member(m: Model, y: Slot, input: nat) {
    y in m.conns && IsMulticastIo(m.conns[y]) && m.conns[y].terms.input == input && m.conns[y].state.Established?
  }

  /** The expected packet rate, in milliseconds and in 16 bits, is not 0: else a holder never sends. */
  predicate HasRate(cfg: Config, t: Terms) {
    cfg.tick > 0 && ExpectedRate(t.tToOInterval, cfg.tick) != 0
  }

  /** While a multicast input has an Established connection, the holder of its group is Established and
      has a packet rate. */
  ghost predicate Sounding(cfg: Config, m: Model) {
    forall h, y, input :: Holds(m, h, input) && Member(m, y, input) ==>
      m.conns[h].state.Established? && HasRate(cfg, m.conns[h].terms)
  }

  /** The same except for the state of x, which is on its way out. */
  ghost predicate SoundingBut(cfg: Config, m: Model, x: Slot) {
    forall h, y, input :: Holds(m, h, input) && Member(m, y, input) ==>
      (h != x ==> m.conns[h].state.Established?) && HasRate(cfg, m.conns[h].terms)
  }

  // ----- closing and timing out -----

  predicate SameVoice(c: Connection, d: Connection) {
    d.state == c.state && d.terms.tToOInterval == c.terms.tToOInterval
  }

  /** Holders and members of m1 were holders and members before, in the same states and at the same rates. */
  ghost predicate Thinned(m: Model, m1: Model) {
    && (forall h, input :: Holds(m1, h, input) ==> Holds(m, h, input) && SameVoice(m.conns[h], m1.conns[h]))
    && (forall y, input :: Member(m1, y, input) ==> Member(m, y, input))
  }

  lemma DropThins(m: Model, gone: set<Slot>)
    ensures Thinned(m, Drop(m, gone))
  {}

  lemma ThinnedSounds(cfg: Config, m: Model, m1: Model)
    requires Sounding(cfg, m) && Thinned(m, m1)
    ensures Sounding(cfg, m1)
  {}

  lemma RetireSounds(cfg: Config, m: Model, x: Slot, state: State)
    requires Sounding(cfg, m) && x in m.conns && !state.Established?
    ensures SoundingBut(cfg, Retire(m, x, state), x)
  {
    var m1 := Retire(m, x, state);
    assert forall y, input :: Member(m1, y, input) ==> Member(m, y, input);
    assert forall h, input :: Holds(m1, h, input) ==>
      Holds(m, h, input) && m1.conns[h].terms == m.conns[h].terms && (h != x ==> m1.conns[h] == m.conns[h]);
  }

  lemma HandOverSounds(cfg: Config, m: Model, x: Slot, y: Slot)
    requires OneHolder(m) && Agreeing(m) && SoundingBut(cfg, m, x) && x in m.conns && y in m.conns
    requires Holds(m, x, m.conns[x].terms.input) && Hit(MasterFor(m.conns[x].terms.input), y, m.conns[y])
    ensures Sounding(cfg, HandOver(m, x, y))
  {
    var m1 := HandOver(m, x, y);
    assert forall z, input :: Member(m1, z, input) ==> Member(m, z, input);
    assert Member(m, y, m.conns[x].terms.input) && Mismatch(m.conns[x].terms, m.conns[y].terms) == 0;
    forall h, z, input | Holds(m1, h, input) && Member(m1, z, input)
      ensures m1.conns[h].state.Established? && HasRate(cfg, m1.conns[h].terms)
    {
      if h != y {
        assert Holds(m, h, input);
      }
    }
  }

  /** A group given up is taken over by an Established master, or has no Established member left. */
  lemma RelinquishSounds(cfg: Config, m: Model, x: Slot)
    requires Core(cfg, m) && SoundingBut(cfg, m, x) && x in m.conns && ControlsGroup(m.conns[x]) &&
      !m.conns[x].state.Established?
    ensures Sounding(cfg, Relinquish(m, x))
  {
    var input := m.conns[x].terms.input;
    assert Holds(m, x, input);
    match Search(m, MasterFor(input))
    case Some(y) => HandOverSounds(cfg, m, x, y);
    case None =>
      DismissKeeps(cfg, m, x);
      var m1 := Drop(m, OfKind(m, input, ListenOnly));
      DropThins(m, OfKind(m, input, ListenOnly));
      assert forall y :: !Member(m1, y, input);
  }

  /** A connection that does not control a group does not hold one. */
  lemma NotInControl(m: Model, x: Slot)
    requires NoListenerHolds(m) && x in m.conns && !ControlsGroup(m.conns[x])
    ensures forall input :: !Holds(m, x, input)
  {}

  /** What becomes of a group whose holder is no longer Established. */
  lemma GivenUpSounds(cfg: Config, m: Model, x: Slot)
    requires Core(cfg, m) && SoundingBut(cfg, m, x) && x in m.conns && !m.conns[x].state.Established?
    ensures Sounding(cfg, if ControlsGroup(m.conns[x]) then Relinquish(m, x) else m)
  {
    if ControlsGroup(m.conns[x]) {
      RelinquishSounds(cfg, m, x);
    } else {
      NotInControl(m, x);
    }
  }

  lemma CloseSounds(cfg: Config, m: Model, x: Slot)
    requires Inv(cfg, m) && Sounding(cfg, m) && x in m.conns
    ensures Sounding(cfg, Close(m, x))
  {
    if IsIo(m.conns[x]) {
      var m1 := Retire(m, x, NonExistent);
      UpdateKeeps(cfg, m, m1, x);
      RetireSounds(cfg, m, x, NonExistent);
      GivenUpSounds(cfg, m1, x);
      var m2 := if ControlsGroup(m1.conns[x]) then Relinquish(m1, x) else m1;
      DropThins(m2, {x});
      ThinnedSounds(cfg, m2, Drop(m2, {x}));
    } else {
      DropThins(m, {x});
      ThinnedSounds(cfg, m, Drop(m, {x}));
    }
  }

  lemma CloseSessionSounds(cfg: Config, m: Model, session: nat)
    requires Inv(cfg, m) && Sounding(cfg, m)
    ensures Sounding(cfg, CloseSession(m, session))
  {
    if Search(m, MessagingOf(session)).Some? {
      CloseSounds(cfg, m, Search(m, MessagingOf(session)).value);
    }
  }

  /** Ending sessions leaves every I/O connection as it is. */
  lemma ExpireSounds(cfg: Config, m: Model, x: Slot, environment: Environment)
    requires Inv(cfg, m) && Sounding(cfg, m) && x in m.conns && IsIo(m.conns[x])
    ensures SoundingBut(cfg, EndOriginator(Retire(m, x, TimedOut), x, environment), x)
  {
    var m0 := Retire(m, x, TimedOut);
    RetireSounds(cfg, m, x, TimedOut);
    UpdateKeepsInv(cfg, m, m0, x);
    CloseSessionsKeep(cfg, m0, SessionsOf(environment, x));
    OnlyMessagingThins(cfg, m0, EndOriginator(m0, x, environment), x);
  }

  lemma OnlyMessagingThins(cfg: Config, m: Model, m1: Model, x: Slot)
    requires SoundingBut(cfg, m, x) && OnlyMessagingGone(m, m1)
    ensures SoundingBut(cfg, m1, x)
  {
    assert forall h, input :: Holds(m1, h, input) ==> Holds(m, h, input);
    assert forall y, input :: Member(m1, y, input) ==> Member(m, y, input);
  }

  lemma CloseDependentsSounds(cfg: Config, m: Model, input: nat)
    requires Sounding(cfg, m)
    ensures Sounding(cfg, CloseDependents(m, input))
  {
    var m1 := Drop(m, OfKind(m, input, InputOnly));
    DropThins(m, OfKind(m, input, InputOnly));
    ThinnedSounds(cfg, m, m1);
    DropThins(m1, OfKind(m1, input, ListenOnly));
    ThinnedSounds(cfg, m1, CloseDependents(m, input));
  }

  lemma TimeOutSounds(cfg: Config, m: Model, x: Slot, environment: Environment)
    requires Inv(cfg, m) && Sounding(cfg, m) && x in m.conns
    ensures Sounding(cfg, TimeOut(m, x, environment))
  {
    var c := m.conns[x];
    if IsIo(c) {
      var m1 := EndOriginator(Retire(m, x, TimedOut), x, environment);
      ExpireKeeps(cfg, m, x, environment);
      ExpireSounds(cfg, m, x, environment);
      GivenUpSounds(cfg, m1, x);
      CloseDependentsSounds(cfg, if ControlsGroup(c) then Relinquish(m1, x) else m1, c.terms.input);
    } else {
      DropThins(m, {x});
      ThinnedSounds(cfg, m, Drop(m, {x}));
    }
  }

  // ----- one tick -----

  lemma UpdateSounds(cfg: Config, m: Model, m1: Model, x: Slot)
    requires Sounding(cfg, m) && Updated(m, m1, x) && m1.conns[x].state == m.conns[x].state
    ensures Sounding(cfg, m1)
  {
    assert forall h, input :: Holds(m1, h, input) ==> Holds(m, h, input) && m1.conns[h].state == m.conns[h].state;
    assert forall y, input :: Member(m1, y, input) ==> Member(m, y, input);
  }

  lemma ProcessSounds(cfg: Config, m: Model, x: Slot, elapsed: nat, environment: Environment)
    requires Inv(cfg, m) && cfg.tick > 0 && Sounding(cfg, m) && x in m.conns
    ensures Sounding(cfg, Process(cfg, m, x, elapsed, environment))
  {
    var c := m.conns[x];
    if c.state.Established? {
      var m1 := Watch(m, x, elapsed, environment);
      if Watched(c) && elapsed >= c.watchdog {
        TimeOutSounds(cfg, m, x, environment);
      } else if Watched(c) {
        UpdateSounds(cfg, m, m1, x);
      }
      if x in m1.conns && m1.conns[x].state.Established? {
        ProduceUpdates(cfg, m1, x, elapsed);
        UpdateSounds(cfg, m1, Produce(cfg, m1, x, elapsed), x);
      }
    }
  }

  lemma {:induction false} TickSounds(cfg: Config, m: Model, rest: seq<Slot>, elapsed: nat, environment: Environment)
    requires Inv(cfg, m) && cfg.tick > 0 && Sounding(cfg, m)
    ensures Sounding(cfg, TickOver(cfg, m, rest, elapsed, environment))
    decreases |rest|
  {
    if rest != [] {
      if rest[0] in m.conns {
        ProcessKeeps(cfg, m, rest[0], elapsed, environment);
        ProcessSounds(cfg, m, rest[0], elapsed, environment);
        var m1 := Process(cfg, m, rest[0], elapsed, environment);
        if rest[0] in m1.conns {
          TickSounds(cfg, m1, rest[1..], elapsed, environment);
        }
      } else {
        TickSounds(cfg, m, rest[1..], elapsed, environment);
      }
    }
  }

  // ----- opening -----

  /** A multicast connection whose holder, itself or the one it joins, will not send. */
  predicate Unheard(cfg: Config, m: Model, c: Connection) {
    && c.terms.tToO.Multicast?
    && var e := Search(m, ProducerOf(c.terms.input, true));
       if e.None? || c.terms.kind.ExclusiveOwner? then !HasRate(cfg, c.terms)
       else !m.conns[e.value].state.Established? || !HasRate(cfg, m.conns[e.value].terms)
  }

  /** Admitting a connection keeps the groups sounding exactly if it finds a holder that will send. */
  lemma AdmitSounding(cfg: Config, m: Model, x: Slot, c: Connection)
    requires Listed(m) && OneHolder(m) && Sounding(cfg, m) && x !in m.conns && IsIo(c) && c == Fresh(c.terms)
    ensures Sounding(cfg, Admit(m, x, c)) <==> !Unheard(cfg, m, c)
  {
    var m1 := Admit(m, x, c);
    var input := c.terms.input;
    var e := Search(m, ProducerOf(input, true));
    HolderFound(m, input);
    if Unheard(cfg, m, c) {
      var h := if e.None? || c.terms.kind.ExclusiveOwner? then x else e.value;
      assert Holds(m1, h, input) && Member(m1, x, input);
    } else {
      assert forall y, i :: y != x && Member(m1, y, i) ==> Member(m, y, i);
      forall h, y, i | Holds(m1, h, i) && Member(m1, y, i)
        ensures m1.conns[h].state.Established? && HasRate(cfg, m1.conns[h].terms)
      {
        if h != x {
          assert Holds(m, h, i) && m1.conns[h] == m.conns[h];
          assert c.terms.tToO.Multicast? && i == input ==> e == Some(h);
        } else {
          assert c.terms.tToO.Multicast? && (e.None? || c.terms.kind.ExclusiveOwner?);
        }
      }
    }
  }

  /** An acceptable multicast request whose expected packet rate comes to 0; or one that is not of an
      exclusive owner, for an input assembly whose holder has timed out and sits outside the slot that
      the request vacates. */
  predicate OpensSilent(cfg: Config, m: Model, r: Request) {
    && Acceptable(cfg, m, r) && r.terms.tToO.Multicast?
    && (|| !HasRate(cfg, r.terms)
        || (&& !Select(cfg, m, r.terms).0.ExclusiveOwner?
            && match Search(m, ProducerOf(r.terms.input, true))
               case Some(e) => !m.conns[e].state.Established? && e != Select(cfg, m, r.terms).1.slot
               case None => false))
  }

  lemma OpensSilentMet(cfg: Config, m: Model, r: Request)
    requires Inv(cfg, m) && cfg.Valid() && Select(cfg, m, r.terms).1.Chosen? && InhibitTime(r.terms).Some?
    ensures OpensSilent(cfg, m, r) <==>
      Acceptable(cfg, m, r) && Unheard(cfg, Admission(cfg, m, r).0, Admission(cfg, m, r).1)
  {
    HolderMet(cfg, m, r);
    ConfiguredTerms(cfg, m, r);
    if Acceptable(cfg, m, r) && r.terms.tToO.Multicast? {
      var (m2, t) := Configured(cfg, m, r);
      HolderAgrees(cfg, m2, t, r);
    }
  }

  /** The holder of a group has the rate of a request that passes the checks. */
  lemma HolderAgrees(cfg: Config, m: Model, t: Terms, r: Request)
    requires SetupStatus(cfg, m, t, r) == 0 && t.tToO.Multicast?
    ensures match Search(m, ProducerOf(t.input, true))
      case Some(e) => m.conns[e].terms.tToOInterval == t.tToOInterval
      case None => true
  {
    assert Search(m, DisagreesWith(t)).None?;
    if Search(m, ProducerOf(t.input, true)).Some? {
      var e := Search(m, ProducerOf(t.input, true)).value;
      assert !Hit(DisagreesWith(t), e, m.conns[e]);
    }
  }

  lemma AsideSounds(cfg: Config, m: Model, m1: Model)
    requires Sounding(cfg, m) && m1.conns == m.conns
    ensures Sounding(cfg, m1)
  {
    assert forall h, input :: Holds(m1, h, input) ==> Holds(m, h, input);
    assert forall y, input :: Member(m1, y, input) ==> Member(m, y, input);
  }

  /** Vacating the slot keeps the groups sounding. */
  lemma VacateSounds(cfg: Config, m: Model, r: Request)
    requires Inv(cfg, m) && cfg.Valid() && Sounding(cfg, m) && Select(cfg, m, r.terms).1.Chosen?
    ensures var Chosen(x, evict) := Select(cfg, m, r.terms).1;
      var m1 := if evict && x in m.conns then Close(m, x) else m;
      Inv(cfg, m1) && Sounding(cfg, m1) && x !in m1.conns
  {
    SelectReady(cfg, m, r.terms);
    var choice := Select(cfg, m, r.terms).1;
    if choice.evict {
      CloseKeeps(cfg, m, choice.slot);
      CloseSounds(cfg, m, choice.slot);
    }
  }

  lemma EstablishIoSounding(cfg: Config, m: Model, r: Request)
    requires Inv(cfg, m) && cfg.Valid() && Sounding(cfg, m)
    requires Select(cfg, m, r.terms).1.Chosen? && InhibitTime(r.terms).Some?
    ensures var (m2, c) := Admission(cfg, m, r);
      Sounding(cfg, EstablishIo(cfg, m, r).0) <==> !(EstablishIo(cfg, m, r).1.Opened? && Unheard(cfg, m2, c))
  {
    var (m2, c) := Admission(cfg, m, r);
    var Chosen(x, evict) := Select(cfg, m, r.terms).1;
    SelectReady(cfg, m, r.terms);
    VacateSounds(cfg, m, r);
    AsideSounds(cfg, if evict && x in m.conns then Close(m, x) else m, m2);
    CounterAside(cfg, if evict && x in m.conns then Close(m, x) else m, m2.lastId);
    EstablishIoShape(cfg, m, r);
    AdmitSounding(cfg, m2, x, c);
  }

  /** A messaging connection enters no group. */
  lemma ExplicitSounds(cfg: Config, m: Model, r: Request)
    requires Sounding(cfg, m)
    ensures Sounding(cfg, EstablishExplicit(cfg, m, r).0)
  {
    var m1 := EstablishExplicit(cfg, m, r).0;
    assert forall h, input :: Holds(m1, h, input) ==> Holds(m, h, input) && m1.conns[h] == m.conns[h];
    assert forall y, input :: Member(m1, y, input) ==> Member(m, y, input);
  }

  /** Forward Open keeps every group sounding exactly if it does not open with a rate of 0 and does not
      join a group with a timed-out holder. */
  lemma OpenSounding(cfg: Config, m: Model, r: Request)
    requires Inv(cfg, m) && cfg.Valid() && InScope(cfg, r) && Sounding(cfg, m)
    ensures Sounding(cfg, Open(cfg, m, r).0) <==> !OpensSilent(cfg, m, r)
  {
    if EarlyRefusal(cfg, m, r.terms) == 0 {
      if r.target.MessageRouter? {
        ExplicitSounds(cfg, m, r);
      } else if Select(cfg, m, r.terms).1.Chosen? {
        if InhibitTime(r.terms).Some? {
          EstablishIoSounding(cfg, m, r);
          OpensSilentMet(cfg, m, r);
          OpenedIfAcceptable(cfg, m, r);
        } else {
          VacateSounds(cfg, m, r);
        }
      }
    }
  }

  // ----- runs -----

  ghost predicate NoSilentOpen(cfg: Config, events: seq<Event>)
    requires cfg.tick > 0
  {
    events != [] ==>
      var (before, e) := (events[..|events| - 1], events[|events| - 1]);
      NoSilentOpen(cfg, before) && (e.ForwardOpen? ==> !OpensSilent(cfg, Run(cfg, Boot, before), e.request))
  }

  lemma ConsumerSounds(cfg: Config, m: Model, e: Event)
    requires cfg.tick > 0 && Sounding(cfg, m) && (e.Receive? || e.ExplicitRequest?)
    ensures Sounding(cfg, Step(cfg, m, e))
  {
    if Search(m, ConsumerOf(e.id)).Some? {
      UpdateSounds(cfg, m, Step(cfg, m, e), Search(m, ConsumerOf(e.id)).value);
    }
  }

  /** A step keeps every group sounding exactly if it is not a Forward Open of that kind. */
  lemma StepSounding(cfg: Config, m: Model, e: Event)
    requires Inv(cfg, m) && cfg.Valid() && EventInScope(cfg, e) && Sounding(cfg, m)
    ensures Sounding(cfg, Step(cfg, m, e)) <==> !(e.ForwardOpen? && OpensSilent(cfg, m, e.request))
  {
    match e
    case ForwardOpen(r) => OpenSounding(cfg, m, r);
    case ForwardClose(triad, _) =>
      if Search(m, ListedTriad(triad)).Some? {
        CloseSounds(cfg, m, Search(m, ListedTriad(triad)).value);
      }
    case Tick(elapsed, environment) => TickSounds(cfg, m, m.active, elapsed, environment);
    case Receive(_, _, _) => ConsumerSounds(cfg, m, e);
    case ExplicitRequest(_) => ConsumerSounds(cfg, m, e);
    case EndSession(session) => CloseSessionSounds(cfg, m, session);
    case ReceiveFailure(x) =>
      if x in m.conns {
        CloseSounds(cfg, m, x);
      }
    case CloseAll =>
  }

  lemma {:induction false} RunSounding(cfg: Config, events: seq<Event>)
    requires cfg.Valid() && EventsInScope(cfg, events) && NoSilentOpen(cfg, events)
    ensures Sounding(cfg, Run(cfg, Boot, events))
  {
    if events != [] {
      var (before, e) := (events[..|events| - 1], events[|events| - 1]);
      RunSounding(cfg, before);
      RunKeeps(cfg, before);
      StepSounding(cfg, Run(cfg, Boot, before), e);
    }
  }

  /** Over every run without such an open, each Established connection of a multicast input has a
      holder that is Established, never listen-only, has a packet rate and produces under the
      connection's own id. */
  lemma GroupIsHeard(cfg: Config, events: seq<Event>, y: Slot)
    requires cfg.Valid() && EventsInScope(cfg, events) && NoSilentOpen(cfg, events)
    requires var m := Run(cfg, Boot, events);
      y in m.conns && IsMulticastIo(m.conns[y]) && m.conns[y].state.Established?
    ensures var m := Run(cfg, Boot, events);
      exists h :: && Holds(m, h, m.conns[y].terms.input) && m.conns[h].state.Established?
                  && HasRate(cfg, m.conns[h].terms)
                  && !m.conns[h].terms.kind.ListenOnly? && m.conns[h].terms.producedId == m.conns[y].terms.producedId
  {
    RunSounding(cfg, events);
    RunKeeps(cfg, events);
    var m := Run(cfg, Boot, events);
    var h := HolderOf(m, y);
    assert Member(m, y, m.conns[y].terms.input);
  }
}
