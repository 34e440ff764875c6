/** The end of an originator: when its last live connection times out after a silence, its encapsulation
    sessions are closed, and with each of them one class 3 connection. */
module ConnectionOriginators {
  import opened Connections
  import opened ConnectionModel
  import opened ConnectionInvariants
  import opened ConnectionOpening
  import opened ConnectionRuns
  import opened ConnectionTicks
  import opened Widths

  // ----- the class 3 connections of closed sessions -----

  predicate InSession(c: Connection, session: nat) {
    c.terms.transport == Class3 && c.terms.session == session
  }

  /** How many class 3 connections of a session the list has in front of y. */
  function Ahead(active: seq<Slot>, conns: map<Slot, Connection>, session: nat, y: Slot): nat {
    if active == [] || active[0] == y then 0
    else
      var behind := Ahead(active[1..], conns, session, y);
      if active[0] in conns && InSession(conns[active[0]], session) then behind + 1 else behind
  }

  lemma {:induction false} AheadDependsOnSession(active: seq<Slot>, a: map<Slot, Connection>, b: map<Slot, Connection>,
                                                 session: nat, y: Slot)
    requires forall x :: x in active ==>
      ((x in a && InSession(a[x], session)) <==> (x in b && InSession(b[x], session)))
    ensures Ahead(active, a, session, y) == Ahead(active, b, session, y)
  {
    if active != [] && active[0] != y {
      assert active[0] in active && forall x :: x in active[1..] ==> x in active;
      AheadDependsOnSession(active[1..], a, b, session, y);
    }
  }

  /** Without the first connection of a session, each other one of it has one less ahead, and who is not
      in the session has as many as before. */
  lemma {:induction false} AheadWithout(active: seq<Slot>, conns: map<Slot, Connection>, closed: nat, z: Slot,
                                        session: nat, y: Slot)
    requires Distinct(active) && z in active && z in conns && InSession(conns[z], closed)
    requires Ahead(active, conns, closed, z) == 0
    requires y in active && y in conns && InSession(conns[y], session) && y != z
    ensures Ahead(active, conns, session, y) ==
      Ahead(Without(active, {z}), conns - {z}, session, y) + if session == closed then 1 else 0
    ensures session == closed ==> Ahead(active, conns, session, y) > 0
  {
    WithoutHead(active, z);
    if active[0] == z {
      AheadDependsOnSession(active[1..], conns, conns - {z}, session, y);
    } else if active[0] != y {
      AheadWithout(active[1..], conns, closed, z, session, y);
      AheadOfHead(active, conns, z, session, y);
    }
  }

  lemma WithoutHead(active: seq<Slot>, z: Slot)
    requires Distinct(active) && active != []
    ensures Distinct(active[1..]) && forall x :: x in active ==> x == active[0] || x in active[1..]
    ensures forall x :: x in active[1..] ==> x != active[0]
    ensures Without(active, {z}) == if active[0] == z then active[1..] else [active[0]] + Without(active[1..], {z})
  {
    if active[0] == z {
      WithoutNothing(active[1..], {z});
    }
  }

  lemma AheadOfHead(active: seq<Slot>, conns: map<Slot, Connection>, z: Slot, session: nat, y: Slot)
    requires active != [] && active[0] != y && active[0] != z
    ensures Ahead([active[0]] + Without(active[1..], {z}), conns - {z}, session, y) ==
      Ahead(Without(active[1..], {z}), conns - {z}, session, y) +
        if active[0] in conns && InSession(conns[active[0]], session) then 1 else 0
  {
    assert ([active[0]] + Without(active[1..], {z}))[1..] == Without(active[1..], {z});
  }

  /** The first connection of a session has none of it ahead. */
  lemma {:induction false} FirstHasNoneAhead(active: seq<Slot>, conns: map<Slot, Connection>, session: nat)
    requires First(active, conns, MessagingOf(session)).Some?
    ensures Ahead(active, conns, session, First(active, conns, MessagingOf(session)).value) == 0
  {
    if !(active[0] in conns && InSession(conns[active[0]], session)) {
      FirstHasNoneAhead(active[1..], conns, session);
    }
  }

  /** Whom the end of a list of sessions removes: of each session as many class 3 connections as the list
      names it, those in front. */
  ghost predicate Goes(m: Model, sessions: seq<nat>, y: Slot)
    requires y in m.conns
  {
    var t := m.conns[y].terms;
    t.transport == Class3 && Ahead(m.active, m.conns, t.session, y) < multiset(sessions)[t.session]
  }

  lemma SessionsSplit(sessions: seq<nat>, session: nat)
    requires sessions != []
    ensures multiset(sessions)[session] == multiset(sessions[1..])[session] + if sessions[0] == session then 1 else 0
  {
    assert sessions == [sessions[0]] + sessions[1..];
  }

  /** One session less to end: the first connection of it goes, and it goes for nobody else. */
  lemma OneSessionEnds(m: Model, sessions: seq<nat>, y: Slot)
    requires Listed(m) && sessions != [] && y in m.conns
    ensures match Search(m, MessagingOf(sessions[0]))
      case None => Goes(m, sessions, y) <==> Goes(m, sessions[1..], y)
      case Some(z) =>
        if y == z then Goes(m, sessions, y)
        else y in Drop(m, {z}).conns && (Goes(m, sessions, y) <==> Goes(Drop(m, {z}), sessions[1..], y))
  {
    var (s, t) := (sessions[0], m.conns[y].terms);
    SessionsSplit(sessions, t.session);
    assert y in m.active;
    match Search(m, MessagingOf(s))
    case None =>
      assert !Hit(MessagingOf(s), y, m.conns[y]);
    case Some(z) =>
      FirstHasNoneAhead(m.active, m.conns, s);
      if y != z && t.transport == Class3 {
        AheadWithout(m.active, m.conns, s, z, t.session, y);
      }
  }

  /** And nothing else. */
  lemma {:induction false} SessionsGone(cfg: Config, m: Model, sessions: seq<nat>, y: Slot)
    requires Inv(cfg, m) && y in m.conns
    ensures y !in CloseSessions(m, sessions).conns <==> Goes(m, sessions, y)
    decreases |sessions|
  {
    if sessions != [] {
      var m1 := CloseSession(m, sessions[0]);
      OneSessionEnds(m, sessions, y);
      FirstCloses(cfg, m, sessions[0]);
      CloseSessionKeeps(cfg, m, sessions[0]);
      if y in m1.conns {
        SessionsGone(cfg, m1, sessions[1..], y);
      } else {
        CloseSessionsKeep(cfg, m1, sessions[1..]);
      }
    }
  }

  lemma FirstCloses(cfg: Config, m: Model, session: nat)
    requires Inv(cfg, m)
    ensures CloseSession(m, session) == match Search(m, MessagingOf(session))
      case Some(z) => Drop(m, {z})
      case None => m
  {
    match Search(m, MessagingOf(session))
    case Some(z) => MessagingIsExplicit(cfg, m, session);
    case None =>
  }

  // ----- a time-out -----

  /** Every other connection of its originator has timed out. */
  ghost predicate LastLive(m: Model, x: Slot)
    requires x in m.conns
  {
    forall z :: z in m.conns && z != x && m.conns[z].terms.triad.originator == m.conns[x].terms.triad.originator ==>
      m.conns[z].state == TimedOut
  }

  lemma LastLiveFound(m: Model, x: Slot)
    requires Listed(m) && x in m.conns
    ensures Search(Retire(m, x, TimedOut), OtherLiveOf(m.conns[x].terms.triad.originator, x)).None? <==> LastLive(m, x)
  {
    var (m0, q) := (Retire(m, x, TimedOut), OtherLiveOf(m.conns[x].terms.triad.originator, x));
    match Search(m0, q)
    case Some(z) => assert z in m.conns && z != x && m.conns[z].state != TimedOut;
    case None =>
      forall z | z in m.conns && z != x && m.conns[z].terms.triad.originator == m.conns[x].terms.triad.originator
        ensures m.conns[z].state == TimedOut
      {
        assert z in m0.active && !Hit(q, z, m0.conns[z]);
      }
  }

  lemma MessagingPasses(m: Model, x: Slot, environment: Environment, y: Slot)
    requires x in m.conns && IsIo(m.conns[x])
    requires var m1 := EndOriginator(Retire(m, x, TimedOut), x, environment);
      x in m1.conns && m1.conns[x] == m.conns[x].(state := TimedOut)
    requires var m1 := EndOriginator(Retire(m, x, TimedOut), x, environment); y in m1.conns ==> !IsIo(m1.conns[y])
    ensures y in TimeOut(m, x, environment).conns <==> y in EndOriginator(Retire(m, x, TimedOut), x, environment).conns
  {
    var (c, m1) := (m.conns[x], EndOriginator(Retire(m, x, TimedOut), x, environment));
    if y in m1.conns {
      RelinquishKeepsMessaging(m1, x, y);
      DependentsKeepMessaging(if ControlsGroup(c) then Relinquish(m1, x) else m1, c.terms.input, y);
    }
  }

  /** When an I/O connection times out, a messaging connection goes exactly if no packet has come from the
      originator since the watchdog was last restarted, every other connection of that originator has
      timed out, and a session of its peer is closed that the messaging connection is of class 3 in, with
      fewer of the session ahead of it than the session is closed times. */
  lemma TimeOutEndsSessions(cfg: Config, m: Model, x: Slot, environment: Environment, y: Slot)
    requires Inv(cfg, m) && x in m.conns && IsIo(m.conns[x]) && y in m.conns && !IsIo(m.conns[y])
    ensures var c := m.conns[x];
      y !in TimeOut(m, x, environment).conns <==>
        && c.lastPackage == c.watchdog && LastLive(m, x)
        && Goes(m, SessionsOf(environment, x), y)
  {
    ExpiryAside(cfg, m, x, environment);
    MessagingPasses(m, x, environment, y);
    OriginatorEnds(cfg, m, x, environment, y);
  }

  /** The first half of it. */
  lemma OriginatorEnds(cfg: Config, m: Model, x: Slot, environment: Environment, y: Slot)
    requires Inv(cfg, m) && x in m.conns && IsIo(m.conns[x]) && y in m.conns && !IsIo(m.conns[y])
    ensures var c := m.conns[x];
      y !in EndOriginator(Retire(m, x, TimedOut), x, environment).conns <==>
        && c.lastPackage == c.watchdog && LastLive(m, x)
        && Goes(m, SessionsOf(environment, x), y)
  {
    var m0 := Retire(m, x, TimedOut);
    UpdateKeepsInv(cfg, m, m0, x);
    LastLiveFound(m, x);
    SessionsGone(cfg, m0, SessionsOf(environment, x), y);
    RetireKeepsGoing(cfg, m, x, SessionsOf(environment, x), y);
  }

  lemma RetireKeepsGoing(cfg: Config, m: Model, x: Slot, sessions: seq<nat>, y: Slot)
    requires Inv(cfg, m) && x in m.conns && IsIo(m.conns[x]) && y in m.conns && y != x
    ensures y in Retire(m, x, TimedOut).conns && (Goes(Retire(m, x, TimedOut), sessions, y) <==> Goes(m, sessions, y))
  {
    assert !InSession(m.conns[x], m.conns[y].terms.session) by {
      assert Fits(cfg, x, m.conns[x]);
    }
    AheadDependsOnSession(m.active, m.conns, Retire(m, x, TimedOut).conns, m.conns[y].terms.session, y);
  }

  // ----- the timer of the last packet -----

  /** What a step does to the timer of the last packet: a packet from the originator loads it, a tick
      takes its time off, in 64 bits. */
  function AfterStep(m: Model, e: Event, y: Slot, left: nat, loaded: nat): nat {
    if Reaches(m, e, y) then loaded else if e.Tick? then (left - e.elapsed) % UINT64 else left
  }

  function SincePacket(cfg: Config, m: Model, events: seq<Event>, y: Slot, left: nat, loaded: nat): nat
    requires cfg.tick > 0
  {
    if events == [] then left
    else
      var (before, e) := (events[..|events| - 1], events[|events| - 1]);
      AfterStep(Run(cfg, m, before), e, y, SincePacket(cfg, m, before, y, left, loaded), loaded)
  }

  lemma PacketLoads(cfg: Config, m: Model, e: Event, y: Slot)
    requires cfg.tick > 0 && y in m.conns && (Reaches(m, e, y) || Restarts(m, e, y))
    ensures var m1 := Step(cfg, m, e);
      && y in m1.conns && m1.conns[y].terms == m.conns[y].terms
      && m1.conns[y].lastPackage == if Reaches(m, e, y) then Watchdog(m.conns[y].terms) else m.conns[y].lastPackage
  {}

  lemma SparePacket(cfg: Config, m: Model, e: Event, y: Slot)
    requires Inv(cfg, m) && cfg.Valid() && EventInScope(cfg, e) && !e.Tick?
    requires !Reaches(m, e, y) && !Restarts(m, e, y)
    requires y in m.conns && m.conns[y].state.Established? && y in Step(cfg, m, e).conns
    ensures var (c, d) := (m.conns[y], Step(cfg, m, e).conns[y]); d.terms == c.terms && d.lastPackage == c.lastPackage
  {
    StepSpares(cfg, m, e, y);
  }

  lemma PacketSteps(cfg: Config, m: Model, e: Event, y: Slot)
    requires Inv(cfg, m) && cfg.Valid() && EventInScope(cfg, e)
    requires y in m.conns && m.conns[y].state.Established? && Watched(m.conns[y])
    requires e.Tick? ==> LeavesAlone(m, e, y)
    requires y in Step(cfg, m, e).conns && Step(cfg, m, e).conns[y].state.Established?
    ensures var (c, d) := (m.conns[y], Step(cfg, m, e).conns[y]);
      d.terms == c.terms && d.lastPackage == AfterStep(m, e, y, c.lastPackage, Watchdog(c.terms))
  {
    if Reaches(m, e, y) || Restarts(m, e, y) {
      PacketLoads(cfg, m, e, y);
    } else if e.Tick? {
      TickPacket(cfg, m, e, y);
    } else {
      SparePacket(cfg, m, e, y);
    }
  }

  lemma TickTicks(cfg: Config, m: Model, e: Event, y: Slot)
    requires Inv(cfg, m) && cfg.Valid() && e.Tick? && LeavesAlone(m, e, y)
    requires y in m.conns && m.conns[y].state.Established? && Watched(m.conns[y])
    ensures y in Step(cfg, m, e).conns ==> Ticked(m.conns[y], Step(cfg, m, e).conns[y], e.elapsed)
  {
    StepTicks(cfg, m, e, y);
  }

  lemma TickedTakes(c: Connection, d: Connection, elapsed: nat)
    requires Ticked(c, d, elapsed) && d.state.Established?
    ensures d.terms == c.terms && d.lastPackage == (c.lastPackage - elapsed) % UINT64
  {}

  /** A tick that leaves a connection Established takes its time off the timer. */
  lemma TickPacket(cfg: Config, m: Model, e: Event, y: Slot)
    requires Inv(cfg, m) && cfg.Valid() && e.Tick? && LeavesAlone(m, e, y)
    requires y in m.conns && m.conns[y].state.Established? && Watched(m.conns[y])
    requires y in Step(cfg, m, e).conns && Step(cfg, m, e).conns[y].state.Established?
    ensures var (c, d) := (m.conns[y], Step(cfg, m, e).conns[y]);
      d.terms == c.terms && d.lastPackage == (c.lastPackage - e.elapsed) % UINT64
  {
    TickTicks(cfg, m, e, y);
    TickedTakes(m.conns[y], Step(cfg, m, e).conns[y], e.elapsed);
  }

  /** Over any run in which it stays Established and every tick reaches it, that is where the timer of a
      connection stands, whatever else happens. */
  lemma {:induction false} PacketCounts(cfg: Config, m: Model, events: seq<Event>, y: Slot)
    requires Inv(cfg, m) && cfg.Valid() && EventsInScope(cfg, events)
    requires Stays(cfg, m, events, y) && TicksReach(cfg, m, events, y)
    requires y in m.conns && m.conns[y].state.Established? && Watched(m.conns[y])
    ensures var (c, d) := (m.conns[y], Run(cfg, m, events).conns[y]);
      d.terms == c.terms && d.lastPackage == SincePacket(cfg, m, events, y, c.lastPackage, Watchdog(c.terms))
  {
    if events != [] {
      var (before, e) := (events[..|events| - 1], events[|events| - 1]);
      PacketCounts(cfg, m, before, y);
      RunKeepsFrom(cfg, m, before);
      PacketSteps(cfg, Run(cfg, m, before), e, y);
    }
  }

  /** No stale packet and no explicit request for y comes in the run. */
  ghost predicate NothingStale(cfg: Config, m: Model, events: seq<Event>, y: Slot)
    requires cfg.tick > 0
  {
    events != [] ==>
      var (before, e) := (events[..|events| - 1], events[|events| - 1]);
      NothingStale(cfg, m, before, y) &&
        (Reaches(Run(cfg, m, before), e, y) || Restarts(Run(cfg, m, before), e, y) ==>
           Accepted(Run(cfg, m, before), e, y))
  }

  /** An accepted packet brings the two timers together. */
  lemma AcceptedMeets(cfg: Config, m: Model, e: Event, y: Slot)
    requires cfg.tick > 0 && y in m.conns && Accepted(m, e, y)
    ensures var m1 := Step(cfg, m, e);
      && y in m1.conns && m1.conns[y].terms == m.conns[y].terms
      && m1.conns[y].lastPackage == m1.conns[y].watchdog == Watchdog(m.conns[y].terms)
  {}

  /** And together they stay through every run without stale packets and explicit requests: until the
      connection times out, the condition under which its originator's sessions end with it is met. */
  lemma {:induction false} TimersTogether(cfg: Config, m: Model, events: seq<Event>, y: Slot)
    requires Inv(cfg, m) && cfg.Valid() && EventsInScope(cfg, events)
    requires Stays(cfg, m, events, y) && TicksReach(cfg, m, events, y) && NothingStale(cfg, m, events, y)
    requires y in m.conns && m.conns[y].state.Established? && Watched(m.conns[y])
    requires m.conns[y].lastPackage == m.conns[y].watchdog < UINT64
    ensures var d := Run(cfg, m, events).conns[y]; d.lastPackage == d.watchdog < UINT64 && d.terms == m.conns[y].terms
  {
    if events != [] {
      var (before, e) := (events[..|events| - 1], events[|events| - 1]);
      TimersTogether(cfg, m, before, y);
      RunKeepsFrom(cfg, m, before);
      TogetherSteps(cfg, Run(cfg, m, before), e, y);
    }
  }

  /** The timers of d stand together, and it has the terms of c. */
  predicate Together(c: Connection, d: Connection) {
    d.lastPackage == d.watchdog < UINT64 && d.terms == c.terms
  }

  lemma StillTogether(c: Connection, d: Connection, elapsed: nat)
    requires Ticked(c, d, elapsed) && d.state.Established? && c.lastPackage == c.watchdog < UINT64
    ensures Together(c, d)
  {}

  lemma TickTogether(cfg: Config, m: Model, e: Event, y: Slot)
    requires Inv(cfg, m) && cfg.Valid() && e.Tick? && LeavesAlone(m, e, y)
    requires y in m.conns && m.conns[y].state.Established? && Watched(m.conns[y])
    requires y in Step(cfg, m, e).conns && Step(cfg, m, e).conns[y].state.Established?
    requires m.conns[y].lastPackage == m.conns[y].watchdog < UINT64
    ensures Together(m.conns[y], Step(cfg, m, e).conns[y])
  {
    TickTicks(cfg, m, e, y);
    StillTogether(m.conns[y], Step(cfg, m, e).conns[y], e.elapsed);
  }

  lemma SpareTogether(cfg: Config, m: Model, e: Event, y: Slot)
    requires Inv(cfg, m) && cfg.Valid() && EventInScope(cfg, e) && !e.Tick?
    requires !Reaches(m, e, y) && !Restarts(m, e, y)
    requires y in m.conns && m.conns[y].state.Established? && y in Step(cfg, m, e).conns
    requires m.conns[y].lastPackage == m.conns[y].watchdog < UINT64
    ensures Together(m.conns[y], Step(cfg, m, e).conns[y])
  {
    StepSpares(cfg, m, e, y);
  }

  lemma TogetherSteps(cfg: Config, m: Model, e: Event, y: Slot)
    requires Inv(cfg, m) && cfg.Valid() && EventInScope(cfg, e)
    requires y in m.conns && m.conns[y].state.Established? && Watched(m.conns[y])
    requires e.Tick? ==> LeavesAlone(m, e, y)
    requires Reaches(m, e, y) || Restarts(m, e, y) ==> Accepted(m, e, y)
    requires y in Step(cfg, m, e).conns && Step(cfg, m, e).conns[y].state.Established?
    requires m.conns[y].lastPackage == m.conns[y].watchdog < UINT64
    ensures Together(m.conns[y], Step(cfg, m, e).conns[y])
  {
    if Accepted(m, e, y) {
      AcceptedMeets(cfg, m, e, y);
    } else if e.Tick? {
      TickTogether(cfg, m, e, y);
    } else {
      SpareTogether(cfg, m, e, y);
    }
  }
}
