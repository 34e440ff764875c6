/** Ticks, connection by connection: whom a step leaves alone, and when a watchdog expires. */
module ConnectionTicks {
  import opened Connections
  import opened ConnectionModel
  import opened ConnectionInvariants
  import opened ConnectionOpening
  import opened ConnectionRuns
  import opened Widths

  // ----- whom a step leaves alone -----

  predicate SameFilter(c: Connection, d: Connection) {
    d.eipConsuming == c.eipConsuming && d.eipReceived == c.eipReceived
  }

  /** The list only loses elements, and whoever stays, apart from x, keeps terms, state, watchdogs and
      the count of received data. */
  ghost predicate Spared(m: Model, m1: Model, x: Slot) {
    && Listed(m1)
    && (forall y :: y in m1.conns ==> y in m.conns)
    && m1.active == Without(m.active, m.conns.Keys - m1.conns.Keys)
    && forall y :: y in m1.conns && y != x ==>
      && m1.conns[y].terms == m.conns[y].terms && m1.conns[y].state == m.conns[y].state
      && m1.conns[y].watchdog == m.conns[y].watchdog && m1.conns[y].lastPackage == m.conns[y].lastPackage
      && SameFilter(m.conns[y], m1.conns[y])
  }

  lemma DropSpares(m: Model, gone: set<Slot>, x: Slot)
    requires Listed(m)
    ensures Spared(m, Drop(m, gone), x)
  {
    var m1 := Drop(m, gone);
    WithoutDistinct(m.active, gone);
    WithoutSame(m.active, gone, m.conns.Keys - m1.conns.Keys);
  }

  lemma {:induction false} WithoutSame(a: seq<Slot>, s: set<Slot>, t: set<Slot>)
    requires forall x :: x in a ==> (x in s <==> x in t)
    ensures Without(a, s) == Without(a, t)
  {
    if a != [] {
      assert a[0] in a;
      assert forall x :: x in a[1..] ==> x in a;
      WithoutSame(a[1..], s, t);
    }
  }

  lemma KeepSpares(m: Model, m1: Model, x: Slot)
    requires Listed(m) && m1.active == m.active && m1.conns.Keys == m.conns.Keys
    requires forall y :: y in m1.conns && y != x ==>
      && m1.conns[y].terms == m.conns[y].terms && m1.conns[y].state == m.conns[y].state
      && m1.conns[y].watchdog == m.conns[y].watchdog && m1.conns[y].lastPackage == m.conns[y].lastPackage
      && SameFilter(m.conns[y], m1.conns[y])
    ensures Spared(m, m1, x)
  {
    assert forall y :: y in m1.conns <==> y in m.conns.Keys;
    WithoutNothing(m.active, m.conns.Keys - m1.conns.Keys);
  }

  lemma SparedOn(m: Model, m1: Model, m2: Model, x: Slot)
    requires Spared(m, m1, x) && Spared(m1, m2, x)
    ensures Spared(m, m2, x)
  {
    var (s, t) := (m.conns.Keys - m1.conns.Keys, m1.conns.Keys - m2.conns.Keys);
    WithoutTwice(m.active, s, t);
    assert s + t == m.conns.Keys - m2.conns.Keys;
  }

  lemma RelinquishSpares(m: Model, x: Slot)
    requires Listed(m) && x in m.conns
    ensures Spared(m, Relinquish(m, x), x)
  {
    match Search(m, MasterFor(m.conns[x].terms.input))
    case Some(y) => KeepSpares(m, HandOver(m, x, y), x);
    case None => DropSpares(m, OfKind(m, m.conns[x].terms.input, ListenOnly), x);
  }

  lemma CloseSpares(m: Model, x: Slot)
    requires Listed(m) && x in m.conns
    ensures Spared(m, Close(m, x), x)
  {
    if IsIo(m.conns[x]) {
      var m1 := Retire(m, x, NonExistent);
      KeepSpares(m, m1, x);
      var m2 := if ControlsGroup(m1.conns[x]) then Relinquish(m1, x) else m1;
      if ControlsGroup(m1.conns[x]) {
        RelinquishSpares(m1, x);
        SparedOn(m, m1, m2, x);
      }
      DropSpares(m2, {x}, x);
      SparedOn(m, m2, Drop(m2, {x}), x);
    } else {
      DropSpares(m, {x}, x);
    }
  }

  lemma CloseSessionSpares(m: Model, session: nat, x: Slot)
    requires Listed(m)
    requires var y := Search(m, MessagingOf(session)); y.Some? ==> !IsIo(m.conns[y.value])
    ensures Spared(m, CloseSession(m, session), x)
  {
    match Search(m, MessagingOf(session))
    case Some(y) => DropSpares(m, {y}, x);
    case None => KeepSpares(m, m, x);
  }

  lemma MessagingIsExplicit(cfg: Config, m: Model, session: nat)
    requires Inv(cfg, m)
    ensures var y := Search(m, MessagingOf(session)); y.Some? ==> !IsIo(m.conns[y.value])
  {}

  lemma {:induction false} CloseSessionsSpare(cfg: Config, m: Model, sessions: seq<nat>, x: Slot)
    requires Inv(cfg, m)
    ensures Spared(m, CloseSessions(m, sessions), x)
    decreases |sessions|
  {
    if sessions == [] {
      KeepSpares(m, m, x);
    } else {
      var m1 := CloseSession(m, sessions[0]);
      MessagingIsExplicit(cfg, m, sessions[0]);
      CloseSessionSpares(m, sessions[0], x);
      CloseSessionKeeps(cfg, m, sessions[0]);
      CloseSessionsSpare(cfg, m1, sessions[1..], x);
      SparedOn(m, m1, CloseSessions(m1, sessions[1..]), x);
    }
  }

  lemma CloseDependentsSpares(m: Model, input: nat, x: Slot)
    requires Listed(m)
    ensures Spared(m, CloseDependents(m, input), x)
  {
    var m1 := Drop(m, OfKind(m, input, InputOnly));
    DropSpares(m, OfKind(m, input, InputOnly), x);
    DropSpares(m1, OfKind(m1, input, ListenOnly), x);
    SparedOn(m, m1, CloseDependents(m, input), x);
  }

  lemma EndOriginatorSpares(cfg: Config, m: Model, x: Slot, environment: Environment)
    requires Inv(cfg, m) && x in m.conns
    ensures Spared(m, EndOriginator(m, x, environment), x)
  {
    KeepSpares(m, m, x);
    CloseSessionsSpare(cfg, m, SessionsOf(environment, x), x);
  }

  lemma ExpireSpares(cfg: Config, m: Model, x: Slot, environment: Environment)
    requires Inv(cfg, m) && x in m.conns
    ensures Spared(m, EndOriginator(Retire(m, x, TimedOut), x, environment), x)
  {
    var m0 := Retire(m, x, TimedOut);
    UpdateKeepsInv(cfg, m, m0, x);
    KeepSpares(m, m0, x);
    EndOriginatorSpares(cfg, m0, x, environment);
    SparedOn(m, m0, EndOriginator(m0, x, environment), x);
  }

  /** The group is given up once the originator's sessions are closed. */
  lemma GiveUpSpares(m: Model, m1: Model, x: Slot, c: Connection)
    requires Spared(m, m1, x)
    ensures var m2 := if ControlsGroup(c) && x in m1.conns then Relinquish(m1, x) else m1;
      Spared(m, m2, x) && Spared(m, CloseDependents(m2, c.terms.input), x)
  {
    var m2 := if ControlsGroup(c) && x in m1.conns then Relinquish(m1, x) else m1;
    if ControlsGroup(c) && x in m1.conns {
      RelinquishSpares(m1, x);
      SparedOn(m, m1, m2, x);
    }
    CloseDependentsSpares(m2, c.terms.input, x);
    SparedOn(m, m2, CloseDependents(m2, c.terms.input), x);
  }

  lemma TimeOutIoSpares(m: Model, x: Slot, environment: Environment)
    requires x in m.conns && Spared(m, EndOriginator(Retire(m, x, TimedOut), x, environment), x)
    ensures Spared(m, TimeOutIo(m, x, environment), x)
  {
    GiveUpSpares(m, EndOriginator(Retire(m, x, TimedOut), x, environment), x, m.conns[x]);
  }

  lemma TimeOutSpares(cfg: Config, m: Model, x: Slot, environment: Environment)
    requires Inv(cfg, m) && x in m.conns
    ensures Spared(m, TimeOut(m, x, environment), x)
  {
    if IsIo(m.conns[x]) {
      ExpireSpares(cfg, m, x, environment);
      TimeOutIoSpares(m, x, environment);
    } else {
      DropSpares(m, {x}, x);
    }
  }

  lemma WatchSpares(cfg: Config, m: Model, x: Slot, elapsed: nat, environment: Environment)
    requires Inv(cfg, m) && x in m.conns
    ensures Spared(m, Watch(m, x, elapsed, environment), x)
  {
    if Watched(m.conns[x]) && elapsed >= m.conns[x].watchdog {
      TimeOutSpares(cfg, m, x, environment);
    } else {
      KeepSpares(m, Watch(m, x, elapsed, environment), x);
    }
  }

  lemma ProduceSpares(cfg: Config, m: Model, x: Slot, elapsed: nat)
    requires Listed(m) && cfg.tick > 0 && x in m.conns
    ensures Spared(m, Produce(cfg, m, x, elapsed), x)
  {
    ProduceUpdates(cfg, m, x, elapsed);
    KeepSpares(m, Produce(cfg, m, x, elapsed), x);
  }

  lemma ProcessSpares(cfg: Config, m: Model, x: Slot, elapsed: nat, environment: Environment)
    requires Inv(cfg, m) && cfg.tick > 0 && x in m.conns
    ensures Spared(m, Process(cfg, m, x, elapsed, environment), x)
  {
    if m.conns[x].state.Established? {
      var m1 := Watch(m, x, elapsed, environment);
      WatchSpares(cfg, m, x, elapsed, environment);
      if x in m1.conns && m1.conns[x].state.Established? {
        ProduceSpares(cfg, m1, x, elapsed);
        SparedOn(m, m1, Produce(cfg, m1, x, elapsed), x);
      }
    } else {
      KeepSpares(m, m, x);
    }
  }

  // ----- one connection in one tick -----

  predicate Expires(c: Connection, elapsed: nat) {
    c.state.Established? && Watched(c) && elapsed >= c.watchdog
  }

  /** The record of a watched Established connection after a tick of the given length. */
  ghost predicate Ticked(c: Connection, d: Connection, elapsed: nat) {
    d.terms == c.terms && SameFilter(c, d) &&
    if elapsed >= c.watchdog then d.state.TimedOut?
    else
      d.state.Established? && d.watchdog == c.watchdog - elapsed && d.lastPackage == (c.lastPackage - elapsed) % UINT64
  }

  lemma RelinquishStays(m: Model, x: Slot)
    requires x in m.conns && ControlsGroup(m.conns[x])
    ensures x in Relinquish(m, x).conns
    ensures Relinquish(m, x).conns[x].state == m.conns[x].state && Relinquish(m, x).conns[x].terms == m.conns[x].terms
    ensures SameFilter(m.conns[x], Relinquish(m, x).conns[x])
  {}

  lemma OwnerStays(m: Model, x: Slot, input: nat)
    requires x in m.conns && m.conns[x].terms.kind.ExclusiveOwner?
    ensures x in CloseDependents(m, input).conns && CloseDependents(m, input).conns[x] == m.conns[x]
  {}

  lemma ExpiredStays(cfg: Config, m: Model, x: Slot, environment: Environment)
    requires Inv(cfg, m) && x in m.conns && IsIo(m.conns[x])
    ensures var m1 := TimeOutIo(m, x, environment);
      x in m1.conns && m1.conns[x].state.TimedOut? && m1.conns[x].terms == m.conns[x].terms &&
        SameFilter(m.conns[x], m1.conns[x])
  {
    var c := m.conns[x];
    ExpireKeeps(cfg, m, x, environment);
    var m1 := EndOriginator(Retire(m, x, TimedOut), x, environment);
    var m2 := if ControlsGroup(c) then Relinquish(m1, x) else m1;
    if ControlsGroup(c) {
      RelinquishStays(m1, x);
    }
    if c.terms.kind.ExclusiveOwner? {
      OwnerStays(m2, x, c.terms.input);
    }
  }

  /** Processing a watched connection either times it out or takes the tick off its watchdog; only
      an expiring messaging connection leaves the table. */
  lemma ProcessTicks(cfg: Config, m: Model, x: Slot, elapsed: nat, environment: Environment)
    requires Inv(cfg, m) && cfg.tick > 0 && x in m.conns
    ensures var m1 := Process(cfg, m, x, elapsed, environment);
      && (x in m1.conns <==> !(Expires(m.conns[x], elapsed) && !IsIo(m.conns[x])))
      && (x in m1.conns && m.conns[x].state.Established? && Watched(m.conns[x]) ==>
           Ticked(m.conns[x], m1.conns[x], elapsed))
  {
    if Expires(m.conns[x], elapsed) && IsIo(m.conns[x]) {
      ExpiredStays(cfg, m, x, environment);
    } else {
      UnexpiredTicks(cfg, m, x, elapsed, environment);
    }
  }

  lemma UnexpiredTicks(cfg: Config, m: Model, x: Slot, elapsed: nat, environment: Environment)
    requires cfg.tick > 0 && x in m.conns && !(Expires(m.conns[x], elapsed) && IsIo(m.conns[x]))
    ensures var m1 := Process(cfg, m, x, elapsed, environment);
      && (x in m1.conns <==> !Expires(m.conns[x], elapsed))
      && (x in m1.conns && m.conns[x].state.Established? && Watched(m.conns[x]) ==>
           Ticked(m.conns[x], m1.conns[x], elapsed))
  {}

  /** What a tick over part of the list removes stays removed, and whom it does not visit it spares. */
  lemma {:induction false} TickSpares(cfg: Config, m: Model, rest: seq<Slot>, elapsed: nat, environment: Environment,
                                      y: Slot)
    requires Inv(cfg, m) && cfg.tick > 0 && y !in rest
    ensures var m1 := TickOver(cfg, m, rest, elapsed, environment);
      y in m1.conns ==>
        y in m.conns && m1.conns[y].terms == m.conns[y].terms && m1.conns[y].state == m.conns[y].state &&
          m1.conns[y].watchdog == m.conns[y].watchdog && m1.conns[y].lastPackage == m.conns[y].lastPackage &&
          SameFilter(m.conns[y], m1.conns[y])
    decreases |rest|
  {
    if rest != [] {
      assert rest[0] in rest;
      if rest[0] in m.conns {
        var m1 := Process(cfg, m, rest[0], elapsed, environment);
        ProcessKeeps(cfg, m, rest[0], elapsed, environment);
        ProcessSpares(cfg, m, rest[0], elapsed, environment);
        if rest[0] in m1.conns {
          TickSpares(cfg, m1, rest[1..], elapsed, environment, y);
        }
      } else {
        TickSpares(cfg, m, rest[1..], elapsed, environment, y);
      }
    }
  }

  lemma {:induction false} TickOnlyRemoves(cfg: Config, m: Model, rest: seq<Slot>, elapsed: nat,
                                           environment: Environment, y: Slot)
    requires Inv(cfg, m) && cfg.tick > 0
    ensures y in TickOver(cfg, m, rest, elapsed, environment).conns ==> y in m.conns
    decreases |rest|
  {
    if rest != [] {
      if rest[0] in m.conns {
        var m1 := Process(cfg, m, rest[0], elapsed, environment);
        ProcessKeeps(cfg, m, rest[0], elapsed, environment);
        ProcessSpares(cfg, m, rest[0], elapsed, environment);
        if rest[0] in m1.conns {
          TickOnlyRemoves(cfg, m1, rest[1..], elapsed, environment, y);
        }
      } else {
        TickOnlyRemoves(cfg, m, rest[1..], elapsed, environment, y);
      }
    }
  }

  /** No messaging connection in front of position i of the list expires in this tick. */
  ghost predicate NoMessagingExpiry(m: Model, list: seq<Slot>, i: nat, elapsed: nat) {
    forall j :: 0 <= j < i && j < |list| && list[j] in m.conns && !IsIo(m.conns[list[j]]) ==>
      !Expires(m.conns[list[j]], elapsed)
  }

  /** The condition passes on to the rest of the list while its connections are untouched. */
  lemma ExpiryAhead(m: Model, m1: Model, list: seq<Slot>, i: nat, elapsed: nat)
    requires i > 0 && list != [] && NoMessagingExpiry(m, list, i, elapsed) && Distinct(list)
    requires Spared(m, m1, list[0])
    ensures NoMessagingExpiry(m1, list[1..], i - 1, elapsed)
  {
    forall j | 0 <= j < i - 1 && j < |list[1..]| && list[1..][j] in m1.conns && !IsIo(m1.conns[list[1..][j]])
      ensures !Expires(m1.conns[list[1..][j]], elapsed)
    {
      assert list[1..][j] == list[j + 1] && list[j + 1] != list[0];
    }
  }

  /** The connection at position i is counted down or times out, or is gone; if messaging, it is gone once
      it is due. */
  ghost predicate Reached(cfg: Config, m: Model, rest: seq<Slot>, i: nat, elapsed: nat, environment: Environment)
    requires cfg.tick > 0 && i < |rest| && rest[i] in m.conns
  {
    var (y, m1) := (rest[i], TickOver(cfg, m, rest, elapsed, environment));
    && (y in m1.conns ==> Ticked(m.conns[y], m1.conns[y], elapsed))
    && (Expires(m.conns[y], elapsed) && !IsIo(m.conns[y]) ==> y !in m1.conns)
  }

  /** A tick reaches a watched connection unless a messaging connection in front of it expires. */
  lemma {:induction false} TickReaches(cfg: Config, m: Model, rest: seq<Slot>, i: nat, elapsed: nat,
                                       environment: Environment)
    requires Inv(cfg, m) && cfg.tick > 0 && Distinct(rest) && i < |rest|
    requires rest[i] in m.conns && m.conns[rest[i]].state.Established? && Watched(m.conns[rest[i]])
    requires NoMessagingExpiry(m, rest, i, elapsed)
    ensures Reached(cfg, m, rest, i, elapsed, environment)
    decreases |rest|
  {
    if rest[0] !in m.conns {
      NobodyAhead(cfg, m, rest, i, elapsed);
      TickReaches(cfg, m, rest[1..], i - 1, elapsed, environment);
      ReachedBehind(cfg, m, rest, i, elapsed, environment);
    } else if i == 0 {
      ReachedFirst(cfg, m, rest, elapsed, environment);
    } else {
      var m1 := Process(cfg, m, rest[0], elapsed, environment);
      VisitPasses(cfg, m, rest, i, elapsed, environment);
      TickOnlyRemoves(cfg, m1, rest[1..], elapsed, environment, rest[i]);
      if rest[i] in m1.conns {
        StaysWatched(m, m1, rest[i]);
        assert rest[1..][i - 1] == rest[i];
        TickReaches(cfg, m1, rest[1..], i - 1, elapsed, environment);
      }
      ReachedFurther(cfg, m, rest, i, elapsed, environment);
    }
  }

  lemma NobodyAhead(cfg: Config, m: Model, rest: seq<Slot>, i: nat, elapsed: nat)
    requires Inv(cfg, m) && Distinct(rest) && i < |rest| && rest[0] !in m.conns && rest[i] in m.conns
    requires NoMessagingExpiry(m, rest, i, elapsed)
    ensures i > 0 && Distinct(rest[1..]) && rest[1..][i - 1] == rest[i]
    ensures NoMessagingExpiry(m, rest[1..], i - 1, elapsed)
  {
    KeepSpares(m, m, rest[0]);
    ExpiryAhead(m, m, rest, i, elapsed);
  }

  lemma ReachedBehind(cfg: Config, m: Model, rest: seq<Slot>, i: nat, elapsed: nat, environment: Environment)
    requires cfg.tick > 0 && 0 < i < |rest| && rest[0] !in m.conns && rest[i] in m.conns
    requires Reached(cfg, m, rest[1..], i - 1, elapsed, environment)
    ensures Reached(cfg, m, rest, i, elapsed, environment)
  {}

  /** The visit of a connection further in front, which is not an expiring messaging one. */
  lemma VisitPasses(cfg: Config, m: Model, list: seq<Slot>, i: nat, elapsed: nat, environment: Environment)
    requires Inv(cfg, m) && cfg.tick > 0 && 0 < i < |list| && Distinct(list)
    requires list[0] in m.conns && NoMessagingExpiry(m, list, i, elapsed)
    ensures var m1 := Process(cfg, m, list[0], elapsed, environment);
      && Inv(cfg, m1) && list[0] in m1.conns && SameClock(m, m1, list[i])
      && NoMessagingExpiry(m1, list[1..], i - 1, elapsed)
  {
    ProcessKeeps(cfg, m, list[0], elapsed, environment);
    ProcessSpares(cfg, m, list[0], elapsed, environment);
    ProcessTicks(cfg, m, list[0], elapsed, environment);
    ExpiryAhead(m, Process(cfg, m, list[0], elapsed, environment), list, i, elapsed);
  }

  lemma ReachedFirst(cfg: Config, m: Model, rest: seq<Slot>, elapsed: nat, environment: Environment)
    requires Inv(cfg, m) && cfg.tick > 0 && Distinct(rest) && rest != []
    requires rest[0] in m.conns && m.conns[rest[0]].state.Established? && Watched(m.conns[rest[0]])
    ensures Reached(cfg, m, rest, 0, elapsed, environment)
  {
    var m1 := Process(cfg, m, rest[0], elapsed, environment);
    ProcessKeeps(cfg, m, rest[0], elapsed, environment);
    ProcessTicks(cfg, m, rest[0], elapsed, environment);
    if rest[0] in m1.conns {
      TickSpares(cfg, m1, rest[1..], elapsed, environment, rest[0]);
    }
  }

  /** The step of the induction, without the invariant. */
  lemma ReachedFurther(cfg: Config, m: Model, rest: seq<Slot>, i: nat, elapsed: nat, environment: Environment)
    requires cfg.tick > 0 && 0 < i < |rest| && rest[0] in m.conns && rest[i] in m.conns
    requires var (y, m1) := (rest[i], Process(cfg, m, rest[0], elapsed, environment));
      && SameClock(m, m1, y) && rest[0] in m1.conns
      && (y in TickOver(cfg, m1, rest[1..], elapsed, environment).conns ==> y in m1.conns)
      && (y in m1.conns ==> Reached(cfg, m1, rest[1..], i - 1, elapsed, environment))
    ensures Reached(cfg, m, rest, i, elapsed, environment)
  {
    var m1 := Process(cfg, m, rest[0], elapsed, environment);
    assert rest[1..][i - 1] == rest[i];
    if rest[i] in m1.conns {
      TickedAlike(m, m1, rest[i], TickOver(cfg, m1, rest[1..], elapsed, environment), elapsed);
      ExpiresAlike(m, m1, rest[i], elapsed);
    }
  }

  // ----- how far a tick gets -----

  /** No session that may end in the tick has a messaging connection. */
  ghost predicate NoSessionEnds(m: Model, environment: Environment) {
    forall x, y :: y in m.conns && m.conns[y].terms.transport.Class3? ==>
      m.conns[y].terms.session !in SessionsOf(environment, x)
  }

  lemma {:induction false} NothingToClose(m: Model, sessions: seq<nat>)
    requires forall y :: y in m.conns && m.conns[y].terms.transport.Class3? ==> m.conns[y].terms.session !in sessions
    ensures CloseSessions(m, sessions) == m
    decreases |sessions|
  {
    if sessions != [] {
      assert sessions[0] in sessions;
      assert Search(m, MessagingOf(sessions[0])).None?;
      assert forall s :: s in sessions[1..] ==> s in sessions;
      NothingToClose(m, sessions[1..]);
    }
  }

  lemma OwnTerms(cfg: Config, m: Model, x: Slot, elapsed: nat, environment: Environment)
    requires Inv(cfg, m) && cfg.tick > 0 && x in m.conns
    ensures var m1 := Process(cfg, m, x, elapsed, environment);
      x in m1.conns ==> m1.conns[x].terms == m.conns[x].terms && SameFilter(m.conns[x], m1.conns[x])
  {
    if Expires(m.conns[x], elapsed) && IsIo(m.conns[x]) {
      ExpiredStays(cfg, m, x, environment);
    } else {
      UnexpiredTerms(cfg, m, x, elapsed, environment);
    }
  }

  lemma UnexpiredTerms(cfg: Config, m: Model, x: Slot, elapsed: nat, environment: Environment)
    requires cfg.tick > 0 && x in m.conns && !(Expires(m.conns[x], elapsed) && IsIo(m.conns[x]))
    ensures var m1 := Process(cfg, m, x, elapsed, environment);
      x in m1.conns ==> m1.conns[x].terms == m.conns[x].terms && SameFilter(m.conns[x], m1.conns[x])
  {}

  ghost predicate SameTerms(m: Model, m1: Model) {
    forall y :: y in m1.conns ==>
      y in m.conns && m1.conns[y].terms == m.conns[y].terms && SameFilter(m.conns[y], m1.conns[y])
  }

  lemma SparedTerms(m: Model, m1: Model, x: Slot)
    requires Spared(m, m1, x) && x in m.conns
    requires x in m1.conns ==> m1.conns[x].terms == m.conns[x].terms && SameFilter(m.conns[x], m1.conns[x])
    ensures SameTerms(m, m1)
  {}

  lemma ProcessKeepsTerms(cfg: Config, m: Model, x: Slot, elapsed: nat, environment: Environment)
    requires Inv(cfg, m) && cfg.tick > 0 && x in m.conns
    ensures SameTerms(m, Process(cfg, m, x, elapsed, environment))
  {
    ProcessSpares(cfg, m, x, elapsed, environment);
    OwnTerms(cfg, m, x, elapsed, environment);
    SparedTerms(m, Process(cfg, m, x, elapsed, environment), x);
  }

  /** Unless a session ends, a time-out removes no messaging connection but its own. */
  lemma TimeOutKeepsMessaging(m: Model, x: Slot, environment: Environment, z: Slot)
    requires x in m.conns && NoSessionEnds(m, environment)
    requires z in m.conns && !IsIo(m.conns[z]) && z != x
    ensures z in TimeOut(m, x, environment).conns
  {
    var m0 := Retire(m, x, TimedOut);
    NothingToClose(m0, SessionsOf(environment, x));
    NoOriginatorEnds(m0, x, environment);
    if IsIo(m.conns[x]) {
      TimeOutIoKeepsMessaging(m, x, environment, z);
    }
  }

  lemma NoOriginatorEnds(m: Model, x: Slot, environment: Environment)
    requires x in m.conns && CloseSessions(m, SessionsOf(environment, x)) == m
    ensures EndOriginator(m, x, environment) == m
  {}

  lemma RelinquishKeepsMessaging(m: Model, x: Slot, z: Slot)
    requires x in m.conns && z in m.conns && !IsIo(m.conns[z])
    ensures z in Relinquish(m, x).conns && !IsIo(Relinquish(m, x).conns[z])
  {}

  lemma DependentsKeepMessaging(m: Model, input: nat, z: Slot)
    requires z in m.conns && !IsIo(m.conns[z])
    ensures z in CloseDependents(m, input).conns
  {}

  lemma TimeOutIoKeepsMessaging(m: Model, x: Slot, environment: Environment, z: Slot)
    requires x in m.conns && z in m.conns && !IsIo(m.conns[z]) && z != x
    requires EndOriginator(Retire(m, x, TimedOut), x, environment) == Retire(m, x, TimedOut)
    ensures z in TimeOutIo(m, x, environment).conns
  {
    var (c, m0) := (m.conns[x], Retire(m, x, TimedOut));
    RelinquishKeepsMessaging(m0, x, z);
    DependentsKeepMessaging(if ControlsGroup(c) then Relinquish(m0, x) else m0, c.terms.input, z);
  }

  lemma ProcessKeepsMessaging(cfg: Config, m: Model, x: Slot, elapsed: nat, environment: Environment, z: Slot)
    requires cfg.tick > 0 && x in m.conns && NoSessionEnds(m, environment)
    requires z in m.conns && !IsIo(m.conns[z]) && z != x
    ensures z in Process(cfg, m, x, elapsed, environment).conns
  {
    if Expires(m.conns[x], elapsed) {
      TimeOutKeepsMessaging(m, x, environment, z);
    }
  }

  lemma SameSessions(m: Model, m1: Model, environment: Environment)
    requires NoSessionEnds(m, environment) && SameTerms(m, m1)
    ensures NoSessionEnds(m1, environment)
  {}

  lemma SessionsStillOpen(cfg: Config, m: Model, x: Slot, elapsed: nat, environment: Environment)
    requires Inv(cfg, m) && cfg.tick > 0 && x in m.conns && NoSessionEnds(m, environment)
    ensures NoSessionEnds(Process(cfg, m, x, elapsed, environment), environment)
  {
    ProcessKeepsTerms(cfg, m, x, elapsed, environment);
    SameSessions(m, Process(cfg, m, x, elapsed, environment), environment);
  }

  /** Unless a session ends, the condition holds of the rest of the list exactly if it holds of all of
      it, given that the head is not itself an expiring messaging connection. */
  lemma ExpiryAheadIff(cfg: Config, m: Model, list: seq<Slot>, i: nat, elapsed: nat, environment: Environment)
    requires Inv(cfg, m) && cfg.tick > 0 && 0 < i < |list| && Distinct(list) && NoSessionEnds(m, environment)
    requires list[0] in m.conns && (IsIo(m.conns[list[0]]) || !Expires(m.conns[list[0]], elapsed))
    ensures var m1 := Process(cfg, m, list[0], elapsed, environment);
      NoMessagingExpiry(m1, list[1..], i - 1, elapsed) <==> NoMessagingExpiry(m, list, i, elapsed)
  {
    var m1 := Process(cfg, m, list[0], elapsed, environment);
    ProcessSpares(cfg, m, list[0], elapsed, environment);
    if NoMessagingExpiry(m, list, i, elapsed) {
      ExpiryAhead(m, m1, list, i, elapsed);
    }
    if NoMessagingExpiry(m1, list[1..], i - 1, elapsed) {
      forall j | 0 <= j < i && j < |list| && list[j] in m.conns && !IsIo(m.conns[list[j]])
        ensures !Expires(m.conns[list[j]], elapsed)
      {
        if j > 0 {
          ProcessKeepsMessaging(cfg, m, list[0], elapsed, environment, list[j]);
          assert list[1..][j - 1] == list[j];
        }
      }
    }
  }

  /** The same when the head is no longer in the table. */
  lemma ExpiryBehind(m: Model, list: seq<Slot>, i: nat, elapsed: nat)
    requires 0 < i < |list| && list[0] !in m.conns
    ensures NoMessagingExpiry(m, list[1..], i - 1, elapsed) <==> NoMessagingExpiry(m, list, i, elapsed)
  {
    if NoMessagingExpiry(m, list[1..], i - 1, elapsed) {
      forall j | 0 <= j < i && j < |list| && list[j] in m.conns && !IsIo(m.conns[list[j]])
        ensures !Expires(m.conns[list[j]], elapsed)
      {
        assert list[1..][j - 1] == list[j];
      }
    } else {
      var j :| 0 <= j < i - 1 && j < |list[1..]| && list[1..][j] in m.conns && !IsIo(m.conns[list[1..][j]]) &&
        Expires(m.conns[list[1..][j]], elapsed);
      assert list[j + 1] == list[1..][j];
    }
  }

  /** What one visit means for the connections behind it, in a tick that ends no session. */
  lemma VisitAhead(cfg: Config, m: Model, list: seq<Slot>, i: nat, elapsed: nat, environment: Environment)
    requires Inv(cfg, m) && cfg.tick > 0 && 0 < i < |list| && Distinct(list) && NoSessionEnds(m, environment)
    requires list[0] in m.conns && list[i] in m.conns
    ensures var (y, m1) := (list[i], Process(cfg, m, list[0], elapsed, environment));
      && Inv(cfg, m1) && NoSessionEnds(m1, environment)
      && SameClock(m, m1, y) && (!IsIo(m.conns[y]) ==> y in m1.conns)
      && if list[0] in m1.conns
         then NoMessagingExpiry(m1, list[1..], i - 1, elapsed) <==> NoMessagingExpiry(m, list, i, elapsed)
         else !NoMessagingExpiry(m, list, i, elapsed)
  {
    ProcessKeeps(cfg, m, list[0], elapsed, environment);
    ProcessSpares(cfg, m, list[0], elapsed, environment);
    ProcessTicks(cfg, m, list[0], elapsed, environment);
    SessionsStillOpen(cfg, m, list[0], elapsed, environment);
    if IsIo(m.conns[list[0]]) || !Expires(m.conns[list[0]], elapsed) {
      ExpiryAheadIff(cfg, m, list, i, elapsed, environment);
    }
    if !IsIo(m.conns[list[i]]) {
      ProcessKeepsMessaging(cfg, m, list[0], elapsed, environment, list[i]);
    }
  }

  /** The connection at position i is counted down, or times out, exactly if no messaging connection in
      front of it expires; otherwise it is left as it was. */
  ghost predicate ReachedExactly(cfg: Config, m: Model, rest: seq<Slot>, i: nat, elapsed: nat, environment: Environment)
    requires cfg.tick > 0 && i < |rest| && rest[i] in m.conns
  {
    var (y, m1) := (rest[i], TickOver(cfg, m, rest, elapsed, environment));
    y in m1.conns ==>
      if NoMessagingExpiry(m, rest, i, elapsed) then Ticked(m.conns[y], m1.conns[y], elapsed)
      else SameClock(m, m1, y) && !Ticked(m.conns[y], m1.conns[y], elapsed)
  }

  /** In a tick that ends no session, every watched connection is reached exactly: at the first messaging
      connection that expires, the tick is over. */
  lemma {:induction false} TickReachesExactly(cfg: Config, m: Model, rest: seq<Slot>, i: nat, elapsed: nat,
                                              environment: Environment)
    requires Inv(cfg, m) && cfg.tick > 0 && elapsed > 0 && Distinct(rest) && i < |rest| && NoSessionEnds(m, environment)
    requires rest[i] in m.conns && m.conns[rest[i]].state.Established? && Watched(m.conns[rest[i]])
    ensures ReachedExactly(cfg, m, rest, i, elapsed, environment)
    decreases |rest|
  {
    if i == 0 {
      ReachesFirst(cfg, m, rest, elapsed, environment);
    } else if rest[0] !in m.conns {
      TickReachesExactly(cfg, m, rest[1..], i - 1, elapsed, environment);
      ReachesBehind(cfg, m, rest, i, elapsed, environment);
    } else {
      var m1 := Process(cfg, m, rest[0], elapsed, environment);
      AheadOfWatched(cfg, m, rest, i, elapsed, environment);
      if rest[0] in m1.conns && rest[i] in m1.conns {
        TickReachesExactly(cfg, m1, rest[1..], i - 1, elapsed, environment);
      }
      ReachesFurther(cfg, m, rest, i, elapsed, environment);
    }
  }

  /** The visit to somebody in front of a watched connection. */
  lemma AheadOfWatched(cfg: Config, m: Model, rest: seq<Slot>, i: nat, elapsed: nat, environment: Environment)
    requires Inv(cfg, m) && cfg.tick > 0 && 0 < i < |rest| && Distinct(rest) && NoSessionEnds(m, environment)
    requires rest[0] in m.conns && rest[i] in m.conns
    requires m.conns[rest[i]].state.Established? && Watched(m.conns[rest[i]])
    ensures var (y, m1) := (rest[i], Process(cfg, m, rest[0], elapsed, environment));
      && Inv(cfg, m1) && NoSessionEnds(m1, environment) && SameClock(m, m1, y) && rest[1..][i - 1] == y
      && (y in m1.conns ==> m1.conns[y].state.Established? && Watched(m1.conns[y]))
      && (y in TickOver(cfg, m1, rest[1..], elapsed, environment).conns ==> y in m1.conns)
      && if rest[0] in m1.conns
         then NoMessagingExpiry(m1, rest[1..], i - 1, elapsed) <==> NoMessagingExpiry(m, rest, i, elapsed)
         else !NoMessagingExpiry(m, rest, i, elapsed)
  {
    var m1 := Process(cfg, m, rest[0], elapsed, environment);
    VisitAhead(cfg, m, rest, i, elapsed, environment);
    TickOnlyRemoves(cfg, m1, rest[1..], elapsed, environment, rest[i]);
    StaysWatched(m, m1, rest[i]);
  }

  lemma StaysWatched(m: Model, m1: Model, y: Slot)
    requires SameClock(m, m1, y) && y in m.conns && m.conns[y].state.Established? && Watched(m.conns[y])
    ensures y in m1.conns ==> m1.conns[y].state.Established? && Watched(m1.conns[y])
  {}

  lemma ReachesFirst(cfg: Config, m: Model, rest: seq<Slot>, elapsed: nat, environment: Environment)
    requires Inv(cfg, m) && cfg.tick > 0 && Distinct(rest) && rest != []
    requires rest[0] in m.conns && m.conns[rest[0]].state.Established? && Watched(m.conns[rest[0]])
    ensures ReachedExactly(cfg, m, rest, 0, elapsed, environment)
  {
    assert NoMessagingExpiry(m, rest, 0, elapsed);
    ReachedFirst(cfg, m, rest, elapsed, environment);
  }

  lemma ReachesBehind(cfg: Config, m: Model, rest: seq<Slot>, i: nat, elapsed: nat, environment: Environment)
    requires cfg.tick > 0 && 0 < i < |rest| && rest[0] !in m.conns && rest[i] in m.conns
    requires ReachedExactly(cfg, m, rest[1..], i - 1, elapsed, environment)
    ensures ReachedExactly(cfg, m, rest, i, elapsed, environment)
  {
    ExpiryBehind(m, rest, i, elapsed);
  }

  /** The step of the induction, without the invariant. */
  lemma ReachesFurther(cfg: Config, m: Model, rest: seq<Slot>, i: nat, elapsed: nat, environment: Environment)
    requires cfg.tick > 0 && elapsed > 0 && 0 < i < |rest| && rest[0] in m.conns
    requires rest[i] in m.conns && m.conns[rest[i]].state.Established?
    requires var (y, m1) := (rest[i], Process(cfg, m, rest[0], elapsed, environment));
      && SameClock(m, m1, y)
      && (y in TickOver(cfg, m1, rest[1..], elapsed, environment).conns ==> y in m1.conns)
      && (rest[0] in m1.conns && y in m1.conns ==> ReachedExactly(cfg, m1, rest[1..], i - 1, elapsed, environment))
      && if rest[0] in m1.conns
         then NoMessagingExpiry(m1, rest[1..], i - 1, elapsed) <==> NoMessagingExpiry(m, rest, i, elapsed)
         else !NoMessagingExpiry(m, rest, i, elapsed)
    ensures ReachedExactly(cfg, m, rest, i, elapsed, environment)
  {
    var m1 := Process(cfg, m, rest[0], elapsed, environment);
    if rest[0] in m1.conns && rest[i] in m1.conns {
      assert rest[1..][i - 1] == rest[i];
      TickedAlike(m, m1, rest[i], TickOver(cfg, m1, rest[1..], elapsed, environment), elapsed);
    } else if rest[i] in m1.conns {
      NotTicked(m, m1, rest[i], elapsed);
    }
  }

  lemma NotTicked(m: Model, m1: Model, y: Slot, elapsed: nat)
    requires SameClock(m, m1, y) && elapsed > 0 && y in m.conns && m.conns[y].state.Established?
    ensures y in m1.conns ==> !Ticked(m.conns[y], m1.conns[y], elapsed)
  {}

  lemma TickedAlike(m: Model, m1: Model, y: Slot, m2: Model, elapsed: nat)
    requires SameClock(m, m1, y) && y in m.conns && y in m1.conns
    ensures y in m2.conns ==> (Ticked(m.conns[y], m2.conns[y], elapsed) <==> Ticked(m1.conns[y], m2.conns[y], elapsed))
  {}

  /** A tick that does not come to a messaging connection leaves it in the table. */
  lemma {:induction false} TickKeepsMessaging(cfg: Config, m: Model, rest: seq<Slot>, elapsed: nat,
                                              environment: Environment, y: Slot)
    requires Inv(cfg, m) && cfg.tick > 0 && NoSessionEnds(m, environment)
    requires y in m.conns && !IsIo(m.conns[y]) && y !in rest
    ensures y in TickOver(cfg, m, rest, elapsed, environment).conns
    decreases |rest|
  {
    if rest != [] {
      assert rest[0] in rest;
      if rest[0] in m.conns {
        var m1 := Process(cfg, m, rest[0], elapsed, environment);
        ProcessKeeps(cfg, m, rest[0], elapsed, environment);
        ProcessKeepsTerms(cfg, m, rest[0], elapsed, environment);
        ProcessKeepsMessaging(cfg, m, rest[0], elapsed, environment, y);
        SessionsStillOpen(cfg, m, rest[0], elapsed, environment);
        if rest[0] in m1.conns {
          TickKeepsMessaging(cfg, m1, rest[1..], elapsed, environment, y);
        }
      } else {
        TickKeepsMessaging(cfg, m, rest[1..], elapsed, environment, y);
      }
    }
  }

  /** The messaging connection at position i leaves the table exactly if it expires and none in front of
      it does. */
  ghost predicate RemovedExactly(cfg: Config, m: Model, rest: seq<Slot>, i: nat, elapsed: nat, environment: Environment)
    requires cfg.tick > 0 && i < |rest| && rest[i] in m.conns
  {
    rest[i] !in TickOver(cfg, m, rest, elapsed, environment).conns <==>
      Expires(m.conns[rest[i]], elapsed) && NoMessagingExpiry(m, rest, i, elapsed)
  }

  /** Every messaging connection is removed exactly in that case. */
  lemma {:induction false} TickRemovesMessaging(cfg: Config, m: Model, rest: seq<Slot>, i: nat, elapsed: nat,
                                                environment: Environment)
    requires Inv(cfg, m) && cfg.tick > 0 && Distinct(rest) && i < |rest| && NoSessionEnds(m, environment)
    requires rest[i] in m.conns && !IsIo(m.conns[rest[i]])
    ensures RemovedExactly(cfg, m, rest, i, elapsed, environment)
    decreases |rest|
  {
    if i == 0 {
      RemovedFirst(cfg, m, rest, elapsed, environment);
    } else if rest[0] !in m.conns {
      TickRemovesMessaging(cfg, m, rest[1..], i - 1, elapsed, environment);
      RemovedBehind(cfg, m, rest, i, elapsed, environment);
    } else {
      var m1 := Process(cfg, m, rest[0], elapsed, environment);
      VisitAhead(cfg, m, rest, i, elapsed, environment);
      if rest[0] in m1.conns {
        assert rest[1..][i - 1] == rest[i];
        StaysMessaging(m, m1, rest[i]);
        TickRemovesMessaging(cfg, m1, rest[1..], i - 1, elapsed, environment);
      }
      RemovedFurther(cfg, m, rest, i, elapsed, environment);
    }
  }

  lemma StaysMessaging(m: Model, m1: Model, y: Slot)
    requires SameClock(m, m1, y) && y in m.conns && !IsIo(m.conns[y])
    ensures y in m1.conns ==> !IsIo(m1.conns[y])
  {}

  lemma RemovedFirst(cfg: Config, m: Model, rest: seq<Slot>, elapsed: nat, environment: Environment)
    requires Inv(cfg, m) && cfg.tick > 0 && Distinct(rest) && rest != [] && NoSessionEnds(m, environment)
    requires rest[0] in m.conns && !IsIo(m.conns[rest[0]])
    ensures RemovedExactly(cfg, m, rest, 0, elapsed, environment)
  {
    VisitSelf(cfg, m, rest, elapsed, environment);
    assert NoMessagingExpiry(m, rest, 0, elapsed);
  }

  lemma RemovedBehind(cfg: Config, m: Model, rest: seq<Slot>, i: nat, elapsed: nat, environment: Environment)
    requires cfg.tick > 0 && 0 < i < |rest| && rest[0] !in m.conns && rest[i] in m.conns
    requires RemovedExactly(cfg, m, rest[1..], i - 1, elapsed, environment)
    ensures RemovedExactly(cfg, m, rest, i, elapsed, environment)
  {
    ExpiryBehind(m, rest, i, elapsed);
  }

  lemma RemovedFurther(cfg: Config, m: Model, rest: seq<Slot>, i: nat, elapsed: nat, environment: Environment)
    requires cfg.tick > 0 && 0 < i < |rest| && rest[0] in m.conns && rest[i] in m.conns
    requires var (y, m1) := (rest[i], Process(cfg, m, rest[0], elapsed, environment));
      && SameClock(m, m1, y) && y in m1.conns
      && (rest[0] in m1.conns ==> RemovedExactly(cfg, m1, rest[1..], i - 1, elapsed, environment))
      && if rest[0] in m1.conns
         then NoMessagingExpiry(m1, rest[1..], i - 1, elapsed) <==> NoMessagingExpiry(m, rest, i, elapsed)
         else !NoMessagingExpiry(m, rest, i, elapsed)
    ensures RemovedExactly(cfg, m, rest, i, elapsed, environment)
  {
    var m1 := Process(cfg, m, rest[0], elapsed, environment);
    assert rest[1..][i - 1] == rest[i];
    ExpiresAlike(m, m1, rest[i], elapsed);
  }

  lemma ExpiresAlike(m: Model, m1: Model, y: Slot, elapsed: nat)
    requires SameClock(m, m1, y) && y in m.conns && y in m1.conns
    ensures Expires(m1.conns[y], elapsed) <==> Expires(m.conns[y], elapsed)
  {}

  lemma VisitSelf(cfg: Config, m: Model, rest: seq<Slot>, elapsed: nat, environment: Environment)
    requires Inv(cfg, m) && cfg.tick > 0 && Distinct(rest) && rest != [] && NoSessionEnds(m, environment)
    requires rest[0] in m.conns && !IsIo(m.conns[rest[0]])
    ensures rest[0] !in TickOver(cfg, m, rest, elapsed, environment).conns <==> Expires(m.conns[rest[0]], elapsed)
  {
    var m1 := Process(cfg, m, rest[0], elapsed, environment);
    ProcessTicks(cfg, m, rest[0], elapsed, environment);
    if rest[0] in m1.conns {
      ProcessKeeps(cfg, m, rest[0], elapsed, environment);
      ProcessKeepsTerms(cfg, m, rest[0], elapsed, environment);
      SessionsStillOpen(cfg, m, rest[0], elapsed, environment);
      TickKeepsMessaging(cfg, m1, rest[1..], elapsed, environment, rest[0]);
    }
  }

  /** Who is neither messaging nor listen-only stays when a group is given up. */
  lemma RelinquishKeepsMasters(m: Model, x: Slot, y: Slot)
    requires x in m.conns && y in m.conns && !m.conns[y].terms.kind.ListenOnly?
    ensures y in Relinquish(m, x).conns && Relinquish(m, x).conns[y].terms == m.conns[y].terms
  {}

  lemma TimeOutKeepsOwner(cfg: Config, m: Model, x: Slot, environment: Environment, y: Slot)
    requires Inv(cfg, m) && x in m.conns && IsIo(m.conns[x]) && y in m.conns && m.conns[y].terms.kind.ExclusiveOwner?
    ensures y in TimeOutIo(m, x, environment).conns
  {
    var m0 := Retire(m, x, TimedOut);
    UpdateKeepsInv(cfg, m, m0, x);
    CloseSessionsKeep(cfg, m0, SessionsOf(environment, x));
    OwnerOutlasts(m, EndOriginator(m0, x, environment), x, environment, y);
  }

  lemma OwnerOutlasts(m: Model, m1: Model, x: Slot, environment: Environment, y: Slot)
    requires x in m.conns && m1 == EndOriginator(Retire(m, x, TimedOut), x, environment)
    requires y in m1.conns && m1.conns[y].terms.kind.ExclusiveOwner?
    ensures y in TimeOutIo(m, x, environment).conns
  {
    var c := m.conns[x];
    var m2 := if ControlsGroup(c) && x in m1.conns then Relinquish(m1, x) else m1;
    if ControlsGroup(c) && x in m1.conns {
      RelinquishKeepsMasters(m1, x, y);
    }
    OwnerStays(m2, y, c.terms.input);
  }

  /** Nothing in a tick takes an exclusive owner off the list. */
  lemma ProcessKeepsOwner(cfg: Config, m: Model, x: Slot, elapsed: nat, environment: Environment, y: Slot)
    requires Inv(cfg, m) && cfg.tick > 0 && x in m.conns && y in m.conns && m.conns[y].terms.kind.ExclusiveOwner?
    ensures y in Process(cfg, m, x, elapsed, environment).conns
  {
    if Expires(m.conns[x], elapsed) && IsIo(m.conns[x]) {
      TimeOutKeepsOwner(cfg, m, x, environment, y);
    } else {
      UnexpiredKeeps(cfg, m, x, elapsed, environment, y);
    }
  }

  lemma UnexpiredKeeps(cfg: Config, m: Model, x: Slot, elapsed: nat, environment: Environment, y: Slot)
    requires cfg.tick > 0 && x in m.conns && !(Expires(m.conns[x], elapsed) && IsIo(m.conns[x]))
    requires y in m.conns && IsIo(m.conns[y])
    ensures y in Process(cfg, m, x, elapsed, environment).conns
  {}

  lemma {:induction false} TickKeepsOwner(cfg: Config, m: Model, rest: seq<Slot>, elapsed: nat,
                                          environment: Environment, y: Slot)
    requires Inv(cfg, m) && cfg.tick > 0 && y in m.conns && m.conns[y].terms.kind.ExclusiveOwner?
    ensures y in TickOver(cfg, m, rest, elapsed, environment).conns
    decreases |rest|
  {
    if rest != [] {
      if rest[0] in m.conns {
        var m1 := Process(cfg, m, rest[0], elapsed, environment);
        ProcessKeeps(cfg, m, rest[0], elapsed, environment);
        ProcessKeepsTerms(cfg, m, rest[0], elapsed, environment);
        ProcessKeepsOwner(cfg, m, rest[0], elapsed, environment, y);
        if rest[0] in m1.conns {
          TickKeepsOwner(cfg, m1, rest[1..], elapsed, environment, y);
        }
      } else {
        TickKeepsOwner(cfg, m, rest[1..], elapsed, environment, y);
      }
    }
  }

  /** A tick changes neither the terms nor the count of received data of anybody. */
  lemma {:induction false} TickKeepsTerms(cfg: Config, m: Model, rest: seq<Slot>, elapsed: nat,
                                          environment: Environment)
    requires Inv(cfg, m) && cfg.tick > 0
    ensures SameTerms(m, TickOver(cfg, m, rest, elapsed, environment))
    decreases |rest|
  {
    if rest != [] {
      if rest[0] in m.conns {
        var m1 := Process(cfg, m, rest[0], elapsed, environment);
        ProcessKeeps(cfg, m, rest[0], elapsed, environment);
        ProcessKeepsTerms(cfg, m, rest[0], elapsed, environment);
        if rest[0] in m1.conns {
          TickKeepsTerms(cfg, m1, rest[1..], elapsed, environment);
          SameTermsOn(m, m1, TickOver(cfg, m1, rest[1..], elapsed, environment));
        }
      } else {
        TickKeepsTerms(cfg, m, rest[1..], elapsed, environment);
      }
    }
  }

  lemma SameTermsOn(m: Model, m1: Model, m2: Model)
    requires SameTerms(m, m1) && SameTerms(m1, m2)
    ensures SameTerms(m, m2)
  {}

  // ----- one connection over a run -----

  /** The part of a record that the countdown and the filter of received data look at. */
  ghost predicate SameWatch(m: Model, m1: Model, y: Slot) {
    y in m.conns && y in m1.conns ==>
      m1.conns[y].terms == m.conns[y].terms && m1.conns[y].state == m.conns[y].state &&
        m1.conns[y].watchdog == m.conns[y].watchdog && SameFilter(m.conns[y], m1.conns[y])
  }

  /** The same with the timer of the last packet. */
  ghost predicate SameClock(m: Model, m1: Model, y: Slot) {
    SameWatch(m, m1, y) && (y in m.conns && y in m1.conns ==> m1.conns[y].lastPackage == m.conns[y].lastPackage)
  }

  lemma AdmitSpares(m: Model, x: Slot, c: Connection, y: Slot)
    requires x !in m.conns && y != x
    ensures SameClock(m, Admit(m, x, c), y)
    ensures y in Admit(m, x, c).conns ==> y in m.conns
  {}

  lemma EvictionSpares(cfg: Config, m: Model, r: Request, y: Slot)
    requires Inv(cfg, m) && cfg.Valid() && y in m.conns && m.conns[y].state.Established? &&
      Select(cfg, m, r.terms).1.Chosen?
    ensures var Chosen(x, evict) := Select(cfg, m, r.terms).1;
      var m1 := if evict && x in m.conns then Close(m, x) else m;
      x != y && x !in m1.conns && SameClock(m, m1, y)
  {
    SelectReady(cfg, m, r.terms);
    var choice := Select(cfg, m, r.terms).1;
    if choice.evict {
      SelectEvictsTimedOut(cfg, m, r.terms);
      CloseSpares(m, choice.slot);
    }
  }

  lemma EstablishIoSpares(cfg: Config, m: Model, r: Request, y: Slot)
    requires Inv(cfg, m) && cfg.Valid() && y in m.conns && m.conns[y].state.Established?
    ensures SameClock(m, EstablishIo(cfg, m, r).0, y)
  {
    if Select(cfg, m, r.terms).1.Chosen? {
      EvictionSpares(cfg, m, r, y);
      if InhibitTime(r.terms).Some? {
        var (m2, c) := Admission(cfg, m, r);
        EstablishIoShape(cfg, m, r);
        AdmitSpares(m2, Select(cfg, m, r.terms).1.slot, c, y);
      }
    }
  }

  lemma ExplicitSpares(cfg: Config, m: Model, r: Request, y: Slot)
    requires y in m.conns && !m.conns[y].state.NonExistent?
    ensures SameClock(m, EstablishExplicit(cfg, m, r).0, y)
  {}

  lemma OpenSpares(cfg: Config, m: Model, r: Request, y: Slot)
    requires Inv(cfg, m) && cfg.Valid() && y in m.conns && m.conns[y].state.Established?
    ensures SameClock(m, Open(cfg, m, r).0, y)
  {
    ExplicitSpares(cfg, m, r, y);
    EstablishIoSpares(cfg, m, r, y);
  }

  lemma CloseSparesOthers(cfg: Config, m: Model, x: Slot, y: Slot)
    requires Inv(cfg, m) && x in m.conns
    ensures SameClock(m, Close(m, x), y)
  {
    CloseKeeps(cfg, m, x);
    CloseSpares(m, x);
  }

  /** A packet for y that comes from its originator's address. */
  predicate Reaches(m: Model, e: Event, y: Slot) {
    e.Receive? && Search(m, ConsumerOf(e.id)) == Some(y) && m.conns[y].terms.address == e.from
  }

  /** One that the filter accepts: the first one, or later than the stored count. */
  predicate Accepted(m: Model, e: Event, y: Slot) {
    Reaches(m, e, y) && (!m.conns[y].eipReceived || SeqGt32(e.sequence, m.conns[y].eipConsuming))
  }

  /** In this step no packet for y is accepted, no explicit request reaches it, and no messaging
      connection in front of it expires. */
  ghost predicate LeavesAlone(m: Model, e: Event, y: Slot) {
    match e
    case Receive(_, _, _) => !Accepted(m, e, y)
    case ExplicitRequest(id) => Search(m, ConsumerOf(id)) != Some(y)
    case Tick(elapsed, _) => forall i :: 0 <= i < |m.active| && m.active[i] == y ==>
      NoMessagingExpiry(m, m.active, i, elapsed)
    case _ => true
  }

  /** A packet that the filter does not accept, stale or from another address, leaves the watchdog alone;
      only a stale one restarts the timer of the last packet. */
  lemma DataSparesOthers(cfg: Config, m: Model, e: Event, y: Slot)
    requires cfg.tick > 0 && (e.Receive? || e.ExplicitRequest?) && LeavesAlone(m, e, y)
    ensures SameWatch(m, Step(cfg, m, e), y)
    ensures !Reaches(m, e, y) ==> SameClock(m, Step(cfg, m, e), y)
  {}

  /** Nothing but a tick or accepted data moves the watchdog of an Established connection. */
  lemma StepSpares(cfg: Config, m: Model, e: Event, y: Slot)
    requires Inv(cfg, m) && cfg.Valid() && y in m.conns && m.conns[y].state.Established?
    requires !e.Tick? && LeavesAlone(m, e, y)
    ensures SameWatch(m, Step(cfg, m, e), y)
    ensures !Reaches(m, e, y) ==> SameClock(m, Step(cfg, m, e), y)
  {
    match e
    case ForwardOpen(r) => OpenSpares(cfg, m, r, y);
    case ForwardClose(triad, _) =>
      if Search(m, ListedTriad(triad)).Some? {
        CloseSparesOthers(cfg, m, Search(m, ListedTriad(triad)).value, y);
      }
    case EndSession(session) =>
      if Search(m, MessagingOf(session)).Some? {
        CloseSparesOthers(cfg, m, Search(m, MessagingOf(session)).value, y);
      }
    case ReceiveFailure(x) =>
      if x in m.conns {
        CloseSparesOthers(cfg, m, x, y);
      }
    case Receive(_, _, _) => DataSparesOthers(cfg, m, e, y);
    case ExplicitRequest(_) => DataSparesOthers(cfg, m, e, y);
    case CloseAll =>
  }

  /** The connection in y stays on the list through the whole run and is left alone in every step. */
  ghost predicate Undisturbed(cfg: Config, m: Model, events: seq<Event>, y: Slot)
    requires cfg.tick > 0
  {
    && y in Run(cfg, m, events).conns
    && (events != [] ==>
          var (before, e) := (events[..|events| - 1], events[|events| - 1]);
          Undisturbed(cfg, m, before, y) && LeavesAlone(Run(cfg, m, before), e, y))
  }

  function Elapsed(events: seq<Event>): nat {
    if events == [] then 0
    else
      var e := events[|events| - 1];
      Elapsed(events[..|events| - 1]) + if e.Tick? then e.elapsed else 0
  }

  lemma {:induction false} RunKeepsFrom(cfg: Config, m: Model, events: seq<Event>)
    requires Inv(cfg, m) && cfg.Valid() && EventsInScope(cfg, events)
    ensures Inv(cfg, Run(cfg, m, events))
  {
    if events != [] {
      RunKeepsFrom(cfg, m, events[..|events| - 1]);
      StepKeeps(cfg, Run(cfg, m, events[..|events| - 1]), events[|events| - 1]);
    }
  }

  /** A connection in the list sits at one position. */
  lemma StepTicks(cfg: Config, m: Model, e: Event, y: Slot)
    requires Inv(cfg, m) && cfg.Valid() && y in m.conns && m.conns[y].state.Established? && Watched(m.conns[y])
    requires e.Tick? && LeavesAlone(m, e, y)
    ensures var (c, m1) := (m.conns[y], Step(cfg, m, e));
      && (y in m1.conns ==> Ticked(c, m1.conns[y], e.elapsed))
      && (e.elapsed >= c.watchdog && !IsIo(c) ==> y !in m1.conns)
      && (c.terms.kind.ExclusiveOwner? ==> y in m1.conns)
      && (e.elapsed < c.watchdog && !IsIo(c) && NoSessionEnds(m, e.environment) ==> y in m1.conns)
  {
    assert y in m.active;
    var i :| 0 <= i < |m.active| && m.active[i] == y;
    TickReaches(cfg, m, m.active, i, e.elapsed, e.environment);
    if m.conns[y].terms.kind.ExclusiveOwner? {
      TickKeepsOwner(cfg, m, m.active, e.elapsed, e.environment, y);
    }
    if !IsIo(m.conns[y]) && NoSessionEnds(m, e.environment) {
      TickRemovesMessaging(cfg, m, m.active, i, e.elapsed, e.environment);
    }
  }

  /** A watched Established connection whose watchdog stands at W, left alone over any run, counts
      down the elapsed time of the ticks; while their sum stays below W it is Established. */
  lemma {:induction false} CountsDown(cfg: Config, m: Model, events: seq<Event>, y: Slot)
    requires Inv(cfg, m) && cfg.Valid() && EventsInScope(cfg, events) && Undisturbed(cfg, m, events, y)
    requires y in m.conns && m.conns[y].state.Established? && Watched(m.conns[y])
    requires Elapsed(events) < m.conns[y].watchdog
    ensures var d := Run(cfg, m, events).conns[y];
      d.terms == m.conns[y].terms && d.state.Established? && d.watchdog == m.conns[y].watchdog - Elapsed(events)
  {
    if events != [] {
      var (before, e) := (events[..|events| - 1], events[|events| - 1]);
      CountsDown(cfg, m, before, y);
      RunKeepsFrom(cfg, m, before);
      if e.Tick? {
        StepTicks(cfg, Run(cfg, m, before), e, y);
      } else {
        StepSpares(cfg, Run(cfg, m, before), e, y);
      }
    }
  }

  /** In exactly the tick in which the summed elapsed time reaches W the connection is done: a messaging
      connection leaves the list, an I/O connection is TimedOut unless a cascade has removed it, which
      does not happen to an exclusive owner. Before, whoever is not removed by someone else's time-out
      is Established. */
  lemma ExpiresInFirstTick(cfg: Config, m: Model, before: seq<Event>, tick: Event, y: Slot)
    requires Inv(cfg, m) && cfg.Valid() && EventsInScope(cfg, before) && tick.Tick?
    requires Undisturbed(cfg, m, before, y) && LeavesAlone(Run(cfg, m, before), tick, y)
    requires y in m.conns && m.conns[y].state.Established? && Watched(m.conns[y])
    requires Elapsed(before) < m.conns[y].watchdog
    ensures y in Run(cfg, m, before).conns && Run(cfg, m, before).conns[y].state == Established
    ensures var (c, m0, m1) := (m.conns[y], Run(cfg, m, before), Run(cfg, m, before + [tick]));
      var reached := Elapsed(before) + tick.elapsed >= c.watchdog;
      && (y in m1.conns ==> m1.conns[y].state == if reached then TimedOut else Established)
      && (reached && !IsIo(c) ==> y !in m1.conns)
      && (c.terms.kind.ExclusiveOwner? ==> y in m1.conns)
      && (!reached && !IsIo(c) && NoSessionEnds(m0, tick.environment) ==> y in m1.conns)
  {
    assert (before + [tick])[..|before|] == before;
    CountsDown(cfg, m, before, y);
    RunKeepsFrom(cfg, m, before);
    StepTicks(cfg, Run(cfg, m, before), tick, y);
  }

  // ----- one connection over a run with data -----

  /** The connection in y is Established in every state of the run. */
  ghost predicate Stays(cfg: Config, m: Model, events: seq<Event>, y: Slot)
    requires cfg.tick > 0
  {
    && y in Run(cfg, m, events).conns && Run(cfg, m, events).conns[y].state.Established?
    && (events != [] ==> Stays(cfg, m, events[..|events| - 1], y))
  }

  /** And every tick reaches it. */
  ghost predicate TicksReach(cfg: Config, m: Model, events: seq<Event>, y: Slot)
    requires cfg.tick > 0
  {
    events != [] ==>
      var (before, e) := (events[..|events| - 1], events[|events| - 1]);
      TicksReach(cfg, m, before, y) && (e.Tick? ==> LeavesAlone(Run(cfg, m, before), e, y))
  }

  /** The step restarts the watchdog of y: an accepted packet or an explicit request for it. */
  predicate Restarts(m: Model, e: Event, y: Slot) {
    Accepted(m, e, y) || (e.ExplicitRequest? && Search(m, ConsumerOf(e.id)) == Some(y))
  }

  /** What is left of a watchdog that stands at w: it starts again at W with every restart and loses the
      time of every tick. */
  function Remaining(cfg: Config, m: Model, events: seq<Event>, y: Slot, w: nat, restarted: nat): int
    requires cfg.tick > 0
  {
    if events == [] then w
    else
      var (before, e) := (events[..|events| - 1], events[|events| - 1]);
      if Restarts(Run(cfg, m, before), e, y) then restarted
      else Remaining(cfg, m, before, y, w, restarted) - if e.Tick? then e.elapsed else 0
  }

  lemma RestartsClock(cfg: Config, m: Model, e: Event, y: Slot)
    requires cfg.tick > 0 && y in m.conns && Restarts(m, e, y)
    ensures var m1 := Step(cfg, m, e);
      y in m1.conns && m1.conns[y].terms == m.conns[y].terms && m1.conns[y].watchdog == Watchdog(m.conns[y].terms)
  {}

  /** Over any run in which it stays Established and every tick reaches it, the watchdog of a connection
      is what its restarts and the elapsed time make of it, whatever else happens: opens and closes of
      others, packets that are stale or from elsewhere, sessions that end. */
  lemma {:induction false} WatchdogCounts(cfg: Config, m: Model, events: seq<Event>, y: Slot)
    requires Inv(cfg, m) && cfg.Valid() && EventsInScope(cfg, events)
    requires Stays(cfg, m, events, y) && TicksReach(cfg, m, events, y)
    requires y in m.conns && m.conns[y].state.Established? && Watched(m.conns[y])
    ensures var (c, d) := (m.conns[y], Run(cfg, m, events).conns[y]);
      d.terms == c.terms && d.watchdog == Remaining(cfg, m, events, y, c.watchdog, Watchdog(c.terms))
  {
    if events != [] {
      var (before, e) := (events[..|events| - 1], events[|events| - 1]);
      WatchdogCounts(cfg, m, before, y);
      RunKeepsFrom(cfg, m, before);
      WatchdogSteps(cfg, Run(cfg, m, before), e, y);
    }
  }

  lemma WatchdogSteps(cfg: Config, m: Model, e: Event, y: Slot)
    requires Inv(cfg, m) && cfg.Valid() && EventInScope(cfg, e)
    requires y in m.conns && m.conns[y].state.Established? && Watched(m.conns[y])
    requires e.Tick? ==> LeavesAlone(m, e, y)
    requires y in Step(cfg, m, e).conns && Step(cfg, m, e).conns[y].state.Established?
    ensures var (c, d) := (m.conns[y], Step(cfg, m, e).conns[y]);
      && d.terms == c.terms
      && d.watchdog == if Restarts(m, e, y) then Watchdog(c.terms) else c.watchdog - if e.Tick? then e.elapsed else 0
  {
    if Restarts(m, e, y) {
      RestartsClock(cfg, m, e, y);
    } else if e.Tick? {
      StepTicks(cfg, m, e, y);
    } else {
      StepSpares(cfg, m, e, y);
    }
  }

  /** And the next tick that reaches it times it out exactly if it takes what remains: a messaging
      connection leaves the list, an I/O connection is TimedOut unless a cascade removes it. */
  lemma ExpiresWhenRunOut(cfg: Config, m: Model, before: seq<Event>, tick: Event, y: Slot)
    requires Inv(cfg, m) && cfg.Valid() && EventsInScope(cfg, before) && tick.Tick?
    requires Stays(cfg, m, before, y) && TicksReach(cfg, m, before, y) && LeavesAlone(Run(cfg, m, before), tick, y)
    requires y in m.conns && m.conns[y].state.Established? && Watched(m.conns[y])
    ensures var (c, m1) := (m.conns[y], Run(cfg, m, before + [tick]));
      var runOut := tick.elapsed >= Remaining(cfg, m, before, y, c.watchdog, Watchdog(c.terms));
      && (y in m1.conns ==> m1.conns[y].state == if runOut then TimedOut else Established)
      && (runOut && !IsIo(c) ==> y !in m1.conns)
      && (c.terms.kind.ExclusiveOwner? ==> y in m1.conns)
  {
    assert (before + [tick])[..|before|] == before;
    WatchdogCounts(cfg, m, before, y);
    RunKeepsFrom(cfg, m, before);
    StepTicks(cfg, Run(cfg, m, before), tick, y);
  }
}
