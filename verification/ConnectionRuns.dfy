/** The properties of the connection life cycle over every run. */
module ConnectionRuns {
  import opened Connections
  import opened ConnectionModel
  import opened ConnectionInvariants
  import opened ConnectionOpening

  ghost predicate EventInScope(cfg: Config, e: Event) {
    e.ForwardOpen? ==> InScope(cfg, e.request)
  }

  ghost predicate EventsInScope(cfg: Config, events: seq<Event>) {
    forall k :: 0 <= k < |events| ==> EventInScope(cfg, events[k])
  }

  lemma SearchUpdateKeeps(cfg: Config, m: Model, e: Event)
    requires Inv(cfg, m) && cfg.tick > 0 && (e.Receive? || e.ExplicitRequest?)
    ensures Inv(cfg, Step(cfg, m, e))
  {
    var m1 := Step(cfg, m, e);
    match Search(m, ConsumerOf(e.id))
    case None =>
    case Some(x) =>
      UpdateKeepsInv(cfg, m, m1, x);
  }

  lemma StepKeeps(cfg: Config, m: Model, e: Event)
    requires Inv(cfg, m) && cfg.Valid() && EventInScope(cfg, e)
    ensures Inv(cfg, Step(cfg, m, e))
  {
    match e
    case ForwardOpen(r) => OpenKeeps(cfg, m, r);
    case ForwardClose(triad, address) =>
      if Search(m, ListedTriad(triad)).Some? {
        CloseKeeps(cfg, m, Search(m, ListedTriad(triad)).value);
      }
    case Tick(elapsed, environment) => TickKeeps(cfg, m, m.active, elapsed, environment);
    case Receive(_, _, _) => SearchUpdateKeeps(cfg, m, e);
    case ExplicitRequest(_) => SearchUpdateKeeps(cfg, m, e);
    case EndSession(session) => CloseSessionKeeps(cfg, m, session);
    case ReceiveFailure(x) =>
      if x in m.conns {
        CloseKeeps(cfg, m, x);
      }
    case CloseAll =>
  }

  /** The invariant holds after every run of events from boot. */
  lemma {:induction false} RunKeeps(cfg: Config, events: seq<Event>)
    requires cfg.Valid() && EventsInScope(cfg, events)
    ensures Inv(cfg, Run(cfg, Boot, events))
  {
    if events != [] {
      RunKeeps(cfg, events[..|events| - 1]);
      StepKeeps(cfg, Run(cfg, Boot, events[..|events| - 1]), events[|events| - 1]);
    }
  }

  // ----- what the invariant says -----

  /** In every reachable state a slot is on the active list exactly once if it is Established or
      TimedOut, and not at all if it is NonExistent. */
  lemma EverySlotListedOnce(cfg: Config, events: seq<Event>, x: Slot)
    requires cfg.Valid() && EventsInScope(cfg, events)
    ensures var m := Run(cfg, Boot, events);
      && (x in m.conns ==> m.conns[x].state != NonExistent && exists i :: 0 <= i < |m.active| && m.active[i] == x)
      && (x !in m.conns ==> forall i :: 0 <= i < |m.active| ==> m.active[i] != x)
      && (forall i, j :: 0 <= i < j < |m.active| ==> m.active[i] != m.active[j])
  {
    RunKeeps(cfg, events);
  }

  /** At most one exclusive owner is active per input assembly. */
  lemma OneOwnerPerInput(cfg: Config, events: seq<Event>, x: Slot, y: Slot)
    requires cfg.Valid() && EventsInScope(cfg, events)
    requires var m := Run(cfg, Boot, events);
      && x in m.conns && y in m.conns
      && m.conns[x].terms.kind == ExclusiveOwner == m.conns[y].terms.kind
      && m.conns[x].terms.input == m.conns[y].terms.input
    ensures x == y
  {
    RunKeeps(cfg, events);
    var m := Run(cfg, Boot, events);
    assert Fits(cfg, x, m.conns[x]) && Fits(cfg, y, m.conns[y]);
  }

  /** A successful Forward Open puts its connection, Established, at the head of the list, in a
      slot that was free or was left by a timed-out connection of the same originator; no other
      connection that the open leaves on the list had been anywhere else or anything else. */
  lemma OpenNeverOverwrites(cfg: Config, events: seq<Event>, r: Request)
    requires cfg.Valid() && EventsInScope(cfg, events) && InScope(cfg, r)
    requires Open(cfg, Run(cfg, Boot, events), r).1.Opened?
    ensures var m := Run(cfg, Boot, events); var (m1, reply) := Open(cfg, m, r);
      && m1.active != [] && m1.active[0] in m1.conns
      && var x := m1.active[0];
      && m1.conns[x].state == Established && m1.conns[x].terms.triad == r.terms.triad
      && reply == Opened(m1.conns[x].terms.consumedId, m1.conns[x].terms.producedId)
      && (x in m.conns ==>
           m.conns[x].state == TimedOut && m.conns[x].terms.triad.originator == r.terms.triad.originator)
      && (forall y :: y in m1.conns && y != x ==>
           y in m.conns && m1.conns[y].terms == m.conns[y].terms && m1.conns[y].state == m.conns[y].state)
  {
    RunKeeps(cfg, events);
    OpenPlaces(cfg, Run(cfg, Boot, events), r);
  }

  lemma OpenPlaces(cfg: Config, m: Model, r: Request)
    requires Inv(cfg, m) && cfg.Valid() && InScope(cfg, r) && Open(cfg, m, r).1.Opened?
    ensures var (m1, reply) := Open(cfg, m, r);
      && m1.active != [] && m1.active[0] in m1.conns
      && var x := m1.active[0];
      && m1.conns[x].state == Established && m1.conns[x].terms.triad == r.terms.triad
      && reply == Opened(m1.conns[x].terms.consumedId, m1.conns[x].terms.producedId)
      && (x in m.conns ==>
           m.conns[x].state == TimedOut && m.conns[x].terms.triad.originator == r.terms.triad.originator)
      && (forall y :: y in m1.conns && y != x ==>
           y in m.conns && m1.conns[y].terms == m.conns[y].terms && m1.conns[y].state == m.conns[y].state)
  {
    if r.target.Assembly? {
      SlotVacated(cfg, m, r);
      AdmissionTriad(cfg, m, r);
      AdmittedInFront(m, Admission(cfg, m, r).0, Select(cfg, m, r.terms).1.slot, Admission(cfg, m, r).1);
    }
  }

  /** The state of the admission is what remains once the slot is vacated. */
  lemma SlotVacated(cfg: Config, m: Model, r: Request)
    requires Inv(cfg, m) && cfg.Valid() && Select(cfg, m, r.terms).1.Chosen? && InhibitTime(r.terms).Some?
    ensures var (x, m2) := (Select(cfg, m, r.terms).1.slot, Admission(cfg, m, r).0);
      && Remains(m, m2) && x !in m2.conns
      && (x in m.conns ==>
           m.conns[x].state == TimedOut && m.conns[x].terms.triad.originator == r.terms.triad.originator)
  {
    SelectReady(cfg, m, r.terms);
    var choice := Select(cfg, m, r.terms).1;
    if choice.evict {
      SelectEvictsTimedOut(cfg, m, r.terms);
      CloseKeeps(cfg, m, choice.slot);
    }
  }

  lemma AdmissionTriad(cfg: Config, m: Model, r: Request)
    requires Select(cfg, m, r.terms).1.Chosen? && InhibitTime(r.terms).Some?
    ensures var c := Admission(cfg, m, r).1; c.terms.triad == r.terms.triad && c.state.Established?
  {}

  /** Who is admitted stands at the head, and the others are as they were. */
  lemma AdmittedInFront(m: Model, m2: Model, x: Slot, c: Connection)
    requires Remains(m, m2) && x !in m2.conns && c.state.Established?
    ensures var m3 := Admit(m2, x, c);
      && m3.active != [] && m3.active[0] == x && x in m3.conns
      && m3.conns[x].state == Established && m3.conns[x].terms.triad == c.terms.triad
      && forall y :: y in m3.conns && y != x ==>
           y in m.conns && m3.conns[y].terms == m.conns[y].terms && m3.conns[y].state == m.conns[y].state
  {
    AdmitEnters(m2, x, c);
  }

  /** A refused Forward Open opens nothing. Apart from the connection id counter it changes something
      only if the refusal comes after the slot search had taken the slot of a timed-out connection of
      the same originator: then that connection is closed, as by any other close. */
  lemma RefusedOpenOnlyCloses(cfg: Config, m: Model, r: Request)
    requires Inv(cfg, m) && cfg.Valid() && InScope(cfg, r) && Open(cfg, m, r).1.Refused?
    ensures var (m1, x) := (Open(cfg, m, r).0, Select(cfg, m, r.terms).1);
      && Remains(m, m1) && m1.history == m.history
      && if Evicts(cfg, m, r) then Recyclable(m, x.slot, r.terms.triad.originator) &&
           m1 == Close(m, x.slot).(lastId := m1.lastId)
         else m1.active == m.active && m1.conns == m.conns
  {
    RefusalShape(cfg, m, r);
    if Evicts(cfg, m, r) {
      SelectEvictsTimedOut(cfg, m, r.terms);
      CloseKeeps(cfg, m, Select(cfg, m, r.terms).1.slot);
      CloseKeepsHistory(m, Select(cfg, m, r.terms).1.slot);
    }
  }

  /** The slot search runs and takes a slot that is in use. */
  predicate Evicts(cfg: Config, m: Model, r: Request) {
    && EarlyRefusal(cfg, m, r.terms) == 0 && r.target.Assembly?
    && var choice := Select(cfg, m, r.terms).1;
       choice.Chosen? && choice.evict && choice.slot in m.conns
  }

  lemma RefusalShape(cfg: Config, m: Model, r: Request)
    requires Open(cfg, m, r).1.Refused?
    ensures var m1 := Open(cfg, m, r).0;
      m1 == (if Evicts(cfg, m, r) then Close(m, Select(cfg, m, r.terms).1.slot) else m).(lastId := m1.lastId)
  {}

  lemma CloseKeepsHistory(m: Model, x: Slot)
    requires x in m.conns
    ensures Close(m, x).history == m.history
  {}

  lemma SelectEvictsTimedOut(cfg: Config, m: Model, t: Terms)
    requires Inv(cfg, m) && cfg.Valid() && Select(cfg, m, t).1.Chosen? && Select(cfg, m, t).1.evict
    ensures Recyclable(m, Select(cfg, m, t).1.slot, t.triad.originator)
  {
    if SelectOwner(cfg, m, t).Chosen? {
      FindPointSound(cfg.owners, t, 0);
      var o := Search(m, OwnerOf(t.input)).value;
      assert Fits(cfg, o, m.conns[o]);
    } else if SelectPoint(m, t, InputOnly, cfg.inputs, cfg.inputsPerPoint, 0, 0).Chosen? {
      SelectPointSound(m, t, InputOnly, cfg.inputs, cfg.inputsPerPoint, 0, 0);
    } else {
      SelectPointSound(m, t, ListenOnly, cfg.listens, cfg.listensPerPoint, 0, 0);
    }
  }

  /** The multicast group of an input assembly: at most one active connection holds its producing
      socket, never a listen only one; while a connection on it is Established there is a holder,
      and every Established one carries the holder's produced connection id. */
  lemma MulticastGroupHasOneHolder(cfg: Config, events: seq<Event>, input: nat)
    requires cfg.Valid() && EventsInScope(cfg, events) && cfg.LinkOf(input).Multicast?
    ensures var m := Run(cfg, Boot, events);
      var members := set x | x in m.conns && IsIo(m.conns[x]) && m.conns[x].terms.input == input;
      var holders := set x | x in members && m.conns[x].producing;
      && |holders| <= 1
      && (forall h :: h in holders ==> m.conns[h].terms.kind != ListenOnly)
      && (forall y :: y in members && m.conns[y].state.Established? ==>
            exists h :: h in holders && m.conns[y].terms.producedId == m.conns[h].terms.producedId)
  {
    RunKeeps(cfg, events);
    OneHolderOf(cfg, Run(cfg, Boot, events), input);
  }

  lemma OneHolderOf(cfg: Config, m: Model, input: nat)
    requires Inv(cfg, m) && cfg.LinkOf(input).Multicast?
    ensures var members := set x | x in m.conns && IsIo(m.conns[x]) && m.conns[x].terms.input == input;
      var holders := set x | x in members && m.conns[x].producing;
      && |holders| <= 1
      && (forall h :: h in holders ==> m.conns[h].terms.kind != ListenOnly)
      && (forall y :: y in members && m.conns[y].state.Established? ==>
            exists h :: h in holders && m.conns[y].terms.producedId == m.conns[h].terms.producedId)
  {
    var members := set x | x in m.conns && IsIo(m.conns[x]) && m.conns[x].terms.input == input;
    var holders := set x | x in members && m.conns[x].producing;
    assert forall x :: x in members ==> Fits(cfg, x, m.conns[x]);
    assert forall h :: h in holders ==> Holds(m, h, input);
    AtMostOne(holders);
    MembersServed(cfg, m, input, members, holders);
  }

  lemma MembersServed(cfg: Config, m: Model, input: nat, members: set<Slot>, holders: set<Slot>)
    requires Placed(cfg, m) && AllServed(m) && cfg.LinkOf(input).Multicast?
    requires members == set x | x in m.conns && IsIo(m.conns[x]) && m.conns[x].terms.input == input
    requires holders == set x | x in members && m.conns[x].producing
    ensures forall y :: y in members && m.conns[y].state.Established? ==>
      exists h :: h in holders && m.conns[y].terms.producedId == m.conns[h].terms.producedId
  {
    forall y | y in members && m.conns[y].state.Established?
      ensures exists h :: h in holders && m.conns[y].terms.producedId == m.conns[h].terms.producedId
    {
      assert Fits(cfg, y, m.conns[y]);
      var h := HolderOf(m, y);
      assert h in members && h in holders;
    }
  }

  lemma HolderOf(m: Model, y: Slot) returns (h: Slot)
    requires AllServed(m) && y in m.conns && IsMulticastIo(m.conns[y]) && m.conns[y].state.Established?
    ensures Holds(m, h, m.conns[y].terms.input) && m.conns[h].terms.producedId == m.conns[y].terms.producedId
  {
    assert Served(m, y);
    h :| Holds(m, h, m.conns[y].terms.input) && m.conns[h].terms.producedId == m.conns[y].terms.producedId;
  }

  lemma AtMostOne(s: set<Slot>)
    requires forall a, b :: a in s && b in s ==> a == b
    ensures |s| <= 1
  {
    if s != {} {
      var a :| a in s;
      assert s == {a};
    }
  }

  /** Two active multicast connections of one input assembly agree on what they share. */
  lemma MulticastParametersAgree(cfg: Config, events: seq<Event>, x: Slot, y: Slot)
    requires cfg.Valid() && EventsInScope(cfg, events)
    requires var m := Run(cfg, Boot, events);
      && x in m.conns && y in m.conns && IsMulticastIo(m.conns[x]) && IsMulticastIo(m.conns[y])
      && m.conns[x].terms.input == m.conns[y].terms.input
    ensures var (a, b) := (Run(cfg, Boot, events).conns[x].terms, Run(cfg, Boot, events).conns[y].terms);
      && a.tToOInterval == b.tToOInterval && a.tToOVariable == b.tToOVariable && a.tToOPriority == b.tToOPriority
      && a.transport == b.transport && a.trigger == b.trigger && a.inhibit == b.inhibit
  {
    RunKeeps(cfg, events);
  }

  /** Established connections have pairwise distinct triads, and a timed-out one with the triad of
      an Established one lies behind it. */
  lemma TriadsDistinctInFront(cfg: Config, events: seq<Event>, i: nat, j: nat)
    requires cfg.Valid() && EventsInScope(cfg, events)
    requires var m := Run(cfg, Boot, events);
      i < j < |m.active| && m.active[i] in m.conns && m.active[j] in m.conns
      && m.conns[m.active[i]].terms.triad == m.conns[m.active[j]].terms.triad
    ensures Run(cfg, Boot, events).conns[Run(cfg, Boot, events).active[j]].state == TimedOut
  {
    RunKeeps(cfg, events);
    var m := Run(cfg, Boot, events);
    OrderedAt(m.active, m.conns, i, j);
  }

  /** A Forward Close finds the Established connection with its triad: asked by the recorded
      originator it removes that connection, asked from another address it changes nothing. */
  lemma ForwardCloseHitsEstablished(cfg: Config, events: seq<Event>, x: Slot, address: bv32)
    requires cfg.Valid() && EventsInScope(cfg, events)
    requires var m := Run(cfg, Boot, events); x in m.conns && m.conns[x].state == Established
    ensures var m := Run(cfg, Boot, events);
      var (m1, status) := CloseByTriad(m, m.conns[x].terms.triad, address);
      if address == m.conns[x].terms.address
      then status == CLOSED && x !in m1.conns && x !in m1.active
      else status == WRONG_CLOSER && m1 == m
  {
    RunKeeps(cfg, events);
    var m := Run(cfg, Boot, events);
    EstablishedIsFirst(m.active, m.conns, x);
    CloseKeeps(cfg, m, x);
  }

  lemma {:induction false} EstablishedIsFirst(a: seq<Slot>, conns: map<Slot, Connection>, x: Slot)
    requires Ordered(a, conns) && x in a && x in conns && conns[x].state.Established?
    requires forall y :: y in a ==> y in conns && !conns[y].state.NonExistent?
    ensures First(a, conns, ListedTriad(conns[x].terms.triad)) == Some(x)
  {
    if a[0] != x {
      assert conns[a[0]].terms.triad != conns[x].terms.triad;
      EstablishedIsFirst(a[1..], conns, x);
    }
  }

  // ----- how far a close or a time-out reaches -----

  /** What a close removes: the connection itself and, if it held a group that no other master can
      take, the listen only connections on its input point. Nothing else goes. */
  lemma CloseReach(cfg: Config, m: Model, x: Slot, y: Slot)
    requires Inv(cfg, m) && x in m.conns && y in m.conns
    ensures y !in Close(m, x).conns <==>
      || y == x
      || (&& ControlsGroup(m.conns[x])
          && (forall z :: z in m.conns && z != x ==> !Hit(MasterFor(m.conns[x].terms.input), z, m.conns[z]))
          && m.conns[y].terms.kind == ListenOnly && m.conns[y].terms.input == m.conns[x].terms.input)
  {
    if ControlsGroup(m.conns[x]) {
      NoMasterBehind(m, x);
      CloseReachOfHolder(m, x, y);
    }
  }

  /** The holder of a group on its way out finds a master exactly if there is one in the table. */
  lemma NoMasterBehind(m: Model, x: Slot)
    requires Listed(m) && x in m.conns && ControlsGroup(m.conns[x])
    ensures var q := MasterFor(m.conns[x].terms.input);
      Search(Retire(m, x, NonExistent), q).None? <==> forall z :: z in m.conns && z != x ==> !Hit(q, z, m.conns[z])
  {
    var (m1, q) := (Retire(m, x, NonExistent), MasterFor(m.conns[x].terms.input));
    assert forall z :: z in m.conns && z != x ==> m1.conns[z] == m.conns[z] && z in m1.active;
    assert !Hit(q, x, m1.conns[x]);
  }

  lemma CloseReachOfHolder(m: Model, x: Slot, y: Slot)
    requires x in m.conns && y in m.conns && ControlsGroup(m.conns[x])
    ensures var input := m.conns[x].terms.input;
      y !in Close(m, x).conns <==>
        y == x || (Search(Retire(m, x, NonExistent), MasterFor(input)).None? && m.conns[y].terms.kind == ListenOnly &&
          m.conns[y].terms.input == input)
  {}

  /** The part of a time-out before the group is given up neither removes an I/O connection nor changes
      any but x. */
  lemma ExpiryAside(cfg: Config, m: Model, x: Slot, environment: Environment)
    requires Inv(cfg, m) && x in m.conns && IsIo(m.conns[x])
    ensures var m1 := EndOriginator(Retire(m, x, TimedOut), x, environment);
      && Inv(cfg, m1) && x in m1.conns && m1.conns[x] == m.conns[x].(state := TimedOut)
      && (forall y :: y in m1.conns && y != x ==> y in m.conns && m1.conns[y] == m.conns[y])
      && (forall y :: y in m.conns && IsIo(m.conns[y]) ==> y in m1.conns)
  {
    ExpireKeeps(cfg, m, x, environment);
    var m0 := Retire(m, x, TimedOut);
    UpdateKeepsInv(cfg, m, m0, x);
    CloseSessionsKeep(cfg, m0, SessionsOf(environment, x));
  }

  /** A producing connection that times out has a master behind it exactly if it had one before. */
  lemma MasterAside(cfg: Config, m: Model, x: Slot, environment: Environment)
    requires Inv(cfg, m) && x in m.conns && IsIo(m.conns[x]) && m.conns[x].producing
    ensures var m1 := EndOriginator(Retire(m, x, TimedOut), x, environment);
      Search(m1, MasterFor(m.conns[x].terms.input)).Some? <==> Search(m, MasterFor(m.conns[x].terms.input)).Some?
  {
    ExpiryAside(cfg, m, x, environment);
    SameMasterIn(m, EndOriginator(Retire(m, x, TimedOut), x, environment), x);
  }

  lemma SameMasterIn(m: Model, m1: Model, x: Slot)
    requires Listed(m) && Listed(m1) && x in m.conns && x in m1.conns && m.conns[x].producing && m1.conns[x].producing
    requires forall y :: y in m1.conns && y != x ==> y in m.conns && m1.conns[y] == m.conns[y]
    requires forall y :: y in m.conns && IsIo(m.conns[y]) ==> y in m1.conns
    ensures Search(m1, MasterFor(m.conns[x].terms.input)).Some? <==> Search(m, MasterFor(m.conns[x].terms.input)).Some?
  {
    var q := MasterFor(m.conns[x].terms.input);
    match Search(m, q)
    case Some(y) => assert y in m1.active && m1.conns[y] == m.conns[y];
    case None =>
      forall y | y in m1.active ensures !Hit(q, y, m1.conns[y]) {
        if y != x {
          assert y in m.active;
        }
      }
  }

  /** No input-only and no listen-only connection is on the input point. */
  ghost predicate Cleared(m: Model, input: nat) {
    forall y :: y in m.conns && m.conns[y].terms.input == input ==> m.conns[y].terms.kind !in {InputOnly, ListenOnly}
  }

  lemma DependentsCleared(m: Model, input: nat)
    ensures Cleared(CloseDependents(m, input), input)
  {}

  lemma MasterIsInputOnly(cfg: Config, m: Model, x: Slot, y: Slot)
    requires Inv(cfg, m) && cfg.Valid() && x in m.conns && m.conns[x].terms.kind.ExclusiveOwner? && m.conns[x].producing
    requires y in m.conns && Hit(MasterFor(m.conns[x].terms.input), y, m.conns[y])
    ensures m.conns[y].terms.kind.InputOnly?
  {
    assert Fits(cfg, x, m.conns[x]) && Fits(cfg, y, m.conns[y]);
  }

  lemma SuccessorStays(m: Model, x: Slot, y: Slot)
    requires x in m.conns && y in m.conns
    ensures y in HandOver(m, x, y).conns && HandOver(m, x, y).conns[y].terms == m.conns[y].terms
  {}

  /** An exclusive owner that times out clears its input point of input-only and listen-only connections
      exactly if there is no multicast group on it that another master can take. */
  lemma ExpiredOwnerClearsPoint(cfg: Config, m: Model, x: Slot, environment: Environment)
    requires Inv(cfg, m) && cfg.Valid() && x in m.conns && m.conns[x].terms.kind == ExclusiveOwner &&
      m.conns[x].state == Established
    ensures var t := m.conns[x].terms;
      Cleared(TimeOut(m, x, environment), t.input)
      <==> !(t.tToO.Multicast? && Search(m, MasterFor(t.input)).Some?)
  {
    var (c, input) := (m.conns[x], m.conns[x].terms.input);
    var m1 := EndOriginator(Retire(m, x, TimedOut), x, environment);
    ExpiryAside(cfg, m, x, environment);
    if c.terms.tToO.Multicast? {
      assert ControlsGroup(c);
      MasterAside(cfg, m, x, environment);
      if Search(m1, MasterFor(input)).Some? {
        var y := Search(m1, MasterFor(input)).value;
        MasterIsInputOnly(cfg, m1, x, y);
        SuccessorStays(m1, x, y);
        assert TimeOut(m, x, environment) == HandOver(m1, x, y);
      } else {
        DependentsCleared(Relinquish(m1, x), input);
      }
    } else {
      DependentsCleared(m1, input);
    }
  }

  // ----- the end of a session -----

  ghost predicate AtMostOneHit(m: Model, q: Query) {
    forall x, y :: x in m.conns && y in m.conns && Hit(q, x, m.conns[x]) && Hit(q, y, m.conns[y]) ==> x == y
  }

  /** Without its first hit a query hits exactly if it hit another one. */
  lemma OneHitLess(m: Model, q: Query, z: Slot)
    requires Listed(m) && Search(m, q) == Some(z)
    ensures Search(Drop(m, {z}), q).None? <==> AtMostOneHit(m, q)
  {
    var m1 := Drop(m, {z});
    match Search(m1, q)
    case Some(y) => assert y in m.conns && y != z && Hit(q, y, m.conns[y]);
    case None =>
      forall x | x in m.conns && x != z ensures !Hit(q, x, m.conns[x]) {
        assert x in m1.active && m1.conns[x] == m.conns[x];
      }
  }

  /** Closing the class 3 connections of a session leaves none exactly if there was at most one: each
      call closes the first and then has lost its place in the list. */
  lemma SessionEmptied(cfg: Config, m: Model, session: nat)
    requires Inv(cfg, m)
    ensures Search(CloseSession(m, session), MessagingOf(session)).None? <==> AtMostOneHit(m, MessagingOf(session))
  {
    var (q, m1) := (MessagingOf(session), CloseSession(m, session));
    if Search(m, q).Some? {
      var z := Search(m, q).value;
      assert !IsIo(m.conns[z]);
      OneHitLess(m, q, z);
    } else {
      assert forall x :: x in m.conns ==> x in m.active;
    }
  }
}
