/** What holds in every reachable state of the connection life cycle. */
module ConnectionInvariants {
  import opened Connections
  import opened ConnectionModel

  // ----- the invariant -----

  /** The list and the table hold the same slots, each once. */
  ghost predicate Listed(m: Model) {
    && Distinct(m.active)
    && forall x :: x in m.conns <==> x in m.active
  }

  /** No NonExistent connection is listed. */
  ghost predicate Live(m: Model) {
    forall x :: x in m.conns ==> !m.conns[x].state.NonExistent?
  }

  predicate AtPoint(t: Terms, p: Point) {
    t.output == p.output && t.input == p.input && t.config == p.config
  }

  /** An I/O connection consumes, and produces the way its input assembly is produced. */
  predicate IoTerms(cfg: Config, t: Terms) {
    t.consuming && t.tToO == cfg.LinkOf(t.input) && !t.transport.Class3?
  }

  /** A connection sits in a slot of its own kind and connection point. */
  predicate Fits(cfg: Config, x: Slot, c: Connection) {
    match x
    case Owner(i) =>
      i < |cfg.owners| && c.terms.kind.ExclusiveOwner? && AtPoint(c.terms, cfg.owners[i]) && IoTerms(cfg, c.terms)
    case Input(i, j) =>
      i < |cfg.inputs| && j < cfg.inputsPerPoint && c.terms.kind.InputOnly? && AtPoint(c.terms, cfg.inputs[i]) &&
        IoTerms(cfg, c.terms)
    case Listen(i, j) =>
      i < |cfg.listens| && j < cfg.listensPerPoint && c.terms.kind.ListenOnly? && AtPoint(c.terms, cfg.listens[i]) &&
        IoTerms(cfg, c.terms)
    case Explicit(k) =>
      k < cfg.explicits && c.terms.kind.ExplicitMessaging? && !c.producing
  }

  ghost predicate Placed(cfg: Config, m: Model) {
    forall x :: x in m.conns ==> Fits(cfg, x, m.conns[x])
  }

  /** h holds the producing socket of the multicast group of an input assembly. */
  predicate Holds(m: Model, h: Slot, input: nat) {
    h in m.conns && IsMulticastIo(m.conns[h]) && m.conns[h].producing && m.conns[h].terms.input == input
  }

  /** The connection in y is served by a holder that has its produced connection id. */
  ghost predicate Served(m: Model, y: Slot)
    requires y in m.conns
  {
    exists h :: Holds(m, h, m.conns[y].terms.input) && m.conns[h].terms.producedId == m.conns[y].terms.producedId
  }

  ghost predicate OneHolder(m: Model) {
    forall h, k, input :: Holds(m, h, input) && Holds(m, k, input) ==> h == k
  }

  ghost predicate NoListenerHolds(m: Model) {
    forall h, input :: Holds(m, h, input) ==> !m.conns[h].terms.kind.ListenOnly?
  }

  ghost predicate AllServed(m: Model) {
    forall y {:trigger Served(m, y)} :: y in m.conns && IsMulticastIo(m.conns[y]) && m.conns[y].state.Established? ==>
      Served(m, y)
  }

  ghost predicate OwnersProduce(m: Model) {
    forall y :: y in m.conns && IsMulticastIo(m.conns[y]) && m.conns[y].state.Established? &&
      m.conns[y].terms.kind.ExclusiveOwner?
      ==> m.conns[y].producing
  }

  /** Multicast connections of one input assembly agree on their T->O parameters. */
  ghost predicate Agreeing(m: Model) {
    forall x, y ::
      x in m.conns && y in m.conns && IsMulticastIo(m.conns[x]) && IsMulticastIo(m.conns[y]) &&
        m.conns[x].terms.input == m.conns[y].terms.input
      ==> Mismatch(m.conns[x].terms, m.conns[y].terms) == 0
  }

  /** Behind a connection, its triad is carried by connections that are not Established. */
  ghost predicate Ordered(active: seq<Slot>, conns: map<Slot, Connection>) {
    active != [] ==>
      && Ordered(active[1..], conns)
      && (active[0] in conns ==>
            forall y :: y in active[1..] && y in conns && conns[y].terms.triad == conns[active[0]].terms.triad
              ==> !conns[y].state.Established?)
  }

  /** The invariant without `Live`, which a close suspends while it runs. */
  ghost predicate Core(cfg: Config, m: Model) {
    && Listed(m)
    && Placed(cfg, m)
    && Grouped(m)
    && Agreeing(m)
    && Ordered(m.active, m.conns)
  }

  ghost predicate Inv(cfg: Config, m: Model) {
    Core(cfg, m) && Live(m)
  }

  // ----- the list order -----

  /** Order looks only at triads and at who is Established. */
  lemma {:induction false} OrderedWeakens(a: seq<Slot>, before: map<Slot, Connection>, after: map<Slot, Connection>)
    requires Ordered(a, before)
    requires forall x :: x in a && x in after ==>
      x in before && after[x].terms.triad == before[x].terms.triad
      && (after[x].state.Established? ==> before[x].state.Established?)
    ensures Ordered(a, after)
  {
    if a != [] {
      assert forall x :: x in a[1..] ==> x in a;
      OrderedWeakens(a[1..], before, after);
    }
  }

  lemma {:induction false} OrderedWithout(a: seq<Slot>, conns: map<Slot, Connection>, gone: set<Slot>)
    requires Ordered(a, conns)
    ensures Ordered(Without(a, gone), conns)
  {
    if a != [] {
      OrderedWithout(a[1..], conns, gone);
      if a[0] !in gone {
        assert Without(a, gone)[1..] == Without(a[1..], gone);
      } else {
        assert Without(a, gone) == Without(a[1..], gone);
      }
    }
  }

  /** Of two listed connections with one triad, the rear one is not Established. */
  lemma {:induction false} OrderedAt(a: seq<Slot>, conns: map<Slot, Connection>, i: nat, j: nat)
    requires Ordered(a, conns) && i < j < |a|
    requires a[i] in conns && a[j] in conns && conns[a[i]].terms.triad == conns[a[j]].terms.triad
    ensures !conns[a[j]].state.Established?
  {
    if i == 0 {
      assert a[j] == a[1..][j - 1];
    } else {
      OrderedAt(a[1..], conns, i - 1, j - 1);
    }
  }

  // ----- primitive changes keep the core -----

  /** The group part of the invariant. */
  ghost predicate Grouped(m: Model) {
    OneHolder(m) && NoListenerHolds(m) && AllServed(m) && OwnersProduce(m)
  }

  /** No connection that stays among `stay` and is Established has its holder outside of it. */
  ghost predicate NoOrphan(m: Model, gone: set<Slot>) {
    forall h, y ::
      h in gone && y in m.conns && y !in gone && Holds(m, h, m.conns[y].terms.input) && IsMulticastIo(m.conns[y])
      ==> !m.conns[y].state.Established?
  }

  /** m1 is m with another record in x that has the same terms and socket and is Established only
      if the old one was. */
  ghost predicate Updated(m: Model, m1: Model, x: Slot) {
    && m1.active == m.active
    && x in m.conns && x in m1.conns && m1.conns == m.conns[x := m1.conns[x]]
    && m1.conns[x].terms == m.conns[x].terms && m1.conns[x].producing == m.conns[x].producing
    && (m1.conns[x].state.Established? ==> m.conns[x].state.Established?)
  }

  lemma UpdateKeepsGroups(m: Model, m1: Model, x: Slot)
    requires Grouped(m) && Updated(m, m1, x)
    ensures Grouped(m1)
    ensures forall h, input :: Holds(m1, h, input) <==> Holds(m, h, input)
  {
    assert forall h, input :: Holds(m1, h, input) ==> Holds(m, h, input);
    forall y | y in m1.conns && IsMulticastIo(m1.conns[y]) && m1.conns[y].state.Established?
      ensures Served(m1, y)
    {
      assert Served(m, y);
      var h :| Holds(m, h, m.conns[y].terms.input) && m.conns[h].terms.producedId == m.conns[y].terms.producedId;
      assert Holds(m1, h, m1.conns[y].terms.input);
    }
  }

  lemma DropKeepsGroups(m: Model, gone: set<Slot>)
    requires Grouped(m) && NoOrphan(m, gone)
    ensures Grouped(Drop(m, gone))
    ensures forall h, input :: Holds(Drop(m, gone), h, input) <==> Holds(m, h, input) && h !in gone
  {
    var m1 := Drop(m, gone);
    assert forall h, input :: Holds(m1, h, input) ==> Holds(m, h, input) && h !in gone;
    forall y | y in m1.conns && IsMulticastIo(m1.conns[y]) && m1.conns[y].state.Established?
      ensures Served(m1, y)
    {
      assert Served(m, y);
      var h :| Holds(m, h, m.conns[y].terms.input) && m.conns[h].terms.producedId == m.conns[y].terms.producedId;
      assert Holds(m1, h, m1.conns[y].terms.input);
    }
  }

  /** The part of the invariant that is not about groups rests on the terms alone. */
  lemma SameTermsKeep(cfg: Config, m: Model, m1: Model)
    requires Listed(m) && Placed(cfg, m) && Agreeing(m) && Ordered(m.active, m.conns)
    requires m1.active == m.active && m1.conns.Keys == m.conns.Keys
    requires forall x :: x in m1.conns ==>
      && m1.conns[x].terms == m.conns[x].terms
      && (m1.conns[x].state.Established? ==> m.conns[x].state.Established?)
      && (m1.conns[x].producing ==> m.conns[x].producing || IsIo(m.conns[x]))
    ensures Listed(m1) && Placed(cfg, m1) && Agreeing(m1) && Ordered(m1.active, m1.conns)
  {
    OrderedWeakens(m.active, m.conns, m1.conns);
    assert Listed(m1) by {
      forall x ensures x in m1.conns <==> x in m1.active {
        assert x in m1.conns <==> x in m1.conns.Keys;
      }
    }
  }

  lemma UpdateKeeps(cfg: Config, m: Model, m1: Model, x: Slot)
    requires Core(cfg, m) && Updated(m, m1, x)
    ensures Core(cfg, m1)
    ensures forall h, input :: Holds(m1, h, input) <==> Holds(m, h, input)
  {
    UpdateKeepsGroups(m, m1, x);
    SameTermsKeep(cfg, m, m1);
  }

  /** Connections may go as long as no Established one that stays loses its holder. */
  lemma DropKeeps(cfg: Config, m: Model, gone: set<Slot>)
    requires Core(cfg, m) && NoOrphan(m, gone)
    ensures Core(cfg, Drop(m, gone))
    ensures forall h, input :: Holds(Drop(m, gone), h, input) <==> Holds(m, h, input) && h !in gone
  {
    DropKeepsGroups(m, gone);
    WithoutDistinct(m.active, gone);
    OrderedWithout(m.active, m.conns, gone);
    OrderedWeakens(Drop(m, gone).active, m.conns, Drop(m, gone).conns);
  }

  /** The holder of a group, if not Established, hands over to a master. */
  lemma HandOverKeepsGroups(m: Model, x: Slot, y: Slot)
    requires Grouped(m) && x in m.conns && y in m.conns
    requires Holds(m, x, m.conns[x].terms.input) && !m.conns[x].state.Established?
    requires Hit(MasterFor(m.conns[x].terms.input), y, m.conns[y])
    ensures Grouped(HandOver(m, x, y))
    ensures Holds(HandOver(m, x, y), y, m.conns[x].terms.input)
    ensures m.conns[y].terms.producedId == m.conns[x].terms.producedId
  {
    var m1 := HandOver(m, x, y);
    assert Served(m, y);
    assert forall h, i :: Holds(m1, h, i) ==> (h == y && i == m.conns[x].terms.input) || (h != x && Holds(m, h, i));
    assert Holds(m1, y, m.conns[x].terms.input);
    forall z | z in m1.conns && IsMulticastIo(m1.conns[z]) && m1.conns[z].state.Established?
      ensures Served(m1, z)
    {
      assert Served(m, z);
      var h :| Holds(m, h, m.conns[z].terms.input) && m.conns[h].terms.producedId == m.conns[z].terms.producedId;
      assert Holds(m1, if h == x then y else h, m1.conns[z].terms.input);
    }
  }

  lemma HandOverTerms(m: Model, x: Slot, y: Slot)
    requires Listed(m) && x in m.conns && y in m.conns && IsIo(m.conns[y])
    ensures var m1 := HandOver(m, x, y);
      && m1.active == m.active && m1.conns.Keys == m.conns.Keys
      && forall z :: z in m1.conns ==>
           && m1.conns[z].terms == m.conns[z].terms && m1.conns[z].state == m.conns[z].state
           && (m1.conns[z].producing ==> m.conns[z].producing || IsIo(m.conns[z]))
  {}

  lemma HandOverKeeps(cfg: Config, m: Model, x: Slot, y: Slot)
    requires Core(cfg, m) && x in m.conns && y in m.conns
    requires Holds(m, x, m.conns[x].terms.input) && !m.conns[x].state.Established?
    requires Hit(MasterFor(m.conns[x].terms.input), y, m.conns[y])
    ensures Core(cfg, HandOver(m, x, y))
  {
    HandOverKeepsGroups(m, x, y);
    HandOverTerms(m, x, y);
    SameTermsKeep(cfg, m, HandOver(m, x, y));
  }

  lemma UpdateKeepsInv(cfg: Config, m: Model, m1: Model, x: Slot)
    requires Inv(cfg, m) && Updated(m, m1, x) && !m1.conns[x].state.NonExistent?
    ensures Inv(cfg, m1)
  {
    UpdateKeeps(cfg, m, m1, x);
  }

  // ----- closing -----

  /** What is left of one state in another: fewer connections, with the same terms and state. */
  ghost predicate Remains(m: Model, m1: Model) {
    forall y :: y in m1.conns ==>
      y in m.conns && m1.conns[y].terms == m.conns[y].terms && m1.conns[y].state == m.conns[y].state
  }

  /** No multicast connection on the input point is Established. */
  ghost predicate Quiet(m: Model, input: nat) {
    forall y :: y in m.conns && IsMulticastIo(m.conns[y]) && m.conns[y].terms.input == input ==>
      !m.conns[y].state.Established?
  }

  /** On a quiet input point any connection may go. */
  lemma DropQuiet(cfg: Config, m: Model, gone: set<Slot>, input: nat)
    requires Core(cfg, m) && Quiet(m, input)
    requires forall h :: h in gone && h in m.conns ==> m.conns[h].terms.input == input
    ensures Core(cfg, Drop(m, gone)) && Quiet(Drop(m, gone), input) && Remains(m, Drop(m, gone))
  {
    DropKeeps(cfg, m, gone);
  }

  /** A connection that holds no group may go. */
  lemma DropIdle(cfg: Config, m: Model, x: Slot)
    requires Core(cfg, m) && x in m.conns
    requires !(IsMulticastIo(m.conns[x]) && m.conns[x].producing)
    ensures Core(cfg, Drop(m, {x})) && Remains(m, Drop(m, {x}))
  {
    assert forall input :: !Holds(m, x, input);
    DropKeeps(cfg, m, {x});
  }

  /** With no master left, the input point falls quiet once its listeners are gone. */
  lemma DismissKeeps(cfg: Config, m: Model, x: Slot)
    requires Core(cfg, m) && x in m.conns && ControlsGroup(m.conns[x]) && !m.conns[x].state.Established?
    requires Search(m, MasterFor(m.conns[x].terms.input)).None?
    ensures var m1 := Drop(m, OfKind(m, m.conns[x].terms.input, ListenOnly));
      && Core(cfg, m1) && Quiet(m1, m.conns[x].terms.input) && Remains(m, m1)
      && x in m1.conns && m1.conns[x] == m.conns[x]
  {
    var input := m.conns[x].terms.input;
    var gone := OfKind(m, input, ListenOnly);
    assert Holds(m, x, input);
    DropKeeps(cfg, m, gone);
    var m1 := Drop(m, gone);
    forall y | y in m1.conns && IsMulticastIo(m1.conns[y]) && m1.conns[y].terms.input == input
      ensures !m1.conns[y].state.Established?
    {
      assert y in m.active && !Hit(MasterFor(input), y, m.conns[y]);
      if m.conns[y].producing {
        assert Holds(m, y, input);
      }
    }
  }

  /** With a master left, it takes over and the old holder is idle. */
  lemma SucceedKeeps(cfg: Config, m: Model, x: Slot, y: Slot)
    requires Core(cfg, m) && x in m.conns && ControlsGroup(m.conns[x]) && !m.conns[x].state.Established?
    requires Search(m, MasterFor(m.conns[x].terms.input)) == Some(y)
    ensures var m1 := HandOver(m, x, y);
      && Core(cfg, m1) && Remains(m, m1)
      && x in m1.conns && m1.conns[x] == m.conns[x].(producing := false)
  {
    HandOverKeeps(cfg, m, x, y);
    HandOverTerms(m, x, y);
    HandOverIdles(m, x, y);
  }

  lemma HandOverIdles(m: Model, x: Slot, y: Slot)
    requires x in m.conns && y in m.conns && x != y
    ensures HandOver(m, x, y).conns[x] == m.conns[x].(producing := false)
  {}

  lemma CloseControllerKeeps(cfg: Config, m: Model, x: Slot)
    requires Core(cfg, m) && x in m.conns && ControlsGroup(m.conns[x]) && !m.conns[x].state.Established?
    ensures var m2 := Drop(Relinquish(m, x), {x}); Core(cfg, m2) && Remains(m, m2)
  {
    match Search(m, MasterFor(m.conns[x].terms.input))
    case Some(y) =>
      SucceedKeeps(cfg, m, x, y);
      DropIdle(cfg, HandOver(m, x, y), x);
    case None =>
      DismissKeeps(cfg, m, x);
      DropQuiet(cfg, Drop(m, OfKind(m, m.conns[x].terms.input, ListenOnly)), {x}, m.conns[x].terms.input);
  }

  lemma CloseIoKeeps(cfg: Config, m: Model, x: Slot)
    requires Inv(cfg, m) && x in m.conns && IsIo(m.conns[x])
    ensures Inv(cfg, CloseIo(m, x)) && Remains(m, CloseIo(m, x)) && x !in CloseIo(m, x).conns
  {
    var m1 := Retire(m, x, NonExistent);
    UpdateKeeps(cfg, m, m1, x);
    if ControlsGroup(m1.conns[x]) {
      CloseControllerKeeps(cfg, m1, x);
    } else {
      assert !Holds(m1, x, m1.conns[x].terms.input);
      DropIdle(cfg, m1, x);
    }
  }

  lemma CloseKeeps(cfg: Config, m: Model, x: Slot)
    requires Inv(cfg, m) && x in m.conns
    ensures Inv(cfg, Close(m, x))
    ensures x !in Close(m, x).conns
    ensures Remains(m, Close(m, x))
  {
    if IsIo(m.conns[x]) {
      CloseIoKeeps(cfg, m, x);
    } else {
      DropKeeps(cfg, m, {x});
    }
  }

  /** Closing a listen only connection touches nobody else. */
  lemma CloseListener(cfg: Config, m: Model, x: Slot)
    requires Inv(cfg, m) && x in m.conns && m.conns[x].terms.kind.ListenOnly?
    ensures Close(m, x) == Drop(m, {x})
  {
    assert (m.conns[x := m.conns[x].(state := NonExistent)]) - {x} == m.conns - {x};
  }

  /** A session close removes at most a connection that is not I/O, and nothing else changes. */
  ghost predicate OnlyMessagingGone(m: Model, m1: Model) {
    && (forall y :: y in m1.conns ==> y in m.conns && m1.conns[y] == m.conns[y])
    && (forall y :: y in m.conns && IsIo(m.conns[y]) ==> y in m1.conns)
  }

  lemma CloseSessionKeeps(cfg: Config, m: Model, session: nat)
    requires Inv(cfg, m)
    ensures Inv(cfg, CloseSession(m, session))
    ensures OnlyMessagingGone(m, CloseSession(m, session))
  {
    match Search(m, MessagingOf(session))
    case Some(y) =>
      assert !IsIo(m.conns[y]);
      CloseKeeps(cfg, m, y);
    case None =>
  }

  lemma {:induction false} CloseSessionsKeep(cfg: Config, m: Model, sessions: seq<nat>)
    requires Inv(cfg, m)
    ensures Inv(cfg, CloseSessions(m, sessions))
    ensures OnlyMessagingGone(m, CloseSessions(m, sessions))
    decreases |sessions|
  {
    if sessions != [] {
      CloseSessionKeeps(cfg, m, sessions[0]);
      CloseSessionsKeep(cfg, CloseSession(m, sessions[0]), sessions[1..]);
    }
  }

  // ----- timing out -----

  /** The first half of a time-out: the state changes and sessions may close. */
  lemma ExpireKeeps(cfg: Config, m: Model, x: Slot, environment: Environment)
    requires Inv(cfg, m) && x in m.conns && IsIo(m.conns[x])
    ensures var m1 := EndOriginator(Retire(m, x, TimedOut), x, environment);
      Inv(cfg, m1) && x in m1.conns && m1.conns[x] == m.conns[x].(state := TimedOut)
  {
    var m0 := Retire(m, x, TimedOut);
    UpdateKeepsInv(cfg, m, m0, x);
    CloseSessionsKeep(cfg, m0, SessionsOf(environment, x));
  }

  lemma CloseDependentsKeeps(cfg: Config, m: Model, input: nat)
    requires Inv(cfg, m) && Quiet(m, input)
    ensures Inv(cfg, CloseDependents(m, input)) && Remains(m, CloseDependents(m, input))
  {
    var m1 := Drop(m, OfKind(m, input, InputOnly));
    DropQuiet(cfg, m, OfKind(m, input, InputOnly), input);
    DropQuiet(cfg, m1, OfKind(m1, input, ListenOnly), input);
  }

  /** The second half, for a connection that controls a group. */
  lemma ExpiredControllerKeeps(cfg: Config, m: Model, x: Slot)
    requires Inv(cfg, m) && x in m.conns && ControlsGroup(m.conns[x]) && m.conns[x].state.TimedOut?
    ensures Inv(cfg, Relinquish(m, x)) && Remains(m, Relinquish(m, x)) && x in Relinquish(m, x).conns
    ensures Search(m, MasterFor(m.conns[x].terms.input)).None? ==> Quiet(Relinquish(m, x), m.conns[x].terms.input)
  {
    match Search(m, MasterFor(m.conns[x].terms.input))
    case Some(y) =>
      SucceedKeeps(cfg, m, x, y);
    case None =>
      DismissKeeps(cfg, m, x);
  }

  /** An exclusive owner that does not control a group is on a quiet input point. */
  lemma UngroupedOwner(cfg: Config, m: Model, x: Slot)
    requires Inv(cfg, m) && x in m.conns && m.conns[x].terms.kind.ExclusiveOwner? && !m.conns[x].terms.tToO.Multicast?
    ensures Quiet(m, m.conns[x].terms.input)
  {
    assert Fits(cfg, x, m.conns[x]);
    assert forall y :: y in m.conns && IsIo(m.conns[y]) ==> m.conns[y].terms.tToO == cfg.LinkOf(m.conns[y].terms.input);
  }

  lemma TimeOutIoKeeps(cfg: Config, m: Model, x: Slot, environment: Environment)
    requires Inv(cfg, m) && x in m.conns && IsIo(m.conns[x]) && m.conns[x].state.Established?
    ensures Inv(cfg, TimeOutIo(m, x, environment))
  {
    var c := m.conns[x];
    ExpireKeeps(cfg, m, x, environment);
    var m1 := EndOriginator(Retire(m, x, TimedOut), x, environment);
    if ControlsGroup(c) {
      ExpiredControllerKeeps(cfg, m1, x);
      if c.terms.kind.ExclusiveOwner? && Search(m1, MasterFor(c.terms.input)).None? {
        CloseDependentsKeeps(cfg, Relinquish(m1, x), c.terms.input);
      }
    } else if c.terms.kind.ExclusiveOwner? {
      UngroupedOwner(cfg, m1, x);
      CloseDependentsKeeps(cfg, m1, c.terms.input);
    }
  }

  lemma TimeOutKeeps(cfg: Config, m: Model, x: Slot, environment: Environment)
    requires Inv(cfg, m) && x in m.conns && m.conns[x].state.Established?
    ensures Inv(cfg, TimeOut(m, x, environment))
  {
    if IsIo(m.conns[x]) {
      TimeOutIoKeeps(cfg, m, x, environment);
    } else {
      DropKeeps(cfg, m, {x});
    }
  }

  // ----- one tick -----

  lemma ProduceUpdates(cfg: Config, m: Model, x: Slot, elapsed: nat)
    requires cfg.tick > 0 && x in m.conns
    ensures Updated(m, Produce(cfg, m, x, elapsed), x)
    ensures Produce(cfg, m, x, elapsed).conns[x].state == m.conns[x].state
  {}

  lemma WatchKeeps(cfg: Config, m: Model, x: Slot, elapsed: nat, environment: Environment)
    requires Inv(cfg, m) && x in m.conns && m.conns[x].state.Established?
    ensures Inv(cfg, Watch(m, x, elapsed, environment))
  {
    var c := m.conns[x];
    if Watched(c) {
      if elapsed >= c.watchdog {
        TimeOutKeeps(cfg, m, x, environment);
      } else {
        UpdateKeepsInv(cfg, m, Watch(m, x, elapsed, environment), x);
      }
    }
  }

  lemma ProcessKeeps(cfg: Config, m: Model, x: Slot, elapsed: nat, environment: Environment)
    requires Inv(cfg, m) && cfg.tick > 0 && x in m.conns
    ensures Inv(cfg, Process(cfg, m, x, elapsed, environment))
  {
    if m.conns[x].state.Established? {
      WatchKeeps(cfg, m, x, elapsed, environment);
      var m1 := Watch(m, x, elapsed, environment);
      if x in m1.conns && m1.conns[x].state.Established? {
        ProduceUpdates(cfg, m1, x, elapsed);
        UpdateKeepsInv(cfg, m1, Produce(cfg, m1, x, elapsed), x);
      }
    }
  }

  lemma {:induction false} TickKeeps(cfg: Config, m: Model, rest: seq<Slot>, elapsed: nat, environment: Environment)
    requires Inv(cfg, m) && cfg.tick > 0
    ensures Inv(cfg, TickOver(cfg, m, rest, elapsed, environment))
    decreases |rest|
  {
    if rest != [] {
      if rest[0] in m.conns {
        ProcessKeeps(cfg, m, rest[0], elapsed, environment);
        var m1 := Process(cfg, m, rest[0], elapsed, environment);
        if rest[0] in m1.conns {
          TickKeeps(cfg, m1, rest[1..], elapsed, environment);
        }
      } else {
        TickKeeps(cfg, m, rest[1..], elapsed, environment);
      }
    }
  }
}
