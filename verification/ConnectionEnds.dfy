/** What the end of one connection takes with it, and what the requests and failures that end
    connections do. */
module ConnectionEnds {
  import opened Connections
  import opened ConnectionModel
  import opened ConnectionInvariants
  import opened ConnectionReplies
  import opened ConnectionRuns

  // ----- who takes a group over -----

  /** A connection that can take over the group of an input assembly. */
  predicate CanTake(c: Connection, input: nat) {
    && c.terms.kind in {ExclusiveOwner, InputOnly} && c.state == Established
    && c.terms.input == input && c.terms.tToO == Multicast && !c.producing
  }

  /** The connection sends for a group of which it is not a mere listener. */
  predicate SendsForGroup(c: Connection) {
    c.terms.kind in {ExclusiveOwner, InputOnly} && c.terms.tToO == Multicast && c.producing
  }

  /** There is another connection that can take over the group for which x sends. */
  ghost predicate PassesOn(m: Model, x: Slot)
    requires x in m.conns
  {
    SendsForGroup(m.conns[x]) && exists z :: z in m.conns && z != x && CanTake(m.conns[z], m.conns[x].terms.input)
  }

  lemma MasterFound(m: Model, x: Slot)
    requires Listed(m) && x in m.conns && SendsForGroup(m.conns[x])
    ensures Search(m, MasterFor(m.conns[x].terms.input)).Some? <==> PassesOn(m, x)
  {
    var q := MasterFor(m.conns[x].terms.input);
    forall z | z in m.conns ensures Hit(q, z, m.conns[z]) <==> CanTake(m.conns[z], m.conns[x].terms.input) {}
    match Search(m, q)
    case Some(z) => assert CanTake(m.conns[z], m.conns[x].terms.input);
    case None =>
      forall z | z in m.conns ensures !CanTake(m.conns[z], m.conns[x].terms.input) {
        assert z in m.active;
      }
  }

  // ----- closing -----

  /** What a close takes along besides x. */
  ghost predicate ClosedAlong(m: Model, x: Slot, y: Slot)
    requires x in m.conns && y in m.conns
  {
    && y != x && SendsForGroup(m.conns[x]) && !PassesOn(m, x)
    && m.conns[y].terms.kind == ListenOnly && m.conns[y].terms.input == m.conns[x].terms.input
  }

  /** The state after x is closed, by anybody: x is gone with what goes along, and the others have the
      terms and the state they had. */
  ghost predicate ClosedIn(m: Model, x: Slot, m1: Model)
    requires x in m.conns
  {
    && (forall y :: y in m.conns ==> (y !in m1.conns <==> y == x || ClosedAlong(m, x, y)))
    && Remains(m, m1)
  }

  lemma NobodyTakes(m: Model, x: Slot, input: nat)
    requires x in m.conns && input == m.conns[x].terms.input
    ensures (forall z :: z in m.conns && z != x ==> !Hit(MasterFor(input), z, m.conns[z]))
       <==> !exists z :: z in m.conns && z != x && CanTake(m.conns[z], input)
  {
    forall z | z in m.conns ensures Hit(MasterFor(input), z, m.conns[z]) <==> CanTake(m.conns[z], input) {}
  }

  lemma CloseTakes(cfg: Config, m: Model, x: Slot, y: Slot)
    requires Inv(cfg, m) && x in m.conns && y in m.conns
    ensures y !in Close(m, x).conns <==> y == x || ClosedAlong(m, x, y)
  {
    NobodyTakes(m, x, m.conns[x].terms.input);
    CloseReach(cfg, m, x, y);
  }

  lemma CloseIs(cfg: Config, m: Model, x: Slot)
    requires Inv(cfg, m) && x in m.conns
    ensures ClosedIn(m, x, Close(m, x))
  {
    CloseKeeps(cfg, m, x);
    forall y | y in m.conns ensures y !in Close(m, x).conns <==> y == x || ClosedAlong(m, x, y) {
      CloseTakes(cfg, m, x, y);
    }
  }

  /** The first listed connection with a triad, in whatever state. */
  ghost predicate FirstWithTriad(m: Model, triad: Triad, x: Slot) {
    exists i :: 0 <= i < |m.active| && m.active[i] == x && FirstTriadAt(m, triad, i)
  }

  ghost predicate FirstTriadAt(m: Model, triad: Triad, i: nat)
    requires i < |m.active|
  {
    && HasTriad(m, triad, m.active[i])
    && forall j :: 0 <= j < i ==> !HasTriad(m, triad, m.active[j])
  }

  predicate HasTriad(m: Model, triad: Triad, x: Slot) {
    x in m.conns && m.conns[x].terms.triad == triad
  }

  /** A Forward Close is answered with 0x0107 if no listed connection has its triad. Else the first
      that has it decides: from another address the request is answered with 0xFFFF and changes nothing,
      from its own address the connection is closed. */
  lemma ForwardCloseAnswers(cfg: Config, m: Model, triad: Triad, address: bv32)
    requires Inv(cfg, m)
    ensures var (m1, status) := CloseByTriad(m, triad, address);
      && ((forall x :: x in m.conns ==> !HasTriad(m, triad, x)) ==> status == 0x0107 && m1 == m)
      && (forall x :: x in m.conns && FirstWithTriad(m, triad, x) ==>
           if m.conns[x].terms.address == address then status == 0 && ClosedIn(m, x, m1)
           else status == 0xFFFF && m1 == m)
  {
    var q := ListedTriad(triad);
    forall x | x in m.conns ensures Hit(q, x, m.conns[x]) <==> HasTriad(m, triad, x) {}
    match Search(m, q)
    case Some(x) =>
      var i := FirstAtPosition(m.active, m.conns, q);
      assert HasTriad(m, triad, x);
      CloseIs(cfg, m, x);
      forall y | y in m.conns && FirstWithTriad(m, triad, y) ensures y == x {
        var j :| 0 <= j < |m.active| && m.active[j] == y && FirstTriadAt(m, triad, j);
        assert i == j;
      }
    case None =>
      forall x | x in m.conns ensures !HasTriad(m, triad, x) {
        assert x in m.active;
      }
  }

  /** A failure to receive closes an I/O connection; of any other slot it changes nothing. */
  lemma ReceiveFailureCloses(cfg: Config, m: Model, x: Slot)
    requires Inv(cfg, m) && cfg.tick > 0
    ensures var m1 := Step(cfg, m, ReceiveFailure(x));
      if x in m.conns && m.conns[x].terms.kind != ExplicitMessaging then ClosedIn(m, x, m1) else m1 == m
  {
    FailureStep(cfg, m, x);
    if x in m.conns {
      CloseIs(cfg, m, x);
    }
  }

  lemma FailureStep(cfg: Config, m: Model, x: Slot)
    requires cfg.tick > 0
    ensures Step(cfg, m, ReceiveFailure(x)) ==
      if x in m.conns && m.conns[x].terms.kind != ExplicitMessaging then Close(m, x) else m
  {}

  /** Closing all connections leaves none; the counter goes on. */
  lemma CloseAllClears(cfg: Config, m: Model)
    requires cfg.tick > 0
    ensures var m1 := Step(cfg, m, CloseAll); m1.active == [] && m1.conns == map[] && m1.lastId == m.lastId
  {}

  // ----- timing out -----

  /** The I/O connections that the time-out of x takes along: with an owner whose group nobody takes over
      all input only and listen only connections of its input assembly, with another connection that
      sends for a group that nobody takes over the listen only ones. */
  ghost predicate TimedOutAlong(m: Model, x: Slot, y: Slot)
    requires x in m.conns && y in m.conns
  {
    && m.conns[y].terms.input == m.conns[x].terms.input && !PassesOn(m, x)
    && match m.conns[y].terms.kind
       case InputOnly => m.conns[x].terms.kind == ExclusiveOwner
       case ListenOnly => m.conns[x].terms.kind == ExclusiveOwner || SendsForGroup(m.conns[x])
       case _ => false
  }

  /** The connections of m1 are those of m without the ones of these kinds on an input point. */
  ghost predicate WithoutKinds(m: Model, m1: Model, input: nat, kinds: set<Kind>) {
    && Remains(m, m1)
    && forall y :: y in m.conns ==>
         (y !in m1.conns <==> m.conns[y].terms.input == input && m.conns[y].terms.kind in kinds)
  }

  lemma RelinquishedTo(m: Model, x: Slot)
    requires x in m.conns
    ensures WithoutKinds(m, Relinquish(m, x), m.conns[x].terms.input,
                         if Search(m, MasterFor(m.conns[x].terms.input)).Some? then {} else {ListenOnly})
  {}

  lemma DependentsGone(m: Model, input: nat)
    ensures WithoutKinds(m, CloseDependents(m, input), input, {InputOnly, ListenOnly})
  {}

  lemma WithoutMoreKinds(m: Model, m1: Model, m2: Model, input: nat, a: set<Kind>, b: set<Kind>)
    requires WithoutKinds(m, m1, input, a) && WithoutKinds(m1, m2, input, b)
    ensures WithoutKinds(m, m2, input, a + b)
  {}

  /** The kinds that go with x. */
  function KindsAlong(kind: Kind, sends: bool, passes: bool): set<Kind> {
    if passes then {}
    else if kind == ExclusiveOwner then {InputOnly, ListenOnly}
    else if sends then {ListenOnly}
    else {}
  }

  /** The second half of a time-out, after the sessions have ended in m1. */
  lemma SecondHalf(m: Model, m1: Model, x: Slot, environment: Environment)
    requires x in m.conns && m1 == EndOriginator(Retire(m, x, TimedOut), x, environment)
    requires x in m1.conns && m1.conns[x].terms == m.conns[x].terms
    ensures var c := m.conns[x];
      WithoutKinds(m1, TimeOutIo(m, x, environment), c.terms.input, KindsAlong(
        c.terms.kind, ControlsGroup(c), ControlsGroup(c) && Search(m1, MasterFor(c.terms.input)).Some?))
  {
    var (c, input) := (m.conns[x], m.conns[x].terms.input);
    if ControlsGroup(c) {
      RelinquishedTo(m1, x);
      if c.terms.kind.ExclusiveOwner? && Search(m1, MasterFor(input)).None? {
        var m2 := Relinquish(m1, x);
        DependentsGone(m2, input);
        WithoutMoreKinds(m1, m2, CloseDependents(m2, input), input, {ListenOnly}, {InputOnly, ListenOnly});
        assert {ListenOnly} + {InputOnly, ListenOnly} == {InputOnly, ListenOnly};
      }
    } else if c.terms.kind.ExclusiveOwner? {
      DependentsGone(m1, input);
    }
  }

  /** The time-out of an I/O connection leaves it TimedOut, takes these along, and leaves the terms and
      the state of all other connections that stay. */
  lemma TimeOutTakesAlong(cfg: Config, m: Model, x: Slot, environment: Environment)
    requires Inv(cfg, m) && x in m.conns && IsIo(m.conns[x])
    ensures var m1 := TimeOut(m, x, environment);
      && x in m1.conns && m1.conns[x].state == TimedOut && m1.conns[x].terms == m.conns[x].terms
      && (forall y :: y in m.conns && IsIo(m.conns[y]) ==> (y !in m1.conns <==> y != x && TimedOutAlong(m, x, y)))
      && (forall y :: y in m1.conns && y != x ==>
           y in m.conns && m1.conns[y].terms == m.conns[y].terms && m1.conns[y].state == m.conns[y].state)
  {
    var (c, m0) := (m.conns[x], EndOriginator(Retire(m, x, TimedOut), x, environment));
    ExpiryAside(cfg, m, x, environment);
    SecondHalf(m, m0, x, environment);
    if SendsForGroup(c) {
      MasterAside(cfg, m, x, environment);
      MasterFound(m, x);
    }
    AlongByKind(m, x, SendsForGroup(c));
  }

  lemma AlongByKind(m: Model, x: Slot, sends: bool)
    requires x in m.conns && sends == SendsForGroup(m.conns[x])
    ensures forall y :: y in m.conns && y != x ==>
      (TimedOutAlong(m, x, y) <==>
        && m.conns[y].terms.input == m.conns[x].terms.input
        && m.conns[y].terms.kind in KindsAlong(m.conns[x].terms.kind, sends, sends && PassesOn(m, x)))
    ensures m.conns[x].terms.kind !in KindsAlong(m.conns[x].terms.kind, sends, sends && PassesOn(m, x))
  {}
}
