/** Forward Open keeps the invariant: the slot it picks is free, and the connection it admits
    starts, joins or takes over the group of its input assembly. */
module ConnectionOpening {
  import opened Connections
  import opened ConnectionModel
  import opened ConnectionInvariants

  /** The requests the life cycle is stated for: an I/O request consumes point-to-point, produces
      the way its input assembly is produced, and is not of transport class 3, which the parser of
      the connection path ties to the message router. Requests with an invalid or a null link pair
      are refused before any of this is looked at. */
  predicate InScope(cfg: Config, r: Request) {
    r.target.Assembly? ==>
      || r.terms.oToT.InvalidLink? || r.terms.tToO.InvalidLink?
      || (r.terms.oToT.NullLink? && r.terms.tToO.NullLink?)
      || (r.terms.oToT.PointToPoint? && r.terms.tToO == cfg.LinkOf(r.terms.input) && !r.terms.transport.Class3?)
  }

  // ----- choosing a slot -----

  /** The slot is one of a connection point that has all three assemblies of the request. */
  predicate Suited(x: Slot, kind: Kind, points: seq<Point>, count: nat, t: Terms) {
    match x
    case Input(i, j) => kind.InputOnly? && i < |points| && j < count && AtPoint(t, points[i])
    case Listen(i, j) => kind.ListenOnly? && i < |points| && j < count && AtPoint(t, points[i])
    case _ => false
  }

  lemma {:induction false} SelectPointSound(m: Model, t: Terms, kind: Kind, points: seq<Point>, count: nat, i: nat,
                                            error: nat)
    requires i <= |points| && (kind.InputOnly? || kind.ListenOnly?)
    requires SelectPoint(m, t, kind, points, count, i, error).Chosen?
    ensures var Chosen(x, evict) := SelectPoint(m, t, kind, points, count, i, error);
      && Suited(x, kind, points, count, t)
      && (if evict then Recyclable(m, x, t.triad.originator) else Free(m, x))
      && (kind.ListenOnly? ==> Search(m, ProducerOf(t.input, false)).Some?)
    decreases |points| - i
  {
    if i < |points| {
      var p := points[i];
      if p.output != t.output {
        SelectPointSound(m, t, kind, points, count, i + 1, error);
      } else if p.input != t.input {
        SelectPointSound(m, t, kind, points, count, i + 1, 0x012B);
      } else if p.config != t.config {
        SelectPointSound(m, t, kind, points, count, i + 1, 0x012F);
      }
    }
  }

  lemma {:induction false} FindPointSound(points: seq<Point>, t: Terms, i: nat)
    requires i <= |points|
    ensures FindPoint(points, t, i).Some? ==>
      FindPoint(points, t, i).value < |points| && AtPoint(t, points[FindPoint(points, t, i).value])
    decreases |points| - i
  {
    if i < |points| {
      FindPointSound(points, t, i + 1);
    }
  }

  /** No exclusive owner is on the input point. */
  ghost predicate Ownerless(m: Model, input: nat) {
    forall y :: y in m.conns && m.conns[y].terms.kind.ExclusiveOwner? ==> m.conns[y].terms.input != input
  }

  /** What a choice promises about the state in which the slot is filled. */
  ghost predicate Ready(m: Model, x: Slot, kind: Kind, t: Terms) {
    && x !in m.conns
    && (kind.ExclusiveOwner? ==> Ownerless(m, t.input))
    && (kind.ListenOnly? ==> Search(m, ProducerOf(t.input, false)).Some?)
  }

  predicate SlotFor(cfg: Config, x: Slot, kind: Kind, t: Terms) {
    match x
    case Owner(i) => kind.ExclusiveOwner? && i < |cfg.owners| && AtPoint(t, cfg.owners[i])
    case Input(_, _) => Suited(x, kind, cfg.inputs, cfg.inputsPerPoint, t)
    case Listen(_, _) => Suited(x, kind, cfg.listens, cfg.listensPerPoint, t)
    case Explicit(_) => false
  }

  lemma OwnerReady(cfg: Config, m: Model, t: Terms)
    requires Inv(cfg, m) && cfg.Valid() && SelectOwner(cfg, m, t).Chosen?
    ensures var Chosen(x, evict) := SelectOwner(cfg, m, t);
      && SlotFor(cfg, x, ExclusiveOwner, t)
      && evict == (x in m.conns)
      && Ready(if evict then Close(m, x) else m, x, ExclusiveOwner, t)
  {
    FindPointSound(cfg.owners, t, 0);
    var Chosen(x, evict) := SelectOwner(cfg, m, t);
    assert forall y :: y in m.conns && m.conns[y].terms.kind.ExclusiveOwner? && m.conns[y].terms.input == t.input ==>
      Fits(cfg, y, m.conns[y]) && y == x;
    if evict {
      CloseKeeps(cfg, m, x);
    } else {
      assert Search(m, OwnerOf(t.input)).None?;
      assert forall y :: y in m.conns ==> y in m.active && !Hit(OwnerOf(t.input), y, m.conns[y]);
      assert x in m.conns ==> Fits(cfg, x, m.conns[x]);
    }
  }

  lemma InputReady(cfg: Config, m: Model, t: Terms)
    requires Inv(cfg, m) && SelectPoint(m, t, InputOnly, cfg.inputs, cfg.inputsPerPoint, 0, 0).Chosen?
    ensures var Chosen(x, evict) := SelectPoint(m, t, InputOnly, cfg.inputs, cfg.inputsPerPoint, 0, 0);
      && SlotFor(cfg, x, InputOnly, t)
      && evict == (x in m.conns)
      && Ready(if evict then Close(m, x) else m, x, InputOnly, t)
  {
    SelectPointSound(m, t, InputOnly, cfg.inputs, cfg.inputsPerPoint, 0, 0);
    var Chosen(x, evict) := SelectPoint(m, t, InputOnly, cfg.inputs, cfg.inputsPerPoint, 0, 0);
    if evict {
      CloseKeeps(cfg, m, x);
    }
  }

  /** A producer survives the removal of another connection. */
  lemma ProducerSurvives(m: Model, x: Slot, input: nat)
    requires Listed(m) && Search(m, ProducerOf(input, false)).Some?
    requires x in m.conns && (Hit(ProducerOf(input, false), x, m.conns[x]) ==> m.conns[x].terms.tToO.PointToPoint?)
    ensures !Hit(ProducerOf(input, false), x, m.conns[x]) ==> Search(Drop(m, {x}), ProducerOf(input, false)).Some?
  {
    var p := Search(m, ProducerOf(input, false)).value;
    if p != x {
      assert p in Drop(m, {x}).active;
    }
  }

  lemma ListenReady(cfg: Config, m: Model, t: Terms)
    requires Inv(cfg, m) && SelectPoint(m, t, ListenOnly, cfg.listens, cfg.listensPerPoint, 0, 0).Chosen?
    ensures var Chosen(x, evict) := SelectPoint(m, t, ListenOnly, cfg.listens, cfg.listensPerPoint, 0, 0);
      && SlotFor(cfg, x, ListenOnly, t)
      && evict == (x in m.conns)
      && x !in (if evict then Close(m, x) else m).conns
      && (cfg.LinkOf(t.input).Multicast? ==> Ready(if evict then Close(m, x) else m, x, ListenOnly, t))
  {
    SelectPointSound(m, t, ListenOnly, cfg.listens, cfg.listensPerPoint, 0, 0);
    var Chosen(x, evict) := SelectPoint(m, t, ListenOnly, cfg.listens, cfg.listensPerPoint, 0, 0);
    if evict {
      assert Fits(cfg, x, m.conns[x]);
      CloseListener(cfg, m, x);
      if cfg.LinkOf(t.input).Multicast? {
        assert !Holds(m, x, t.input);
        ProducerSurvives(m, x, t.input);
      }
    }
  }

  // ----- entering the list -----

  /** m1 is m with a newcomer at the head; nobody else changes terms or state or gains a socket. */
  ghost predicate Entered(m: Model, m1: Model, x: Slot) {
    && x !in m.conns && m1.active == [x] + m.active
    && x in m1.conns && (forall y :: y in m1.conns <==> y in m.conns || y == x)
    && forall y :: y in m.conns ==>
      && m1.conns[y].terms == m.conns[y].terms && m1.conns[y].state == m.conns[y].state
      && (m1.conns[y].producing ==> m.conns[y].producing)
  }

  lemma EnterKeepsOrder(m: Model, m1: Model, x: Slot)
    requires Listed(m) && Ordered(m.active, m.conns) && Entered(m, m1, x)
    requires Search(m, EstablishedTriad(m1.conns[x].terms.triad)).None?
    ensures Ordered(m1.active, m1.conns)
  {
    var triad := m1.conns[x].terms.triad;
    OrderedWeakens(m.active, m.conns, m1.conns);
    assert m1.active[1..] == m.active;
    forall y | y in m.active && m1.conns[y].terms.triad == triad
      ensures !m1.conns[y].state.Established?
    {
      assert !Hit(EstablishedTriad(triad), y, m.conns[y]);
    }
  }

  lemma EnterKeepsAgreement(m: Model, m1: Model, x: Slot)
    requires Listed(m) && Agreeing(m) && Entered(m, m1, x)
    requires IsMulticastIo(m1.conns[x]) ==> Search(m, DisagreesWith(m1.conns[x].terms)).None?
    ensures Agreeing(m1)
  {
    forall y, z | y in m1.conns && z in m1.conns && IsMulticastIo(m1.conns[y]) && IsMulticastIo(m1.conns[z]) &&
      m1.conns[y].terms.input == m1.conns[z].terms.input
      ensures Mismatch(m1.conns[y].terms, m1.conns[z].terms) == 0
    {
      if y != x && z != x {
        assert IsMulticastIo(m.conns[y]) && IsMulticastIo(m.conns[z]);
      } else if y != x || z != x {
        NewcomerAgrees(m, m1, x, if y != x then y else z);
      }
    }
  }

  lemma NewcomerAgrees(m: Model, m1: Model, x: Slot, y: Slot)
    requires Listed(m) && Entered(m, m1, x) && y in m.conns
    requires m1.conns[x].terms.tToO.Multicast? && Search(m, DisagreesWith(m1.conns[x].terms)).None?
    requires m.conns[y].terms.input == m1.conns[x].terms.input
    ensures Mismatch(m1.conns[x].terms, m1.conns[y].terms) == 0 == Mismatch(m1.conns[y].terms, m1.conns[x].terms)
  {
    assert y in m.active && !Hit(DisagreesWith(m1.conns[x].terms), y, m.conns[y]);
  }

  lemma EnterKeepsPlaces(cfg: Config, m: Model, m1: Model, x: Slot)
    requires Listed(m) && Placed(cfg, m) && Live(m) && Entered(m, m1, x)
    requires Fits(cfg, x, m1.conns[x]) && !m1.conns[x].state.NonExistent?
    ensures Listed(m1) && Placed(cfg, m1) && Live(m1)
  {}

  /** A newcomer that is not a multicast connection leaves the groups as they are. */
  lemma PushKeepsGroups(m: Model, m1: Model, x: Slot)
    requires Grouped(m) && x !in m.conns && x in m1.conns
    requires m1.conns == m.conns[x := m1.conns[x]] && !IsMulticastIo(m1.conns[x])
    ensures Grouped(m1)
  {
    assert forall h, input :: Holds(m1, h, input) ==> Holds(m, h, input);
    CarryServed(m, m1, x);
  }

  /** Whoever was served by a holder that stays is served. */
  lemma CarryServed(m: Model, m1: Model, x: Slot)
    requires AllServed(m) && x in m1.conns && m1.conns == m.conns[x := m1.conns[x]] && x !in m.conns
    ensures forall y {:trigger Served(m1, y)} ::
      y in m.conns && IsMulticastIo(m1.conns[y]) && m1.conns[y].state.Established? ==> Served(m1, y)
  {
    forall y {:trigger Served(m1, y)} | y in m.conns && IsMulticastIo(m1.conns[y]) && m1.conns[y].state.Established?
      ensures Served(m1, y)
    {
      assert Served(m, y);
      var h :| Holds(m, h, m.conns[y].terms.input) && m.conns[h].terms.producedId == m.conns[y].terms.producedId;
      assert Holds(m1, h, m1.conns[y].terms.input);
    }
  }

  /** The first multicast connection of an input assembly becomes the holder of its group. */
  lemma StartKeepsGroups(m: Model, m1: Model, x: Slot)
    requires Grouped(m) && Listed(m) && x !in m.conns && x in m1.conns && m1.conns == m.conns[x := m1.conns[x]]
    requires IsMulticastIo(m1.conns[x]) && m1.conns[x].producing && !m1.conns[x].terms.kind.ListenOnly?
    requires Search(m, ProducerOf(m1.conns[x].terms.input, true)).None?
    ensures Grouped(m1)
  {
    var input := m1.conns[x].terms.input;
    assert forall h :: h in m.conns ==> h in m.active && !Hit(ProducerOf(input, true), h, m.conns[h]);
    assert forall h :: !Holds(m, h, input);
    assert forall h, i :: Holds(m1, h, i) ==> Holds(m, h, i) || (h == x && i == input);
    CarryServed(m, m1, x);
    assert Holds(m1, x, input);
    assert Served(m1, x);
  }

  /** A later one joins under the holder's produced connection id. */
  lemma JoinKeepsGroups(m: Model, m1: Model, x: Slot, e: Slot)
    requires Grouped(m) && x !in m.conns && x in m1.conns && m1.conns == m.conns[x := m1.conns[x]]
    requires IsMulticastIo(m1.conns[x]) && !m1.conns[x].producing && !m1.conns[x].terms.kind.ExclusiveOwner?
    requires Holds(m, e, m1.conns[x].terms.input) && m1.conns[x].terms.producedId == m.conns[e].terms.producedId
    ensures Grouped(m1)
  {
    assert forall h, i :: Holds(m1, h, i) ==> Holds(m, h, i);
    CarryServed(m, m1, x);
    assert Holds(m1, e, m1.conns[x].terms.input);
    assert Served(m1, x);
  }

  /** An exclusive owner takes the socket of the holder, which is not an owner. */
  lemma TakeOverKeepsGroups(m: Model, m1: Model, x: Slot, e: Slot)
    requires Grouped(m) && x !in m.conns && x in m1.conns
    requires Holds(m, e, m1.conns[x].terms.input) && !m.conns[e].terms.kind.ExclusiveOwner?
    requires m1.conns == m.conns[e := m.conns[e].(producing := false)][x := m1.conns[x]]
    requires IsMulticastIo(m1.conns[x]) && m1.conns[x].producing && m1.conns[x].terms.kind.ExclusiveOwner?
    requires m1.conns[x].terms.producedId == m.conns[e].terms.producedId
    ensures Grouped(m1)
  {
    var input := m1.conns[x].terms.input;
    assert forall h, i :: Holds(m1, h, i) ==> (h == x && i == input) || (h != e && Holds(m, h, i));
    assert Holds(m1, x, input);
    forall y | y in m1.conns && IsMulticastIo(m1.conns[y]) && m1.conns[y].state.Established?
      ensures Served(m1, y)
    {
      if y != x {
        assert Served(m, y);
        var h :| Holds(m, h, m.conns[y].terms.input) && m.conns[h].terms.producedId == m.conns[y].terms.producedId;
        assert Holds(m1, if h == e then x else h, m1.conns[y].terms.input);
      }
    }
  }

  /** On a multicast input point every producer is a multicast producer. */
  lemma MulticastProducer(m: Model, input: nat)
    requires Search(m, ProducerOf(input, false)).Some?
    requires forall y :: y in m.conns && IsIo(m.conns[y]) && m.conns[y].terms.input == input ==>
      m.conns[y].terms.tToO.Multicast?
    ensures Search(m, ProducerOf(input, true)).Some?
  {
    var p := Search(m, ProducerOf(input, false)).value;
    assert Hit(ProducerOf(input, true), p, m.conns[p]);
  }

  lemma AdmitKeepsGroups(m: Model, x: Slot, c: Connection)
    requires Grouped(m) && Listed(m) && IsIo(c) && c == Fresh(c.terms)
    requires c.terms.tToO.Multicast? ==> Ready(m, x, c.terms.kind, c.terms)
    requires forall y :: y in m.conns && IsIo(m.conns[y]) && m.conns[y].terms.input == c.terms.input ==>
      m.conns[y].terms.tToO == c.terms.tToO
    requires x !in m.conns
    ensures Grouped(Admit(m, x, c))
  {
    var m1 := Admit(m, x, c);
    if !c.terms.tToO.Multicast? {
      PushKeepsGroups(m, m1, x);
    } else {
      if c.terms.kind.ListenOnly? {
        MulticastProducer(m, c.terms.input);
      }
      match Search(m, ProducerOf(c.terms.input, true))
      case None =>
        StartKeepsGroups(m, m1, x);
      case Some(e) =>
        assert Holds(m, e, c.terms.input);
        if c.terms.kind.ExclusiveOwner? {
          TakeOverKeepsGroups(m, m1, x, e);
        } else {
          JoinKeepsGroups(m, m1, x, e);
        }
    }
  }

  lemma PushEnters(m: Model, x: Slot, d: Connection)
    requires x !in m.conns
    ensures Entered(m, Push(m, x, d), x)
  {}

  lemma AdmitEnters(m: Model, x: Slot, c: Connection)
    requires x !in m.conns
    ensures Entered(m, Admit(m, x, c), x)
    ensures var d := Admit(m, x, c).conns[x];
      d.state == c.state && d.terms == c.terms.(producedId := d.terms.producedId)
  {
    var e := Search(m, ProducerOf(c.terms.input, true));
    if c.terms.tToO.Multicast? && e.Some? && c.terms.kind.ExclusiveOwner? {
      var m0 := Put(m, e.value, m.conns[e.value].(producing := false));
      PushEnters(m0, x, Admit(m, x, c).conns[x]);
    } else {
      PushEnters(m, x, Admit(m, x, c).conns[x]);
    }
  }

  /** A well-placed newcomer with a fresh triad and matching T->O parameters may enter. */
  lemma AdmitKeeps(cfg: Config, m: Model, x: Slot, c: Connection)
    requires Inv(cfg, m) && x !in m.conns && Fits(cfg, x, c) && IsIo(c) && c == Fresh(c.terms)
    requires c.terms.tToO.Multicast? ==> Ready(m, x, c.terms.kind, c.terms)
    requires Search(m, EstablishedTriad(c.terms.triad)).None?
    requires c.terms.tToO.Multicast? ==> Search(m, DisagreesWith(c.terms)).None?
    ensures Inv(cfg, Admit(m, x, c))
  {
    var m1 := Admit(m, x, c);
    AdmitEnters(m, x, c);
    AdmitKeepsGroups(m, x, c);
    EnterKeepsOrder(m, m1, x);
    EnterKeepsPlaces(cfg, m, m1, x);
    FirstDependsOnTerms(m, c.terms, m1.conns[x].terms);
    EnterKeepsAgreement(m, m1, x);
  }

  /** The produced connection id is not among the parameters that have to agree. */
  lemma FirstDependsOnTerms(m: Model, t: Terms, u: Terms)
    requires u == t.(producedId := u.producedId)
    ensures Search(m, DisagreesWith(t)).None? ==> Search(m, DisagreesWith(u)).None?
  {
    assert forall y :: y in m.conns ==>
      (Hit(DisagreesWith(t), y, m.conns[y]) <==> Hit(DisagreesWith(u), y, m.conns[y]));
  }

  // ----- establishing -----

  lemma EstablishExplicitKeeps(cfg: Config, m: Model, r: Request)
    requires Inv(cfg, m) && Search(m, EstablishedTriad(r.terms.triad)).None?
    ensures Inv(cfg, EstablishExplicit(cfg, m, r).0)
  {
    match FindFreeExplicit(m, 0, cfg.explicits)
    case None =>
    case Some(k) =>
      var m1 := EstablishExplicit(cfg, m, r).0;
      var x := Explicit(k);
      EnterKeepsOrder(m, m1, x);
      EnterKeepsPlaces(cfg, m, m1, x);
      EnterKeepsAgreement(m, m1, x);
      PushKeepsGroups(m, m1, x);
  }

  lemma SelectReady(cfg: Config, m: Model, t: Terms)
    requires Inv(cfg, m) && cfg.Valid() && Select(cfg, m, t).1.Chosen?
    ensures var (kind, Chosen(x, evict)) := Select(cfg, m, t);
      && !kind.ExplicitMessaging? && SlotFor(cfg, x, kind, t) && evict == (x in m.conns)
      && x !in (if evict then Close(m, x) else m).conns
      && (cfg.LinkOf(t.input).Multicast? ==> Ready(if evict then Close(m, x) else m, x, kind, t))
  {
    if SelectOwner(cfg, m, t).Chosen? {
      OwnerReady(cfg, m, t);
    } else if SelectPoint(m, t, InputOnly, cfg.inputs, cfg.inputsPerPoint, 0, 0).Chosen? {
      InputReady(cfg, m, t);
    } else {
      ListenReady(cfg, m, t);
    }
  }

  /** Closing a connection Establishes nobody. */
  lemma TriadStaysFree(m: Model, m1: Model, triad: Triad)
    requires Listed(m) && Search(m, EstablishedTriad(triad)).None? && Remains(m, m1)
    ensures Search(m1, EstablishedTriad(triad)).None?
  {
    assert forall y :: y in m.conns ==> y in m.active && !Hit(EstablishedTriad(triad), y, m.conns[y]);
  }

  /** The connection that EstablishIo configures for a slot. */
  lemma ConfiguredFits(cfg: Config, r: Request, kind: Kind, x: Slot, inhibit: nat, last: nat)
    requires SlotFor(cfg, x, kind, r.terms)
    requires r.terms.oToT.PointToPoint? && r.terms.tToO == cfg.LinkOf(r.terms.input) && !r.terms.transport.Class3?
    ensures var t := Identify(cfg, r.terms.(kind := kind, inhibit := inhibit), last).0;
      && Fits(cfg, x, Fresh(t.(consuming := !t.oToT.NullLink?)))
      && t.kind == kind && t.triad == r.terms.triad && t.tToO == r.terms.tToO && t.input == r.terms.input
  {}

  lemma CounterAside(cfg: Config, m: Model, last: nat)
    requires Inv(cfg, m)
    ensures Inv(cfg, m.(lastId := last))
  {
    var m1 := m.(lastId := last);
    assert forall h, input :: Holds(m1, h, input) ==> Holds(m, h, input);
    forall y | y in m1.conns && IsMulticastIo(m1.conns[y]) && m1.conns[y].state.Established?
      ensures Served(m1, y)
    {
      assert Served(m, y);
      var h :| Holds(m, h, m.conns[y].terms.input) && m.conns[h].terms.producedId == m.conns[y].terms.producedId;
      assert Holds(m1, h, m1.conns[y].terms.input);
    }
  }

  /** The admission at the end of EstablishIo, if the request gets that far. */
  lemma AdmissionKeeps(cfg: Config, m: Model, r: Request, kind: Kind, x: Slot, inhibit: nat)
    requires Inv(cfg, m) && x !in m.conns && SlotFor(cfg, x, kind, r.terms) && !kind.ExplicitMessaging?
    requires cfg.LinkOf(r.terms.input).Multicast? ==> Ready(m, x, kind, r.terms)
    requires r.terms.oToT.PointToPoint? && r.terms.tToO == cfg.LinkOf(r.terms.input) && !r.terms.transport.Class3?
    requires Search(m, EstablishedTriad(r.terms.triad)).None?
    ensures var (t, last) := Identify(cfg, r.terms.(kind := kind, inhibit := inhibit), m.lastId);
      && Inv(cfg, m.(lastId := last))
      && (SetupStatus(cfg, m.(lastId := last), t, r) == 0 ==>
            Inv(cfg, Admit(m.(lastId := last), x, Fresh(t.(consuming := !t.oToT.NullLink?)))))
  {
    var (t, last) := Identify(cfg, r.terms.(kind := kind, inhibit := inhibit), m.lastId);
    var m2 := m.(lastId := last);
    CounterAside(cfg, m, last);
    ConfiguredFits(cfg, r, kind, x, inhibit, m.lastId);
    if SetupStatus(cfg, m2, t, r) == 0 {
      var c := Fresh(t.(consuming := !t.oToT.NullLink?));
      NoDisagreement(cfg, m2, t, c.terms, r);
      AdmitKeeps(cfg, m2, x, c);
    }
  }

  /** A request that passes the checks disagrees with nobody. */
  lemma NoDisagreement(cfg: Config, m: Model, t: Terms, u: Terms, r: Request)
    requires SetupStatus(cfg, m, t, r) == 0 && !t.tToO.NullLink? && u == t.(consuming := u.consuming)
    ensures Search(m, DisagreesWith(u)).None?
  {
    assert forall y :: y in m.conns ==>
      (Hit(DisagreesWith(t), y, m.conns[y]) <==> Hit(DisagreesWith(u), y, m.conns[y]));
  }

  /** The state in which an I/O request with a slot and an inhibit time is checked, and its terms. */
  function Configured(cfg: Config, m: Model, r: Request): (Model, Terms)
    requires Select(cfg, m, r.terms).1.Chosen? && InhibitTime(r.terms).Some?
  {
    var (kind, Chosen(x, evict)) := Select(cfg, m, r.terms);
    var m1 := if evict && x in m.conns then Close(m, x) else m;
    var (t, last) := Identify(cfg, r.terms.(kind := kind, inhibit := InhibitTime(r.terms).value), m1.lastId);
    (m1.(lastId := last), t)
  }

  /** The state in which an I/O request that is accepted is admitted, and its connection. */
  function Admission(cfg: Config, m: Model, r: Request): (Model, Connection)
    requires Select(cfg, m, r.terms).1.Chosen? && InhibitTime(r.terms).Some?
  {
    var (m2, t) := Configured(cfg, m, r);
    (m2, Fresh(t.(consuming := !t.oToT.NullLink?)))
  }

  lemma ConfiguredTerms(cfg: Config, m: Model, r: Request)
    requires Select(cfg, m, r.terms).1.Chosen? && InhibitTime(r.terms).Some?
    ensures var t := Admission(cfg, m, r).1.terms;
      t.kind == Select(cfg, m, r.terms).0 && t.tToO == r.terms.tToO && t.input == r.terms.input
  {}

  /** What an I/O request has to pass: the early checks, a slot, its inhibit time, the checks of sizes
      and parameters, and a socket address item for each direction. */
  predicate Acceptable(cfg: Config, m: Model, r: Request) {
    && r.target.Assembly? && EarlyRefusal(cfg, m, r.terms) == 0
    && Select(cfg, m, r.terms).1.Chosen? && InhibitTime(r.terms).Some?
    && var (m2, t) := Configured(cfg, m, r);
       SetupStatus(cfg, m2, t, r) == 0 && ItemsSuffice(r)
  }

  /** These are all the checks: an I/O request is opened exactly if it passes them. */
  lemma OpenedIfAcceptable(cfg: Config, m: Model, r: Request)
    ensures r.target.Assembly? ==> (Open(cfg, m, r).1.Opened? <==> Acceptable(cfg, m, r))
  {}

  /** An I/O request that has a slot and an acceptable inhibit time is refused in the state before
      its admission, or admitted. */
  lemma EstablishIoShape(cfg: Config, m: Model, r: Request)
    requires Select(cfg, m, r.terms).1.Chosen? && InhibitTime(r.terms).Some?
    ensures var (m2, c) := Admission(cfg, m, r);
      var (m3, reply) := EstablishIo(cfg, m, r);
      m3 == if reply.Opened? then Admit(m2, Select(cfg, m, r.terms).1.slot, c) else m2
  {}

  lemma EstablishIoKeeps(cfg: Config, m: Model, r: Request)
    requires Inv(cfg, m) && cfg.Valid() && Search(m, EstablishedTriad(r.terms.triad)).None?
    requires r.terms.oToT.PointToPoint? && r.terms.tToO == cfg.LinkOf(r.terms.input) && !r.terms.transport.Class3?
    ensures Inv(cfg, EstablishIo(cfg, m, r).0)
  {
    var (kind, choice) := Select(cfg, m, r.terms);
    if choice.Chosen? {
      SelectReady(cfg, m, r.terms);
      var x := choice.slot;
      var m1 := if choice.evict then Close(m, x) else m;
      if choice.evict {
        CloseKeeps(cfg, m, x);
      }
      TriadStaysFree(m, m1, r.terms.triad);
      if InhibitTime(r.terms).Some? {
        AdmissionKeeps(cfg, m1, r, kind, x, InhibitTime(r.terms).value);
      }
    }
  }

  lemma OpenKeeps(cfg: Config, m: Model, r: Request)
    requires Inv(cfg, m) && cfg.Valid() && InScope(cfg, r)
    ensures Inv(cfg, Open(cfg, m, r).0)
  {
    if EarlyRefusal(cfg, m, r.terms) == 0 {
      if r.target.MessageRouter? {
        EstablishExplicitKeeps(cfg, m, r);
      } else {
        EstablishIoKeeps(cfg, m, r);
      }
    }
  }

  // ----- the holder that a newcomer meets -----

  lemma HolderFound(m: Model, input: nat)
    requires Listed(m) && OneHolder(m)
    ensures forall h :: Holds(m, h, input) <==> Search(m, ProducerOf(input, true)) == Some(h)
  {
    forall h ensures Holds(m, h, input) <==> Search(m, ProducerOf(input, true)) == Some(h) {
      match Search(m, ProducerOf(input, true))
      case Some(e) =>
        assert Holds(m, e, input);
      case None =>
        assert h in m.conns ==> h in m.active;
    }
  }

  /** Closing a connection that does not hold its group leaves the holder as it is. */
  lemma CloseLeavesHolder(m: Model, x: Slot, h: Slot)
    requires x in m.conns && IsIo(m.conns[x]) && !ControlsGroup(m.conns[x])
    ensures h != x && h in m.conns ==> h in Close(m, x).conns && Close(m, x).conns[h] == m.conns[h]
    ensures h in Close(m, x).conns ==> h in m.conns && h != x
  {}

  /** Closing the holder: the first master in the list holds the group from then on, with the socket and
      the count of the old one; without a master nobody does. */
  lemma ClosePassesGroup(m: Model, x: Slot)
    requires Listed(m) && OneHolder(m) && x in m.conns && ControlsGroup(m.conns[x]) && IsIo(m.conns[x])
    ensures var (input, m1) := (m.conns[x].terms.input, Close(m, x));
      match Search(m, MasterFor(input))
      case Some(y) =>
        && (forall h :: Holds(m1, h, input) <==> h == y)
        && y in m1.conns && m1.conns[y].state.Established? && m1.conns[y].eipProducing == m.conns[x].eipProducing
      case None => forall h :: !Holds(m1, h, input)
  {
    var input := m.conns[x].terms.input;
    assert Holds(m, x, input);
    SameMaster(m, x);
    match Search(m, MasterFor(input))
    case Some(y) => PassedOn(m, x, y);
    case None => Dissolved(m, x);
  }

  /** The master does not depend on the state of the holder. */
  lemma SameMaster(m: Model, x: Slot)
    requires x in m.conns && m.conns[x].producing
    ensures Search(Retire(m, x, NonExistent), MasterFor(m.conns[x].terms.input)) ==
      Search(m, MasterFor(m.conns[x].terms.input))
  {
    FirstDependsOnHits(m.active, m.conns, Retire(m, x, NonExistent).conns, MasterFor(m.conns[x].terms.input));
  }

  lemma PassedOn(m: Model, x: Slot, y: Slot)
    requires OneHolder(m) && x in m.conns && y in m.conns && Holds(m, x, m.conns[x].terms.input)
    requires Hit(MasterFor(m.conns[x].terms.input), y, m.conns[y])
    ensures var m1 := Drop(HandOver(Retire(m, x, NonExistent), x, y), {x});
      && (forall h :: Holds(m1, h, m.conns[x].terms.input) <==> h == y)
      && y in m1.conns && m1.conns[y].state.Established? && m1.conns[y].eipProducing == m.conns[x].eipProducing
  {
    var (input, m1) := (m.conns[x].terms.input, Drop(HandOver(Retire(m, x, NonExistent), x, y), {x}));
    assert forall h :: h in m1.conns && h != y ==> m1.conns[h] == m.conns[h];
    forall h ensures Holds(m1, h, input) <==> h == y {
      assert h != y && Holds(m1, h, input) ==> Holds(m, h, input);
    }
  }

  lemma Dissolved(m: Model, x: Slot)
    requires OneHolder(m) && x in m.conns && Holds(m, x, m.conns[x].terms.input)
    ensures var m1 := Drop(Drop(Retire(m, x, NonExistent),
      OfKind(Retire(m, x, NonExistent), m.conns[x].terms.input, ListenOnly)), {x});
      forall h :: !Holds(m1, h, m.conns[x].terms.input)
  {
    var (input, m0) := (m.conns[x].terms.input, Retire(m, x, NonExistent));
    var m1 := Drop(Drop(m0, OfKind(m0, input, ListenOnly)), {x});
    assert forall h :: h in m1.conns ==> h != x && m1.conns[h] == m.conns[h];
    assert forall h :: Holds(m1, h, input) ==> Holds(m, h, input);
  }

  /** The holder that a request with a slot meets once the slot is vacated, told from the state before:
      if the old holder sat in that slot it is the first master, and Established; else it is the old
      holder, unchanged. */
  lemma HolderMet(cfg: Config, m: Model, r: Request)
    requires Inv(cfg, m) && cfg.Valid() && Select(cfg, m, r.terms).1.Chosen? && InhibitTime(r.terms).Some?
    ensures var (m2, input) := (Configured(cfg, m, r).0, r.terms.input);
      var (old0, now) := (Search(m, ProducerOf(input, true)), Search(m2, ProducerOf(input, true)));
      if old0 == Some(Select(cfg, m, r.terms).1.slot) then
        && now == Search(m, MasterFor(input))
        && (now.Some? ==> m2.conns[now.value].state.Established?
                          && m2.conns[now.value].eipProducing == m.conns[old0.value].eipProducing)
      else now == old0 && (now.Some? ==> m2.conns[now.value] == m.conns[now.value])
  {
    SelectReady(cfg, m, r.terms);
    var (x, input) := (Select(cfg, m, r.terms).1.slot, r.terms.input);
    HolderFound(m, input);
    if x in m.conns {
      assert Fits(cfg, x, m.conns[x]) && m.conns[x].terms.input == input;
      CloseKeeps(cfg, m, x);
      HolderFound(Close(m, x), input);
      VacatedHolder(m, x);
      SameProducer(Close(m, x), Configured(cfg, m, r).0, input);
    } else {
      SameProducer(m, Configured(cfg, m, r).0, input);
    }
  }

  lemma SameProducer(m: Model, m1: Model, input: nat)
    requires m1.active == m.active && m1.conns == m.conns
    ensures Search(m1, ProducerOf(input, true)) == Search(m, ProducerOf(input, true))
  {}

  lemma VacatedHolder(m: Model, x: Slot)
    requires Listed(m) && OneHolder(m) && NoListenerHolds(m) && x in m.conns && IsIo(m.conns[x])
    ensures var (input, m1) := (m.conns[x].terms.input, Close(m, x));
      if Holds(m, x, input) then
        match Search(m, MasterFor(input))
        case Some(y) =>
          && (forall h :: Holds(m1, h, input) <==> h == y)
          && y in m1.conns && m1.conns[y].state.Established? && m1.conns[y].eipProducing == m.conns[x].eipProducing
        case None => forall h :: !Holds(m1, h, input)
      else forall h ::
        (Holds(m1, h, input) <==> Holds(m, h, input)) && (Holds(m, h, input) ==> m1.conns[h] == m.conns[h])
  {
    var (input, m1) := (m.conns[x].terms.input, Close(m, x));
    if Holds(m, x, input) {
      ClosePassesGroup(m, x);
    } else {
      forall h ensures (Holds(m1, h, input) <==> Holds(m, h, input)) &&
        (Holds(m, h, input) ==> m1.conns[h] == m.conns[h]) {
        CloseLeavesHolder(m, x, h);
      }
    }
  }
}
