/** What a Forward Open is answered, told from the table of connections and the configuration alone, and
    what the connection that it opens starts with. */
module ConnectionReplies {
  import opened Connections
  import opened ConnectionModel
  import opened ConnectionInvariants
  import opened ConnectionOpening
  import opened ConnectionRuns
  import opened Widths

  ghost predicate Refuses(reply: Reply, extended: nat) {
    reply == Refused(1, extended)
  }

  // ----- sizes -----

  /** The announced size covers the assembly data, a count in class 1, and a run/idle word unless the
      connection is a heartbeat. */
  predicate SizeFits(length: nat, size: nat, transport: TransportClass, runIdle: bool) {
    size == length + (if transport == Class1 then 2 else 0) + if runIdle && length != 0 then 4 else 0
  }

  lemma SizeVerdict(cfg: Config, instance: nat, size: nat, transport: TransportClass, runIdle: bool,
                    noInstance: nat, wrongSize: nat)
    ensures SizeStatus(cfg, instance, size, transport, runIdle, noInstance, wrongSize) ==
      if instance !in cfg.assemblies then noInstance
      else if SizeFits(cfg.assemblies[instance], size, transport, runIdle) then 0
      else wrongSize
  {}

  // ----- the channels -----

  /** Of the two socket address items of the request, one is free or meant for O->T and, for multicast,
      the other one for T->O. */
  predicate ItemsServe(r: Request) {
    if r.terms.tToO != Multicast then
      r.item0 in {0, 0x8000} || r.item1 in {0, 0x8000}
    else
      || (r.item0 in {0, 0x8000} && r.item1 in {0, 0x8001})
      || (r.item0 == 0x8001 && r.item1 in {0, 0x8000})
  }

  lemma ItemsVerdict(r: Request)
    ensures ItemsSuffice(r) <==> ItemsServe(r)
  {}

  // ----- the parameters of a group -----

  /** The status that names the first parameter in which a request differs from a connection. */
  predicate FirstDifference(a: Terms, b: Terms, status: nat) {
    || (status == 0x0112 && a.tToOInterval != b.tToOInterval)
    || (a.tToOInterval == b.tToOInterval && (
          || (status == 0x0135 && a.tToOVariable != b.tToOVariable)
          || (a.tToOVariable == b.tToOVariable && (
                || (status == 0x0136 && a.tToOPriority != b.tToOPriority)
                || (a.tToOPriority == b.tToOPriority && (
                      || (status == 0x0137 && a.transport != b.transport)
                      || (a.transport == b.transport && (
                            || (status == 0x0138 && a.trigger != b.trigger)
                            || (a.trigger == b.trigger && status == 0x0139 && a.inhibit != b.inhibit)))))))))
  }

  predicate Differs(a: Terms, b: Terms) {
    || a.tToOInterval != b.tToOInterval || a.tToOVariable != b.tToOVariable || a.tToOPriority != b.tToOPriority
    || a.transport != b.transport || a.trigger != b.trigger || a.inhibit != b.inhibit
  }

  lemma MismatchVerdict(a: Terms, b: Terms)
    ensures Differs(a, b) <==> Mismatch(a, b) != 0
    ensures Differs(a, b) ==> FirstDifference(a, b, Mismatch(a, b))
  {}

  /** The listed connection at position i produces the input assembly of the request otherwise. */
  predicate Clashes(m: Model, t: Terms, i: nat)
    requires i < |m.active|
  {
    && m.active[i] in m.conns
    && m.conns[m.active[i]].terms.input == t.input && Differs(t, m.conns[m.active[i]].terms)
  }

  ghost predicate NoClash(m: Model, t: Terms) {
    forall i :: 0 <= i < |m.active| ==> !Clashes(m, t, i)
  }

  ghost predicate FirstClash(m: Model, t: Terms, i: nat)
    requires i < |m.active|
  {
    Clashes(m, t, i) && forall j :: 0 <= j < i ==> !Clashes(m, t, j)
  }

  /** The first hit of a search, by its position. */
  lemma {:induction false} FirstAtPosition(active: seq<Slot>, conns: map<Slot, Connection>, q: Query) returns (i: nat)
    ensures First(active, conns, q).None? ==> i == |active|
    ensures First(active, conns, q).Some? ==> i < |active| && First(active, conns, q) == Some(active[i])
    ensures forall j :: 0 <= j < i && j < |active| && active[j] in conns ==> !Hit(q, active[j], conns[active[j]])
  {
    if active == [] || (active[0] in conns && Hit(q, active[0], conns[active[0]])) {
      i := 0;
    } else {
      var k := FirstAtPosition(active[1..], conns, q);
      i := k + 1;
      forall j | 0 <= j < i && j < |active| && active[j] in conns ensures !Hit(q, active[j], conns[active[j]]) {
        if j > 0 {
          assert active[1..][j - 1] == active[j];
        }
      }
    }
  }

  lemma ClashVerdict(m: Model, t: Terms)
    requires t.tToO == Multicast
    ensures match Search(m, DisagreesWith(t))
      case None => NoClash(m, t)
      case Some(y) =>
        y in m.conns && exists i :: 0 <= i < |m.active| && FirstClash(m, t, i) && m.active[i] == y
  {
    var i := FirstAtPosition(m.active, m.conns, DisagreesWith(t));
    forall j | 0 <= j < i && j < |m.active| ensures !Clashes(m, t, j) {
      if m.active[j] in m.conns {
        MismatchVerdict(t, m.conns[m.active[j]].terms);
      }
    }
    if Search(m, DisagreesWith(t)).Some? {
      MismatchVerdict(t, m.conns[m.active[i]].terms);
      assert FirstClash(m, t, i);
    }
  }

  // ----- the production inhibit time -----

  /** Only a cyclic connection is looked at: without a time of its own (256) it gets a quarter of the RPI
      in milliseconds, and its own must not exceed the RPI. */
  predicate InhibitFits(t: Terms) {
    t.trigger != Cyclic || t.inhibit == 256 || t.inhibit <= t.tToOInterval / 1000
  }

  function Inhibit(t: Terms): nat {
    if t.trigger == Cyclic && t.inhibit == 256 then t.tToOInterval / 4000 % UINT16 else t.inhibit
  }

  lemma InhibitVerdict(t: Terms)
    ensures InhibitTime(t) == if InhibitFits(t) then Some(Inhibit(t)) else None
  {}

  // ----- once the slot is chosen -----

  /** The answer of the setup checks, in the state m in which they are made. */
  ghost predicate SetupAnswer(cfg: Config, m: Model, t: Terms, r: Request, reply: Reply) {
    if t.oToT != NullLink && t.output !in cfg.assemblies then Refuses(reply, 0x012A)
    else if t.oToT != NullLink && !SizeFits(cfg.assemblies[t.output], r.oToTSize, t.transport, cfg.consumeRunIdle)
    then Refuses(reply, 0x0127)
    else ProduceAnswer(cfg, m, t, r, reply)
  }

  ghost predicate ProduceAnswer(cfg: Config, m: Model, t: Terms, r: Request, reply: Reply) {
    if t.tToO == Multicast && !NoClash(m, t) then
      exists i, status :: 0 <= i < |m.active| && FirstClash(m, t, i) &&
        FirstDifference(t, m.conns[m.active[i]].terms, status) && Refuses(reply, status)
    else if t.tToO != NullLink && t.input !in cfg.assemblies then Refuses(reply, 0x012B)
    else if t.tToO != NullLink && !SizeFits(cfg.assemblies[t.input], r.tToOSize, t.transport, cfg.produceRunIdle)
    then Refuses(reply, 0x0128)
    else if r.configStatus != 0 then Refuses(reply, r.configStatus)
    else if !ItemsServe(r) then Refuses(reply, 0)
    else reply.Opened?
  }

  /** What the checks look at of a request. */
  predicate AsAsked(t: Terms, r: Request) {
    && t.oToT == r.terms.oToT && t.tToO == r.terms.tToO && t.output == r.terms.output && t.input == r.terms.input
    && t.tToOInterval == r.terms.tToOInterval && t.tToOVariable == r.terms.tToOVariable
    && t.tToOPriority == r.terms.tToOPriority && t.transport == r.terms.transport && t.trigger == r.terms.trigger
    && t.inhibit == Inhibit(r.terms)
  }

  lemma SetupVerdict(cfg: Config, m: Model, t: Terms, r: Request, reply: Reply)
    requires t.tToO == r.terms.tToO
    requires var status := SetupStatus(cfg, m, t, r);
      if status != 0 then Refuses(reply, status) else if !ItemsSuffice(r) then Refuses(reply, 0) else reply.Opened?
    ensures SetupAnswer(cfg, m, t, r, reply)
  {
    SizeVerdict(cfg, t.output, r.oToTSize, t.transport, cfg.consumeRunIdle, 0x012A, 0x0127);
    SizeVerdict(cfg, t.input, r.tToOSize, t.transport, cfg.produceRunIdle, 0x012B, 0x0128);
    ItemsVerdict(r);
    if t.tToO == Multicast {
      ClashVerdict(m, t);
      if Search(m, DisagreesWith(t)).Some? {
        MismatchVerdict(t, m.conns[Search(m, DisagreesWith(t)).value].terms);
      }
    } else {
      assert Search(m, DisagreesWith(t)).None?;
    }
  }

  /** m2 is m without the timed-out connection in the slot x, if there was one, up to the id counter. */
  ghost predicate Vacated(m: Model, x: Slot, m2: Model) {
    m2 == (if x in m.conns then Close(m, x) else m).(lastId := m2.lastId)
  }

  /** With the slot x, the request is refused at its inhibit time or gets the answer of the checks. */
  ghost predicate SlotAnswer(cfg: Config, m: Model, r: Request, x: Slot, reply: Reply) {
    if !InhibitFits(r.terms) then Refuses(reply, 0x011B)
    else exists m2, t :: Vacated(m, x, m2) && AsAsked(t, r) && SetupAnswer(cfg, m2, t, r, reply)
  }

  lemma SlotVerdict(cfg: Config, m: Model, r: Request)
    requires Inv(cfg, m) && cfg.Valid() && Select(cfg, m, r.terms).1.Chosen?
    ensures SlotAnswer(cfg, m, r, Select(cfg, m, r.terms).1.slot, EstablishIo(cfg, m, r).1)
  {
    InhibitVerdict(r.terms);
    SelectReady(cfg, m, r.terms);
    if InhibitFits(r.terms) {
      var (m2, t) := Configured(cfg, m, r);
      ConfiguredAsAsked(cfg, m, r);
      SetupVerdict(cfg, m2, t, r, EstablishIo(cfg, m, r).1);
    }
  }

  lemma ConfiguredAsAsked(cfg: Config, m: Model, r: Request)
    requires Select(cfg, m, r.terms).1.Chosen? && InhibitFits(r.terms) && InhibitTime(r.terms) == Some(Inhibit(r.terms))
    requires Select(cfg, m, r.terms).1.evict == (Select(cfg, m, r.terms).1.slot in m.conns)
    ensures AsAsked(Configured(cfg, m, r).1, r)
    ensures Vacated(m, Select(cfg, m, r.terms).1.slot, Configured(cfg, m, r).0)
  {}

  // ----- choosing the slot -----

  /** The connection point has all three assemblies of the request. */
  predicate Whole(p: Point, t: Terms) {
    p.output == t.output && p.input == t.input && p.config == t.config
  }

  ghost predicate FirstWhole(points: seq<Point>, t: Terms, i: nat)
    requires i < |points|
  {
    Whole(points[i], t) && forall j :: 0 <= j < i ==> !Whole(points[j], t)
  }

  ghost predicate NoneWhole(points: seq<Point>, t: Terms) {
    forall i :: 0 <= i < |points| ==> !Whole(points[i], t)
  }

  ghost predicate NoneOutput(points: seq<Point>, t: Terms) {
    forall i :: 0 <= i < |points| ==> points[i].output != t.output
  }

  /** The last point that has at least the output assembly. */
  ghost predicate LastOutput(points: seq<Point>, t: Terms, i: nat)
    requires i < |points|
  {
    points[i].output == t.output && forall j :: i < j < |points| ==> points[j].output != t.output
  }

  /** The slot is in use, and not by a timed-out connection of the same originator. */
  predicate Occupied(m: Model, x: Slot, o: Originator) {
    && x in m.conns && m.conns[x].state != NonExistent
    && !(m.conns[x].state == TimedOut && m.conns[x].terms.triad.originator == o)
  }

  /** Of the slots of a point, the first with a timed-out connection of the same originator is taken,
      which has to leave it; without one the first that is free. */
  ghost predicate SlotOf(m: Model, kind: Kind, i: nat, count: nat, o: Originator, choice: Choice) {
    if exists j :: 0 <= j < count && Recyclable(m, SlotAt(kind, i, j), o) then
      exists j :: && 0 <= j < count && Recyclable(m, SlotAt(kind, i, j), o)
                  && (forall k :: 0 <= k < j ==> !Recyclable(m, SlotAt(kind, i, k), o))
                  && choice == Chosen(SlotAt(kind, i, j), true)
    else if exists j :: 0 <= j < count && Free(m, SlotAt(kind, i, j)) then
      exists j :: && 0 <= j < count && Free(m, SlotAt(kind, i, j))
                  && (forall k :: 0 <= k < j ==> !Free(m, SlotAt(kind, i, k)))
                  && choice == Chosen(SlotAt(kind, i, j), false)
    else choice == Conflict(0x011A)
  }

  lemma {:induction false} RecyclableVerdict(m: Model, kind: Kind, i: nat, j: nat, count: nat, o: Originator)
    ensures match FindRecyclable(m, kind, i, j, count, o)
      case Some(r) => forall k :: j <= k < r ==> !Recyclable(m, SlotAt(kind, i, k), o)
      case None => forall k :: j <= k < count ==> !Recyclable(m, SlotAt(kind, i, k), o)
    decreases count - j
  {
    if j < count && !Recyclable(m, SlotAt(kind, i, j), o) {
      RecyclableVerdict(m, kind, i, j + 1, count, o);
    }
  }

  lemma {:induction false} FreeVerdict(m: Model, kind: Kind, i: nat, j: nat, count: nat)
    ensures match FindFree(m, kind, i, j, count)
      case Some(r) => forall k :: j <= k < r ==> !Free(m, SlotAt(kind, i, k))
      case None => forall k :: j <= k < count ==> !Free(m, SlotAt(kind, i, k))
    decreases count - j
  {
    if j < count && !Free(m, SlotAt(kind, i, j)) {
      FreeVerdict(m, kind, i, j + 1, count);
    }
  }

  lemma IndexVerdict(m: Model, kind: Kind, i: nat, count: nat, o: Originator)
    ensures SlotOf(m, kind, i, count, o, SelectIndex(m, kind, i, count, o))
  {
    RecyclableVerdict(m, kind, i, 0, count, o);
    FreeVerdict(m, kind, i, 0, count);
  }

  /** Somebody produces the input assembly, to one or to a group. */
  ghost predicate Produced(m: Model, input: nat) {
    exists y :: && y in m.conns && IsIo(m.conns[y]) && m.conns[y].terms.input == input && m.conns[y].producing
                && m.conns[y].terms.tToO in {Multicast, PointToPoint}
  }

  lemma ProducedVerdict(m: Model, input: nat)
    requires Listed(m)
    ensures Search(m, ProducerOf(input, false)).Some? <==> Produced(m, input)
  {
    if Produced(m, input) {
      var y :| && y in m.conns && IsIo(m.conns[y]) && m.conns[y].terms.input == input && m.conns[y].producing
               && m.conns[y].terms.tToO in {Multicast, PointToPoint};
      assert y in m.active && Hit(ProducerOf(input, false), y, m.conns[y]);
    }
  }

  /** The scan of the points of one kind: a slot of the first whole point; without one the last point
      that has the output assembly says what is wrong; without any the kind does not suit. */
  ghost predicate PointOf(m: Model, t: Terms, kind: Kind, points: seq<Point>, count: nat, choice: Choice) {
    if !NoneWhole(points, t) then
      exists i :: 0 <= i < |points| && FirstWhole(points, t, i) &&
        if kind.ListenOnly? && !Produced(m, t.input) then choice == Conflict(0x0119)
        else SlotOf(m, kind, i, count, t.triad.originator, choice)
    else if !NoneOutput(points, t) then
      exists i :: 0 <= i < |points| && LastOutput(points, t, i) &&
        choice == Conflict(if points[i].input != t.input then 0x012B else 0x012F)
    else choice == Unsuited
  }

  /** The error that the scan has met before position i. */
  ghost predicate ErrorSoFar(points: seq<Point>, t: Terms, i: nat, error: nat)
    requires i <= |points|
  {
    if error == 0 then forall j :: 0 <= j < i ==> points[j].output != t.output
    else exists k :: && 0 <= k < i && points[k].output == t.output
                     && (forall j :: k < j < i ==> points[j].output != t.output)
                     && error == if points[k].input != t.input then 0x012B else 0x012F
  }

  lemma {:induction false} ScanVerdict(m: Model, t: Terms, kind: Kind, points: seq<Point>, count: nat, i: nat,
                                       error: nat, choice: Choice)
    requires Listed(m) && i <= |points| && ErrorSoFar(points, t, i, error)
    requires forall j :: 0 <= j < i ==> !Whole(points[j], t)
    requires choice == SelectPoint(m, t, kind, points, count, i, error)
    ensures PointOf(m, t, kind, points, count, choice)
    decreases |points| - i
  {
    if i == |points| {
      ScanEnds(m, t, kind, points, count, error, choice);
    } else if points[i].output != t.output {
      ErrorKept(points, t, i, error);
      ScanVerdict(m, t, kind, points, count, i + 1, error, choice);
    } else if !Whole(points[i], t) {
      ErrorMet(points, t, i);
      ScanVerdict(m, t, kind, points, count, i + 1, if points[i].input != t.input then 0x012B else 0x012F, choice);
    } else {
      WholeMet(m, t, kind, points, count, i, error, choice);
    }
  }

  lemma ErrorKept(points: seq<Point>, t: Terms, i: nat, error: nat)
    requires i < |points| && points[i].output != t.output && ErrorSoFar(points, t, i, error)
    ensures ErrorSoFar(points, t, i + 1, error)
  {}

  lemma ErrorMet(points: seq<Point>, t: Terms, i: nat)
    requires i < |points| && points[i].output == t.output
    ensures ErrorSoFar(points, t, i + 1, if points[i].input != t.input then 0x012B else 0x012F)
  {}

  lemma WholeMet(m: Model, t: Terms, kind: Kind, points: seq<Point>, count: nat, i: nat, error: nat,
                 choice: Choice)
    requires Listed(m) && i < |points| && FirstWhole(points, t, i)
    requires choice == SelectPoint(m, t, kind, points, count, i, error)
    ensures PointOf(m, t, kind, points, count, choice)
  {
    ProducedVerdict(m, t.input);
    IndexVerdict(m, kind, i, count, t.triad.originator);
  }

  lemma ScanEnds(m: Model, t: Terms, kind: Kind, points: seq<Point>, count: nat, error: nat, choice: Choice)
    requires ErrorSoFar(points, t, |points|, error) && NoneWhole(points, t)
    requires choice == if error == 0 then Unsuited else Conflict(error)
    ensures PointOf(m, t, kind, points, count, choice)
  {
    if error != 0 {
      var k :| && 0 <= k < |points| && points[k].output == t.output
               && (forall j :: k < j < |points| ==> points[j].output != t.output)
               && error == if points[k].input != t.input then 0x012B else 0x012F;
      assert LastOutput(points, t, k);
    }
  }

  /** An exclusive owner is active on the input assembly. */
  ghost predicate Owned(m: Model, input: nat, y: Slot) {
    y in m.conns && m.conns[y].terms.kind == ExclusiveOwner && m.conns[y].state != NonExistent &&
      m.conns[y].terms.input == input
  }

  /** The first whole point, unless another owner is active on the input or it has not timed out. */
  ghost predicate OwnerSlot(cfg: Config, m: Model, t: Terms, choice: Choice) {
    if NoneWhole(cfg.owners, t) then choice == Unsuited
    else
      exists i :: 0 <= i < |cfg.owners| && FirstWhole(cfg.owners, t, i) &&
        if forall y :: !Owned(m, t.input, y) then choice == Chosen(Owner(i), false)
        else if forall y :: Owned(m, t.input, y) ==>
          m.conns[y].state == TimedOut && m.conns[y].terms.triad.originator == t.triad.originator
        then choice == Chosen(Owner(i), true)
        else choice == Conflict(0x0106)
  }

  lemma {:induction false} FindPointVerdict(points: seq<Point>, t: Terms, i: nat)
    requires i <= |points| && forall j :: 0 <= j < i ==> !Whole(points[j], t)
    ensures match FindPoint(points, t, i)
      case Some(k) => k < |points| && FirstWhole(points, t, k)
      case None => NoneWhole(points, t)
    decreases |points| - i
  {
    if i < |points| && points[i] != Point(t.output, t.input, t.config) {
      FindPointVerdict(points, t, i + 1);
    }
  }

  lemma OwnerVerdict(cfg: Config, m: Model, t: Terms)
    requires Inv(cfg, m) && cfg.Valid()
    ensures OwnerSlot(cfg, m, t, SelectOwner(cfg, m, t))
  {
    FindPointVerdict(cfg.owners, t, 0);
    var o := Search(m, OwnerOf(t.input));
    if o.Some? {
      assert Owned(m, t.input, o.value);
      forall y | Owned(m, t.input, y) ensures y == o.value {
        assert Fits(cfg, y, m.conns[y]) && Fits(cfg, o.value, m.conns[o.value]);
      }
    } else {
      forall y ensures !Owned(m, t.input, y) {
        assert y in m.conns ==> y in m.active;
      }
    }
  }

  /** The kinds are tried in turn: exclusive owner, input only, listen only. */
  ghost predicate SlotSearch(cfg: Config, m: Model, t: Terms, kind: Kind, choice: Choice) {
    if !NoneWhole(cfg.owners, t) then kind == ExclusiveOwner && OwnerSlot(cfg, m, t, choice)
    else if !NoneOutput(cfg.inputs, t) then
      kind == InputOnly && PointOf(m, t, InputOnly, cfg.inputs, cfg.inputsPerPoint, choice)
    else if !NoneOutput(cfg.listens, t) then
      kind == ListenOnly && PointOf(m, t, ListenOnly, cfg.listens, cfg.listensPerPoint, choice)
    else choice == Conflict(0x012F)
  }

  lemma Suits(m: Model, t: Terms, kind: Kind, points: seq<Point>, count: nat, choice: Choice)
    requires PointOf(m, t, kind, points, count, choice)
    ensures choice == Unsuited <==> NoneOutput(points, t)
  {
    assert NoneOutput(points, t) ==> NoneWhole(points, t);
  }

  lemma SelectVerdict(cfg: Config, m: Model, t: Terms)
    requires Inv(cfg, m) && cfg.Valid()
    ensures SlotSearch(cfg, m, t, Select(cfg, m, t).0, Select(cfg, m, t).1)
  {
    OwnerVerdict(cfg, m, t);
    if SelectOwner(cfg, m, t).Unsuited? {
      var input := SelectPoint(m, t, InputOnly, cfg.inputs, cfg.inputsPerPoint, 0, 0);
      ScanVerdict(m, t, InputOnly, cfg.inputs, cfg.inputsPerPoint, 0, 0, input);
      Suits(m, t, InputOnly, cfg.inputs, cfg.inputsPerPoint, input);
      if input.Unsuited? {
        var listen := SelectPoint(m, t, ListenOnly, cfg.listens, cfg.listensPerPoint, 0, 0);
        ScanVerdict(m, t, ListenOnly, cfg.listens, cfg.listensPerPoint, 0, 0, listen);
        Suits(m, t, ListenOnly, cfg.listens, cfg.listensPerPoint, listen);
      }
    }
  }

  // ----- the whole answer -----

  /** Multicast frames do not leave the subnet. */
  predicate OnSubnet(cfg: Config, address: bv32) {
    (address & cfg.networkMask) == (cfg.interfaceAddress & cfg.networkMask)
  }

  lemma SubnetVerdict(cfg: Config, address: bv32)
    ensures OffSubnet(cfg, address) <==> !OnSubnet(cfg, address)
  {}

  ghost predicate TriadInUse(m: Model, triad: Triad) {
    exists y :: y in m.conns && m.conns[y].state == Established && m.conns[y].terms.triad == triad
  }

  lemma TriadVerdict(m: Model, triad: Triad)
    requires Listed(m)
    ensures Search(m, EstablishedTriad(triad)).Some? <==> TriadInUse(m, triad)
  {
    if TriadInUse(m, triad) {
      var y :| y in m.conns && m.conns[y].state == Established && m.conns[y].terms.triad == triad;
      assert y in m.active && Hit(EstablishedTriad(triad), y, m.conns[y]);
    }
  }

  /** The checks in front of everything else. */
  ghost predicate HeadPasses(cfg: Config, m: Model, t: Terms) {
    && t.oToT != InvalidLink && t.tToO != InvalidLink && !(t.oToT == NullLink && t.tToO == NullLink)
    && (t.tToO == Multicast ==> OnSubnet(cfg, t.address)) && !TriadInUse(m, t.triad)
    && t.trigger != InvalidTrigger
  }

  /** Which of them fails first, in the order in which they are made. */
  ghost predicate HeadAnswer(cfg: Config, m: Model, t: Terms, reply: Reply) {
    if t.oToT == InvalidLink then Refuses(reply, 0x0123)
    else if t.tToO == InvalidLink then Refuses(reply, 0x0124)
    else if t.tToO == Multicast && !OnSubnet(cfg, t.address) then Refuses(reply, 0x0813)
    else if t.oToT == NullLink == t.tToO then Refuses(reply, 0x0132)
    else if TriadInUse(m, t.triad) then Refuses(reply, 0x0100)
    else Refuses(reply, 0x0103)
  }

  lemma HeadVerdict(cfg: Config, m: Model, t: Terms)
    requires Listed(m)
    ensures EarlyRefusal(cfg, m, t) == 0 <==> HeadPasses(cfg, m, t)
    ensures !HeadPasses(cfg, m, t) ==> HeadAnswer(cfg, m, t, Refused(1, EarlyRefusal(cfg, m, t)))
  {
    SubnetVerdict(cfg, t.address);
    TriadVerdict(m, t.triad);
  }

  /** A messaging connection needs an explicit slot and nothing else. */
  ghost predicate MessagingAnswer(cfg: Config, m: Model, reply: Reply) {
    if exists k :: 0 <= k < cfg.explicits && Free(m, Explicit(k)) then reply.Opened? else Refuses(reply, 0x0113)
  }

  lemma {:induction false} ExplicitVerdict(m: Model, k: nat, count: nat)
    ensures match FindFreeExplicit(m, k, count)
      case Some(i) => forall j :: k <= j < i ==> !Free(m, Explicit(j))
      case None => forall j :: k <= j < count ==> !Free(m, Explicit(j))
    decreases count - k
  {
    if k < count && !Free(m, Explicit(k)) {
      ExplicitVerdict(m, k + 1, count);
    }
  }

  ghost predicate IoAnswer(cfg: Config, m: Model, r: Request, reply: Reply) {
    exists kind, choice :: SlotSearch(cfg, m, r.terms, kind, choice) &&
      match choice
      case Chosen(x, _) => SlotAnswer(cfg, m, r, x, reply)
      case Conflict(status) => Refuses(reply, status)
      case Unsuited => false
  }

  /** The answer to a Forward Open. */
  ghost predicate Answer(cfg: Config, m: Model, r: Request, reply: Reply) {
    if !HeadPasses(cfg, m, r.terms) then HeadAnswer(cfg, m, r.terms, reply)
    else match r.target
      case MessageRouter => MessagingAnswer(cfg, m, reply)
      case Assembly => IoAnswer(cfg, m, r, reply)
  }

  lemma IoVerdict(cfg: Config, m: Model, r: Request)
    requires Inv(cfg, m) && cfg.Valid()
    ensures IoAnswer(cfg, m, r, EstablishIo(cfg, m, r).1)
  {
    var (kind, choice) := Select(cfg, m, r.terms);
    SelectVerdict(cfg, m, r.terms);
    NeverUnsuited(cfg, m, r.terms);
    if choice.Chosen? {
      SlotVerdict(cfg, m, r);
    }
  }

  lemma NeverUnsuited(cfg: Config, m: Model, t: Terms)
    ensures !Select(cfg, m, t).1.Unsuited?
  {}

  /** Every Forward Open gets the answer that the table of connections, the configured points and the
      assemblies demand, and no other. */
  lemma OpenAnswers(cfg: Config, m: Model, r: Request)
    requires Inv(cfg, m) && cfg.Valid()
    ensures Answer(cfg, m, r, Open(cfg, m, r).1)
  {
    HeadVerdict(cfg, m, r.terms);
    if HeadPasses(cfg, m, r.terms) {
      match r.target
      case MessageRouter => ExplicitVerdict(m, 0, cfg.explicits);
      case Assembly => IoVerdict(cfg, m, r);
    }
  }

  // ----- when a request is opened -----

  lemma SlotOfUnique(m: Model, kind: Kind, i: nat, count: nat, o: Originator, a: Choice, b: Choice)
    requires SlotOf(m, kind, i, count, o, a) && SlotOf(m, kind, i, count, o, b)
    ensures a == b
  {}

  lemma PointOfUnique(m: Model, t: Terms, kind: Kind, points: seq<Point>, count: nat, a: Choice, b: Choice)
    requires PointOf(m, t, kind, points, count, a) && PointOf(m, t, kind, points, count, b)
    ensures a == b
  {
    if !NoneWhole(points, t) {
      var i :| 0 <= i < |points| && FirstWhole(points, t, i) &&
        if kind.ListenOnly? && !Produced(m, t.input) then a == Conflict(0x0119)
        else SlotOf(m, kind, i, count, t.triad.originator, a);
      var j :| 0 <= j < |points| && FirstWhole(points, t, j) &&
        if kind.ListenOnly? && !Produced(m, t.input) then b == Conflict(0x0119)
        else SlotOf(m, kind, j, count, t.triad.originator, b);
      assert i == j;
      if !(kind.ListenOnly? && !Produced(m, t.input)) {
        SlotOfUnique(m, kind, i, count, t.triad.originator, a, b);
      }
    }
  }

  lemma OwnerSlotUnique(cfg: Config, m: Model, t: Terms, a: Choice, b: Choice)
    requires OwnerSlot(cfg, m, t, a) && OwnerSlot(cfg, m, t, b)
    ensures a == b
  {}

  /** The search for a slot has one outcome. */
  lemma SlotSearchUnique(cfg: Config, m: Model, t: Terms, kind: Kind, a: Choice, other: Kind, b: Choice)
    requires SlotSearch(cfg, m, t, kind, a) && SlotSearch(cfg, m, t, other, b)
    ensures a == b
  {
    if !NoneWhole(cfg.owners, t) {
      OwnerSlotUnique(cfg, m, t, a, b);
    } else if !NoneOutput(cfg.inputs, t) {
      PointOfUnique(m, t, InputOnly, cfg.inputs, cfg.inputsPerPoint, a, b);
    } else if !NoneOutput(cfg.listens, t) {
      PointOfUnique(m, t, ListenOnly, cfg.listens, cfg.listensPerPoint, a, b);
    }
  }

  /** No connection of the input assembly, outside the slot x, differs in what a group shares. */
  ghost predicate Agreeable(m: Model, t: Terms, x: Slot) {
    forall y :: y in m.conns && y != x && m.conns[y].terms.input == t.input ==>
      !Differs(t.(inhibit := Inhibit(t)), m.conns[y].terms)
  }

  lemma NothingClashes(cfg: Config, m: Model, r: Request, x: Slot, m2: Model, t: Terms)
    requires Inv(cfg, m) && Agreeable(m, r.terms, x) && Vacated(m, x, m2) && AsAsked(t, r)
    ensures NoClash(m2, t)
  {
    if x in m.conns {
      CloseKeeps(cfg, m, x);
    }
    forall i | 0 <= i < |m2.active| ensures !Clashes(m2, t, i) {
      var y := m2.active[i];
      assert y in m2.conns ==> y in m.conns && m2.conns[y].terms == m.conns[y].terms && (x in m.conns ==> y != x);
      assert y in m2.conns && y == x ==> x !in m.conns;
    }
  }

  /** A request with everything else in order is opened exactly if both sizes fit. */
  lemma OpenedIffSizesFit(cfg: Config, m: Model, r: Request, kind: Kind, x: Slot, evict: bool)
    requires Inv(cfg, m) && cfg.Valid() && r.target == Assembly && HeadPasses(cfg, m, r.terms)
    requires SlotSearch(cfg, m, r.terms, kind, Chosen(x, evict)) && InhibitFits(r.terms)
    requires r.terms.oToT != NullLink && r.terms.output in cfg.assemblies
    requires r.terms.tToO != NullLink && r.terms.input in cfg.assemblies
    requires r.terms.tToO == Multicast ==> Agreeable(m, r.terms, x)
    requires r.configStatus == 0 && ItemsServe(r)
    ensures Open(cfg, m, r).1.Opened? <==>
      && SizeFits(cfg.assemblies[r.terms.output], r.oToTSize, r.terms.transport, cfg.consumeRunIdle)
      && SizeFits(cfg.assemblies[r.terms.input], r.tToOSize, r.terms.transport, cfg.produceRunIdle)
  {
    OpenAnswers(cfg, m, r);
    var reply := Open(cfg, m, r).1;
    var other, choice :| SlotSearch(cfg, m, r.terms, other, choice) &&
      match choice
      case Chosen(y, _) => SlotAnswer(cfg, m, r, y, reply)
      case Conflict(status) => Refuses(reply, status)
      case Unsuited => false;
    SlotSearchUnique(cfg, m, r.terms, kind, Chosen(x, evict), other, choice);
    var m2, t :| Vacated(m, x, m2) && AsAsked(t, r) && SetupAnswer(cfg, m2, t, r, reply);
    if r.terms.tToO == Multicast {
      NothingClashes(cfg, m, r, x, m2, t);
    }
  }

  // ----- what is opened -----

  /** The larger of the regular watchdog and ten seconds. */
  function FirstWatchdog(t: Terms): nat {
    if Watchdog(t) < 10_000 then 10_000 else Watchdog(t)
  }

  /** The id behind a counter that has handed out `count` more. */
  function IdAfter(cfg: Config, counter: nat, count: nat): nat {
    cfg.incarnation * 0x1_0000 + (counter + count) % 0x1_0000
  }

  /** A connection that starts: Established, its watchdog loaded, its timers and counts at 0. */
  predicate Starts(c: Connection) {
    && c.state == Established && c.watchdog == FirstWatchdog(c.terms)
    && c.lastPackage == c.transmission == c.eipProducing == c.eipConsuming == 0 && !c.eipReceived
  }

  /** A messaging connection starts with the terms that were asked for; a point-to-point O->T link has the
      next id. */
  lemma MessagingStarts(cfg: Config, m: Model, r: Request)
    requires r.target == MessageRouter && Open(cfg, m, r).1.Opened?
    ensures var m1 := Open(cfg, m, r).0;
      && m1.active != [] && m1.active[0] in m1.conns
      && var c := m1.conns[m1.active[0]];
      && Starts(c) && !c.producing && c.terms.kind == ExplicitMessaging
      && (r.terms.oToT == PointToPoint ==> c.terms.consumedId == IdAfter(cfg, m.lastId, 1))
      && c.terms == r.terms.(kind := ExplicitMessaging, consuming := false,
           consumedId := if r.terms.oToT == PointToPoint then c.terms.consumedId else r.terms.consumedId,
           producedId := if r.terms.tToO == Multicast then c.terms.producedId else r.terms.producedId)
  {}

  /** The holder of the group that a request meets once its slot is vacated. */
  ghost predicate Met(m: Model, r: Request, x: Slot, h: Slot) {
    var m2 := if x in m.conns then Close(m, x) else m;
    Holds(m2, h, r.terms.input)
  }

  /** The terms that were asked for, but for what the target decides. */
  predicate AskedFor(t: Terms, r: Request) {
    t == r.terms.(kind := t.kind, consuming := true, inhibit := Inhibit(r.terms), consumedId := t.consumedId,
      producedId := if r.terms.tToO == Multicast then t.producedId else r.terms.producedId)
  }

  /** An I/O connection starts with the terms that were asked for: its kind is that of the point, it
      consumes, and a point-to-point O->T link has the next id. */
  lemma IoStarts(cfg: Config, m: Model, r: Request)
    requires Inv(cfg, m) && cfg.Valid() && r.target == Assembly && Open(cfg, m, r).1.Opened?
    requires r.terms.oToT == PointToPoint && r.terms.tToO in {Multicast, PointToPoint}
    ensures var m1 := Open(cfg, m, r).0;
      && m1.active != [] && m1.active[0] in m1.conns
      && var (x, c) := (m1.active[0], m1.conns[m1.active[0]]);
      && SlotSearch(cfg, m, r.terms, c.terms.kind, Chosen(x, x in m.conns))
      && Starts(c) && AskedFor(c.terms, r) && c.terms.consumedId == IdAfter(cfg, m.lastId, 1)
  {
    OpenedIs(cfg, m, r);
    SlotTaken(cfg, m, r);
    ConfiguredStarts(cfg, m, r);
    AdmitAsked(Admission(cfg, m, r).0, Select(cfg, m, r.terms).1.slot, Admission(cfg, m, r).1, r);
  }

  lemma AdmitAsked(m: Model, x: Slot, c: Connection, r: Request)
    requires c == Fresh(c.terms) && Starts(c) && AskedFor(c.terms, r) && r.terms.tToO in {Multicast, PointToPoint}
    ensures var m1 := Admit(m, x, c);
      && m1.active != [] && m1.active[0] == x && x in m1.conns
      && var d := m1.conns[x];
      && Starts(d) && AskedFor(d.terms, r)
      && d.terms.kind == c.terms.kind && d.terms.consumedId == c.terms.consumedId
  {
    AdmitStarts(m, x, c);
  }

  /** It produces unless it joins a group without owning it, and starts a group under the id after. */
  lemma IoProduces(cfg: Config, m: Model, r: Request)
    requires Inv(cfg, m) && cfg.Valid() && r.target == Assembly && Open(cfg, m, r).1.Opened?
    requires r.terms.oToT == PointToPoint && r.terms.tToO in {Multicast, PointToPoint}
    ensures var m1 := Open(cfg, m, r).0;
      && m1.active != [] && m1.active[0] in m1.conns
      && var (x, c) := (m1.active[0], m1.conns[m1.active[0]]);
      && (c.producing <==>
           r.terms.tToO == PointToPoint || c.terms.kind == ExclusiveOwner || forall h :: !Met(m, r, x, h))
      && (r.terms.tToO == Multicast && (forall h :: !Met(m, r, x, h)) ==>
            c.terms.producedId == IdAfter(cfg, m.lastId, 2))
  {
    OpenedIs(cfg, m, r);
    ConfiguredStarts(cfg, m, r);
    HolderVerdict(cfg, m, r);
    AdmitStarts(Admission(cfg, m, r).0, Select(cfg, m, r.terms).1.slot, Admission(cfg, m, r).1);
  }

  /** An I/O request that is opened is admitted. */
  lemma OpenedIs(cfg: Config, m: Model, r: Request)
    requires r.target == Assembly && Open(cfg, m, r).1.Opened?
    ensures Select(cfg, m, r.terms).1.Chosen? && InhibitTime(r.terms) == Some(Inhibit(r.terms))
    ensures var (m2, c) := Admission(cfg, m, r); Open(cfg, m, r).0 == Admit(m2, Select(cfg, m, r.terms).1.slot, c)
  {
    OpenedIfAcceptable(cfg, m, r);
    InhibitVerdict(r.terms);
    EstablishIoShape(cfg, m, r);
  }

  lemma SlotTaken(cfg: Config, m: Model, r: Request)
    requires Inv(cfg, m) && cfg.Valid() && Select(cfg, m, r.terms).1.Chosen?
    ensures var (kind, choice) := Select(cfg, m, r.terms);
      SlotSearch(cfg, m, r.terms, kind, Chosen(choice.slot, choice.slot in m.conns))
  {
    SelectVerdict(cfg, m, r.terms);
    SelectReady(cfg, m, r.terms);
  }

  /** The counter does not move when a connection is closed. */
  lemma CloseKeepsCounter(m: Model, x: Slot)
    requires x in m.conns
    ensures Close(m, x).lastId == m.lastId
  {}

  lemma ConfiguredStarts(cfg: Config, m: Model, r: Request)
    requires Select(cfg, m, r.terms).1.Chosen? && InhibitTime(r.terms) == Some(Inhibit(r.terms))
    requires r.terms.oToT == PointToPoint && r.terms.tToO in {Multicast, PointToPoint}
    ensures var c := Admission(cfg, m, r).1;
      && c == Fresh(c.terms) && Starts(c) && AskedFor(c.terms, r)
      && c.terms.kind == Select(cfg, m, r.terms).0 && c.terms.consumedId == IdAfter(cfg, m.lastId, 1)
      && (r.terms.tToO == Multicast ==> c.terms.producedId == IdAfter(cfg, m.lastId, 2))
  {
    ConfiguredIs(cfg, m, r);
    IdentifyNext(cfg, r.terms.(kind := Select(cfg, m, r.terms).0, inhibit := Inhibit(r.terms)), m.lastId);
  }

  lemma ConfiguredIs(cfg: Config, m: Model, r: Request)
    requires Select(cfg, m, r.terms).1.Chosen? && InhibitTime(r.terms) == Some(Inhibit(r.terms))
    requires r.terms.oToT == PointToPoint
    ensures var asked := r.terms.(kind := Select(cfg, m, r.terms).0, inhibit := Inhibit(r.terms));
      var t := Identify(cfg, asked, m.lastId).0;
      Admission(cfg, m, r).1 == Fresh(t.(consuming := true))
  {
    var (kind, Chosen(x, evict)) := Select(cfg, m, r.terms);
    if evict && x in m.conns {
      CloseKeepsCounter(m, x);
    }
  }

  lemma IdentifyNext(cfg: Config, t: Terms, last: nat)
    requires t.oToT == PointToPoint
    ensures Identify(cfg, t, last).0 == t.(consumedId := IdAfter(cfg, last, 1),
      producedId := if t.tToO == Multicast then IdAfter(cfg, last, 2) else t.producedId)
  {
    assert ((last + 1) % UINT16 + 1) % UINT16 == (last + 2) % UINT16;
  }

  lemma HolderVerdict(cfg: Config, m: Model, r: Request)
    requires Inv(cfg, m) && cfg.Valid() && Select(cfg, m, r.terms).1.Chosen? && InhibitTime(r.terms).Some?
    ensures var (x, m2) := (Select(cfg, m, r.terms).1.slot, Admission(cfg, m, r).0);
      Search(m2, ProducerOf(r.terms.input, true)).None? <==> forall h :: !Met(m, r, x, h)
  {
    SelectReady(cfg, m, r.terms);
    var x := Select(cfg, m, r.terms).1.slot;
    var m1 := if x in m.conns then Close(m, x) else m;
    if x in m.conns {
      CloseKeeps(cfg, m, x);
    }
    HolderFound(m1, r.terms.input);
    SameProducer(m1, Admission(cfg, m, r).0, r.terms.input);
    assert forall h :: Met(m, r, x, h) <==> Holds(m1, h, r.terms.input);
  }

  lemma AdmitStarts(m: Model, x: Slot, c: Connection)
    requires c == Fresh(c.terms) && c.terms.tToO in {Multicast, PointToPoint}
    ensures var m1 := Admit(m, x, c);
      && m1.active != [] && m1.active[0] == x && x in m1.conns
      && var (d, e) := (m1.conns[x], Search(m, ProducerOf(c.terms.input, true)));
      && d == c.(producing := d.producing, terms := c.terms.(producedId := d.terms.producedId))
      && (d.producing <==> c.terms.tToO == PointToPoint || c.terms.kind == ExclusiveOwner || e.None?)
      && d.terms.producedId == (if c.terms.tToO == Multicast && e.Some? then m.conns[e.value].terms.producedId
                                else c.terms.producedId)
  {}
}
