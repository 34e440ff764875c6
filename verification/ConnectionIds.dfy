/** The connection ids that the target hands out. */
module ConnectionIds {
  import opened Connections
  import opened ConnectionModel
  import opened ConnectionInvariants
  import opened ConnectionOpening
  import opened ConnectionReplies
  import opened ConnectionRuns
  import opened ConnectionTicks
  import opened Widths

  function One(b: bool): nat {
    if b then 1 else 0
  }

  /** The ids that a request asks the target for: O->T point-to-point and T->O multicast. */
  function AskedIds(e: Event): nat {
    if e.ForwardOpen? then One(e.request.terms.oToT == PointToPoint) + One(e.request.terms.tToO == Multicast) else 0
  }

  function AllAskedIds(events: seq<Event>): nat {
    if events == [] then 0 else AllAskedIds(events[..|events| - 1]) + AskedIds(events[|events| - 1])
  }

  /** The connection in x consumes under an id of the target. */
  predicate HasId(m: Model, x: Slot) {
    x in m.conns && m.conns[x].terms.oToT == PointToPoint
  }

  /** The id carries the incarnation and is one of the last `count` that were handed out. */
  predicate Recent(cfg: Config, lastId: nat, id: nat, count: nat) {
    id / 0x1_0000 == cfg.incarnation && (lastId - id) % 0x1_0000 < count
  }

  ghost predicate IdsRecent(cfg: Config, m: Model, count: nat) {
    forall x :: HasId(m, x) ==> Recent(cfg, m.lastId, m.conns[x].terms.consumedId, count)
  }

  ghost predicate IdsDistinct(m: Model) {
    forall x, y :: HasId(m, x) && HasId(m, y) && x != y ==> m.conns[x].terms.consumedId != m.conns[y].terms.consumedId
  }

  /** The counter after `more` ids. */
  predicate CountedOn(last: nat, last1: nat, more: nat) {
    last1 == (last + more) % 0x1_0000 || last1 == last
  }

  lemma DifferenceOfRemainders(a: int, b: int)
    ensures (a % 0x1_0000 - b % 0x1_0000) % 0x1_0000 == (a - b) % 0x1_0000
  {}

  /** An id is a number in its lower half. */
  lemma IdHalves(incarnation: nat, counter: nat, last: int)
    requires counter < 0x1_0000
    ensures (incarnation * 0x1_0000 + counter) / 0x1_0000 == incarnation
    ensures (last - (incarnation * 0x1_0000 + counter)) % 0x1_0000 == (last - counter) % 0x1_0000
  {
    DifferenceOfRemainders(last, incarnation * 0x1_0000 + counter);
    DifferenceOfRemainders(last, counter);
  }

  lemma AgeAfter(last: nat, more: nat, id: nat)
    ensures ((last + more) % 0x1_0000 - id) % 0x1_0000 == ((last - id) % 0x1_0000 + more) % 0x1_0000
  {
    DifferenceOfRemainders(last + more, id);
    DifferenceOfRemainders((last + more) % 0x1_0000, id);
  }

  lemma StillRecent(cfg: Config, last: nat, last1: nat, id: nat, count: nat, more: nat)
    requires Recent(cfg, last, id, count) && CountedOn(last, last1, more) && count + more < 0x1_0000
    ensures Recent(cfg, last1, id, count + more)
  {
    if last1 != last {
      AgeAfter(last, more, id);
    }
  }

  lemma NextIsOldest(cfg: Config, last: nat)
    ensures (last - IdAfter(cfg, last, 1)) % 0x1_0000 == 0xFFFF
  {
    IdHalves(cfg.incarnation, (last + 1) % 0x1_0000, last);
    DifferenceOfRemainders(last, last + 1);
    DifferenceOfRemainders(last, (last + 1) % 0x1_0000);
  }

  lemma FirstIsRecent(cfg: Config, last: nat, count: nat, more: nat)
    requires count + more < 0x1_0000 && 1 <= more
    ensures Recent(cfg, (last + more) % 0x1_0000, IdAfter(cfg, last, 1), count + more)
  {
    IdHalves(cfg.incarnation, (last + 1) % 0x1_0000, (last + more) % 0x1_0000);
    DifferenceOfRemainders(last + more, last + 1);
  }

  /** A new id is none of the recent ones. */
  lemma NewerThanRecent(cfg: Config, last: nat, id: nat, count: nat, more: nat)
    requires Recent(cfg, last, id, count) && count + more < 0x1_0000 && 1 <= more
    ensures var (last1, newest) := ((last + more) % 0x1_0000, IdAfter(cfg, last, 1));
      newest != id && Recent(cfg, last1, newest, count + more)
  {
    FirstIsRecent(cfg, last, count, more);
    NextIsOldest(cfg, last);
  }

  // ----- a step -----

  /** Whoever is left has its terms. */
  ghost predicate Left(m: Model, m1: Model) {
    forall y :: y in m1.conns ==> y in m.conns && m1.conns[y].terms == m.conns[y].terms
  }

  lemma LeftKeepIds(cfg: Config, m: Model, m1: Model, count: nat, more: nat)
    requires IdsRecent(cfg, m, count) && IdsDistinct(m) && Left(m, m1)
    requires CountedOn(m.lastId, m1.lastId, more) && count + more < 0x1_0000
    ensures IdsRecent(cfg, m1, count + more) && IdsDistinct(m1)
  {
    forall x | HasId(m1, x) ensures Recent(cfg, m1.lastId, m1.conns[x].terms.consumedId, count + more) {
      assert HasId(m, x);
      StillRecent(cfg, m.lastId, m1.lastId, m.conns[x].terms.consumedId, count, more);
    }
    forall x, y | HasId(m1, x) && HasId(m1, y) && x != y
      ensures m1.conns[x].terms.consumedId != m1.conns[y].terms.consumedId
    {
      assert HasId(m, x) && HasId(m, y);
    }
  }

  /** One connection joins those that are left, under the next id if it has one. */
  ghost predicate Joins(cfg: Config, m: Model, m1: Model, x: Slot) {
    && (forall y :: y in m1.conns && y != x ==> y in m.conns && m1.conns[y].terms == m.conns[y].terms)
    && (HasId(m1, x) ==> m1.conns[x].terms.consumedId == IdAfter(cfg, m.lastId, 1))
  }

  lemma JoinKeepsIds(cfg: Config, m: Model, m1: Model, x: Slot, count: nat, more: nat)
    requires IdsRecent(cfg, m, count) && IdsDistinct(m) && Joins(cfg, m, m1, x)
    requires CountedOn(m.lastId, m1.lastId, more) && count + more < 0x1_0000
    requires HasId(m1, x) ==> 1 <= more && m1.lastId == (m.lastId + more) % 0x1_0000
    ensures IdsRecent(cfg, m1, count + more) && IdsDistinct(m1)
  {
    forall y | HasId(m1, y)
      ensures Recent(cfg, m1.lastId, m1.conns[y].terms.consumedId, count + more)
      ensures HasId(m1, x) && y != x ==> m1.conns[x].terms.consumedId != m1.conns[y].terms.consumedId
    {
      if y == x {
        FirstIsRecent(cfg, m.lastId, count, more);
      } else {
        assert HasId(m, y);
        var id := m.conns[y].terms.consumedId;
        StillRecent(cfg, m.lastId, m1.lastId, id, count, more);
        if HasId(m1, x) {
          NewerThanRecent(cfg, m.lastId, id, count, more);
        }
      }
    }
    forall y, z | HasId(m1, y) && HasId(m1, z) && y != z
      ensures m1.conns[y].terms.consumedId != m1.conns[z].terms.consumedId
    {
      assert y != x ==> HasId(m, y);
      assert z != x ==> HasId(m, z);
    }
  }

  lemma IdentifyCounts(cfg: Config, t: Terms, last: nat)
    ensures var more := One(t.oToT == PointToPoint) + One(t.tToO == Multicast);
      Identify(cfg, t, last).1 == if more == 0 then last else (last + more) % 0x1_0000
  {
    assert ((last + 1) % UINT16 + 1) % UINT16 == (last + 2) % UINT16;
  }

  lemma AdmissionCounts(cfg: Config, m: Model, r: Request)
    requires Select(cfg, m, r.terms).1.Chosen? && InhibitTime(r.terms).Some?
    ensures CountedOn(m.lastId, Admission(cfg, m, r).0.lastId, AskedIds(ForwardOpen(r)))
    ensures AskedIds(ForwardOpen(r)) > 0 ==>
      Admission(cfg, m, r).0.lastId == (m.lastId + AskedIds(ForwardOpen(r))) % 0x1_0000
  {
    var (kind, Chosen(x, evict)) := Select(cfg, m, r.terms);
    IdentifyCounts(cfg, r.terms.(kind := kind, inhibit := InhibitTime(r.terms).value), m.lastId);
    if evict && x in m.conns {
      CloseKeepsCounter(m, x);
    }
  }

  lemma AdmitKeepsCounter(m: Model, x: Slot, c: Connection)
    ensures Admit(m, x, c).lastId == m.lastId
  {}

  /** A Forward Open moves the counter on by the ids it asks for, or not at all if it is refused. */
  lemma OpenCounts(cfg: Config, m: Model, r: Request)
    ensures var (m1, reply) := Open(cfg, m, r);
      && CountedOn(m.lastId, m1.lastId, AskedIds(ForwardOpen(r)))
      && (reply.Opened? && AskedIds(ForwardOpen(r)) > 0 ==>
            m1.lastId == (m.lastId + AskedIds(ForwardOpen(r))) % 0x1_0000)
  {
    if EarlyRefusal(cfg, m, r.terms) == 0 {
      if r.target.MessageRouter? {
        IdentifyCounts(cfg, r.terms.(kind := ExplicitMessaging, consuming := false), m.lastId);
      } else {
        EstablishCounts(cfg, m, r);
      }
    }
  }

  lemma EstablishCounts(cfg: Config, m: Model, r: Request)
    ensures var (m1, reply) := EstablishIo(cfg, m, r);
      && CountedOn(m.lastId, m1.lastId, AskedIds(ForwardOpen(r)))
      && (reply.Opened? && AskedIds(ForwardOpen(r)) > 0 ==>
            m1.lastId == (m.lastId + AskedIds(ForwardOpen(r))) % 0x1_0000)
  {
    var choice := Select(cfg, m, r.terms).1;
    if choice.Chosen? {
      if InhibitTime(r.terms).Some? {
        EstablishIoShape(cfg, m, r);
        AdmissionCounts(cfg, m, r);
        AdmitKeepsCounter(Admission(cfg, m, r).0, choice.slot, Admission(cfg, m, r).1);
      } else if choice.evict && choice.slot in m.conns {
        CloseKeepsCounter(m, choice.slot);
      }
    }
  }

  /** A request that is opened puts one connection in front, under the next id if it consumes
      point-to-point; the terms of the others stay. */
  lemma OpenedJoins(cfg: Config, m: Model, r: Request)
    requires Inv(cfg, m) && cfg.Valid() && InScope(cfg, r) && Open(cfg, m, r).1.Opened?
    ensures var m1 := Open(cfg, m, r).0;
      && m1.active != [] && m1.active[0] in m1.conns && Joins(cfg, m, m1, m1.active[0])
      && m1.conns[m1.active[0]].terms.oToT == r.terms.oToT
  {
    OpenPlaces(cfg, m, r);
    if r.target.MessageRouter? {
      MessagingStarts(cfg, m, r);
    } else {
      IoStarts(cfg, m, r);
    }
  }

  lemma OpenKeepsIds(cfg: Config, m: Model, r: Request, count: nat)
    requires Inv(cfg, m) && cfg.Valid() && InScope(cfg, r) && IdsRecent(cfg, m, count) && IdsDistinct(m)
    requires count + AskedIds(ForwardOpen(r)) < 0x1_0000
    ensures var m1 := Open(cfg, m, r).0;
      IdsRecent(cfg, m1, count + AskedIds(ForwardOpen(r))) && IdsDistinct(m1)
  {
    var (m1, reply) := Open(cfg, m, r);
    var more := AskedIds(ForwardOpen(r));
    OpenCounts(cfg, m, r);
    if reply.Refused? {
      RefusedOpenOnlyCloses(cfg, m, r);
      LeftKeepIds(cfg, m, m1, count, more);
    } else {
      OpenedJoins(cfg, m, r);
      JoinKeepsIds(cfg, m, m1, m1.active[0], count, more);
    }
  }

  lemma {:induction false} SessionsKeepCounter(m: Model, sessions: seq<nat>)
    ensures CloseSessions(m, sessions).lastId == m.lastId
    decreases |sessions|
  {
    if sessions != [] {
      if Search(m, MessagingOf(sessions[0])).Some? {
        CloseKeepsCounter(m, Search(m, MessagingOf(sessions[0])).value);
      }
      SessionsKeepCounter(CloseSession(m, sessions[0]), sessions[1..]);
    }
  }

  lemma TimeOutKeepsCounter(m: Model, x: Slot, environment: Environment)
    requires x in m.conns
    ensures TimeOut(m, x, environment).lastId == m.lastId
  {
    if IsIo(m.conns[x]) {
      var m0 := Retire(m, x, TimedOut);
      var m1 := EndOriginator(m0, x, environment);
      SessionsKeepCounter(m0, SessionsOf(environment, x));
      assert m1.lastId == m.lastId;
    }
  }

  lemma ProcessKeepsCounter(cfg: Config, m: Model, x: Slot, elapsed: nat, environment: Environment)
    requires cfg.tick > 0 && x in m.conns
    ensures Process(cfg, m, x, elapsed, environment).lastId == m.lastId
  {
    TimeOutKeepsCounter(m, x, environment);
  }

  lemma {:induction false} TickKeepsCounter(cfg: Config, m: Model, rest: seq<Slot>, elapsed: nat,
                                            environment: Environment)
    requires cfg.tick > 0
    ensures TickOver(cfg, m, rest, elapsed, environment).lastId == m.lastId
    decreases |rest|
  {
    if rest != [] {
      if rest[0] in m.conns {
        var m1 := Process(cfg, m, rest[0], elapsed, environment);
        ProcessKeepsCounter(cfg, m, rest[0], elapsed, environment);
        if rest[0] in m1.conns {
          TickKeepsCounter(cfg, m1, rest[1..], elapsed, environment);
        }
      } else {
        TickKeepsCounter(cfg, m, rest[1..], elapsed, environment);
      }
    }
  }

  lemma CloseLeaves(cfg: Config, m: Model, x: Slot)
    requires Inv(cfg, m) && x in m.conns
    ensures Left(m, Close(m, x)) && Close(m, x).lastId == m.lastId
  {
    CloseKeeps(cfg, m, x);
    CloseKeepsCounter(m, x);
  }

  lemma CloseTriadLeaves(cfg: Config, m: Model, triad: Triad, address: bv32)
    requires Inv(cfg, m)
    ensures var m1 := CloseByTriad(m, triad, address).0; Left(m, m1) && m1.lastId == m.lastId
  {
    if Search(m, ListedTriad(triad)).Some? {
      CloseLeaves(cfg, m, Search(m, ListedTriad(triad)).value);
    }
  }

  lemma CloseSessionLeaves(cfg: Config, m: Model, session: nat)
    requires Inv(cfg, m)
    ensures var m1 := CloseSession(m, session); Left(m, m1) && m1.lastId == m.lastId
  {
    if Search(m, MessagingOf(session)).Some? {
      CloseLeaves(cfg, m, Search(m, MessagingOf(session)).value);
    }
  }

  lemma ArrivalLeaves(cfg: Config, m: Model, e: Event)
    requires cfg.tick > 0 && (e.Receive? || e.ExplicitRequest?)
    ensures var m1 := Step(cfg, m, e); Left(m, m1) && m1.lastId == m.lastId
  {}

  /** No other event hands out an id or changes the terms of a connection that it leaves. */
  lemma OthersLeave(cfg: Config, m: Model, e: Event)
    requires Inv(cfg, m) && cfg.Valid() && !e.ForwardOpen?
    ensures var m1 := Step(cfg, m, e); Left(m, m1) && m1.lastId == m.lastId
  {
    match e
    case ForwardClose(triad, address) => CloseTriadLeaves(cfg, m, triad, address);
    case Tick(elapsed, environment) =>
      TickKeepsTerms(cfg, m, m.active, elapsed, environment);
      TickKeepsCounter(cfg, m, m.active, elapsed, environment);
    case Receive(_, _, _) => ArrivalLeaves(cfg, m, e);
    case ExplicitRequest(_) => ArrivalLeaves(cfg, m, e);
    case EndSession(session) => CloseSessionLeaves(cfg, m, session);
    case ReceiveFailure(x) =>
      if x in m.conns {
        CloseLeaves(cfg, m, x);
      }
    case CloseAll =>
  }

  lemma StepKeepsIds(cfg: Config, m: Model, e: Event, count: nat)
    requires Inv(cfg, m) && cfg.Valid() && EventInScope(cfg, e) && IdsRecent(cfg, m, count) && IdsDistinct(m)
    requires count + AskedIds(e) < 0x1_0000
    ensures var m1 := Step(cfg, m, e); IdsRecent(cfg, m1, count + AskedIds(e)) && IdsDistinct(m1)
  {
    if e.ForwardOpen? {
      OpenKeepsIds(cfg, m, e.request, count);
    } else {
      OthersLeave(cfg, m, e);
      LeftKeepIds(cfg, m, Step(cfg, m, e), count, 0);
    }
  }

  // ----- runs -----

  /** In every run from boot that asks for fewer than 2^16 ids, no two listed connections consume under
      one id of the target, and every such id carries the incarnation in its upper half. */
  lemma {:induction false} IdsDiffer(cfg: Config, events: seq<Event>)
    requires cfg.Valid() && EventsInScope(cfg, events) && AllAskedIds(events) < 0x1_0000
    ensures var m := Run(cfg, Boot, events); IdsRecent(cfg, m, AllAskedIds(events)) && IdsDistinct(m)
  {
    if events != [] {
      var before := events[..|events| - 1];
      IdsDiffer(cfg, before);
      RunKeeps(cfg, before);
      StepKeepsIds(cfg, Run(cfg, Boot, before), events[|events| - 1], AllAskedIds(before));
    }
  }

  /** The first connection after boot that consumes point-to-point has 19 in the lower half. */
  lemma FirstId(cfg: Config, r: Request)
    requires cfg.Valid() && InScope(cfg, r) && r.terms.oToT == PointToPoint && Open(cfg, Boot, r).1.Opened?
    ensures Open(cfg, Boot, r).1.consumedId == cfg.incarnation * 0x1_0000 + 19
  {
    RunKeeps(cfg, []);
    OpenPlaces(cfg, Boot, r);
    OpenedJoins(cfg, Boot, r);
  }

  // ----- whom an id reaches -----

  /** The connection in x is Established and consumes under the id. */
  predicate Answers(m: Model, id: nat, x: Slot) {
    x in m.conns && m.conns[x].state == Established && m.conns[x].terms.consumedId == id
  }

  /** The first listed one. */
  ghost predicate FirstAnswers(m: Model, id: nat, x: Slot) {
    exists i :: 0 <= i < |m.active| && m.active[i] == x && AnswersAt(m, id, i)
  }

  ghost predicate AnswersAt(m: Model, id: nat, i: nat)
    requires i < |m.active|
  {
    Answers(m, id, m.active[i]) && forall j :: 0 <= j < i ==> !Answers(m, id, m.active[j])
  }

  /** The search for a consumer finds the first listed one. */
  lemma ConsumerFound(m: Model, id: nat, x: Slot)
    ensures Search(m, ConsumerOf(id)) == Some(x) <==> FirstAnswers(m, id, x)
  {
    var i := FirstAtPosition(m.active, m.conns, ConsumerOf(id));
    forall j | 0 <= j < |m.active| ensures Answers(m, id, m.active[j]) <==>
        m.active[j] in m.conns && Hit(ConsumerOf(id), m.active[j], m.conns[m.active[j]]) {}
    if i < |m.active| && Search(m, ConsumerOf(id)).Some? {
      assert AnswersAt(m, id, i);
    }
  }

  /** A packet, or an explicit request, reaches the first Established connection that consumes under its
      id; a packet counts only if it comes from the address of that connection's originator. */
  lemma ArrivalsFind(m: Model, e: Event, x: Slot)
    ensures e.Receive? ==> (Reaches(m, e, x) <==> FirstAnswers(m, e.id, x) && m.conns[x].terms.address == e.from)
    ensures e.ExplicitRequest? ==> (Restarts(m, e, x) <==> FirstAnswers(m, e.id, x))
  {
    if e.Receive? || e.ExplicitRequest? {
      ConsumerFound(m, e.id, x);
    }
  }

  /** So in every run from boot that asks for fewer than 2^16 ids, a packet under the id that the target
      gave to an Established connection reaches that connection if it comes from its originator, and
      nobody otherwise, unless an originator chose the same id for another connection. */
  lemma PacketsFindTheirConnection(cfg: Config, events: seq<Event>, x: Slot, sequence: nat, from: bv32, y: Slot)
    requires cfg.Valid() && EventsInScope(cfg, events) && AllAskedIds(events) < 0x1_0000
    requires var m := Run(cfg, Boot, events);
      && HasId(m, x) && m.conns[x].state == Established
      && forall z :: z in m.conns && !HasId(m, z) ==> m.conns[z].terms.consumedId != m.conns[x].terms.consumedId
    ensures var m := Run(cfg, Boot, events);
      Reaches(m, Receive(m.conns[x].terms.consumedId, sequence, from), y) <==>
        y == x && from == m.conns[x].terms.address
  {
    var m := Run(cfg, Boot, events);
    RunKeeps(cfg, events);
    IdsDiffer(cfg, events);
    OnlyAnswer(m, x);
    ArrivalsFind(m, Receive(m.conns[x].terms.consumedId, sequence, from), y);
  }

  lemma OnlyAnswer(m: Model, x: Slot)
    requires Listed(m) && IdsDistinct(m) && HasId(m, x) && m.conns[x].state == Established
    requires forall z :: z in m.conns && !HasId(m, z) ==> m.conns[z].terms.consumedId != m.conns[x].terms.consumedId
    ensures forall y :: FirstAnswers(m, m.conns[x].terms.consumedId, y) <==> y == x
  {
    var id := m.conns[x].terms.consumedId;
    forall y | Answers(m, id, y) ensures y == x {
      assert HasId(m, y);
    }
    var i :| 0 <= i < |m.active| && m.active[i] == x;
    assert AnswersAt(m, id, i);
  }
}
