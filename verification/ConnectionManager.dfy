/** The connection manager as it runs: the list and the slots are changed in place. The list is held as a
    sequence; its nodes, and a walk from node to node, are in `DoublyLinkedList` and `SessionWalk`. Every
    method is tied to a step of the model. */
module ConnectionManager {
  import opened Connections
  import opened ConnectionModel
  import opened ConnectionInvariants
  import opened ConnectionOpening
  import opened ConnectionRuns
  import opened ConnectionTicks
  import DoublyLinkedList
  import opened Widths

  /** The element behind x in the list, what the next link of its node leads to. */
  function Successor(a: seq<Slot>, x: Slot): Option<Slot>
    requires x in a
  {
    if a[0] == x then Head(a[1..]) else Successor(a[1..], x)
  }

  function Head(a: seq<Slot>): Option<Slot> {
    if a == [] then None else Some(a[0])
  }

  lemma {:induction false} SuccessorAt(front: seq<Slot>, x: Slot, rest: seq<Slot>)
    requires x !in front
    ensures Successor(front + [x] + rest, x) == Head(rest)
  {
    var a := front + [x] + rest;
    if front == [] {
      assert a[1..] == rest;
    } else {
      assert a[0] == front[0];
      assert a[1..] == front[1..] + [x] + rest;
      SuccessorAt(front[1..], x, rest);
    }
  }

  /** Unlinking the first node of an element, as the doubly linked list does, is what the model means
      by removing it from the active connections. */
  lemma {:induction false} RemoveDataIsWithout(a: seq<Slot>, x: Slot)
    requires Distinct(a)
    ensures DoublyLinkedList.FirstRemoved(a, x) == Without(a, {x})
  {
    if a != [] {
      if a[0] == x {
        WithoutNothing(a[1..], {x});
      } else {
        RemoveDataIsWithout(a[1..], x);
      }
    }
  }

  lemma WithoutOne(front: seq<Slot>, x: Slot, rest: seq<Slot>)
    requires x !in front && x !in rest
    ensures Without(front + [x] + rest, {x}) == front + rest
  {
    WithoutConcat(front + [x], rest, {x});
    WithoutConcat(front, [x], {x});
    WithoutNothing(front, {x});
    WithoutNothing(rest, {x});
    assert Without([x], {x}) == [];
    assert Without(front + [x], {x}) == front;
  }

  lemma DropTwice(m: Model, s: set<Slot>, t: set<Slot>)
    ensures Drop(Drop(m, s), t) == Drop(m, s + t)
  {
    WithoutTwice(m.active, s, t);
    assert m.conns - s - t == m.conns - (s + t);
  }

  lemma DropNothing(m: Model)
    ensures Drop(m, {}) == m
  {
    WithoutNothing(m.active, {});
    assert m.conns - {} == m.conns;
  }

  /** A close without a group to give up is a removal. */
  lemma CloseIdleIsDrop(m: Model, x: Slot)
    requires x in m.conns && !ControlsGroup(m.conns[x])
    ensures Close(m, x) == Drop(m, {x})
  {
    assert m.conns[x := m.conns[x].(state := NonExistent)] - {x} == m.conns - {x};
  }

  class ConnectionManager {
    const cfg: Config
    var active: seq<Slot>
    var conns: map<Slot, Connection>
    var lastId: nat
    ghost var history: map<nat, seq<Frame>>

    ghost function View(): Model
      reads this
    {
      Model(active, conns, lastId, history)
    }

    ghost predicate Valid()
      reads this
    {
      cfg.Valid() && Inv(cfg, View())
    }

    constructor (cfg: Config)
      requires cfg.Valid()
      ensures Valid() && this.cfg == cfg && View() == Boot
    {
      this.cfg := cfg;
      active, conns, lastId, history := [], map[], 18, map[];
    }

    /** Walks the list for the first connection that a query hits. */
    method Find(q: Query) returns (r: Option<Slot>)
      ensures r == Search(View(), q)
    {
      var i := 0;
      while i < |active|
        invariant 0 <= i <= |active|
        invariant First(active[i..], conns, q) == First(active, conns, q)
      {
        if active[i] in conns && Hit(q, active[i], conns[active[i]]) {
          return Some(active[i]);
        }
        i := i + 1;
      }
      return None;
    }

    /** The next link of the list node of x. */
    method Next(x: Slot) returns (r: Option<Slot>)
      requires x in active
      ensures r == Successor(active, x)
    {
      var i := 0;
      while active[i] != x
        invariant 0 <= i < |active| && x in active[i..]
        invariant Successor(active[i..], x) == Successor(active, x)
        decreases |active| - i
      {
        i := i + 1;
      }
      assert active[i..][1..] == active[i + 1..];
      r := if i + 1 < |active| then Some(active[i + 1]) else None;
    }

    /** Unlinks the first node of x, if there is one. */
    method RemoveFromActiveConnections(x: Slot)
      requires Distinct(active)
      modifies this`active
      ensures active == Without(old(active), {x})
    {
      var i := 0;
      while i < |active|
        invariant 0 <= i <= |active|
        invariant active == old(active)
        invariant x !in active[..i]
      {
        if active[i] == x {
          assert active == active[..i] + [x] + active[i + 1..];
          WithoutOne(active[..i], x, active[i + 1..]);
          active := active[..i] + active[i + 1..];
          return;
        }
        i := i + 1;
      }
      assert active[..|active|] == active;
      WithoutNothing(active, {x});
    }

    /** The slot leaves the list and is emptied. */
    method Remove(x: Slot)
      requires Distinct(active)
      modifies this`active, this`conns
      ensures View() == Drop(old(View()), {x})
    {
      RemoveFromActiveConnections(x);
      conns := conns - {x};
    }

    method SetState(x: Slot, state: State)
      requires x in conns
      modifies this`conns
      ensures View() == Retire(old(View()), x, state)
    {
      conns := conns[x := conns[x].(state := state)];
    }

    /** The producing socket moves to the next master, if there is one. */
    method TransferMaster(x: Slot) returns (done: bool)
      requires x in conns
      modifies this`conns
      ensures var m := old(View()); var next := Search(m, MasterFor(m.conns[x].terms.input));
        && done == next.Some?
        && View() == if done then HandOver(m, x, next.value) else m
    {
      var y := Find(MasterFor(conns[x].terms.input));
      if y.None? {
        return false;
      }
      var c := conns[x];
      conns := conns[y.value := conns[y.value].(producing := c.producing, eipProducing := c.eipProducing,
        transmission := c.transmission)];
      conns := conns[x := c.(producing := false)];
      return true;
    }

    /** Closes every connection of one kind on an input point. The walk saves the next node before
        each close; that node is still on the list afterwards, because nothing that is closed here
        gives up a group. */
    method CloseAllForInput(input: nat, kind: Kind)
      requires Listed(View()) && (kind.InputOnly? || kind.ListenOnly?)
      requires forall y :: y in conns && conns[y].terms.kind == kind && conns[y].terms.input == input ==>
        !ControlsGroup(conns[y])
      modifies this`active, this`conns
      ensures View() == Drop(old(View()), OfKind(old(View()), input, kind))
      decreases if kind.ListenOnly? then 1 else 3, 1
    {
      ghost var (m, k) := (View(), 0);
      WalkStarts(m, input, kind);
      var node := if active == [] then None else Some(active[0]);
      while node.Some?
        invariant 0 <= k <= |m.active| && node == NodeAt(m.active, k)
        invariant View() == Walked(m, k, input, kind)
        decreases |m.active| - k
      {
        node := CloseAndGoOn(node.value, input, kind, m, k);
        k := k + 1;
      }
      WalkEnds(m, k, input, kind);
    }

    /** One stride of that walk, at position k of the list m as it was when the walk began. */
    method CloseAndGoOn(x: Slot, input: nat, kind: Kind, ghost m: Model, ghost k: nat) returns (node: Option<Slot>)
      requires Listed(m) && k < |m.active| && x == m.active[k] && View() == Walked(m, k, input, kind)
      requires kind.InputOnly? || kind.ListenOnly?
      requires forall y :: y in m.conns && m.conns[y].terms.kind == kind && m.conns[y].terms.input == input ==>
        !ControlsGroup(m.conns[y])
      modifies this`active, this`conns
      ensures View() == Walked(m, k + 1, input, kind) && node == NodeAt(m.active, k + 1)
      decreases if kind.ListenOnly? then 1 else 3, 0
    {
      WalkPlace(m, k, input, kind);
      WalkClose(m, k, input, kind);
      node := Next(x);
      if conns[x].terms.kind == kind && conns[x].terms.input == input {
        CloseIoConnection(x);
      }
    }

    /** Closing an I/O connection: its group passes on, or its listeners go with it. */
    method CloseIoConnection(x: Slot)
      requires Listed(View()) && x in conns && IsIo(conns[x])
      modifies this`active, this`conns
      ensures View() == CloseIo(old(View()), x)
      decreases if conns[x].terms.kind.ListenOnly? then 0 else 2
    {
      var c := conns[x];
      SetState(x, NonExistent);
      if c.terms.kind.ExclusiveOwner? || c.terms.kind.InputOnly? {
        if c.terms.tToO.Multicast? && c.producing {
          var done := TransferMaster(x);
          if !done {
            CloseAllForInput(c.terms.input, ListenOnly);
          }
        }
      }
      RelinquishListed(old(View()), x);
      Remove(x);
    }

    /** The close function of a connection. */
    method CloseConnection(x: Slot)
      requires Listed(View()) && x in conns
      modifies this`active, this`conns
      ensures View() == Close(old(View()), x)
    {
      if conns[x].terms.kind != ExplicitMessaging {
        CloseIoConnection(x);
      } else {
        Remove(x);
      }
    }

    /** Closes the first class 3 connection of a session, found by one search. `SessionWalk` has the walk
        over the nodes that comes to the same. */
    method CloseClass3ConnectionBasedOnSession(session: nat)
      requires Valid()
      modifies this`active, this`conns
      ensures Valid() && View() == CloseSession(old(View()), session)
    {
      CloseSessionKeeps(cfg, View(), session);
      var y := Find(MessagingOf(session));
      if y.Some? {
        CloseConnection(y.value);
      }
    }

    method CloseEncapsulationSessions(sessions: seq<nat>)
      requires Valid()
      modifies this`active, this`conns
      ensures Valid() && View() == CloseSessions(old(View()), sessions)
    {
      var i := 0;
      while i < |sessions|
        invariant 0 <= i <= |sessions| && Valid()
        invariant history == old(history) && lastId == old(lastId)
        invariant CloseSessions(View(), sessions[i..]) == CloseSessions(old(View()), sessions)
      {
        assert sessions[i..][1..] == sessions[i + 1..];
        CloseClass3ConnectionBasedOnSession(sessions[i]);
        i := i + 1;
      }
    }

    /** The first half of an I/O time-out. */
    method Expire(x: Slot, environment: Environment)
      requires Valid() && x in conns && IsIo(conns[x])
      modifies this`active, this`conns
      ensures Valid() && View() == EndOriginator(Retire(old(View()), x, TimedOut), x, environment)
      ensures x in conns && conns[x] == old(conns[x]).(state := TimedOut)
    {
      var c := conns[x];
      ExpireKeeps(cfg, View(), x, environment);
      UpdateKeepsInv(cfg, View(), Retire(View(), x, TimedOut), x);
      SetState(x, TimedOut);
      if c.lastPackage == c.watchdog {
        var other := Find(OtherLiveOf(c.terms.triad.originator, x));
        if other.None? {
          CloseEncapsulationSessions(if x in environment.closing then environment.closing[x] else []);
        }
      }
    }

    /** An expired controller passes its group on or dismisses its listeners. */
    method GiveUpGroup(x: Slot) returns (handover: bool)
      requires Valid() && x in conns && ControlsGroup(conns[x]) && conns[x].state == TimedOut
      modifies this`active, this`conns
      ensures Valid() && View() == Relinquish(old(View()), x)
      ensures handover == Search(old(View()), MasterFor(old(conns[x]).terms.input)).Some?
    {
      ExpiredControllerKeeps(cfg, View(), x);
      var input := conns[x].terms.input;
      handover := TransferMaster(x);
      if !handover {
        CloseAllForInput(input, ListenOnly);
      }
    }

    /** With the owner of an input point gone, everything else on the point closes. */
    method CloseDependentsOf(input: nat)
      requires Listed(View())
      requires forall y :: y in conns && conns[y].terms.kind.InputOnly? && conns[y].terms.input == input ==>
        !ControlsGroup(conns[y])
      modifies this`active, this`conns
      ensures View() == CloseDependents(old(View()), input)
    {
      DropSpares(View(), OfKind(View(), input, InputOnly), Owner(0));
      CloseAllForInput(input, InputOnly);
      CloseAllForInput(input, ListenOnly);
    }

    method HandleIoConnectionTimeOut(x: Slot, environment: Environment)
      requires Valid() && x in conns && IsIo(conns[x]) && conns[x].state == Established
      modifies this`active, this`conns
      ensures View() == TimeOutIo(old(View()), x, environment)
    {
      ghost var m := View();
      var c := conns[x];
      Expire(x, environment);
      var handover := false;
      if (c.terms.kind.ExclusiveOwner? || c.terms.kind.InputOnly?) && c.terms.tToO.Multicast? && c.producing {
        RelinquishStays(View(), x);
        handover := GiveUpGroup(x);
      }
      if c.terms.kind.ExclusiveOwner? && !handover {
        OwnerAlone(cfg, m, View(), x);
        CloseDependentsOf(c.terms.input);
      }
    }

    /** The time-out function of a connection. */
    method TimeOutConnection(x: Slot, environment: Environment)
      requires Valid() && x in conns && conns[x].state == Established
      modifies this`active, this`conns
      ensures Valid() && View() == TimeOut(old(View()), x, environment)
    {
      TimeOutKeeps(cfg, View(), x, environment);
      if conns[x].terms.kind != ExplicitMessaging {
        HandleIoConnectionTimeOut(x, environment);
      } else {
        Remove(x);
      }
    }

    method SendConnectedData(x: Slot)
      requires x in conns
      modifies this`conns, this`history
      ensures View() == Send(old(View()), x)
    {
      var c := conns[x];
      conns := conns[x := c.(eipProducing := (c.eipProducing + 1) % UINT32)];
      history := Send(old(View()), x).history;
    }

    method ProduceData(x: Slot, elapsed: nat)
      requires cfg.tick > 0 && x in conns
      modifies this`conns, this`history
      ensures View() == Produce(cfg, old(View()), x, elapsed)
    {
      var c := conns[x];
      if ExpectedRate(c.terms.tToOInterval, cfg.tick) != 0 && c.producing {
        if c.transmission <= elapsed {
          SendConnectedData(x);
          var timer := conns[x].transmission + RequestedInterval(c.terms.tToOInterval, cfg.tick);
          if timer > elapsed {
            timer := timer - elapsed;
          } else {
            timer := 0;
          }
          conns := conns[x := conns[x].(transmission := timer)];
        } else {
          conns := conns[x := c.(transmission := c.transmission - elapsed)];
        }
      }
    }

    method WatchConnection(x: Slot, elapsed: nat, environment: Environment)
      requires Valid() && x in conns && conns[x].state == Established
      modifies this`active, this`conns
      ensures View() == Watch(old(View()), x, elapsed, environment)
    {
      var c := conns[x];
      if c.terms.consuming || c.terms.server {
        if elapsed >= c.watchdog {
          TimeOutConnection(x, environment);
        } else {
          conns := conns[x := c.(watchdog := c.watchdog - elapsed, lastPackage := (c.lastPackage - elapsed) % UINT64)];
        }
      }
    }

    /** The body of the tick for one connection. */
    method ManageConnection(x: Slot, elapsed: nat, environment: Environment)
      requires Valid() && x in conns
      modifies this`active, this`conns, this`history
      ensures Valid() && View() == Process(cfg, old(View()), x, elapsed, environment)
    {
      ProcessKeeps(cfg, View(), x, elapsed, environment);
      if conns[x].state == Established {
        WatchConnection(x, elapsed, environment);
        if x in conns && conns[x].state == Established {
          ProduceData(x, elapsed);
        }
      }
    }

    /** One tick: it goes on behind the element it stands on, and ends where that element has left the
        list. */
    method ManageConnections(elapsed: nat, environment: Environment)
      requires Valid()
      modifies this`active, this`conns, this`history
      ensures Valid() && View() == Step(cfg, old(View()), Tick(elapsed, environment))
    {
      ghost var (front, rest) := ([], active);
      ghost var result := TickOver(cfg, View(), rest, elapsed, environment);
      var node := if active == [] then None else Some(active[0]);
      while node.Some?
        invariant Valid() && lastId == old(lastId)
        invariant active == front + rest && node == Head(rest)
        invariant TickOver(cfg, View(), rest, elapsed, environment) == result
        decreases |rest|
      {
        HeadSplits(front, rest);
        node, front, rest := ManageAndGoOn(node.value, elapsed, environment, front, rest[1..]);
      }
    }

    /** One stride of the tick at x, with the elements in front of x and behind it. */
    method ManageAndGoOn(x: Slot, elapsed: nat, environment: Environment, ghost front: seq<Slot>, ghost rest: seq<Slot>)
      returns (node: Option<Slot>, ghost front': seq<Slot>, ghost rest': seq<Slot>)
      requires Valid() && active == front + [x] + rest
      modifies this`active, this`conns, this`history
      ensures Valid() && active == front' + rest' && node == Head(rest') && |rest'| <= |rest|
      ensures TickOver(cfg, View(), rest', elapsed, environment) ==
        TickOver(cfg, old(View()), [x] + rest, elapsed, environment)
    {
      TickWalk(cfg, View(), front, x, rest, elapsed, environment);
      ghost var before := conns.Keys;
      ManageConnection(x, elapsed, environment);
      if x in conns {
        node := Next(x);
        ghost var gone := before - conns.Keys;
        front', rest' := Without(front, gone) + [x], Without(rest, gone);
      } else {
        node := None;
        front', rest' := active, [];
      }
    }

    // ----- opening -----

    method GetExclusiveOwnerConnection(t: Terms) returns (choice: Choice)
      ensures choice == SelectOwner(cfg, View(), t)
    {
      var i := 0;
      while i < |cfg.owners|
        invariant 0 <= i <= |cfg.owners|
        invariant FindPoint(cfg.owners, t, i) == FindPoint(cfg.owners, t, 0)
      {
        var p := cfg.owners[i];
        if p.output == t.output && p.input == t.input && p.config == t.config {
          var owner := Find(OwnerOf(t.input));
          if owner.None? {
            return Chosen(Owner(i), false);
          }
          var o := conns[owner.value];
          if o.state == TimedOut && o.terms.triad.originator == t.triad.originator {
            return Chosen(Owner(i), true);
          }
          return Conflict(0x0106);
        }
        i := i + 1;
      }
      return Unsuited;
    }

    /** The slots of one connection point: first one to take over from the same originator, then a
        free one. */
    method GetSlot(kind: Kind, i: nat, count: nat, originator: Originator) returns (choice: Choice)
      ensures choice == SelectIndex(View(), kind, i, count, originator)
    {
      var j := 0;
      while j < count
        invariant 0 <= j <= count
        invariant FindRecyclable(View(), kind, i, j, count, originator) ==
          FindRecyclable(View(), kind, i, 0, count, originator)
      {
        var x := SlotAt(kind, i, j);
        if x in conns && conns[x].state == TimedOut && conns[x].terms.triad.originator == originator {
          return Chosen(x, true);
        }
        j := j + 1;
      }
      j := 0;
      while j < count
        invariant 0 <= j <= count
        invariant FindFree(View(), kind, i, j, count) == FindFree(View(), kind, i, 0, count)
      {
        var x := SlotAt(kind, i, j);
        if x !in conns || conns[x].state == NonExistent {
          return Chosen(x, false);
        }
        j := j + 1;
      }
      return Conflict(0x011A);
    }

    /** The scan of the input only or of the listen only connection points. */
    method GetPointConnection(t: Terms, kind: Kind, points: seq<Point>, count: nat) returns (choice: Choice)
      ensures choice == SelectPoint(View(), t, kind, points, count, 0, 0)
    {
      var error, i := 0, 0;
      while i < |points|
        invariant 0 <= i <= |points|
        invariant SelectPoint(View(), t, kind, points, count, i, error) ==
          SelectPoint(View(), t, kind, points, count, 0, 0)
      {
        if points[i].output == t.output {
          if points[i].input != t.input {
            error := 0x012B;
          } else if points[i].config != t.config {
            error := 0x012F;
          } else {
            if kind.ListenOnly? {
              var producer := Find(ProducerOf(t.input, false));
              if producer.None? {
                return Conflict(0x0119);
              }
            }
            choice := GetSlot(kind, i, count, t.triad.originator);
            return;
          }
        }
        i := i + 1;
      }
      return if error == 0 then Unsuited else Conflict(error);
    }

    method GetIoConnectionForConnectionData(t: Terms) returns (kind: Kind, choice: Choice)
      ensures (kind, choice) == Select(cfg, View(), t)
    {
      kind := ExclusiveOwner;
      choice := GetExclusiveOwnerConnection(t);
      if choice.Unsuited? {
        kind := InputOnly;
        choice := GetPointConnection(t, InputOnly, cfg.inputs, cfg.inputsPerPoint);
        if choice.Unsuited? {
          kind := ListenOnly;
          choice := GetPointConnection(t, ListenOnly, cfg.listens, cfg.listensPerPoint);
          if choice.Unsuited? {
            choice := Conflict(0x012F);
          }
        }
      }
    }

    method GetConnectionId() returns (id: nat)
      modifies this`lastId
      ensures lastId == NextId(old(lastId)) && id == ConnectionId(cfg, lastId)
    {
      lastId := (lastId + 1) % UINT16;
      id := cfg.incarnation * UINT16 + lastId;
    }

    method GeneralConfiguration(t: Terms) returns (u: Terms)
      modifies this`lastId
      ensures (u, lastId) == Identify(cfg, t, old(lastId))
    {
      u := t;
      if t.oToT == PointToPoint {
        var id := GetConnectionId();
        u := u.(consumedId := id);
      }
      if t.tToO == Multicast {
        var id := GetConnectionId();
        u := u.(producedId := id);
      }
    }

    method CheckSetup(t: Terms, r: Request) returns (status: nat)
      ensures status == SetupStatus(cfg, View(), t, r)
    {
      if t.oToT != NullLink {
        status := SizeStatus(cfg, t.output, r.oToTSize, t.transport, cfg.consumeRunIdle, 0x012A, 0x0127);
        if status != 0 {
          return;
        }
      }
      if t.tToO != NullLink {
        var y := Find(DisagreesWith(t));
        if y.Some? {
          return Mismatch(t, conns[y.value].terms);
        }
        status := SizeStatus(cfg, t.input, r.tToOSize, t.transport, cfg.produceRunIdle, 0x012B, 0x0128);
        if status != 0 {
          return;
        }
      }
      return r.configStatus;
    }

    method AddNewActiveConnection(x: Slot, c: Connection)
      modifies this`active, this`conns
      ensures View() == Push(old(View()), x, c)
    {
      active := [x] + active;
      conns := conns[x := c];
    }

    method OpenChannels(x: Slot, c: Connection)
      modifies this`active, this`conns, this`history
      ensures View() == Admit(old(View()), x, c)
    {
      if c.terms.tToO != Multicast {
        AddNewActiveConnection(x, c.(producing := true));
        return;
      }
      var e := Find(ProducerOf(c.terms.input, true));
      if e.None? {
        AddNewActiveConnection(x, c.(producing := true));
        history := history[c.terms.input := []];
        return;
      }
      var holder := conns[e.value];
      var joined := c.(terms := c.terms.(producedId := holder.terms.producedId));
      if c.terms.kind == ExclusiveOwner {
        conns := conns[e.value := holder.(producing := false)];
        joined := joined.(producing := true);
      }
      AddNewActiveConnection(x, joined);
    }

    /** The rest of it, once the slot is vacated: ids, checks, channels. */
    method EstablishInSlot(t0: Terms, x: Slot, r: Request) returns (reply: Reply)
      modifies this
      ensures var (t, last) := Identify(cfg, t0, old(lastId));
        var m2 := old(View()).(lastId := last);
        var m3 := Admit(m2, x, Fresh(t.(consuming := !t.oToT.NullLink?)));
        var status := SetupStatus(cfg, m2, t, r);
        (View(), reply) ==
          if status != 0 then (m2, Refused(1, status))
          else if !ItemsSuffice(r) then (m2, Refused(1, 0))
          else (m3, Opened(m3.conns[x].terms.consumedId, m3.conns[x].terms.producedId))
    {
      var t := GeneralConfiguration(t0);
      var status := CheckSetup(t, r);
      if status != 0 {
        return Refused(1, status);
      }
      if !ItemsSuffice(r) {
        return Refused(1, 0);
      }
      OpenChannels(x, Fresh(t.(consuming := t.oToT != NullLink)));
      return Opened(conns[x].terms.consumedId, conns[x].terms.producedId);
    }

    method EstablishIoConnection(r: Request) returns (reply: Reply)
      requires Listed(View())
      modifies this
      ensures (View(), reply) == EstablishIo(cfg, old(View()), r)
    {
      var kind, choice := GetIoConnectionForConnectionData(r.terms);
      if choice.Conflict? {
        return Refused(1, choice.status);
      }
      if choice.Unsuited? {
        return Refused(1, 0x012F);
      }
      var x := choice.slot;
      if choice.evict && x in conns {
        CloseConnection(x);
      }
      var inhibit := InhibitTime(r.terms);
      if inhibit.None? {
        return Refused(1, 0x011B);
      }
      reply := EstablishInSlot(r.terms.(kind := kind, inhibit := inhibit.value), x, r);
    }

    method EstablishClass3Connection(r: Request) returns (reply: Reply)
      modifies this
      ensures (View(), reply) == EstablishExplicit(cfg, old(View()), r)
    {
      var k := 0;
      while k < cfg.explicits && Explicit(k) in conns && conns[Explicit(k)].state != NonExistent
        invariant 0 <= k <= cfg.explicits
        invariant FindFreeExplicit(View(), k, cfg.explicits) == FindFreeExplicit(View(), 0, cfg.explicits)
      {
        k := k + 1;
      }
      if k == cfg.explicits {
        return Refused(1, 0x0113);
      }
      var t := GeneralConfiguration(r.terms.(kind := ExplicitMessaging, consuming := false));
      AddNewActiveConnection(Explicit(k), Fresh(t));
      return Opened(t.consumedId, t.producedId);
    }

    method ForwardOpen(r: Request) returns (reply: Reply)
      requires Valid() && InScope(cfg, r)
      modifies this
      ensures Valid() && (View(), reply) == Open(cfg, old(View()), r)
    {
      OpenKeeps(cfg, View(), r);
      var t := r.terms;
      if t.oToT == InvalidLink {
        return Refused(1, 0x0123);
      }
      if t.tToO == InvalidLink {
        return Refused(1, 0x0124);
      }
      if t.tToO == Multicast && OffSubnet(cfg, t.address) {
        return Refused(1, 0x0813);
      }
      if t.oToT == NullLink && t.tToO == NullLink {
        return Refused(1, 0x0132);
      }
      var existing := Find(EstablishedTriad(t.triad));
      if existing.Some? {
        return Refused(1, 0x0100);
      }
      if t.trigger == InvalidTrigger {
        return Refused(1, 0x0103);
      }
      if r.target == MessageRouter {
        reply := EstablishClass3Connection(r);
      } else {
        reply := EstablishIoConnection(r);
      }
    }

    // ----- the other requests -----

    method ForwardClose(triad: Triad, address: bv32) returns (status: nat)
      requires Valid()
      modifies this`active, this`conns
      ensures Valid() && (View(), status) == CloseByTriad(old(View()), triad, address)
    {
      var x := Find(ListedTriad(triad));
      if x.None? {
        return NOT_FOUND;
      }
      if conns[x.value].terms.address != address {
        return WRONG_CLOSER;
      }
      CloseKeeps(cfg, View(), x.value);
      CloseConnection(x.value);
      return CLOSED;
    }

    method HandleReceivedConnectedData(id: nat, sequence: nat, from: bv32)
      requires Valid()
      modifies this`conns
      ensures Valid() && View() == Accept(old(View()), id, sequence, from)
    {
      StepKeeps(cfg, View(), Receive(id, sequence, from));
      var x := Find(ConsumerOf(id));
      if x.Some? && conns[x.value].terms.address == from {
        var c := conns[x.value];
        var d := c.(lastPackage := Watchdog(c.terms));
        if SeqGt32(sequence, c.eipConsuming) || !c.eipReceived {
          d := d.(watchdog := Watchdog(c.terms), eipConsuming := sequence, eipReceived := true);
        }
        conns := conns[x.value := d];
      }
    }

    method HandleExplicitRequest(id: nat)
      requires Valid()
      modifies this`conns
      ensures Valid() && View() == Touch(old(View()), id)
    {
      StepKeeps(cfg, View(), ExplicitRequest(id));
      var x := Find(ConsumerOf(id));
      if x.Some? {
        conns := conns[x.value := conns[x.value].(watchdog := Watchdog(conns[x.value].terms))];
      }
    }

    /** Shutdown: the head is closed until the list is empty. Each close shortens the list, cascade
        or not, so this ends with nothing left. */
    method CloseAllConnections()
      requires Valid()
      modifies this`active, this`conns
      ensures Valid() && View() == Step(cfg, old(View()), CloseAll)
    {
      while active != []
        invariant Valid()
        decreases |active|
      {
        ghost var m := View();
        CloseKeeps(cfg, m, active[0]);
        CloseSpares(m, active[0]);
        WithoutShorter(m.active, m.conns.Keys - Close(m, active[0]).conns.Keys, active[0]);
        CloseConnection(active[0]);
      }
      assert conns == map[];
    }
  }

  lemma {:induction false} WithoutShorter(a: seq<Slot>, gone: set<Slot>, x: Slot)
    requires x in a && x in gone
    ensures |Without(a, gone)| < |a|
  {
    if a[0] != x {
      WithoutShorter(a[1..], gone, x);
    }
  }

  /** Where an exclusive owner times out without a successor, no input only connection controls a
      group: the owner itself does, or the input point has none. */
  lemma OwnerAlone(cfg: Config, m: Model, m2: Model, x: Slot)
    requires Inv(cfg, m) && Inv(cfg, m2) && x in m.conns && x in m2.conns
    requires m.conns[x].terms.kind.ExclusiveOwner? && m.conns[x].state.Established?
    requires m2.conns[x].terms == m.conns[x].terms && m2.conns[x].producing == m.conns[x].producing
    ensures forall y ::
      y in m2.conns && m2.conns[y].terms.kind.InputOnly? && m2.conns[y].terms.input == m.conns[x].terms.input ==>
      !ControlsGroup(m2.conns[y])
  {
    var input := m.conns[x].terms.input;
    assert Fits(cfg, x, m2.conns[x]);
    forall y | y in m2.conns && m2.conns[y].terms.kind.InputOnly? && m2.conns[y].terms.input == input
      ensures !ControlsGroup(m2.conns[y])
    {
      assert Fits(cfg, y, m2.conns[y]);
      assert m2.conns[y].terms.tToO.Multicast? ==> Holds(m2, x, input);
      assert ControlsGroup(m2.conns[y]) ==> Holds(m2, y, input);
    }
  }

  /** Elements that are gone from the table do not matter to a tick. */
  lemma {:induction false} TickSkips(cfg: Config, m: Model, rest: seq<Slot>, gone: set<Slot>, elapsed: nat,
                                     environment: Environment)
    requires Inv(cfg, m) && cfg.tick > 0 && gone !! m.conns.Keys
    ensures TickOver(cfg, m, Without(rest, gone), elapsed, environment) == TickOver(cfg, m, rest, elapsed, environment)
    decreases |rest|
  {
    if rest != [] {
      if rest[0] in m.conns {
        var m1 := Process(cfg, m, rest[0], elapsed, environment);
        ProcessKeeps(cfg, m, rest[0], elapsed, environment);
        ProcessSpares(cfg, m, rest[0], elapsed, environment);
        assert Without(rest, gone)[1..] == Without(rest[1..], gone);
        TickSkips(cfg, m1, rest[1..], gone, elapsed, environment);
      } else {
        TickSkips(cfg, m, rest[1..], gone, elapsed, environment);
        if rest[0] in gone {
          assert Without(rest, gone) == Without(rest[1..], gone);
        } else {
          assert Without(rest, gone)[1..] == Without(rest[1..], gone);
        }
      }
    }
  }

  lemma HeadSplits(front: seq<Slot>, rest: seq<Slot>)
    requires rest != []
    ensures rest == [rest[0]] + rest[1..] && front + rest == front + [rest[0]] + rest[1..]
  {}

  /** One stride of the tick: where the walk goes from x, and that the rest of the tick is the same. */
  lemma TickWalk(cfg: Config, m: Model, front: seq<Slot>, x: Slot, rest: seq<Slot>, elapsed: nat,
                 environment: Environment)
    requires Inv(cfg, m) && cfg.tick > 0 && m.active == front + [x] + rest
    ensures x in m.conns
    ensures var m1 := Process(cfg, m, x, elapsed, environment);
      var gone := m.conns.Keys - m1.conns.Keys;
      if x in m1.conns then
        && m1.active == Without(front, gone) + [x] + Without(rest, gone)
        && x in m1.active && Successor(m1.active, x) == Head(Without(rest, gone))
        && TickOver(cfg, m, [x] + rest, elapsed, environment) ==
             TickOver(cfg, m1, Without(rest, gone), elapsed, environment)
      else TickOver(cfg, m, [x] + rest, elapsed, environment) == m1
  {
    assert m.active[|front|] == x;
    assert x in m.active;
    assert ([x] + rest)[1..] == rest;
    var m1 := Process(cfg, m, x, elapsed, environment);
    var gone := m.conns.Keys - m1.conns.Keys;
    ProcessKeeps(cfg, m, x, elapsed, environment);
    ProcessSpares(cfg, m, x, elapsed, environment);
    if x in m1.conns {
      WithoutAround(front, x, rest, gone);
      SuccessorAt(Without(front, gone), x, Without(rest, gone));
      TickSkips(cfg, m1, rest, gone, elapsed, environment);
    }
  }

  lemma WithoutAround(front: seq<Slot>, x: Slot, rest: seq<Slot>, gone: set<Slot>)
    requires x !in gone && Distinct(front + [x] + rest)
    ensures Without(front + [x] + rest, gone) == Without(front, gone) + [x] + Without(rest, gone)
    ensures x !in Without(front, gone)
  {
    WithoutConcat(front + [x], rest, gone);
    WithoutConcat(front, [x], gone);
    WithoutNothing([x], gone);
    var a := front + [x] + rest;
    assert a[|front|] == x && forall i :: 0 <= i < |front| ==> a[i] == front[i];
  }

  /** The targets among the first k elements of the list. */
  ghost function Visited(list: seq<Slot>, k: nat, targets: set<Slot>): set<Slot>
    requires k <= |list|
  {
    set y | y in list[..k] && y in targets
  }

  lemma VisitedGrows(list: seq<Slot>, k: nat, targets: set<Slot>)
    requires Distinct(list) && k < |list|
    ensures list[k] !in Visited(list, k, targets)
    ensures Visited(list, k + 1, targets) == if list[k] in targets then Visited(list, k, targets) + {list[k]}
      else Visited(list, k, targets)
  {
    assert list[..k + 1] == list[..k] + [list[k]];
  }

  /** The state in which the walk has closed what matches among the first k elements. */
  ghost function Walked(m: Model, k: nat, input: nat, kind: Kind): Model
    requires k <= |m.active|
  {
    Drop(m, Visited(m.active, k, OfKind(m, input, kind)))
  }

  /** The element at position k of the list as it was when the walk began. */
  function NodeAt(a: seq<Slot>, k: nat): Option<Slot> {
    if k < |a| then Some(a[k]) else None
  }

  lemma WalkStarts(m: Model, input: nat, kind: Kind)
    ensures Walked(m, 0, input, kind) == m
  {
    assert Visited(m.active, 0, OfKind(m, input, kind)) == {};
    DropNothing(m);
  }

  lemma WalkEnds(m: Model, k: nat, input: nat, kind: Kind)
    requires Listed(m) && k <= |m.active| && NodeAt(m.active, k).None?
    ensures Walked(m, k, input, kind) == Drop(m, OfKind(m, input, kind))
  {
    assert m.active[..k] == m.active;
    assert Visited(m.active, k, OfKind(m, input, kind)) == OfKind(m, input, kind);
  }

  /** Before a stride the node stands on the list, unchanged, and its next link leads to the next
      unvisited node. */
  lemma WalkPlace(m: Model, k: nat, input: nat, kind: Kind)
    requires Listed(m) && k < |m.active|
    ensures var (x, m1) := (m.active[k], Walked(m, k, input, kind));
      && Listed(m1) && x in m1.conns && m1.conns[x] == m.conns[x]
      && x in m1.active && Successor(m1.active, x) == NodeAt(m.active, k + 1)
  {
    var (list, x) := (m.active, m.active[k]);
    var gone := Visited(list, k, OfKind(m, input, kind));
    assert list == list[..k] + [x] + list[k + 1..];
    WalkOn(list[..k], x, list[k + 1..], gone);
    VisitedGrows(list, k, OfKind(m, input, kind));
    WithoutDistinct(list, gone);
  }

  /** The close of a stride adds the node to what is gone. */
  lemma WalkClose(m: Model, k: nat, input: nat, kind: Kind)
    requires Listed(m) && k < |m.active| && !kind.ExplicitMessaging?
    requires var (x, m1) := (m.active[k], Walked(m, k, input, kind));
      Listed(m1) && x in m1.conns && m1.conns[x] == m.conns[x]
    requires forall y :: y in m.conns && m.conns[y].terms.kind == kind && m.conns[y].terms.input == input ==>
      !ControlsGroup(m.conns[y])
    ensures var (x, m1, m2) := (m.active[k], Walked(m, k, input, kind), Walked(m, k + 1, input, kind));
      if m1.conns[x].terms.kind == kind && m1.conns[x].terms.input == input then CloseIo(m1, x) == m2 else m1 == m2
  {
    var (x, targets, m1) := (m.active[k], OfKind(m, input, kind), Walked(m, k, input, kind));
    VisitedGrows(m.active, k, targets);
    if x in targets {
      CloseIdleIsDrop(m1, x);
      DropTwice(m, Visited(m.active, k, targets), {x});
    }
  }

  /** Removing elements behind or in front of a node leaves its next link to the first survivor. */
  lemma WalkOn(front: seq<Slot>, x: Slot, rest: seq<Slot>, gone: set<Slot>)
    requires Distinct(front + [x] + rest)
    requires gone <= set y | y in front
    ensures x in Without(front + [x] + rest, gone)
    ensures Successor(Without(front + [x] + rest, gone), x) == Head(rest)
  {
    var a := front + [x] + rest;
    assert a[|front|] == x;
    assert forall i :: 0 <= i < |front| ==> a[i] == front[i];
    assert forall i :: 0 <= i < |rest| ==> a[|front| + 1 + i] == rest[i];
    WithoutConcat(front + [x], rest, gone);
    WithoutConcat(front, [x], gone);
    WithoutNothing(rest, gone);
    WithoutNothing([x], gone);
    SuccessorAt(Without(front, gone), x, rest);
  }

  /** The list and the table still match right before a closed connection is unlinked. */
  lemma RelinquishListed(m: Model, x: Slot)
    requires Listed(m) && x in m.conns
    ensures var m1 := Retire(m, x, NonExistent);
      Listed(m1) && Listed(if ControlsGroup(m1.conns[x]) then Relinquish(m1, x) else m1)
  {
    var m1 := Retire(m, x, NonExistent);
    KeepSpares(m, m1, x);
    RelinquishSpares(m1, x);
  }
}
