/** The table of encapsulation sessions and the table of socket timers beside it. */
module Sessions {
  /** A socket, or -1 for none. */
  type Socket = int

  const INVALID: Socket := -1

  const SUPPORTED_VERSION: nat := 1

  datatype Timer = Timer(socket: Socket, lastUpdate: nat)

  const FREE_TIMER := Timer(INVALID, 0)

  datatype Tables = Tables(sessions: seq<Socket>, timers: seq<Timer>)

  function Sockets(timers: seq<Timer>): (r: seq<Socket>)
    ensures |r| == |timers|
  {
    seq(|timers|, i requires 0 <= i < |timers| => timers[i].socket)
  }

  /** The first index of a socket, or the length if there is none. */
  function FirstOf(s: seq<Socket>, x: Socket): (i: nat)
    ensures i <= |s|
    ensures i < |s| ==> s[i] == x
    ensures forall k :: 0 <= k < i ==> s[k] != x
  {
    if s == [] || s[0] == x then 0 else 1 + FirstOf(s[1..], x)
  }

  /** All timers of a socket cleared. */
  function Cleared(timers: seq<Timer>, x: Socket): (r: seq<Timer>)
    ensures |r| == |timers|
  {
    seq(|timers|, i requires 0 <= i < |timers| => if timers[i].socket == x then FREE_TIMER else timers[i])
  }

  lemma NothingCleared(timers: seq<Timer>, x: Socket)
    requires x !in Sockets(timers)
    ensures Cleared(timers, x) == timers
  {
    forall i | 0 <= i < |timers| ensures Cleared(timers, x)[i] == timers[i] {
      assert Sockets(timers)[i] == timers[i].socket;
    }
  }

  // ----- clearing in rounds -----

  /** One round of clearing: the first timer of the socket, if there is one. */
  function Round(timers: seq<Timer>, x: Socket): (r: seq<Timer>)
    ensures |r| == |timers|
  {
    var i := FirstOf(Sockets(timers), x);
    if i < |timers| then timers[i := FREE_TIMER] else timers
  }

  function Rounds(timers: seq<Timer>, x: Socket, n: nat): (r: seq<Timer>)
    ensures |r| == |timers|
    decreases n
  {
    if n == 0 then timers else Rounds(Round(timers, x), x, n - 1)
  }

  /** The socket is a valid one, or no timer is free. */
  predicate Clears(timers: seq<Timer>, x: Socket) {
    x != INVALID || INVALID !in Sockets(timers)
  }

  lemma RoundSockets(timers: seq<Timer>, x: Socket)
    ensures var i := FirstOf(Sockets(timers), x);
      Sockets(Round(timers, x)) == if i < |timers| then Sockets(timers)[i := INVALID] else Sockets(timers)
  {}

  /** A round for a valid socket leaves one timer less, and the same timers to be cleared. */
  lemma RoundClears(timers: seq<Timer>, x: Socket)
    requires x != INVALID && x in Sockets(timers)
    ensures multiset(Sockets(Round(timers, x)))[x] == multiset(Sockets(timers))[x] - 1
    ensures Cleared(Round(timers, x), x) == Cleared(timers, x)
  {
    RoundSockets(timers, x);
    var i := FirstOf(Sockets(timers), x);
    assert Sockets(timers)[i] == timers[i].socket == x;
  }

  lemma {:induction false} RoundsClear(timers: seq<Timer>, x: Socket)
    requires x != INVALID
    ensures x !in Sockets(Rounds(timers, x, multiset(Sockets(timers))[x]))
    decreases multiset(Sockets(timers))[x]
  {
    if x in Sockets(timers) {
      assert x in multiset(Sockets(timers));
      RoundClears(timers, x);
      RoundsClear(Round(timers, x), x);
    } else {
      assert x !in multiset(Sockets(timers));
    }
  }

  /** Rounds for no socket at all find the same free timer again and again. */
  lemma {:induction false} RoundsSpin(timers: seq<Timer>, n: nat)
    ensures Sockets(Rounds(timers, INVALID, n)) == Sockets(timers)
    decreases n
  {
    if n > 0 {
      RoundSockets(timers, INVALID);
      RoundsSpin(Round(timers, INVALID), n - 1);
    }
  }

  /** Clearing in rounds comes to an end exactly if the socket is valid or no timer is free. */
  lemma ClearingEnds(timers: seq<Timer>, x: Socket)
    ensures (exists n: nat :: x !in Sockets(Rounds(timers, x, n))) <==> Clears(timers, x)
  {
    if x != INVALID {
      RoundsClear(timers, x);
    } else if Clears(timers, x) {
      assert x !in Sockets(Rounds(timers, x, 0));
    } else {
      forall n: nat ensures x in Sockets(Rounds(timers, x, n)) {
        RoundsSpin(timers, n);
      }
    }
  }

  // ----- requests -----

  datatype Status = Success | InvalidCommand | InsufficientMemory | UnsupportedProtocol

  datatype Reply = Reply(session: nat, status: Status)

  /** Registering dereferences the first free timer; with no free timer there is no such timer. */
  datatype Registration = NullTimer | Registered(tables: Tables, reply: Reply)

  predicate Acceptable(version: nat, options: nat) {
    0 < version <= SUPPORTED_VERSION && options == 0
  }

  function Register(t: Tables, socket: Socket, version: nat, options: nat, now: nat): Registration {
    var mine := FirstOf(t.sessions, socket);
    var free := FirstOf(t.sessions, INVALID);
    var timer := FirstOf(Sockets(t.timers), INVALID);
    if !Acceptable(version, options) then Registered(t, Reply(0, UnsupportedProtocol))
    else if mine < |t.sessions| then Registered(t, Reply(mine + 1, InvalidCommand))
    else if free == |t.sessions| then Registered(t, Reply(0, InsufficientMemory))
    else if timer == |t.timers| then NullTimer
    else
      Registered(Tables(t.sessions[free := socket], t.timers[timer := Timer(socket, now)]), Reply(free + 1, Success))
  }

  predicate HasSession(t: Tables, handle: nat) {
    0 < handle <= |t.sessions| && t.sessions[handle - 1] != INVALID
  }

  /** Closes the socket of a session and frees the session. */
  function CloseAt(t: Tables, i: nat): Tables
    requires i < |t.sessions|
  {
    Tables(t.sessions[i := INVALID], Cleared(t.timers, t.sessions[i]))
  }

  function Unregister(t: Tables, handle: nat): Tables {
    if HasSession(t, handle) then CloseAt(t, handle - 1) else t
  }

  function Close(t: Tables, socket: Socket): Tables {
    var i := FirstOf(t.sessions, socket);
    if i < |t.sessions| then CloseAt(t, i) else t
  }

  function Remove(t: Tables, socket: Socket): Tables {
    var i := FirstOf(t.sessions, socket);
    if i < |t.sessions| then t.(sessions := t.sessions[i := INVALID]) else t
  }

  /** The session is removed once the socket's timers are; this is how the network handler removes. */
  function CloseThenRemove(t: Tables, socket: Socket): Tables {
    Remove(t.(timers := Cleared(t.timers, socket)), socket)
  }

  // ----- the tables in memory -----

  class SessionTables {
    const sessions: array<Socket>
    const timers: array<Timer>

    ghost function View(): Tables
      reads sessions, timers
    {
      Tables(sessions[..], timers[..])
    }

    constructor (supported: nat)
      ensures fresh(sessions) && fresh(timers) && View() == Empty(supported)
    {
      sessions := new Socket[supported](_ => INVALID);
      timers := new Timer[supported](_ => FREE_TIMER);
      new;
      assert sessions[..] == Empty(supported).sessions && timers[..] == Empty(supported).timers;
    }

    method GetFreeSessionIndex() returns (i: int)
      ensures i == if FirstOf(sessions[..], INVALID) < sessions.Length then FirstOf(sessions[..], INVALID) else -1
    {
      i := 0;
      while i < sessions.Length
        invariant 0 <= i <= sessions.Length
        invariant forall k :: 0 <= k < i ==> sessions[k] != INVALID
      {
        if sessions[i] == INVALID {
          return i;
        }
        i := i + 1;
      }
      return -1;
    }

    /** The index of a socket's first timer, or -1. */
    method GetSocketTimer(socket: Socket) returns (i: int)
      ensures i == if FirstOf(Sockets(timers[..]), socket) < timers.Length then FirstOf(Sockets(timers[..]), socket)
        else -1
    {
      i := 0;
      while i < timers.Length
        invariant 0 <= i <= timers.Length
        invariant forall k :: 0 <= k < i ==> Sockets(timers[..])[k] != socket
      {
        assert Sockets(timers[..])[i] == timers[i].socket;
        if timers[i].socket == socket {
          return i;
        }
        i := i + 1;
      }
      return -1;
    }

    /** The index of a socket's session, or the number of sessions. */
    method GetSessionFromSocket(socket: Socket) returns (i: nat)
      ensures i == FirstOf(sessions[..], socket)
    {
      i := 0;
      while i < sessions.Length
        invariant 0 <= i <= sessions.Length
        invariant forall k :: 0 <= k < i ==> sessions[k] != socket
      {
        if sessions[i] == socket {
          return i;
        }
        i := i + 1;
      }
    }

    /** Clears timers until none is found. Each round leaves one timer less, unless the socket is
        invalid: a free timer is found again for ever. */
    method RemoveSocketTimerFromList(socket: Socket)
      requires Clears(timers[..], socket)
      modifies timers
      ensures timers[..] == Cleared(old(timers[..]), socket)
    {
      var i := GetSocketTimer(socket);
      while i != -1
        invariant Clears(timers[..], socket)
        invariant i == if FirstOf(Sockets(timers[..]), socket) < timers.Length then
          FirstOf(Sockets(timers[..]), socket) else -1
        invariant Cleared(timers[..], socket) == Cleared(old(timers[..]), socket)
        decreases multiset(Sockets(timers[..]))[socket]
      {
        ghost var before := timers[..];
        assert Sockets(before)[i] == socket;
        timers[i] := FREE_TIMER;
        assert timers[..] == Round(before, socket);
        RoundClears(before, socket);
        i := GetSocketTimer(socket);
      }
      NothingCleared(timers[..], socket);
    }

    method RegisterSession(socket: Socket, version: nat, options: nat, now: nat) returns (reply: Reply)
      requires Register(View(), socket, version, options, now).Registered?
      modifies sessions, timers
      ensures Registered(View(), reply) == Register(old(View()), socket, version, options, now)
    {
      if !Acceptable(version, options) {
        return Reply(0, UnsupportedProtocol);
      }
      var mine := GetSessionFromSocket(socket);
      if mine < sessions.Length {
        return Reply(mine + 1, InvalidCommand);
      }
      var free := GetFreeSessionIndex();
      if free == -1 {
        return Reply(0, InsufficientMemory);
      }
      var timer := GetSocketTimer(INVALID);
      timers[timer] := Timer(socket, now);
      sessions[free] := socket;
      return Reply(free + 1, Success);
    }

    method UnregisterSession(handle: nat) returns (known: bool)
      modifies sessions, timers
      ensures known == HasSession(old(View()), handle)
      ensures View() == Unregister(old(View()), handle)
    {
      if 0 < handle <= sessions.Length {
        if sessions[handle - 1] != INVALID {
          CloseSessionBySessionHandle(handle);
          return true;
        }
      }
      return false;
    }

    method CloseSessionBySessionHandle(handle: nat)
      requires 0 < handle <= sessions.Length && Clears(timers[..], sessions[handle - 1])
      modifies sessions, timers
      ensures View() == CloseAt(old(View()), handle - 1)
    {
      RemoveSocketTimerFromList(sessions[handle - 1]);
      sessions[handle - 1] := INVALID;
    }

    method CloseSession(socket: Socket)
      requires socket in sessions[..] ==> Clears(timers[..], socket)
      modifies sessions, timers
      ensures View() == Close(old(View()), socket)
    {
      var i := GetSessionFromSocket(socket);
      if i < sessions.Length {
        RemoveSocketTimerFromList(socket);
        sessions[i] := INVALID;
      }
    }

    method RemoveSession(socket: Socket)
      modifies sessions
      ensures View() == Remove(old(View()), socket)
    {
      var i := GetSessionFromSocket(socket);
      if i < sessions.Length {
        sessions[i] := INVALID;
      }
    }

    method EncapsulationShutDown()
      modifies sessions, timers
      ensures View() == Shutdown(old(View()), sessions.Length)
    {
      var i := 0;
      while i < sessions.Length
        invariant 0 <= i <= sessions.Length
        invariant View() == Shutdown(old(View()), i)
      {
        if sessions[i] != INVALID {
          RemoveSocketTimerFromList(sessions[i]);
          sessions[i] := INVALID;
        }
        i := i + 1;
      }
    }
  }

  /** The first `n` sessions closed in turn. */
  function Shutdown(t: Tables, n: nat): (r: Tables)
    requires n <= |t.sessions|
    ensures |r.sessions| == |t.sessions|
  {
    if n == 0 then t
    else
      var before := Shutdown(t, n - 1);
      if before.sessions[n - 1] != INVALID then CloseAt(before, n - 1) else before
  }

  // ----- the two tables agree -----

  function Empty(supported: nat): Tables {
    Tables(seq(supported, _ => INVALID), seq(supported, _ => FREE_TIMER))
  }

  /** No socket twice, and entry for entry as many timers as sessions for each socket. */
  ghost predicate Agree(t: Tables) {
    && multiset(Sockets(t.timers)) == multiset(t.sessions)
    && forall x :: x in t.sessions && x != INVALID ==> multiset(t.sessions)[x] == 1
  }

  lemma EmptyAgree(supported: nat)
    ensures Agree(Empty(supported))
  {
    assert Sockets(Empty(supported).timers) == Empty(supported).sessions;
  }

  /** Clearing moves every entry of a socket to the free ones. */
  lemma {:induction false} ClearedCounts(timers: seq<Timer>, x: Socket)
    requires x != INVALID
    ensures var (m, m') := (multiset(Sockets(timers)), multiset(Sockets(Cleared(timers, x))));
      m' == m[x := 0][INVALID := m[INVALID] + m[x]]
  {
    if timers == [] {
      assert Sockets(timers) == [] && Sockets(Cleared(timers, x)) == [];
    } else {
      var (init, last) := (timers[..|timers| - 1], timers[|timers| - 1]);
      ClearedCounts(init, x);
      assert Sockets(timers) == Sockets(init) + [last.socket];
      assert Sockets(Cleared(timers, x)) ==
        Sockets(Cleared(init, x)) + [if last.socket == x then INVALID else last.socket];
    }
  }

  lemma SessionFreed(s: seq<Socket>, i: nat)
    requires i < |s|
    ensures multiset(s[i := INVALID]) == multiset(s) - multiset{s[i]} + multiset{INVALID}
  {}

  lemma CloseAtAgrees(t: Tables, i: nat)
    requires Agree(t) && i < |t.sessions| && t.sessions[i] != INVALID
    ensures Agree(CloseAt(t, i)) && t.sessions[i] !in CloseAt(t, i).sessions
  {
    var x := t.sessions[i];
    assert x in t.sessions && x in multiset(t.sessions);
    ClearedCounts(t.timers, x);
    SessionFreed(t.sessions, i);
    var t' := CloseAt(t, i);
    assert multiset(t'.sessions) == multiset(Sockets(t'.timers));
    assert multiset(t'.sessions)[x] == 0;
    forall y | y in t'.sessions && y != INVALID ensures multiset(t'.sessions)[y] == 1 {
      assert y in multiset(t'.sessions) && y in multiset(t.sessions);
    }
  }

  /** With the tables in agreement a free session comes with a free timer, so registering never finds
      the timer table full; it keeps the agreement, and succeeds exactly for a supported request from a
      socket without a session while a session is free. */
  lemma RegisterAgrees(t: Tables, socket: Socket, version: nat, options: nat, now: nat)
    requires Agree(t) && socket != INVALID
    ensures var r := Register(t, socket, version, options, now);
      && r.Registered? && Agree(r.tables)
      && (r.reply.status == Success <==> Acceptable(version, options) && socket !in t.sessions && INVALID in t.sessions)
      && (r.reply.status == Success ==>
            && HasSession(r.tables, r.reply.session) && !HasSession(t, r.reply.session)
            && r.tables.sessions == t.sessions[r.reply.session - 1 := socket])
      && (r.reply.status != Success ==> r.tables == t)
  {
    var free := FirstOf(t.sessions, INVALID);
    var timer := FirstOf(Sockets(t.timers), INVALID);
    if Acceptable(version, options) && socket !in t.sessions && free < |t.sessions| {
      assert INVALID in multiset(t.sessions) && INVALID in multiset(Sockets(t.timers));
      assert INVALID in Sockets(t.timers);
      var r := Register(t, socket, version, options, now);
      assert Sockets(r.tables.timers) == Sockets(t.timers)[timer := socket];
      assert multiset(r.tables.sessions) == multiset(t.sessions) - multiset{INVALID} + multiset{socket};
      assert socket !in multiset(t.sessions);
      forall y | y in r.tables.sessions && y != INVALID ensures multiset(r.tables.sessions)[y] == 1 {
        assert y in multiset(r.tables.sessions);
        assert y != socket ==> y in multiset(t.sessions);
      }
    }
  }

  /** The first place in a table that has a socket. */
  predicate FirstAt(s: seq<Socket>, x: Socket, i: nat) {
    i < |s| && s[i] == x && forall k :: 0 <= k < i ==> s[k] != x
  }

  /** Each request to register has one answer: another protocol version than 1 or an option is not
      supported, a socket with a session gets the handle of that session and an error, without a free
      session there is no memory, and else the first free session and the first free timer are taken. */
  lemma RegisterAnswers(t: Tables, socket: Socket, version: nat, options: nat, now: nat)
    requires Agree(t) && socket != INVALID
    ensures var r := Register(t, socket, version, options, now);
      if version != 1 || options != 0 then r == Registered(t, Reply(0, UnsupportedProtocol))
      else if socket in t.sessions then
        exists i: nat :: FirstAt(t.sessions, socket, i) && r == Registered(t, Reply(i + 1, InvalidCommand))
      else if INVALID !in t.sessions then r == Registered(t, Reply(0, InsufficientMemory))
      else
        exists i: nat, k: nat :: FirstAt(t.sessions, INVALID, i) && FirstAt(Sockets(t.timers), INVALID, k) &&
          r == Registered(Tables(t.sessions[i := socket], t.timers[k := Timer(socket, now)]), Reply(i + 1, Success))
  {
    var (mine, free) := (FirstOf(t.sessions, socket), FirstOf(t.sessions, INVALID));
    var timer := FirstOf(Sockets(t.timers), INVALID);
    if version == 1 && options == 0 {
      if socket in t.sessions {
        assert FirstAt(t.sessions, socket, mine);
      } else if INVALID in t.sessions {
        assert INVALID in multiset(t.sessions) && INVALID in multiset(Sockets(t.timers));
        assert FirstAt(t.sessions, INVALID, free) && FirstAt(Sockets(t.timers), INVALID, timer);
      }
    }
  }

  /** The session in one place is freed, and the timers of a socket; nothing else changes. */
  ghost predicate Freed(t: Tables, r: Tables, i: nat, socket: Socket) {
    && |r.sessions| == |t.sessions| && |r.timers| == |t.timers|
    && (forall k :: 0 <= k < |t.sessions| ==> r.sessions[k] == if k == i then INVALID else t.sessions[k])
    && (forall k :: 0 <= k < |t.timers| ==>
         r.timers[k] == if t.timers[k].socket == socket then Timer(INVALID, 0) else t.timers[k])
  }

  /** A handle of a session frees that session and the timers of its socket; any other handle changes
      nothing. */
  lemma UnregisterFrees(t: Tables, handle: nat)
    ensures var r := Unregister(t, handle);
      if 0 < handle <= |t.sessions| && t.sessions[handle - 1] != INVALID
      then Freed(t, r, handle - 1, t.sessions[handle - 1]) else r == t
  {}

  /** Closing a socket frees its first session and its timers, and removing it the session only; without
      a session neither changes anything. */
  lemma CloseFrees(t: Tables, socket: Socket, i: nat)
    requires FirstAt(t.sessions, socket, i) || (i == |t.sessions| && socket !in t.sessions)
    ensures if i < |t.sessions| then Freed(t, Close(t, socket), i, socket) else Close(t, socket) == t
    ensures Remove(t, socket) == if i < |t.sessions| then Tables(t.sessions[i := INVALID], t.timers) else t
  {
    assert i < |t.sessions| ==> FirstOf(t.sessions, socket) == i;
  }

  lemma CloseThenRemoveIsClose(t: Tables, socket: Socket)
    requires Agree(t) && socket != INVALID
    ensures CloseThenRemove(t, socket) == Close(t, socket)
  {
    if socket !in t.sessions {
      assert socket !in multiset(t.sessions) && socket !in multiset(Sockets(t.timers));
      assert socket !in Sockets(t.timers);
      NothingCleared(t.timers, socket);
    }
  }

  /** While the tables agree, closing by a handle comes to an end exactly if the handle has a session:
      a session that is already freed comes with a free timer. */
  lemma CloseByHandleEnds(t: Tables, handle: nat)
    requires Agree(t) && 0 < handle <= |t.sessions|
    ensures Clears(t.timers, t.sessions[handle - 1]) <==> HasSession(t, handle)
  {
    if !HasSession(t, handle) {
      assert INVALID in multiset(t.sessions) && INVALID in multiset(Sockets(t.timers));
    }
  }

  /** Removing a session without clearing its timer breaks the agreement exactly if there is such a
      session. */
  lemma RemoveAlone(t: Tables, socket: Socket)
    requires Agree(t) && socket != INVALID
    ensures Agree(Remove(t, socket)) <==> socket !in t.sessions
  {
    var i := FirstOf(t.sessions, socket);
    if i < |t.sessions| {
      SessionFreed(t.sessions, i);
      assert multiset(Remove(t, socket).sessions)[INVALID] == multiset(t.sessions)[INVALID] + 1;
    }
  }

  // ----- runs -----

  datatype Event =
    | Registering(socket: Socket, version: nat, options: nat, now: nat)
    | Unregistering(handle: nat)
    | Closing(socket: Socket)
    | ClosingByHandle(handle: nat)
    | Removing(socket: Socket)
    | ShuttingDown

  /** Sockets are valid, and a handle to close by is a registered one. */
  predicate Possible(t: Tables, e: Event) {
    match e
    case Registering(socket, _, _, _) => socket != INVALID
    case Unregistering(_) => true
    case Closing(socket) => socket != INVALID
    case ClosingByHandle(handle) => HasSession(t, handle)
    case Removing(socket) => socket != INVALID
    case ShuttingDown => true
  }

  /** The tables after an event; a null timer is the end of the run. */
  function Step(t: Tables, e: Event): Registration
    requires Possible(t, e)
  {
    match e
    case Registering(socket, version, options, now) => Register(t, socket, version, options, now)
    case Unregistering(handle) => Registered(Unregister(t, handle), Reply(0, Success))
    case Closing(socket) => Registered(Close(t, socket), Reply(0, Success))
    case ClosingByHandle(handle) => Registered(CloseAt(t, handle - 1), Reply(0, Success))
    case Removing(socket) => Registered(CloseThenRemove(t, socket), Reply(0, Success))
    case ShuttingDown => Registered(Shutdown(t, |t.sessions|), Reply(0, Success))
  }

  /** `history` is a run of tables over events from the empty tables. */
  ghost predicate IsRun(supported: nat, events: seq<Event>, history: seq<Tables>) {
    && |history| == |events| + 1 && history[0] == Empty(supported)
    && forall i :: 0 <= i < |events| ==>
         Possible(history[i], events[i])
         && (Step(history[i], events[i]).Registered? ==> history[i + 1] == Step(history[i], events[i]).tables)
  }

  lemma {:induction false} ShutdownAgrees(t: Tables, n: nat)
    requires Agree(t) && n <= |t.sessions|
    ensures Agree(Shutdown(t, n))
  {
    if n > 0 {
      var before := Shutdown(t, n - 1);
      ShutdownAgrees(t, n - 1);
      if before.sessions[n - 1] != INVALID {
        CloseAtAgrees(before, n - 1);
      }
    }
  }

  lemma {:induction false} ShutdownFrees(t: Tables, n: nat, i: nat)
    requires i < n <= |t.sessions|
    ensures Shutdown(t, n).sessions[i] == INVALID
  {
    if i < n - 1 {
      ShutdownFrees(t, n - 1, i);
    }
  }

  /** After a shutdown no socket has a session or a timer. */
  lemma ShutdownFreesAll(t: Tables)
    requires Agree(t)
    ensures var r := Shutdown(t, |t.sessions|);
      forall x :: x in r.sessions || x in Sockets(r.timers) ==> x == INVALID
  {
    var r := Shutdown(t, |t.sessions|);
    ShutdownAgrees(t, |t.sessions|);
    forall i | 0 <= i < |t.sessions| ensures r.sessions[i] == INVALID {
      ShutdownFrees(t, |t.sessions|, i);
    }
    forall x | x in Sockets(r.timers) ensures x in r.sessions {
      assert x in multiset(Sockets(r.timers)) && x in multiset(r.sessions);
    }
  }

  lemma StepAgrees(t: Tables, e: Event)
    requires Agree(t) && Possible(t, e)
    ensures Step(t, e).Registered? && Agree(Step(t, e).tables)
  {
    match e
    case Registering(socket, version, options, now) => RegisterAgrees(t, socket, version, options, now);
    case Unregistering(handle) => if HasSession(t, handle) { CloseAtAgrees(t, handle - 1); }
    case Closing(socket) => CloseAgrees(t, socket);
    case ClosingByHandle(handle) => CloseAtAgrees(t, handle - 1);
    case Removing(socket) =>
      CloseThenRemoveIsClose(t, socket);
      CloseAgrees(t, socket);
    case ShuttingDown => ShutdownAgrees(t, |t.sessions|);
  }

  lemma CloseAgrees(t: Tables, socket: Socket)
    requires Agree(t) && socket != INVALID
    ensures Agree(Close(t, socket)) && socket !in Close(t, socket).sessions
  {
    if FirstOf(t.sessions, socket) < |t.sessions| {
      CloseAtAgrees(t, FirstOf(t.sessions, socket));
    }
  }

  /** In every state of every run no socket is registered twice, each registered socket has one timer
      and no other socket has any, and no step finds the timer table full. */
  lemma {:induction false} TablesAgreeInEveryRun(supported: nat, events: seq<Event>, history: seq<Tables>, i: nat)
    requires IsRun(supported, events, history) && i <= |events|
    ensures Agree(history[i])
    ensures forall x: Socket :: x != INVALID ==>
      multiset(Sockets(history[i].timers))[x] == multiset(history[i].sessions)[x] <= 1
    ensures i < |events| ==> Step(history[i], events[i]).Registered?
    decreases i
  {
    if i == 0 {
      EmptyAgree(supported);
    } else {
      TablesAgreeInEveryRun(supported, events, history, i - 1);
      StepAgrees(history[i - 1], events[i - 1]);
    }
    if i < |events| {
      StepAgrees(history[i], events[i]);
    }
    forall x: Socket | x != INVALID ensures multiset(history[i].sessions)[x] <= 1 {
      if x in multiset(history[i].sessions) {
        assert x in history[i].sessions;
      }
    }
  }
}
