/** The walk over the nodes of the active list that closes the class 3 connections of a session. */
module SessionWalk {
  import opened Connections
  import opened ConnectionModel
  import opened ConnectionInvariants
  import ConnectionManager
  import opened DoublyLinkedList

  /** What a list of nodes and a table of connections stand for. */
  function State(contents: seq<Slot>, conns: map<Slot, Connection>): Model {
    Model(contents, conns, 0, map[])
  }

  lemma {:induction false} FirstAt(a: seq<Slot>, conns: map<Slot, Connection>, q: Query, k: nat)
    requires k <= |a| && forall x :: x in a ==> x in conns
    requires forall j :: 0 <= j < k ==> !Hit(q, a[j], conns[a[j]])
    requires k < |a| ==> Hit(q, a[k], conns[a[k]])
    ensures First(a, conns, q) == if k < |a| then Some(a[k]) else None
  {
    if k > 0 {
      assert a[0] in a;
      assert forall x :: x in a[1..] ==> x in a;
      FirstAt(a[1..], conns, q, k - 1);
    }
  }

  lemma CutIsWithout(a: seq<Slot>, k: nat)
    requires Distinct(a) && k < |a|
    ensures Cut(a, k) == Without(a, {a[k]})
  {
    FirstRemovedAt(a, a[k], k);
    ConnectionManager.RemoveDataIsWithout(a, a[k]);
  }

  /** Walks along the next links. The close clears the node the walk stands on, and the link read from it
      then ends the walk: what is done is the model's close of the session's first connection only. */
  method CloseClass3ConnectionBasedOnSession(list: List<Slot>, conns: map<Slot, Connection>, session: nat)
    returns (conns': map<Slot, Connection>)
    requires list.Valid() && Listed(State(list.contents, conns))
    requires forall x :: x in conns && Hit(MessagingOf(session), x, conns[x]) ==> !IsIo(conns[x])
    modifies list, list.nodes
    ensures list.Valid()
    ensures State(list.contents, conns') == CloseSession(State(old(list.contents), conns), session)
  {
    conns' := conns;
    ghost var (before, q, k, closed) := (list.contents, MessagingOf(session), 0, false);
    var node := list.first;
    while node != None
      invariant list.Valid() && 0 <= k <= |before|
      invariant !closed ==>
        && list.contents == before && conns' == conns
        && node == (if k < |list.order| then Some(list.order[k]) else None)
        && forall j :: 0 <= j < k ==> !Hit(q, before[j], conns[before[j]])
      invariant closed ==>
        && node == None && State(list.contents, conns') == CloseSession(State(before, conns), session)
      decreases !closed, |before| - k
    {
      assert LinkedAt(list.nodes[..], list.order, list.contents, k);
      var n := node.value;
      var x := list.nodes[n].data.value;
      assert x == before[k] && x in conns;
      if conns[x].terms.transport == Class3 && conns[x].terms.session == session {
        FirstAt(before, conns, q, k);
        CutIsWithout(before, k);
        list.RemoveNode(n, k);
        conns' := conns - {x};
        closed := true;
      }
      list.NextLeads(n);
      node := list.nodes[n].next;
      k := k + 1;
    }
    if !closed {
      FirstAt(before, conns, q, k);
    }
  }
}
