/** The doubly linked list that holds the active connections, on its static array of nodes. A
    pointer to a node is an index into the array. */
module DoublyLinkedList {
  import opened Connections

  datatype Node<T> = Node(previous: Option<nat>, next: Option<nat>, data: Option<T>)

  /** What the allocator takes for a free node: everything cleared. */
  predicate IsFree<T(==)>(n: Node<T>) {
    n.previous == None && n.next == None && n.data == None
  }

  function PreviousOf(order: seq<nat>, i: nat): Option<nat>
    requires i <= |order|
  {
    if i == 0 then None else Some(order[i - 1])
  }

  function NextOf(order: seq<nat>, i: nat): Option<nat> {
    if i + 1 < |order| then Some(order[i + 1]) else None
  }

  /** The node at position i of the order has its neighbours for links and its element for data. */
  ghost predicate LinkedAt<T>(nodes: seq<Node<T>>, order: seq<nat>, contents: seq<T>, i: nat)
    requires i < |order| == |contents|
  {
    order[i] < |nodes| && nodes[order[i]] == Node(PreviousOf(order, i), NextOf(order, i), Some(contents[i]))
  }

  /** The nodes are linked in the given order, mutually inverse from first to last, with the given
      elements, and every other node is cleared. */
  ghost predicate Linked<T(!new)>(nodes: seq<Node<T>>, first: Option<nat>, last: Option<nat>, order: seq<nat>,
                           contents: seq<T>) {
    && Distinct(order) && |contents| == |order|
    && first == (if order == [] then None else Some(order[0]))
    && last == (if order == [] then None else Some(order[|order| - 1]))
    && (forall i :: 0 <= i < |order| ==> LinkedAt(nodes, order, contents, i))
    && (forall n :: 0 <= n < |nodes| && n !in order ==> nodes[n] == Node(None, None, None))
  }

  // ----- sequences -----

  /** A sequence with x inserted so that it stands at position k. */
  function Spliced<T>(s: seq<T>, k: nat, x: T): (r: seq<T>)
    requires k <= |s|
  {
    s[..k] + [x] + s[k..]
  }

  /** A sequence without its element at position k. */
  function Cut<T>(s: seq<T>, k: nat): (r: seq<T>)
    requires k < |s|
  {
    s[..k] + s[k + 1..]
  }

  // ----- relinking -----

  /** A free node linked in between two neighbours. */
  lemma InsertedLinked<T(!new)>(nodes: seq<Node<T>>, first: Option<nat>, last: Option<nat>, order: seq<nat>,
                         contents: seq<T>,
                                k: nat, added: nat, data: T, after: seq<Node<T>>)
    requires Linked(nodes, first, last, order, contents) && 0 < k < |order| && added < |nodes| && added !in order
    requires LinkedAt(nodes, order, contents, k - 1) && LinkedAt(nodes, order, contents, k)
    requires var (p, n) := (order[k - 1], order[k]);
      after == nodes[added := Node(Some(p), Some(n),
        Some(data))][n := nodes[n].(previous := Some(added))][p := nodes[p].(next := Some(added))]
    ensures Linked(after, first, last, Spliced(order, k, added), Spliced(contents, k, data))
  {
    var (order1, contents1) := (Spliced(order, k, added), Spliced(contents, k, data));
    forall i | 0 <= i < |order1| ensures LinkedAt(after, order1, contents1, i) {
      if i != k {
        assert LinkedAt(nodes, order, contents, if i < k then i else i - 1);
      }
    }
    forall n | 0 <= n < |nodes| && n !in order1 ensures after[n] == Node(None, None, None) {
      assert order1[k] == added && order1[k - 1] == order[k - 1] && order1[k + 1] == order[k];
      SplicedMembers(order, k, added);
    }
  }

  lemma SplicedMembers(order: seq<nat>, k: nat, added: nat)
    requires k <= |order|
    ensures forall n :: n in order ==> n in Spliced(order, k, added)
  {
    assert order == order[..k] + order[k..];
  }

  /** The first node of an empty list. */
  lemma OnlyLinked<T(!new)>(nodes: seq<Node<T>>, added: nat, data: T, after: seq<Node<T>>)
    requires Linked(nodes, None, None, [], []) && added < |nodes|
    requires after == nodes[added := Node(None, None, Some(data))]
    ensures Linked(after, Some(added), Some(added), [added], [data])
  {
    assert LinkedAt(after, [added], [data], 0);
  }

  lemma HeadLinked<T(!new)>(nodes: seq<Node<T>>, first: Option<nat>, last: Option<nat>, order: seq<nat>,
                     contents: seq<T>,
                            added: nat, data: T, after: seq<Node<T>>)
    requires Linked(nodes, first, last, order, contents) && order != [] && added < |nodes| && added !in order
    requires LinkedAt(nodes, order, contents, 0)
    requires after == nodes[added := Node(None, Some(order[0]),
      Some(data))][order[0] := nodes[order[0]].(previous := Some(added))]
    ensures Linked(after, Some(added), last, [added] + order, [data] + contents)
  {
    var (order1, contents1) := ([added] + order, [data] + contents);
    forall i | 0 <= i < |order1| ensures LinkedAt(after, order1, contents1, i) {
      if i > 0 {
        assert LinkedAt(nodes, order, contents, i - 1);
      }
    }
    assert order1[0] == added && order1[1] == order[0];
  }

  lemma TailLinked<T(!new)>(nodes: seq<Node<T>>, first: Option<nat>, last: Option<nat>, order: seq<nat>,
                     contents: seq<T>,
                            added: nat, data: T, after: seq<Node<T>>)
    requires Linked(nodes, first, last, order, contents) && order != [] && added < |nodes| && added !in order
    requires LinkedAt(nodes, order, contents, |order| - 1)
    requires var l := order[|order| - 1];
      after == nodes[added := Node(Some(l), None, Some(data))][l := nodes[l].(next := Some(added))]
    ensures Linked(after, first, Some(added), order + [added], contents + [data])
  {
    var (order1, contents1) := (order + [added], contents + [data]);
    forall i | 0 <= i < |order1| ensures LinkedAt(after, order1, contents1, i) {
      if i < |order| {
        assert LinkedAt(nodes, order, contents, i);
      }
    }
    assert order1[|order|] == added && order1[|order| - 1] == order[|order| - 1];
  }

  /** The node array after the neighbours of position k are linked past it and it is cleared. */
  function Unlinked<T>(nodes: seq<Node<T>>, order: seq<nat>, k: nat): seq<Node<T>>
    requires k < |order| && order[k] < |nodes|
    requires k > 0 ==> order[k - 1] < |nodes|
    requires k + 1 < |order| ==> order[k + 1] < |nodes|
  {
    var (p, n) := (PreviousOf(order, k), NextOf(order, k));
    var nodes1 := if p.Some? then nodes[p.value := nodes[p.value].(next := n)] else nodes;
    var nodes2 := if n.Some? then nodes1[n.value := nodes1[n.value].(previous := p)] else nodes1;
    nodes2[order[k] := Node(None, None, None)]
  }

  lemma RemovedLinked<T(!new)>(nodes: seq<Node<T>>, first: Option<nat>, last: Option<nat>, order: seq<nat>,
                        contents: seq<T>, k: nat)
    requires Linked(nodes, first, last, order, contents) && k < |order|
    requires LinkedAt(nodes, order, contents, k)
    requires k > 0 ==> LinkedAt(nodes, order, contents, k - 1)
    requires k + 1 < |order| ==> LinkedAt(nodes, order, contents, k + 1)
    ensures Linked(Unlinked(nodes, order, k),
                   if k == 0 then NextOf(order, 0) else first, if k + 1 == |order| then PreviousOf(order, k) else last,
                   Cut(order, k), Cut(contents, k))
  {
    var (order1, contents1) := (Cut(order, k), Cut(contents, k));
    var after := Unlinked(nodes, order, k);
    forall i | 0 <= i < |order1| ensures LinkedAt(after, order1, contents1, i) {
      assert LinkedAt(nodes, order, contents, if i < k then i else i + 1);
    }
    CutMembers(order, k);
    forall n | 0 <= n < |nodes| && n !in order1 ensures after[n] == Node(None, None, None) {
      assert n == order[k] || n !in order;
    }
  }

  lemma CutMembers(order: seq<nat>, k: nat)
    requires k < |order|
    ensures forall n :: n in order ==> n == order[k] || n in Cut(order, k)
  {
    assert order == order[..k] + [order[k]] + order[k + 1..];
  }

  class List<T(==, !new)> {
    const nodes: array<Node<T>>
    var first: Option<nat>
    var last: Option<nat>
    ghost var order: seq<nat>
    ghost var contents: seq<T>

    ghost predicate Valid()
      reads this, nodes
    {
      Linked(nodes[..], first, last, order, contents)
    }

    ghost predicate Exhausted()
      reads this
    {
      forall n :: 0 <= n < nodes.Length ==> n in order
    }

    constructor (amount: nat)
      ensures Valid() && fresh(nodes) && nodes.Length == amount && contents == []
    {
      nodes := new Node<T>[amount](_ => Node(None, None, None));
      first, last := None, None;
      order, contents := [], [];
    }

    /** The first free node; a node counts as free exactly when it is not on the list. */
    method Allocate() returns (n: Option<nat>)
      requires Valid()
      ensures n.None? <==> Exhausted()
      ensures n.Some? ==> n.value < nodes.Length && n.value !in order
    {
      var i := 0;
      while i < nodes.Length
        invariant 0 <= i <= nodes.Length
        invariant forall j :: 0 <= j < i ==> j in order
      {
        FreeIffUnlisted(i);
        if nodes[i].previous == None && nodes[i].next == None && nodes[i].data == None {
          return Some(i);
        }
        i := i + 1;
      }
      return None;
    }

    method InsertAtHead(data: T)
      requires Valid() && !Exhausted()
      modifies this, nodes
      ensures Valid() && contents == [data] + old(contents)
    {
      var spare := Allocate();
      var node := spare.value;
      nodes[node] := nodes[node].(data := Some(data));
      if first == None {
        first, last := Some(node), Some(node);
        OnlyLinked(old(nodes[..]), node, data, nodes[..]);
      } else {
        assert LinkedAt(old(nodes[..]), order, contents, 0);
        nodes[node] := nodes[node].(next := first);
        nodes[first.value] := nodes[first.value].(previous := Some(node));
        HeadLinked(old(nodes[..]), first, last, order, contents, node, data, nodes[..]);
        first := Some(node);
      }
      order, contents := [node] + order, [data] + contents;
    }

    method InsertAtTail(data: T)
      requires Valid() && !Exhausted()
      modifies this, nodes
      ensures Valid() && contents == old(contents) + [data]
    {
      var spare := Allocate();
      var node := spare.value;
      nodes[node] := nodes[node].(data := Some(data));
      if last == None {
        first, last := Some(node), Some(node);
        OnlyLinked(old(nodes[..]), node, data, nodes[..]);
        assert order + [node] == [node] && contents + [data] == [data];
      } else {
        assert LinkedAt(old(nodes[..]), order, contents, |order| - 1);
        nodes[node] := nodes[node].(previous := last);
        nodes[last.value] := nodes[last.value].(next := Some(node));
        TailLinked(old(nodes[..]), first, last, order, contents, node, data, nodes[..]);
        last := Some(node);
      }
      order, contents := order + [node], contents + [data];
    }

    method InsertBeforeNode(node: nat, data: T, ghost k: nat)
      requires Valid() && !Exhausted() && k < |order| && order[k] == node
      modifies this, nodes
      ensures Valid() && contents == Spliced(old(contents), k, data)
    {
      if first == Some(node) {
        assert k == 0;
        InsertAtHead(data);
      } else {
        assert LinkedAt(nodes[..], order, contents, k) && LinkedAt(nodes[..], order, contents, k - 1);
        var spare := Allocate();
        var added := spare.value;
        var p := nodes[node].previous.value;
        nodes[added] := Node(Some(p), Some(node), Some(data));
        nodes[node] := nodes[node].(previous := Some(added));
        nodes[p] := nodes[p].(next := Some(added));
        InsertedLinked(old(nodes[..]), first, last, order, contents, k, added, data, nodes[..]);
        order, contents := Spliced(order, k, added), Spliced(contents, k, data);
      }
    }

    method InsertAfterNode(node: nat, data: T, ghost k: nat)
      requires Valid() && !Exhausted() && k < |order| && order[k] == node
      modifies this, nodes
      ensures Valid() && contents == Spliced(old(contents), k + 1, data)
    {
      if last == Some(node) {
        assert k + 1 == |order|;
        InsertAtTail(data);
      } else {
        assert LinkedAt(nodes[..], order, contents, k) && LinkedAt(nodes[..], order, contents, k + 1);
        var spare := Allocate();
        var added := spare.value;
        var n := nodes[node].next.value;
        nodes[added] := Node(Some(node), Some(n), Some(data));
        nodes[n] := nodes[n].(previous := Some(added));
        nodes[node] := nodes[node].(next := Some(added));
        InsertedLinked(old(nodes[..]), first, last, order, contents, k + 1, added, data, nodes[..]);
        order, contents := Spliced(order, k + 1, added), Spliced(contents, k + 1, data);
      }
    }

    /** Unlinks a node and clears it, which gives it back to the pool. */
    method RemoveNode(node: nat, ghost k: nat)
      requires Valid() && k < |order| && order[k] == node && node < nodes.Length
      modifies this, nodes
      ensures Valid() && order == Cut(old(order), k) && contents == Cut(old(contents), k)
      ensures IsFree(nodes[node]) && node !in order
    {
      var previous := nodes[node].previous;
      var next := nodes[node].next;
      assert LinkedAt(nodes[..], order, contents, k);
      assert k > 0 ==> LinkedAt(nodes[..], order, contents, k - 1);
      assert k + 1 < |order| ==> LinkedAt(nodes[..], order, contents, k + 1);
      if first == Some(node) && last == Some(node) {
        first, last := None, None;
      } else {
        if first == Some(node) {
          first := next;
        }
        if last == Some(node) {
          last := previous;
        }
        if previous != None {
          nodes[previous.value] := nodes[previous.value].(next := next);
        }
        if next != None {
          nodes[next.value] := nodes[next.value].(previous := previous);
        }
      }
      nodes[node] := Node(None, None, None);
      RemovedLinked(old(nodes[..]), old(first), old(last), order, contents, k);
      assert nodes[..] == Unlinked(old(nodes[..]), order, k);
      order, contents := Cut(order, k), Cut(contents, k);
    }

    /** Walks the list along the next links and removes the first node with the given element. */
    method RemoveData(data: T) returns (found: bool)
      requires Valid()
      modifies this, nodes
      ensures Valid()
      ensures found == (data in old(contents))
      ensures contents == FirstRemoved(old(contents), data)
    {
      var node := first;
      ghost var k := 0;
      while node != None
        invariant Valid() && contents == old(contents)
        invariant 0 <= k <= |order| && node == (if k < |order| then Some(order[k]) else None)
        invariant data !in contents[..k]
        decreases |order| - k
      {
        assert LinkedAt(nodes[..], order, contents, k);
        if nodes[node.value].data == Some(data) {
          FirstRemovedAt(contents, data, k);
          RemoveNode(node.value, k);
          return true;
        }
        node := nodes[node.value].next;
        k := k + 1;
      }
      assert contents[..k] == contents;
      FirstRemovedAt(contents, data, k);
      return false;
    }

    /** Exactly the nodes that are not on the list look free to the allocator. */
    lemma FreeIffUnlisted(n: nat)
      requires Valid() && n < nodes.Length
      ensures IsFree(nodes[n]) <==> n !in order
    {
      if n in order {
        var i :| 0 <= i < |order| && order[i] == n;
        assert LinkedAt(nodes[..], order, contents, i);
      } else {
        assert nodes[..][n] == Node(None, None, None);
      }
    }

    /** A walker that stands on a node goes on to the one behind it; from a node that has been taken off
        the list under it, it goes nowhere. */
    lemma NextLeads(n: nat)
      requires Valid() && n < nodes.Length
      ensures forall k :: 0 <= k < |order| && order[k] == n ==> nodes[n].next == NextOf(order, k)
      ensures n !in order ==> nodes[n].next == None
    {
      forall k | 0 <= k < |order| && order[k] == n ensures nodes[n].next == NextOf(order, k) {
        assert LinkedAt(nodes[..], order, contents, k);
      }
      if n !in order {
        assert nodes[..][n] == Node(None, None, None);
      }
    }

    /** The pool is exhausted exactly when the list is as long as the pool. */
    lemma ExhaustedIffFull()
      requires Valid()
      ensures |contents| <= nodes.Length && (Exhausted() <==> |contents| == nodes.Length)
    {
      var (listed, all) := (Elements(order), Below(nodes.Length));
      DistinctCount(order);
      forall n | n in order ensures n < nodes.Length {
        var i :| 0 <= i < |order| && order[i] == n;
        assert LinkedAt(nodes[..], order, contents, i);
      }
      assert listed <= all;
      SubsetCount(listed, all);
      assert Exhausted() ==> all <= listed;
      assert listed == all ==> forall n :: 0 <= n < nodes.Length ==> n in listed;
    }
  }

  function FirstRemoved<T(==)>(s: seq<T>, x: T): seq<T> {
    if s == [] then [] else if s[0] == x then s[1..] else [s[0]] + FirstRemoved(s[1..], x)
  }

  lemma {:induction false} FirstRemovedAt<T>(s: seq<T>, x: T, k: nat)
    requires k <= |s| && x !in s[..k] && (k < |s| ==> s[k] == x)
    ensures FirstRemoved(s, x) == if k < |s| then Cut(s, k) else s
  {
    if k > 0 {
      assert s[0] in s[..k];
      assert s[..k] == [s[0]] + s[1..][..k - 1];
      FirstRemovedAt(s[1..], x, k - 1);
    }
  }

  ghost function Elements(s: seq<nat>): (r: set<nat>)
    ensures forall n :: n in r <==> n in s
  {
    set n | n in s
  }

  ghost function Below(n: nat): (r: set<nat>)
    ensures forall i :: i in r <==> 0 <= i < n
    ensures |r| == n
  {
    if n == 0 then {} else Below(n - 1) + {n - 1}
  }

  lemma {:induction false} DistinctCount(s: seq<nat>)
    requires Distinct(s)
    ensures |Elements(s)| == |s|
  {
    if s != [] {
      assert Distinct(s[1..]);
      DistinctCount(s[1..]);
      assert s == [s[0]] + s[1..];
      assert Elements(s) == Elements(s[1..]) + {s[0]};
    }
  }

  lemma SubsetCount(a: set<nat>, b: set<nat>)
    requires a <= b
    ensures |a| <= |b| && (|a| == |b| <==> a == b)
  {
    assert b == a + (b - a);
    assert |b| == |a| + |b - a|;
  }
}
