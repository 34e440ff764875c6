/** The instance list of a CIP class and the counters kept beside it. */
module CipInstances {
  import opened Connections
  import opened Widths

  /** Instance numbers and the counters are 16 bits wide. */
  const LIMIT: nat := 0xFFFF

  /** The numbers in list order, the recorded count and the recorded largest number. */
  datatype Instances = Instances(numbers: seq<nat>, count: nat, max: nat)

  function Largest(s: seq<nat>): nat {
    if s == [] then 0
    else
      var rest := Largest(s[..|s| - 1]);
      if s[|s| - 1] > rest then s[|s| - 1] else rest
  }

  lemma {:induction false} LargestIs(s: seq<nat>)
    ensures forall i :: 0 <= i < |s| ==> s[i] <= Largest(s)
    ensures if s == [] then Largest(s) == 0 else Largest(s) in s
  {
    if s != [] {
      var init := s[..|s| - 1];
      LargestIs(init);
      assert s == init + [s[|s| - 1]];
    }
  }

  function Removed(s: seq<nat>, x: nat): seq<nat> {
    if s == [] then [] else (if s[0] == x then [] else [s[0]]) + Removed(s[1..], x)
  }

  lemma {:induction false} RemovedHas(s: seq<nat>, x: nat, y: nat)
    ensures y in Removed(s, x) <==> y in s && y != x
    ensures |Removed(s, x)| <= |s| && (x in s ==> |Removed(s, x)| < |s|)
  {
    if s != [] {
      RemovedHas(s[1..], x, y);
    }
  }

  /** The smallest unused number from `n` on. */
  function Unused(s: seq<nat>, n: nat): (r: nat)
    ensures r >= n
    decreases |s|
  {
    if n !in s then n else RemovedHas(s, n, n); Unused(Removed(s, n), n + 1)
  }

  lemma {:induction false} UnusedIs(s: seq<nat>, n: nat)
    ensures Unused(s, n) !in s
    ensures forall m :: n <= m < Unused(s, n) ==> m in s
    decreases |s|
  {
    if n in s {
      var (rest, r) := (Removed(s, n), Unused(s, n));
      RemovedHas(s, n, n);
      UnusedIs(rest, n + 1);
      RemovedHas(s, n, r);
      forall m | n <= m < r ensures m in s {
        RemovedHas(s, n, m);
      }
    }
  }

  lemma UnusedUnique(s: seq<nat>, n: nat, r: nat)
    requires n <= r && r !in s && forall m :: n <= m < r ==> m in s
    ensures r == Unused(s, n)
  {
    UnusedIs(s, n);
  }

  /** The next `k` unused numbers from `n` on. */
  function Fresh(s: seq<nat>, n: nat, k: nat): (r: seq<nat>)
    ensures |r| == k
    decreases k
  {
    if k == 0 then [] else [Unused(s, n)] + Fresh(s, Unused(s, n) + 1, k - 1)
  }

  function Add(c: Instances, k: nat): Instances {
    var numbers := c.numbers + Fresh(c.numbers, 1, k);
    Instances(numbers, c.count + k, Largest(numbers))
  }

  /** An instance that has the number already is not added again, and 0 is the class itself. */
  function AddNumbered(c: Instances, id: nat): Instances {
    var there := id == 0 || id in c.numbers;
    var numbers := if there then c.numbers else c.numbers + [id];
    Instances(numbers, if there then c.count else c.count + 1, Largest(numbers))
  }

  function IndexOf(s: seq<nat>, x: nat): (i: nat)
    ensures i <= |s|
  {
    if s == [] || s[0] == x then 0 else 1 + IndexOf(s[1..], x)
  }

  lemma {:induction false} IndexIs(s: seq<nat>, x: nat, i: nat)
    requires i <= |s| && (i < |s| ==> s[i] == x) && forall k :: 0 <= k < i ==> s[k] != x
    ensures IndexOf(s, x) == i
  {
    if i > 0 {
      IndexIs(s[1..], x, i - 1);
    }
  }

  lemma {:induction false} IndexHas(s: seq<nat>, x: nat)
    ensures x in s <==> IndexOf(s, x) < |s|
    ensures x in s ==> s[IndexOf(s, x)] == x
    ensures forall k :: 0 <= k < IndexOf(s, x) ==> s[k] != x
  {
    if s != [] && s[0] != x {
      IndexHas(s[1..], x);
    }
  }

  function Delete(c: Instances, number: nat): Instances
    requires number in c.numbers && c.count > 0
  {
    IndexHas(c.numbers, number);
    var i := IndexOf(c.numbers, number);
    var numbers := c.numbers[..i] + c.numbers[i + 1..];
    Instances(numbers, c.count - 1, Largest(numbers))
  }

  // ----- counting -----

  predicate AllBelow(s: seq<nat>, n: nat) {
    forall m :: 1 <= m < n ==> m in s
  }

  lemma RemovedBelow(s: seq<nat>, n: nat)
    requires AllBelow(s, n + 1)
    ensures AllBelow(Removed(s, n), n)
  {
    forall m | 1 <= m < n ensures m in Removed(s, n) {
      RemovedHas(s, n, m);
    }
  }

  /** As many numbers from 1 on cannot all be in a shorter list. */
  lemma {:induction false} Pigeonhole(s: seq<nat>, n: nat)
    requires AllBelow(s, n)
    ensures n - 1 <= |s|
    decreases n
  {
    if n > 1 {
      assert n - 1 in s;
      RemovedHas(s, n - 1, n - 1);
      RemovedBelow(s, n - 1);
      Pigeonhole(Removed(s, n - 1), n - 1);
    }
  }

  /** Numbers handed out are in order, were unused, and leave no smaller unused number out. */
  ghost predicate SmallestUnused(s: seq<nat>, n: nat, r: seq<nat>) {
    && (forall i :: 0 <= i < |r| ==> r[i] >= n && r[i] !in s)
    && (forall i, j :: 0 <= i < j < |r| ==> r[i] < r[j])
    && (forall i, m :: 0 <= i < |r| && n <= m <= r[i] && m !in s ==> m in r)
  }

  lemma {:induction false} FreshAreSmallest(s: seq<nat>, n: nat, k: nat)
    ensures SmallestUnused(s, n, Fresh(s, n, k))
    decreases k
  {
    if k > 0 {
      var (first, rest) := (Unused(s, n), Fresh(s, Unused(s, n) + 1, k - 1));
      UnusedIs(s, n);
      FreshAreSmallest(s, first + 1, k - 1);
      var r := Fresh(s, n, k);
      assert r == [first] + rest;
      forall i, m | 0 <= i < |r| && n <= m <= r[i] && m !in s ensures m in r {
        if m > first {
          assert r[i] == rest[i - 1];
          assert m in rest;
        }
      }
    }
  }

  /** Only one sequence of a length is in order, unused and leaves nothing out. */
  lemma {:induction false} SmallestUnusedIsUnique(s: seq<nat>, n: nat, a: seq<nat>, b: seq<nat>)
    requires SmallestUnused(s, n, a) && SmallestUnused(s, n, b) && |a| == |b|
    ensures a == b
    decreases |a|
  {
    if a != [] {
      var (a1, b1) := (a[1..], b[1..]);
      SameFirst(s, n, a, b);
      SameFirst(s, n, b, a);
      RestSmallest(s, n, a);
      RestSmallest(s, n, b);
      SmallestUnusedIsUnique(s, a[0] + 1, a1, b1);
      SameWhole(a, b);
    }
  }

  lemma SameWhole(a: seq<nat>, b: seq<nat>)
    requires a != [] && b != [] && a[0] == b[0] && a[1..] == b[1..]
    ensures a == b
  {
    assert a == [a[0]] + a[1..] && b == [b[0]] + b[1..];
  }

  lemma SameFirst(s: seq<nat>, n: nat, a: seq<nat>, b: seq<nat>)
    requires SmallestUnused(s, n, a) && SmallestUnused(s, n, b) && a != [] && b != []
    ensures a[0] <= b[0]
  {}

  lemma RestSmallest(s: seq<nat>, n: nat, a: seq<nat>)
    requires SmallestUnused(s, n, a) && a != []
    ensures SmallestUnused(s, a[0] + 1, a[1..])
  {
    var rest := a[1..];
    forall i, m | 0 <= i < |rest| && a[0] + 1 <= m <= rest[i] && m !in s ensures m in rest {
      assert a[i + 1] == rest[i];
      assert m in a;
    }
  }

  /** Handing out one number and then the others is handing out all. */
  lemma {:induction false} FreshLast(s: seq<nat>, n: nat, k: nat)
    requires k > 0
    ensures var init := Fresh(s, n, k - 1);
      Fresh(s, n, k) == init + [Unused(s, if k == 1 then n else init[k - 2] + 1)]
    decreases k
  {
    if k > 1 {
      FreshLast(s, Unused(s, n) + 1, k - 1);
    }
  }

  /** Numbers below do not matter to the search. */
  lemma UnusedAbove(s: seq<nat>, low: seq<nat>, n: nat)
    requires forall x :: x in low ==> x < n
    ensures Unused(s + low, n) == Unused(s, n)
  {
    UnusedIs(s, n);
    UnusedUnique(s + low, n, Unused(s, n));
  }

  /** Where the search for one more number starts. */
  function Start(s: seq<nat>, added: nat): nat {
    if added == 0 then 1 else Fresh(s, 1, added)[added - 1] + 1
  }

  lemma HandedBelow(s: seq<nat>, added: nat)
    ensures forall x :: x in Fresh(s, 1, added) ==> 1 <= x < Start(s, added)
    ensures forall m :: 1 <= m < Start(s, added) ==> m in s + Fresh(s, 1, added)
  {
    FreshAreSmallest(s, 1, added);
    var handed := Fresh(s, 1, added);
    forall m | 1 <= m < Start(s, added) && m !in s ensures m in handed {
      assert m <= handed[added - 1];
    }
  }

  /** The next unused number is the same with the numbers handed out so far in the list, and there is
      one within the limit. */
  lemma NextUnused(s: seq<nat>, added: nat)
    requires |s| + added < LIMIT
    ensures Unused(s + Fresh(s, 1, added), Start(s, added)) == Unused(s, Start(s, added)) <= LIMIT
  {
    var all := s + Fresh(s, 1, added);
    HandedBelow(s, added);
    UnusedAbove(s, Fresh(s, 1, added), Start(s, added));
    UnusedIs(all, Start(s, added));
    Pigeonhole(all, Unused(all, Start(s, added)));
  }

  lemma FreshNext(s: seq<nat>, added: nat, number: nat)
    requires number == Unused(s, Start(s, added))
    ensures s + Fresh(s, 1, added) + [number] == s + Fresh(s, 1, added + 1)
    ensures Start(s, added + 1) == number + 1
  {
    FreshLast(s, 1, added + 1);
  }

  lemma LastReplaced(s: seq<nat>, x: nat, y: nat)
    ensures (s + [x])[|s| := y] == s + [y]
  {}

  // ----- the class -----

  class CipClass {
    var instances: seq<nat>
    var numberOfInstances: nat
    var maxInstance: nat

    ghost function View(): Instances
      reads this
    {
      Instances(instances, numberOfInstances, maxInstance)
    }

    constructor ()
      ensures View() == Instances([], 0, 0)
    {
      instances, numberOfInstances, maxInstance := [], 0, 0;
    }

    method GetMaxInstanceNumber() returns (max: nat)
      ensures max == Largest(instances)
    {
      max := 0;
      var i := 0;
      while i < |instances|
        invariant 0 <= i <= |instances|
        invariant max == Largest(instances[..i])
      {
        assert instances[..i + 1][..i] == instances[..i];
        if instances[i] > max {
          max := instances[i];
        }
        i := i + 1;
      }
      assert instances[..i] == instances;
    }

    /** The instance with a number, by its place in the list. */
    method GetCipInstance(number: nat) returns (i: nat)
      ensures i == IndexOf(instances, number)
    {
      i := 0;
      while i < |instances|
        invariant 0 <= i <= |instances|
        invariant forall k :: 0 <= k < i ==> instances[k] != number
      {
        if instances[i] == number {
          IndexIs(instances, number, i);
          return i;
        }
        i := i + 1;
      }
      IndexIs(instances, number, i);
    }

    /** Counts up from a number until the list does not have it. */
    method FindFreeNumber(from: nat) returns (number: nat)
      requires Unused(instances, from) <= LIMIT
      ensures number == Unused(instances, from)
    {
      number := from;
      var found := false;
      UnusedIs(instances, from);
      while !found
        invariant from <= number <= Unused(instances, from)
        invariant found ==> number == Unused(instances, from)
        decreases !found, Unused(instances, from) - number
      {
        var i := GetCipInstance(number);
        IndexHas(instances, number);
        found := i == |instances|;
        if !found {
          number := (number + 1) % UINT16;
        }
      }
    }

    /** Links a new instance with the next free number behind the others. */
    method AppendFree(from: nat) returns (number: nat)
      requires Unused(instances, from) <= LIMIT && numberOfInstances < LIMIT
      modifies this`instances, this`numberOfInstances
      ensures number == Unused(old(instances), from) && instances == old(instances) + [number]
      ensures numberOfInstances == old(numberOfInstances) + 1
    {
      number := FindFreeNumber(from);
      instances := instances + [number];
      numberOfInstances := (numberOfInstances + 1) % UINT16;
    }

    /** The loop of AddCipInstances. */
    method AppendAll(k: nat) returns (first: Option<nat>)
      requires |instances| + k <= LIMIT && numberOfInstances + k <= LIMIT
      modifies this`instances, this`numberOfInstances
      ensures instances == old(instances) + Fresh(old(instances), 1, k)
      ensures numberOfInstances == old(numberOfInstances) + k
      ensures first == if k == 0 then None else Some(|old(instances)|)
    {
      first := None;
      ghost var before := instances;
      var number := 1;
      var added := 0;
      while added < k
        invariant 0 <= added <= k
        invariant instances == before + Fresh(before, 1, added)
        invariant numberOfInstances == old(numberOfInstances) + added
        invariant first == if added == 0 then None else Some(|before|)
        invariant added < k ==> number == Start(before, added)
      {
        NextUnused(before, added);
        if first.None? {
          first := Some(|instances|);
        }
        number := AppendFree(number);
        FreshNext(before, added, number);
        added := added + 1;
        if added < k {
          NextUnused(before, added);
        }
        number := (number + 1) % UINT16;
      }
    }

    method AddCipInstances(k: nat) returns (first: Option<nat>)
      requires |instances| + k <= LIMIT && numberOfInstances + k <= LIMIT
      modifies this
      ensures View() == Add(old(View()), k)
      ensures first == if k == 0 then None else Some(|old(instances)|)
    {
      first := AppendAll(k);
      maxInstance := GetMaxInstanceNumber();
    }

    /** The place of the instance with a number; number 0 addresses the class, which has no place. */
    method AddCipInstance(id: nat) returns (place: Option<nat>)
      requires |instances| < LIMIT && numberOfInstances < LIMIT
      modifies this
      ensures View() == AddNumbered(old(View()), id)
      ensures place.None? <==> id == 0
      ensures place.Some? ==> place.value < |instances| && instances[place.value] == id
    {
      place := None;
      if id != 0 {
        var i := GetCipInstance(id);
        IndexHas(instances, id);
        if i == |instances| {
          var first := AddCipInstances(1);
          i := first.value;
          LastReplaced(old(instances), instances[i], id);
          instances := instances[i := id];
          assert instances == old(instances) + [id];
        }
        place := Some(i);
      }
      maxInstance := GetMaxInstanceNumber();
    }

    /** `allowed` is the verdict of the class's own callback. */
    method CreateService(allowed: bool)
      requires |instances| < LIMIT && numberOfInstances < LIMIT
      modifies this
      ensures View() == if allowed then Add(old(View()), 1) else old(View())
    {
      if allowed {
        var _ := AddCipInstances(1);
      }
    }

    method DeleteService(number: nat, allowed: bool) returns (deleted: bool)
      requires number in instances && numberOfInstances > 0
      modifies this
      ensures deleted == allowed
      ensures View() == if allowed then Delete(old(View()), number) else old(View())
    {
      if allowed {
        if instances[0] == number {
          IndexIs(instances, number, 0);
          instances := instances[1..];
          assert instances == old(instances[..0] + instances[1..]);
        } else {
          var i := 0;
          while i + 1 < |instances|
            invariant 0 <= i < |instances|
            invariant forall k :: 0 <= k <= i ==> instances[k] != number
          {
            if instances[i + 1] == number {
              break;
            }
            i := i + 1;
          }
          IndexIs(instances, number, i + 1);
          instances := instances[..i + 1] + instances[i + 2..];
        }
        numberOfInstances := numberOfInstances - 1;
        maxInstance := GetMaxInstanceNumber();
      }
      return allowed;
    }
  }

  // ----- runs -----

  datatype Event = Adding(k: nat) | AddingNumbered(id: nat) | Creating(allowed: bool) | Deleting(number: nat,
    allowed: bool)

  /** There is room for what is added, a number is not too large, and only what is there is deleted. */
  predicate Possible(c: Instances, e: Event) {
    match e
    case Adding(k) => |c.numbers| + k <= LIMIT
    case AddingNumbered(id) => id <= LIMIT && |c.numbers| < LIMIT
    case Creating(_) => |c.numbers| < LIMIT
    case Deleting(number, _) => number in c.numbers
  }

  predicate Numbered(s: seq<nat>) {
    && (forall i :: 0 <= i < |s| ==> 0 < s[i] <= LIMIT)
    && (forall i, j :: 0 <= i < j < |s| ==> s[i] != s[j])
  }

  /** Distinct numbers that are not 0, the count of them and the largest. */
  predicate Sound(c: Instances) {
    Numbered(c.numbers) && c.count == |c.numbers| && c.max == Largest(c.numbers)
  }

  function Step(c: Instances, e: Event): Instances
    requires Sound(c) && Possible(c, e)
  {
    match e
    case Adding(k) => Add(c, k)
    case AddingNumbered(id) => AddNumbered(c, id)
    case Creating(allowed) => if allowed then Add(c, 1) else c
    case Deleting(number, allowed) => if allowed then Delete(c, number) else c
  }

  lemma AddKeeps(c: Instances, k: nat)
    requires Sound(c) && |c.numbers| + k <= LIMIT
    ensures Sound(Add(c, k))
  {
    var handed := Fresh(c.numbers, 1, k);
    var all := c.numbers + handed;
    FreshAreSmallest(c.numbers, 1, k);
    forall i | 0 <= i < |all| ensures 0 < all[i] <= LIMIT {
      if i >= |c.numbers| {
        var x := handed[i - |c.numbers|];
        forall m | 1 <= m < x + 1 ensures m in all {
          if m !in c.numbers {
            assert m in handed;
          }
        }
        Pigeonhole(all, x + 1);
      }
    }
  }

  lemma AddNumberedKeeps(c: Instances, id: nat)
    requires Sound(c) && id <= LIMIT
    ensures Sound(AddNumbered(c, id)) && (id != 0 ==> id in AddNumbered(c, id).numbers)
  {}

  /** Deleting takes one number out and leaves all others. */
  lemma DeleteNumbers(c: Instances, number: nat, x: nat)
    requires Sound(c) && number in c.numbers
    ensures x in Delete(c, number).numbers <==> x in c.numbers && x != number
  {
    IndexHas(c.numbers, number);
    var i := IndexOf(c.numbers, number);
    assert Delete(c, number).numbers == c.numbers[..i] + c.numbers[i + 1..];
    assert c.numbers == c.numbers[..i] + [number] + c.numbers[i + 1..];
    assert number !in c.numbers[..i] && number !in c.numbers[i + 1..];
  }

  /** The others stay in their order. */
  lemma DeletedInPlace(c: Instances, number: nat)
    requires Sound(c) && number in c.numbers
    ensures exists front, back :: c.numbers == front + [number] + back && Delete(c, number).numbers == front + back
  {
    IndexHas(c.numbers, number);
    var i := IndexOf(c.numbers, number);
    var (front, back) := (c.numbers[..i], c.numbers[i + 1..]);
    assert c.numbers == front + [number] + back && Delete(c, number).numbers == front + back;
  }

  lemma DeleteKeeps(c: Instances, number: nat)
    requires Sound(c) && number in c.numbers
    ensures Sound(Delete(c, number))
  {
    IndexHas(c.numbers, number);
    CutNumbered(c.numbers, IndexOf(c.numbers, number));
  }

  lemma CutNumbered(s: seq<nat>, i: nat)
    requires Numbered(s) && i < |s|
    ensures Numbered(s[..i] + s[i + 1..])
  {
    var r := s[..i] + s[i + 1..];
    assert forall k :: 0 <= k < |r| ==> r[k] == s[if k < i then k else k + 1];
  }

  lemma StepKeeps(c: Instances, e: Event)
    requires Sound(c) && Possible(c, e)
    ensures Sound(Step(c, e))
  {
    match e
    case Adding(k) => AddKeeps(c, k);
    case AddingNumbered(id) => AddNumberedKeeps(c, id);
    case Creating(allowed) => if allowed { AddKeeps(c, 1); }
    case Deleting(number, allowed) => DeleteKeeps(c, number);
  }

  ghost predicate IsRun(events: seq<Event>, history: seq<Instances>) {
    && |history| == |events| + 1 && history[0] == Instances([], 0, 0)
    && forall i :: 0 <= i < |events| ==>
         Possible(history[i], events[i]) && (Sound(history[i]) ==> history[i + 1] == Step(history[i], events[i]))
  }

  /** In every state of every run the numbers are distinct and not 0, and the counters say how many
      there are and which is the largest. */
  lemma {:induction false} SoundInEveryRun(events: seq<Event>, history: seq<Instances>, i: nat)
    requires IsRun(events, history) && i <= |events|
    ensures Sound(history[i])
    decreases i
  {
    if i > 0 {
      SoundInEveryRun(events, history, i - 1);
      StepKeeps(history[i - 1], events[i - 1]);
    }
  }
}
