/** Checking host names in place, in a buffer that ends in a NUL octet. */
module HostNames {
  import opened Wire

  const NUL: octet := 0
  const DOT: octet := 46
  const HYPHEN: octet := 45

  predicate Alphanumeric(c: octet) {
    97 <= c <= 122 || 65 <= c <= 90 || 48 <= c <= 57
  }

  lemma AlphanumericAre(c: octet)
    ensures Alphanumeric(c) <==>
      '0' <= c as char <= '9' || 'A' <= c as char <= 'Z' || 'a' <= c as char <= 'z'
    ensures (c as char == '.' <==> c == DOT) && (c as char == '-' <==> c == HYPHEN)
  {}

  /** The first NUL from `i` on, or the length of the buffer. */
  function End(s: seq<octet>, i: nat): (k: nat)
    requires i <= |s|
    ensures i <= k <= |s|
    ensures k < |s| ==> s[k] == NUL
    ensures forall j :: i <= j < k ==> s[j] != NUL
    decreases |s| - i
  {
    if i == |s| || s[i] == NUL then i else End(s, i + 1)
  }

  lemma EndIs(s: seq<octet>, i: nat, k: nat)
    requires i <= k < |s| && s[k] == NUL && forall j :: i <= j < k ==> s[j] != NUL
    ensures End(s, i) == k
  {}

  /** There is a NUL from `i` on. */
  predicate Terminated(s: seq<octet>, i: nat) {
    i < |s| && End(s, i) < |s|
  }

  /** The string that starts at `i`. */
  function Text(s: seq<octet>, i: nat): seq<octet>
    requires Terminated(s, i)
  {
    s[i..End(s, i)]
  }

  // ----- the grammar -----

  predicate LabelOk(t: seq<octet>) {
    && t != []
    && Alphanumeric(t[0]) && t[|t| - 1] != HYPHEN
    && forall i :: 0 <= i < |t| ==> Alphanumeric(t[i]) || t[i] == HYPHEN
  }

  function FirstDot(t: seq<octet>): (k: nat)
    ensures k <= |t|
    ensures k < |t| ==> t[k] == DOT
    ensures forall j :: 0 <= j < k ==> t[j] != DOT
  {
    if t == [] || t[0] == DOT then 0 else 1 + FirstDot(t[1..])
  }

  /** The parts between the dots. */
  function Labels(t: seq<octet>): (r: seq<seq<octet>>)
    ensures r != []
    decreases |t|
  {
    var d := FirstDot(t);
    if d == |t| then [t] else [t[..d]] + Labels(t[d + 1..])
  }

  predicate AllOk(labels: seq<seq<octet>>) {
    forall i :: 0 <= i < |labels| ==> LabelOk(labels[i])
  }

  function Join(labels: seq<seq<octet>>): seq<octet>
    requires labels != []
  {
    if |labels| == 1 then labels[0] else labels[0] + [DOT] + Join(labels[1..])
  }

  predicate DomainOk(t: seq<octet>) {
    AllOk(Labels(t))
  }

  lemma JoinCons(first: seq<octet>, rest: seq<seq<octet>>)
    requires rest != []
    ensures Join([first] + rest) == first + [DOT] + Join(rest)
  {
    assert ([first] + rest)[1..] == rest;
  }

  lemma AroundDot(t: seq<octet>, d: nat)
    requires d < |t| && t[d] == DOT
    ensures t[..d] + [DOT] + t[d + 1..] == t
  {}

  lemma {:induction false} JoinLabels(t: seq<octet>)
    ensures Join(Labels(t)) == t
    decreases |t|
  {
    var d := FirstDot(t);
    if d < |t| {
      var rest := t[d + 1..];
      JoinLabels(rest);
      JoinCons(t[..d], Labels(rest));
      AroundDot(t, d);
      assert Labels(t) == [t[..d]] + Labels(rest);
    } else {
      assert Labels(t) == [t];
    }
  }

  lemma FirstDotIs(a: seq<octet>, b: seq<octet>)
    requires DOT !in a
    ensures FirstDot(a) == |a| && FirstDot(a + [DOT] + b) == |a|
  {
    var t := a + [DOT] + b;
    assert forall j :: 0 <= j < |a| ==> t[j] == a[j];
    assert t[|a|] == DOT;
  }

  lemma LabelsCons(first: seq<octet>, rest: seq<octet>)
    requires DOT !in first
    ensures Labels(first + [DOT] + rest) == [first] + Labels(rest)
  {
    var t := first + [DOT] + rest;
    FirstDotIs(first, rest);
    assert t[..|first|] == first && t[|first| + 1..] == rest;
  }

  lemma {:induction false} LabelsOfJoin(labels: seq<seq<octet>>)
    requires labels != [] && forall i :: 0 <= i < |labels| ==> DOT !in labels[i]
    ensures Labels(Join(labels)) == labels
  {
    if |labels| == 1 {
      FirstDotIs(labels[0], []);
    } else {
      var rest := Join(labels[1..]);
      LabelsOfJoin(labels[1..]);
      LabelsCons(labels[0], rest);
      assert labels == [labels[0]] + labels[1..];
    }
  }

  lemma LabelHasNoDot(t: seq<octet>)
    requires LabelOk(t)
    ensures DOT !in t
  {}

  /** A name is accepted exactly if it is one or more valid labels with dots between them. */
  lemma DomainIsLabels(t: seq<octet>)
    ensures DomainOk(t) <==> exists labels: seq<seq<octet>> :: labels != [] && AllOk(labels) && Join(labels) == t
  {
    JoinLabels(t);
    if labels: seq<seq<octet>> :| labels != [] && AllOk(labels) && Join(labels) == t {
      forall i | 0 <= i < |labels| ensures DOT !in labels[i] {
        LabelHasNoDot(labels[i]);
      }
      LabelsOfJoin(labels);
    }
  }

  // ----- the checkers -----

  method IsValidNameLabel(a: array<octet>, start: nat) returns (ok: bool)
    requires Terminated(a[..], start)
    ensures ok == LabelOk(Text(a[..], start))
  {
    ghost var t := Text(a[..], start);
    if !Alphanumeric(a[start]) {
      assert t != [] ==> t[0] == a[start];
      return false;
    }
    var at := start + 1;
    while a[at] != NUL && (Alphanumeric(a[at]) || a[at] == HYPHEN)
      invariant start < at <= start + |t|
      invariant forall i :: 0 <= i < at - start ==> Alphanumeric(t[i]) || t[i] == HYPHEN
      decreases start + |t| - at
    {
      assert t[at - start] == a[at];
      at := at + 1;
    }
    if a[at] == NUL {
      assert at == start + |t| && t[|t| - 1] == a[at - 1];
    } else {
      assert t[at - start] == a[at];
    }
    return a[at] == NUL && a[at - 1] != HYPHEN;
  }

  /** The first dot of a string, or the length of the buffer if the string has none. */
  method FindDot(a: array<octet>, start: nat) returns (k: nat)
    requires Terminated(a[..], start)
    ensures k == if DOT in Text(a[..], start) then start + FirstDot(Text(a[..], start)) else a.Length
  {
    ghost var t := Text(a[..], start);
    k := start;
    while a[k] != NUL
      invariant start <= k <= start + |t|
      invariant forall j :: 0 <= j < k - start ==> t[j] != DOT
      decreases start + |t| - k
    {
      assert t[k - start] == a[k];
      if a[k] == DOT {
        return;
      }
      k := k + 1;
    }
    return a.Length;
  }

  /** Cutting a string at its first dot leaves the label in front of it and the string behind it. */
  lemma Cut(s: seq<octet>, start: nat, d: nat)
    requires Terminated(s, start) && d < |Text(s, start)|
    ensures var s' := s[start + d := NUL];
      && Terminated(s', start) && Text(s', start) == Text(s, start)[..d]
      && Terminated(s, start + d + 1) && Terminated(s', start + d + 1)
      && Text(s', start + d + 1) == Text(s, start)[d + 1..]
      && (s'[start + d + 1] != NUL <==> d + 1 < |Text(s, start)|)
  {
    var s' := s[start + d := NUL];
    var end := End(s, start);
    EndIs(s', start, start + d);
    EndIs(s', start + d + 1, end);
    EndIs(s, start + d + 1, end);
    Slices(s, start, start + d, end);
    assert s'[start..start + d] == s[start..start + d];
    assert s'[start + d + 1..end] == s[start + d + 1..end];
  }

  lemma Slices(s: seq<octet>, i: nat, j: nat, k: nat)
    requires i <= j < k <= |s|
    ensures s[i..k][..j - i] == s[i..j] && s[i..k][j - i + 1..] == s[j + 1..k]
  {}

  lemma AllOkSplit(first: seq<octet>, rest: seq<seq<octet>>)
    ensures AllOk([first] + rest) <==> LabelOk(first) && AllOk(rest)
  {
    var all := [first] + rest;
    assert all[0] == first;
    assert forall i :: 0 <= i < |rest| ==> rest[i] == all[i + 1];
    assert forall i :: 1 <= i < |all| ==> all[i] == rest[i - 1];
  }

  lemma SplitOk(t: seq<octet>, d: nat)
    requires d == FirstDot(t) < |t|
    ensures DomainOk(t) <==> LabelOk(t[..d]) && DomainOk(t[d + 1..])
  {
    LabelsAt(t, d);
    AllOkSplit(t[..d], Labels(t[d + 1..]));
  }

  lemma LabelsAt(t: seq<octet>, d: nat)
    requires d == FirstDot(t) < |t|
    ensures Labels(t) == [t[..d]] + Labels(t[d + 1..])
  {}

  lemma NoSplit(t: seq<octet>)
    requires FirstDot(t) == |t|
    ensures DomainOk(t) <==> LabelOk(t)
  {
    AllOkSplit(t, []);
    assert Labels(t) == [t] + [];
  }

  /** What the grammar says of a string, case by case: no leading dot, no trailing dot, no empty label. */
  lemma DomainCases(t: seq<octet>, d: nat)
    requires d == FirstDot(t)
    ensures DomainOk(t) <==>
      if d == 0 && t != [] then false
      else if d == |t| then LabelOk(t)
      else d + 1 < |t| && LabelOk(t[..d]) && DomainOk(t[d + 1..])
  {
    if d < |t| {
      SplitOk(t, d);
      if d + 1 == |t| {
        assert t[d + 1..] == [];
        NoSplit([]);
      }
    } else {
      NoSplit(t);
    }
  }

  /** The check overwrites dots while it recurses, and puts them back. */
  method IsValidDomain(a: array<octet>, start: nat) returns (ok: bool)
    requires Terminated(a[..], start)
    modifies a
    ensures a[..] == old(a[..])
    ensures ok == DomainOk(Text(old(a[..]), start))
    decreases a.Length - start, 1
  {
    ghost var t := Text(a[..], start);
    DomainCases(t, FirstDot(t));
    if a[start] == DOT {
      assert t[0] == DOT;
      return false;
    }
    var dot := FindDot(a, start);
    if dot < a.Length {
      ok := IsValidSplit(a, start, dot);
    } else {
      ok := IsValidNameLabel(a, start);
    }
  }

  /** The part of the check behind a dot that was found. */
  method IsValidSplit(a: array<octet>, start: nat, dot: nat) returns (ok: bool)
    requires Terminated(a[..], start)
    requires start < dot && dot - start == FirstDot(Text(a[..], start)) < |Text(a[..], start)|
    modifies a
    ensures a[..] == old(a[..])
    ensures var (t, d) := (Text(old(a[..]), start), dot - start);
      ok == (d + 1 < |t| && LabelOk(t[..d]) && DomainOk(t[d + 1..]))
    decreases a.Length - start, 0
  {
    ghost var before := a[..];
    ghost var (t, d) := (Text(before, start), dot - start);
    ghost var (front, behind) := (t[..d], t[d + 1..]);
    ghost var (first, second) := (LabelOk(front), DomainOk(behind));
    Cut(before, start, d);
    a[dot] := NUL;
    assert a[..] == before[dot := NUL];
    ok := IsValidNameLabel(a, start);
    assert ok == first;
    if a[dot + 1] != NUL {
      var rc := IsValidDomain(a, dot + 1);
      assert rc == second;
      ok := ok && rc;
    } else {
      ok := false;
    }
    assert a[..] == before[dot := NUL];
    assert ok == (d + 1 < |t| && first && second);
    a[dot] := DOT;
    assert a[..] == before;
  }
}
