/** Padded paths octet by octet: what every list of logical segments means to the decoder, and which
    octets the encoder writes. */
module EPathLayouts {
  import opened EPaths
  import opened Wire
  import opened Widths

  datatype Field = ClassId | InstanceId | AttributeId | MemberId

  /** A logical segment: an id in the 8-bit format, or in the 16-bit format behind a pad octet. */
  datatype Logical = Logical(field: Field, id: uint16, wide: bool, pad: octet)

  /** An 8-bit format holds no more than an octet; a member id is taken in that format only. */
  predicate Readable(s: Logical) {
    s.wide || s.id < 256
  }

  predicate Plain(s: Logical) {
    Readable(s) && (s.field.MemberId? ==> !s.wide)
  }

  ghost predicate AllPlain(ss: seq<Logical>) {
    forall i :: 0 <= i < |ss| ==> Plain(ss[i])
  }

  function FirstOctet(field: Field): octet {
    match field
    case ClassId => 0x20
    case InstanceId => 0x24
    case MemberId => 0x28
    case AttributeId => 0x30
  }

  function LogicalOctets(s: Logical): seq<octet>
    requires Readable(s)
  {
    if s.wide then [FirstOctet(s.field) + 1, s.pad, s.id % 256, s.id / 256] else [FirstOctet(s.field), s.id]
  }

  function WordsOf(s: Logical): nat {
    if s.wide then 2 else 1
  }

  function ListOctets(ss: seq<Logical>): seq<octet>
    requires AllPlain(ss)
  {
    if ss == [] then [] else LogicalOctets(ss[0]) + ListOctets(ss[1..])
  }

  function ListWords(ss: seq<Logical>): nat {
    if ss == [] then 0 else WordsOf(ss[0]) + ListWords(ss[1..])
  }

  /** The last id that a list gives to a field, or what it had before. */
  function Named(ss: seq<Logical>, field: Field, before: uint16): uint16 {
    if ss == [] then before
    else Named(ss[1..], field, if ss[0].field == field then ss[0].id else before)
  }

  /** A path with the ids that a list of segments gives. */
  function Updated(e: EPath, ss: seq<Logical>): EPath {
    EPath(e.pathSize, Named(ss, ClassId, e.classId), Named(ss, InstanceId, e.instance),
          Named(ss, AttributeId, e.attribute))
  }

  /** The path after one segment: its id goes to its field, and a member id nowhere. */
  function UpdatedOnce(e: EPath, s: Logical): EPath {
    match s.field
    case ClassId => e.(classId := s.id)
    case InstanceId => e.(instance := s.id)
    case AttributeId => e.(attribute := s.id)
    case MemberId => e
  }

  lemma OneLogical(s: Logical, rest: seq<octet>, e: EPath)
    requires Plain(s) && |rest| >= 2
    ensures var data := LogicalOctets(s) + rest;
      && data[0] % 8 != 7 && data[2 * WordsOf(s)..] == rest
      && ReadSegment(data, e) == Segment(WordsOf(s), 2 * WordsOf(s), UpdatedOnce(e, s))
  {
    if s.wide {
      var data := LogicalOctets(s) + rest;
      assert data[2..][0] == s.id % 256 && data[2..][1] == s.id / 256;
      assert Get16(data[2..]) == s.id;
    }
  }

  lemma OneLogicalDecoded(s: Logical, rest: seq<octet>, e: EPath, counted: nat)
    requires Plain(s) && counted < e.pathSize
    requires |rest| >= 2 && |rest| >= 2 * (e.pathSize - counted - WordsOf(s)) + 2
    ensures DecodeSegments(LogicalOctets(s) + rest, e, counted) ==
      DecodeSegments(rest, UpdatedOnce(e, s), counted + WordsOf(s))
  {
    OneLogical(s, rest, e);
    var data := LogicalOctets(s) + rest;
    assert DecodeSegments(data, e, counted) ==
      DecodeSegments(data[2 * WordsOf(s)..], UpdatedOnce(e, s), counted + WordsOf(s));
  }

  lemma {:induction false} OctetsOfWords(ss: seq<Logical>)
    requires AllPlain(ss)
    ensures |ListOctets(ss)| == 2 * ListWords(ss)
  {
    if ss != [] {
      OctetsOfWords(ss[1..]);
    }
  }

  /** A list by its first segment. */
  lemma ListFrom(s: Logical, ss: seq<Logical>, rest: seq<octet>, e: EPath)
    requires Plain(s) && AllPlain(ss)
    ensures AllPlain([s] + ss) && ListWords([s] + ss) == WordsOf(s) + ListWords(ss)
    ensures ListOctets([s] + ss) == LogicalOctets(s) + ListOctets(ss)
    ensures ListOctets([s] + ss) + rest == LogicalOctets(s) + (ListOctets(ss) + rest)
    ensures Updated(e, [s] + ss) == Updated(UpdatedOnce(e, s), ss)
  {
    assert ([s] + ss)[1..] == ss;
  }

  /** The decoder at a list whose segments fill the path. */
  ghost predicate Decodes(ss: seq<Logical>, rest: seq<octet>, e: EPath, counted: nat)
    requires AllPlain(ss)
  {
    var data := ListOctets(ss) + rest;
    && |data| >= 2 * (e.pathSize - counted) + 2
    && DecodeSegments(data, e, counted) == Decoded(Updated(e, ss), rest, e.pathSize)
  }

  lemma OneMoreDecodes(s: Logical, ss: seq<Logical>, rest: seq<octet>, e: EPath, counted: nat)
    requires Plain(s) && AllPlain(ss) && |rest| >= 2 && counted < e.pathSize
    requires Decodes(ss, rest, UpdatedOnce(e, s), counted + WordsOf(s))
    ensures AllPlain([s] + ss) && Decodes([s] + ss, rest, e, counted)
  {
    ListFrom(s, ss, rest, e);
    OneLogicalDecoded(s, ListOctets(ss) + rest, e, counted);
  }

  lemma {:induction false} ListDecodes(ss: seq<Logical>, rest: seq<octet>, e: EPath, counted: nat)
    requires AllPlain(ss) && |rest| >= 2 && counted + ListWords(ss) == e.pathSize
    ensures Decodes(ss, rest, e, counted)
    decreases |ss|
  {
    if ss == [] {
      assert ListOctets(ss) + rest == rest;
    } else {
      ListDecodes(ss[1..], rest, UpdatedOnce(e, ss[0]), counted + WordsOf(ss[0]));
      OneMoreDecodes(ss[0], ss[1..], rest, e, counted);
      assert ss == [ss[0]] + ss[1..];
    }
  }

  /** A path size and the segments that it counts, in any order and format: class, instance and attribute
      are the last ids given, 0 for those not given, and what follows is left over. */
  lemma PathMeans(ss: seq<Logical>, rest: seq<octet>)
    requires AllPlain(ss) && |rest| >= 2 && ListWords(ss) < 256
    ensures var data := [ListWords(ss) as octet] + (ListOctets(ss) + rest);
      && InReach(data)
      && Decode(data) == Decoded(
           EPath(ListWords(ss), Named(ss, ClassId, 0), Named(ss, InstanceId, 0), Named(ss, AttributeId, 0)),
           rest, ListWords(ss))
  {
    var data := [ListWords(ss) as octet] + (ListOctets(ss) + rest);
    OctetsOfWords(ss);
    assert data[1..] == ListOctets(ss) + rest;
    ListDecodes(ss, rest, EPath(ListWords(ss), 0, 0, 0), 0);
  }

  /** The decoder knows no other segments. */
  lemma OtherSegmentsFault(data: seq<octet>)
    requires InReach(data) && data[0] > 0
    requires data[1] !in {0x20, 0x21, 0x24, 0x25, 0x28, 0x29, 0x30, 0x31}
    ensures Decode(data) == Fault
  {
    var e := EPath(data[0], 0, 0, 0);
    assert data[1..][0] == data[1];
    assert ReadSegment(data[1..], e) == NoSegment;
  }

  // ----- the octets of common paths -----

  /** Up to three segments, one by one. */
  lemma ThreeMean(s: Logical, t: Logical, u: Logical, rest: seq<octet>)
    requires Plain(s) && Plain(t) && Plain(u) && |rest| >= 2
    ensures var (n1, n2) := (WordsOf(s), WordsOf(s) + WordsOf(t));
      var n3 := n2 + WordsOf(u);
      var (o, ot, otu) := (LogicalOctets(s), LogicalOctets(s) + LogicalOctets(t),
          LogicalOctets(s) + (LogicalOctets(t) + LogicalOctets(u)));
      && Means([n1 as octet] + (o + rest), Decoded(UpdatedOnce(EPath(n1, 0, 0, 0), s), rest, n1))
      && Means([n2 as octet] + (ot + rest), Decoded(UpdatedOnce(UpdatedOnce(EPath(n2, 0, 0, 0), s), t), rest, n2))
      && Means([n3 as octet] + (otu + rest),
               Decoded(UpdatedOnce(UpdatedOnce(UpdatedOnce(EPath(n3, 0, 0, 0), s), t), u), rest, n3))
  {
    OneMeans(s, rest);
    TwoMean(s, t, rest);
    AllThreeMean(s, t, u, rest);
  }

  predicate Means(data: seq<octet>, d: Decoded) {
    InReach(data) && Decode(data) == d
  }

  lemma PathMeansList(ss: seq<Logical>, rest: seq<octet>)
    requires AllPlain(ss) && |rest| >= 2 && ListWords(ss) < 256
    ensures Means([ListWords(ss) as octet] + (ListOctets(ss) + rest),
                  Decoded(Updated(EPath(ListWords(ss), 0, 0, 0), ss), rest, ListWords(ss)))
  {
    PathMeans(ss, rest);
  }

  lemma OneMeans(s: Logical, rest: seq<octet>)
    requires Plain(s) && |rest| >= 2
    ensures var n := WordsOf(s);
      Means([n as octet] + (LogicalOctets(s) + rest), Decoded(UpdatedOnce(EPath(n, 0, 0, 0), s), rest, n))
  {
    ListFrom(s, [], rest, EPath(WordsOf(s), 0, 0, 0));
    assert ListOctets([]) == [] && LogicalOctets(s) + [] == LogicalOctets(s) && [s] + [] == [s];
    PathMeansList([s], rest);
  }

  lemma TwoMean(s: Logical, t: Logical, rest: seq<octet>)
    requires Plain(s) && Plain(t) && |rest| >= 2
    ensures var n := WordsOf(s) + WordsOf(t);
      Means([n as octet] + (LogicalOctets(s) + LogicalOctets(t) + rest),
            Decoded(UpdatedOnce(UpdatedOnce(EPath(n, 0, 0, 0), s), t), rest, n))
  {
    var e := EPath(WordsOf(s) + WordsOf(t), 0, 0, 0);
    ListFrom(s, [t], rest, e);
    ListFrom(t, [], rest, UpdatedOnce(e, s));
    assert ListOctets([]) == [] && LogicalOctets(t) + [] == LogicalOctets(t) && [t] + [] == [t];
    PathMeansList([s] + [t], rest);
  }

  lemma AllThreeMean(s: Logical, t: Logical, u: Logical, rest: seq<octet>)
    requires Plain(s) && Plain(t) && Plain(u) && |rest| >= 2
    ensures var n := WordsOf(s) + WordsOf(t) + WordsOf(u);
      Means([n as octet] + (LogicalOctets(s) + (LogicalOctets(t) + LogicalOctets(u)) + rest),
            Decoded(UpdatedOnce(UpdatedOnce(UpdatedOnce(EPath(n, 0, 0, 0), s), t), u), rest, n))
  {
    var e := EPath(WordsOf(s) + WordsOf(t) + WordsOf(u), 0, 0, 0);
    ListFrom(s, [t] + [u], rest, e);
    ListFrom(t, [u], rest, UpdatedOnce(e, s));
    ListFrom(u, [], rest, UpdatedOnce(UpdatedOnce(e, s), t));
    assert ListOctets([]) == [] && LogicalOctets(u) + [] == LogicalOctets(u) && [u] + [] == [u];
    PathMeansList([s] + ([t] + [u]), rest);
  }

  /** The 8-bit formats. */
  lemma NarrowPaths(c: octet, i: octet, a: octet, rest: seq<octet>)
    requires |rest| >= 2
    ensures Means([1, 0x20, c] + rest, Decoded(EPath(1, c, 0, 0), rest, 1))
    ensures Means([2, 0x20, c, 0x24, i] + rest, Decoded(EPath(2, c, i, 0), rest, 2))
    ensures Means([3, 0x20, c, 0x24, i, 0x30, a] + rest, Decoded(EPath(3, c, i, a), rest, 3))
  {
    var (sc, si) := (Logical(ClassId, c, false, 0), Logical(InstanceId, i, false, 0));
    ThreeMean(sc, si, Logical(AttributeId, a, false, 0), rest);
    assert [1, 0x20, c] + rest == [1] + ([0x20, c] + rest);
    assert [2, 0x20, c, 0x24, i] + rest == [2] + ([0x20, c] + [0x24, i] + rest);
    assert [3, 0x20, c, 0x24, i, 0x30, a] + rest == [3] + ([0x20, c] + ([0x24, i] + [0x30, a]) + rest);
  }

  /** The 16-bit formats, with any pad octet. */
  lemma WidePaths(c: uint16, i: uint16, a: uint16, pad: octet, rest: seq<octet>)
    requires |rest| >= 2
    ensures var (sc, si, sa) := (
        [0x21, pad, c % 256, c / 256], [0x25, pad, i % 256, i / 256], [0x31, pad, a % 256, a / 256]);
      && Means([2] + (sc + rest), Decoded(EPath(2, c, 0, 0), rest, 2))
      && Means([4] + (sc + si + rest), Decoded(EPath(4, c, i, 0), rest, 4))
      && Means([6] + (sc + (si + sa) + rest), Decoded(EPath(6, c, i, a), rest, 6))
  {
    var (sc, si) := (Logical(ClassId, c, true, pad), Logical(InstanceId, i, true, pad));
    ThreeMean(sc, si, Logical(AttributeId, a, true, pad), rest);
  }

  /** A member id in the 8-bit format leaves the path as it is. */
  lemma MemberIgnored(c: octet, i: octet, n: octet, rest: seq<octet>)
    requires |rest| >= 2
    ensures Means([3, 0x20, c, 0x24, i, 0x28, n] + rest, Decoded(EPath(3, c, i, 0), rest, 3))
  {
    AllThreeMean(Logical(ClassId, c, false, 0), Logical(InstanceId, i, false, 0), Logical(MemberId, n, false, 0), rest);
    assert [3, 0x20, c, 0x24, i, 0x28, n] + rest == [3] + ([0x20, c] + ([0x24, i] + [0x28, n]) + rest);
  }

  // ----- the octets that are written -----

  /** The shorter format that holds an id. */
  function Shortest(field: Field, id: uint16): Logical {
    Logical(field, id, id >= 256, 0)
  }

  lemma ShortestOctets(field: Field, id: uint16)
    ensures LogicalOctets(Shortest(field, id)) == SegmentOctets(FirstOctet(field), id)
  {}

  lemma SingleOctets(s: Logical)
    requires Plain(s)
    ensures ListOctets([s]) == LogicalOctets(s)
  {}

  lemma PairOctets(s: Logical, t: Logical)
    requires Plain(s) && Plain(t)
    ensures ListOctets([s, t]) == LogicalOctets(s) + LogicalOctets(t)
  {
    SingleOctets(t);
    assert [s, t][1..] == [t];
  }

  lemma TripleOctets(s: Logical, t: Logical, u: Logical)
    requires Plain(s) && Plain(t) && Plain(u)
    ensures ListOctets([s, t, u]) == LogicalOctets(s) + (LogicalOctets(t) + LogicalOctets(u))
  {
    PairOctets(t, u);
    assert [s, t, u][1..] == [t, u];
  }

  /** The encoder writes the class, the instance and the attribute, each in the shorter format that holds
      it, and stops only where the path size is exactly used up: a path size too small for the class wraps
      and stops nowhere. */
  lemma EncodedOctets(e: EPath)
    ensures var (sc, si) := (Shortest(ClassId, e.classId), Shortest(InstanceId, e.instance));
      var sa := Shortest(AttributeId, e.attribute);
      EPathOctets(e) == ListOctets(
        if e.pathSize == WordsOf(sc) then [sc]
        else if e.pathSize == WordsOf(sc) + WordsOf(si) then [sc, si]
        else [sc, si, sa])
  {
    var (sc, si) := (Shortest(ClassId, e.classId), Shortest(InstanceId, e.instance));
    var sa := Shortest(AttributeId, e.attribute);
    ShortestOctets(ClassId, e.classId);
    ShortestOctets(InstanceId, e.instance);
    ShortestOctets(AttributeId, e.attribute);
    SingleOctets(sc);
    PairOctets(sc, si);
    TripleOctets(sc, si, sa);
  }

  lemma RequestBehindPath(message: seq<octet>, path: EPath, rest: seq<octet>, words: nat, dataSize: nat)
    requires |message| >= 1 && Means(message[1..], Decoded(path, rest, words))
    requires 2 + 2 * words + dataSize < 0x8000
    ensures Requested(message, 2 + 2 * words + dataSize) == RouterRequest(message[0], path, rest, dataSize)
  {
    AvailableIs(2 + 2 * words + dataSize);
  }

  /** A router request: a service octet, a path as above and the request data. */
  lemma RequestMeans(service: octet, ss: seq<Logical>, data: seq<octet>, slack: seq<octet>)
    requires AllPlain(ss) && ListWords(ss) < 256 && |slack| >= 2
    requires 2 + 2 * ListWords(ss) + |data| < 0x8000
    ensures var message := [service] + ([ListWords(ss) as octet] + (ListOctets(ss) + (data + slack)));
      var path := EPath(ListWords(ss), Named(ss, ClassId, 0), Named(ss, InstanceId, 0), Named(ss, AttributeId, 0));
      && InReach(message[1..])
      && Requested(message, 2 + 2 * ListWords(ss) + |data|) == RouterRequest(service, path, data + slack, |data|)
  {
    var path := [ListWords(ss) as octet] + (ListOctets(ss) + (data + slack));
    assert ([service] + path)[1..] == path;
    PathMeansList(ss, data + slack);
    var e := Updated(EPath(ListWords(ss), 0, 0, 0), ss);
    RequestBehindPath([service] + path, e, data + slack, ListWords(ss), |data|);
  }
}
