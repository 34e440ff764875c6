/** The filter on EIP-level sequence numbers of received data. */
module SequenceNumbers {
  import opened Connections
  import opened ConnectionModel
  import opened ConnectionInvariants
  import opened ConnectionRuns
  import opened ConnectionTicks
  import opened Widths

  const HALF: int := 0x8000_0000

  /** The comparison of two sequence numbers, for packets that are less than half the number space
      apart, is the comparison of their true indices. */
  lemma GreaterMeansLater(a: nat, b: nat)
    requires -HALF <= a as int - b < HALF
    ensures SeqGt32(a % UINT32, b % UINT32) <==> a > b
  {
    var d := (a % UINT32 - b % UINT32) % UINT32;
    assert d == (a - b) % UINT32;
  }

  /** And further apart it is wrong whenever the distance is at least half the space and less than
      all of it. */
  lemma FarAheadLooksOld(a: nat, b: nat)
    requires HALF <= a - b < UINT32
    ensures a > b && !SeqGt32(a % UINT32, b % UINT32)
  {
    var d := (a % UINT32 - b % UINT32) % UINT32;
    assert d == (a - b) % UINT32;
  }

  /** The 16-bit comparison, for counts that are less than half their space apart. */
  lemma NotGreaterMeansNotLater(a: nat, b: nat)
    requires -0x8000 <= a as int - b < 0x8000
    ensures SeqLeq16(a % UINT16, b % UINT16) <==> a <= b
  {
    var d := (a % UINT16 - b % UINT16) % UINT16;
    assert d == (a - b) % UINT16;
  }

  datatype Filter = Filter(stored: nat, received: bool)

  predicate Accepts(f: Filter, sequence: nat) {
    SeqGt32(sequence, f.stored) || !f.received
  }

  /** The filter after the packets with the given true indices, and those it accepted. */
  function FilterRun(indices: seq<nat>): (Filter, seq<nat>) {
    if indices == [] then (Filter(0, false), [])
    else
      var (f, accepted) := FilterRun(indices[..|indices| - 1]);
      var index := indices[|indices| - 1];
      if Accepts(f, index % UINT32) then (Filter(index % UINT32, true), accepted + [index]) else (f, accepted)
  }

  function Max(s: seq<nat>): nat
    requires s != []
  {
    if |s| == 1 then s[0]
    else
      var m := Max(s[..|s| - 1]);
      if s[|s| - 1] > m then s[|s| - 1] else m
  }

  /** The elements that exceed everything before them. */
  function Records(s: seq<nat>): seq<nat> {
    if s == [] then []
    else
      var before := s[..|s| - 1];
      Records(before) + if before == [] || s[|s| - 1] > Max(before) then [s[|s| - 1]] else []
  }

  /** If every packet index is within half the number space of the largest one before it, the filter
      accepts exactly the packets that exceed all before them, and what it stores is the maximum so
      far modulo 2^32. */
  lemma {:induction false} FilterAcceptsRecords(indices: seq<nat>)
    requires forall i :: 0 < i < |indices| ==> -HALF <= indices[i] as int - Max(indices[..i]) < HALF
    ensures FilterRun(indices).1 == Records(indices)
    ensures indices != [] ==> FilterRun(indices).0 == Filter(Max(indices) % UINT32, true)
  {
    if indices != [] {
      var before := indices[..|indices| - 1];
      forall i | 0 < i < |before| ensures -HALF <= before[i] as int - Max(before[..i]) < HALF {
        assert before[..i] == indices[..i];
      }
      FilterAcceptsRecords(before);
      if before != [] {
        GreaterMeansLater(indices[|indices| - 1], Max(before));
      }
    }
  }

  /** The filter from f on, after packets with the given sequence numbers. */
  function FilterOver(f: Filter, sequences: seq<nat>): Filter {
    if sequences == [] then f
    else
      var g := FilterOver(f, sequences[..|sequences| - 1]);
      var sequence := sequences[|sequences| - 1];
      if Accepts(g, sequence) then Filter(sequence, true) else g
  }

  lemma FilterOverMore(f: Filter, sequences: seq<nat>, sequence: nat)
    ensures var g := FilterOver(f, sequences);
      FilterOver(f, sequences + [sequence]) == if Accepts(g, sequence) then Filter(sequence, true) else g
  {
    assert (sequences + [sequence])[..|sequences|] == sequences;
  }

  /** True indices as they come in the packets. */
  function Reduced(indices: seq<nat>): (r: seq<nat>)
    ensures |r| == |indices|
  {
    seq(|indices|, i requires 0 <= i < |indices| => indices[i] % UINT32)
  }

  lemma {:induction false} FilterOverReduced(indices: seq<nat>)
    ensures FilterOver(Filter(0, false), Reduced(indices)) == FilterRun(indices).0
  {
    if indices != [] {
      var (before, s) := (indices[..|indices| - 1], Reduced(indices));
      FilterOverReduced(before);
      assert s[..|s| - 1] == Reduced(before);
    }
  }

  /** The sequence numbers of the packets for the connection in x that come from its originator's
      address. */
  function Heard(cfg: Config, m: Model, events: seq<Event>, x: Slot): seq<nat>
    requires cfg.tick > 0
  {
    if events == [] then []
    else
      var (before, e) := (events[..|events| - 1], events[|events| - 1]);
      var heard := Heard(cfg, m, before, x);
      if Reaches(Run(cfg, m, before), e, x) then heard + [e.sequence] else heard
  }

  function FilterIn(c: Connection): Filter {
    Filter(c.eipConsuming, c.eipReceived)
  }

  lemma ReachesFilter(cfg: Config, m: Model, e: Event, x: Slot)
    requires cfg.tick > 0 && x in m.conns && Reaches(m, e, x)
    ensures var (m1, f) := (Step(cfg, m, e), FilterIn(m.conns[x]));
      && x in m1.conns && m1.conns[x].terms == m.conns[x].terms
      && FilterIn(m1.conns[x]) == if Accepts(f, e.sequence) then Filter(e.sequence, true) else f
  {}

  /** Any other step leaves the filter of an Established connection that stays. */
  lemma OthersFilter(cfg: Config, m: Model, e: Event, x: Slot)
    requires Inv(cfg, m) && cfg.Valid() && EventInScope(cfg, e) && !Reaches(m, e, x)
    requires x in m.conns && m.conns[x].state.Established? && x in Step(cfg, m, e).conns
    ensures var d := Step(cfg, m, e).conns[x];
      d.terms == m.conns[x].terms && FilterIn(d) == FilterIn(m.conns[x])
  {
    if e.Tick? {
      TickKeepsTerms(cfg, m, m.active, e.elapsed, e.environment);
    } else if !(e.ExplicitRequest? && Search(m, ConsumerOf(e.id)) == Some(x)) {
      StepSpares(cfg, m, e, x);
    }
  }

  /** In any run in which it stays Established a connection runs the filter over the packets for it that
      come from its originator, whatever other events lie between. */
  lemma {:induction false} ReceptionFilters(cfg: Config, m: Model, events: seq<Event>, x: Slot)
    requires Inv(cfg, m) && cfg.Valid() && EventsInScope(cfg, events) && Stays(cfg, m, events, x) && x in m.conns
    ensures var d := Run(cfg, m, events).conns[x];
      && d.terms == m.conns[x].terms
      && FilterIn(d) == FilterOver(FilterIn(m.conns[x]), Heard(cfg, m, events, x))
  {
    if events != [] {
      var (before, e) := (events[..|events| - 1], events[|events| - 1]);
      var (m0, heard) := (Run(cfg, m, before), Heard(cfg, m, before, x));
      ReceptionFilters(cfg, m, before, x);
      RunKeepsFrom(cfg, m, before);
      if Reaches(m0, e, x) {
        ReachesFilter(cfg, m0, e, x);
        FilterOverMore(FilterIn(m.conns[x]), heard, e.sequence);
      } else {
        OthersFilter(cfg, m0, e, x);
      }
    }
  }

  /** So whatever arrives and whatever else happens, as long as each packet is within half the number
      space of the largest one before it, the connection stores the maximum so far modulo 2^32. */
  lemma ReceptionStoresMaximum(cfg: Config, m: Model, events: seq<Event>, x: Slot, indices: seq<nat>)
    requires Inv(cfg, m) && cfg.Valid() && EventsInScope(cfg, events) && Stays(cfg, m, events, x)
    requires x in m.conns && FilterIn(m.conns[x]) == Filter(0, false)
    requires indices != [] && Heard(cfg, m, events, x) == Reduced(indices)
    requires forall i :: 0 < i < |indices| ==> -HALF <= indices[i] as int - Max(indices[..i]) < HALF
    ensures FilterIn(Run(cfg, m, events).conns[x]) == Filter(Max(indices) % UINT32, true)
  {
    ReceptionFilters(cfg, m, events, x);
    FilterOverReduced(indices);
    FilterAcceptsRecords(indices);
  }
}
