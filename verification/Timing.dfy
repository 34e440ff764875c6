/** Tick accumulation, transmission pacing, interval rounding and watchdog values. */
module Timing {
  import opened Connections
  import opened ConnectionModel
  import opened Widths

  // ----- pacing of a cyclic producer -----

  /** A producer after a row of ticks: frames sent, transmission trigger timer, total elapsed time. */
  datatype Pacer = Pacer(sends: nat, timer: nat, total: nat)

  function PaceAll(start: nat, ticks: seq<nat>, interval: nat): Pacer {
    if ticks == [] then Pacer(0, start, 0)
    else
      var p := PaceAll(start, ticks[..|ticks| - 1], interval);
      var elapsed := ticks[|ticks| - 1];
      var (due, timer) := Pace(p.timer, interval, elapsed);
      Pacer(if due then p.sends + 1 else p.sends, timer, p.total + elapsed)
  }

  lemma PacedOnceMore(start: nat, ticks: seq<nat>, elapsed: nat, interval: nat)
    ensures var (p, q) := (PaceAll(start, ticks, interval), PaceAll(start, ticks + [elapsed], interval));
      var (due, timer) := Pace(p.timer, interval, elapsed);
      q == Pacer(if due then p.sends + 1 else p.sends, timer, p.total + elapsed)
  {
    assert (ticks + [elapsed])[..|ticks|] == ticks;
  }

  /** With the timer at t at the start, after k sends in total time T the interval I has been paced
      within one interval: k * I + t <= T + timer <= T + I. If no tick is longer than I,
      k * I + t = T + timer, so the pace never drifts. */
  lemma {:induction false} PacingStaysInBounds(start: nat, ticks: seq<nat>, interval: nat)
    requires interval > 0 && start <= interval
    ensures var p := PaceAll(start, ticks, interval);
      && p.sends * interval + start <= p.total + p.timer <= p.total + interval
      && ((forall i :: 0 <= i < |ticks| ==> ticks[i] <= interval) ==>
            p.sends * interval + start == p.total + p.timer)
  {
    if ticks != [] {
      var p := PaceAll(start, ticks[..|ticks| - 1], interval);
      PacingStaysInBounds(start, ticks[..|ticks| - 1], interval);
      assert (p.sends + 1) * interval == p.sends * interval + interval;
      assert forall i :: 0 <= i < |ticks| - 1 ==> ticks[..|ticks| - 1][i] == ticks[i];
    }
  }

  /** With an interval that rounds down to 0 every tick sends. */
  lemma {:induction false} ZeroIntervalSendsEveryTick(ticks: seq<nat>)
    ensures PaceAll(0, ticks, 0).sends == |ticks| && PaceAll(0, ticks, 0).timer == 0
  {
    if ticks != [] {
      ZeroIntervalSendsEveryTick(ticks[..|ticks| - 1]);
    }
  }

  // ----- rounding -----

  lemma Split(interval: nat, tick: nat)
    requires tick > 0
    ensures var (q, r) := (interval / (tick * 1000), interval % (tick * 1000));
      interval / 1000 == tick * q + r / 1000 && r / 1000 < tick && interval == 1000 * (tick * q) + r
  {
    var (q, r) := (interval / (tick * 1000), interval % (tick * 1000));
    assert interval == (tick * 1000) * q + r;
    assert (tick * 1000) * q == 1000 * (tick * q);
    var a := tick * q;
    assert interval == 1000 * a + r;
    assert interval / 1000 == a + r / 1000;
  }

  /** The sending interval is the RPI in milliseconds rounded down to the timer tick, and the
      expected packet rate is the RPI rounded up to it, both in 16 bits. */
  lemma IntervalsRoundToTick(interval: nat, tick: nat)
    requires tick > 0
    ensures RequestedInterval(interval, tick) == tick * (interval / (tick * 1000)) % UINT16
    ensures ExpectedRate(interval, tick) == tick * ((interval + tick * 1000 - 1) / (tick * 1000)) % UINT16
  {
    var (q, r, period) := (interval / (tick * 1000), interval % (tick * 1000), tick * 1000);
    Split(interval, tick);
    assert interval == period * q + r;
    if r == 0 {
      QuotientIs(interval + period - 1, period, q);
    } else {
      assert period * (q + 1) == period * q + period;
      QuotientIs(interval + period - 1, period, q + 1);
      assert tick * (q + 1) == tick * q + tick;
    }
  }

  lemma QuotientIs(n: nat, d: nat, q: nat)
    requires d > 0 && d * q <= n < d * q + d
    ensures n / d == q
  {
    var p := n / d;
    assert d * p <= n < d * p + d;
    assert d * (p + 1) == d * p + d && d * (q + 1) == d * q + d;
    Cancel(d, p, q + 1);
    Cancel(d, q, p + 1);
  }

  lemma Cancel(d: int, a: int, b: int)
    requires d > 0 && d * a < d * b
    ensures a < b
  {}

  /** An RPI below one tick comes to an interval of 0, and to a packet rate of one tick unless it is 0
      itself: then the rate is 0. */
  lemma RpiBelowTick(interval: nat, tick: nat)
    requires 0 < tick < UINT16 && interval < tick * 1000
    ensures RequestedInterval(interval, tick) == 0
    ensures ExpectedRate(interval, tick) == if interval == 0 then 0 else tick
  {
    assert interval % (tick * 1000) == interval by { Small(interval, tick * 1000); }
    if interval > 0 {
      assert interval / 1000 < tick;
      Small(tick, UINT16);
    }
  }

  /** Milliseconds without the part behind the last tick, in microseconds. */
  lemma Bracketed(interval: nat, tick: nat, whole: nat, r: nat)
    requires whole == interval / 1000 && r / 1000 <= whole && interval == 1000 * (whole - r / 1000) + r &&
      r < 1000 * tick
    ensures 1000 * (whole - r / 1000) <= interval < 1000 * (whole - r / 1000 + tick)
  {}

  /** Below 16 bits the two values bracket the RPI within one tick. */
  lemma IntervalsBracketRpi(interval: nat, tick: nat)
    requires tick > 0 && interval / 1000 + tick < UINT16
    ensures RequestedInterval(interval, tick) * 1000 <= interval <= ExpectedRate(interval, tick) * 1000
    ensures ExpectedRate(interval, tick) - RequestedInterval(interval, tick) == if interval % (tick * 1000) == 0 then 0
      else tick
  {
    Split(interval, tick);
    var r := interval % (tick * 1000);
    var down := interval / 1000 - r / 1000;
    Bracketed(interval, tick, interval / 1000, r);
    var up := if r == 0 then down else down + tick;
    assert RequestedInterval(interval, tick) == down by { Small(down, UINT16); }
    assert ExpectedRate(interval, tick) == up by { Small(up, UINT16); }
  }

  /** Rounded up without the word width, an RPI lies within one tick. */
  lemma RoundedUp(interval: nat, tick: nat)
    requires tick > 0
    ensures var up := tick * ((interval + tick * 1000 - 1) / (tick * 1000));
      interval <= 1000 * up < interval + 1000 * tick
  {
    var (n, period) := (interval + tick * 1000 - 1, tick * 1000);
    var q := n / period;
    assert n == period * q + n % period;
    assert period * q == 1000 * (tick * q);
  }

  lemma WrapsBelow(interval: nat, tick: nat, up: nat)
    requires interval <= 1000 * up < interval + 1000 * tick && tick < UINT16
    ensures interval <= 1000 * (up % UINT16) <==> up < UINT16
  {
    if up >= UINT16 {
      assert up % UINT16 <= up - UINT16;
    }
  }

  /** The packet rate reaches the RPI exactly if the RPI, rounded up to the tick, fits into 16 bits: else
      it wraps around below. */
  lemma RateReachesRpi(interval: nat, tick: nat)
    requires 0 < tick < UINT16
    ensures interval <= 1000 * ExpectedRate(interval, tick)
      <==> tick * ((interval + tick * 1000 - 1) / (tick * 1000)) < UINT16
  {
    var up := tick * ((interval + tick * 1000 - 1) / (tick * 1000));
    IntervalsRoundToTick(interval, tick);
    RoundedUp(interval, tick);
    WrapsBelow(interval, tick, up);
  }

  // ----- watchdog values -----

  lemma PowersUpTo512(n: nat)
    requires n <= 9
    ensures Pow2(n) <= 512
  {
    assert Pow2(9) == 512 by {
      assert Pow2(3) == 8 && Pow2(6) == 64;
    }
    PowerGrows(n, 9);
  }

  lemma {:induction false} PowerGrows(a: nat, b: nat)
    requires a <= b
    ensures Pow2(a) <= Pow2(b)
  {
    if a < b {
      PowerGrows(a, b - 1);
    }
  }

  /** The watchdog is the O->T interval in whole milliseconds times 2^(2 + multiplier) exactly if that
      stays below 2^64, which it does for the multipliers that the protocol defines, 0 to 7. The first
      one is the larger of it and ten seconds. */
  lemma WatchdogValue(t: Terms)
    requires t.oToTInterval < UINT32
    ensures var exact := t.oToTInterval / 1000 * Pow2(2 + t.multiplier);
      && (Watchdog(t) == exact <==> exact < UINT64)
      && (t.multiplier <= 7 ==> exact < UINT64)
    ensures InitialWatchdog(t) >= 10000 && InitialWatchdog(t) >= Watchdog(t)
    ensures InitialWatchdog(t) == 10000 || InitialWatchdog(t) == Watchdog(t)
  {
    if t.multiplier <= 7 {
      PowersUpTo512(2 + t.multiplier);
      ProductFits(t.oToTInterval / 1000, Pow2(2 + t.multiplier));
    }
  }

  lemma ProductFits(a: nat, b: nat)
    requires a <= 4294967 && b <= 512
    ensures a * b < UINT64
  {
    Growing(a, b, 512);
  }

  lemma {:induction false} Growing(a: nat, b: nat, c: nat)
    requires b <= c
    ensures a * b <= a * c
    decreases c
  {
    if b < c {
      Growing(a, b, c - 1);
      assert a * c == a * (c - 1) + a;
    }
  }

  // ----- the clock of the network handler -----

  /** `lastTime` and `elapsed` live in unsigned words; `handed` sums what went to the tick so far. */
  datatype Clock = Clock(lastTime: nat, elapsed: nat, handed: nat)

  function ClockStep(c: Clock, now: nat, tick: nat, word: nat): Clock
    requires word > 0
  {
    var elapsed := (c.elapsed + (now - c.lastTime) % word) % word;
    if elapsed >= tick then Clock(now, 0, c.handed + elapsed) else Clock(now, elapsed, c.handed)
  }

  /** Readings of a true clock, each reduced to a word. */
  function ClockRun(times: seq<nat>, tick: nat, word: nat): Clock
    requires word > 0 && times != []
  {
    if |times| == 1 then Clock(times[0] % word, 0, 0)
    else ClockStep(ClockRun(times[..|times| - 1], tick, word), times[|times| - 1] % word, tick, word)
  }

  lemma DifferenceOfResidues(a: nat, b: nat, word: nat)
    requires word > 0 && a <= b < a + word
    ensures (b % word - a % word) % word == b - a
  {
    var (d, x, k) := (b - a, b % word - a % word, b / word - a / word);
    assert a == word * (a / word) + a % word && b == word * (b / word) + b % word;
    assert word * k == word * (b / word) - word * (a / word);
    assert x == d - word * k;
    Cancel(word, -1, k);
    Cancel(word, k, 2);
    assert k == 0 || k == 1;
    Residue(x, word, d);
  }

  lemma Residue(x: int, word: nat, d: nat)
    requires 0 <= d < word && (x == d || x == d - word)
    ensures x % word == d
  {}

  /** The time handed to the ticks plus the residue equals the time the clock has run, as long as
      two readings are less than a word apart with room for the residue; the residue stays below a
      tick. Wrap-around of the clock word itself does no harm. */
  lemma {:induction false} NoTimeLost(times: seq<nat>, tick: nat, word: nat)
    requires times != [] && 0 < tick <= word
    requires forall i :: 0 < i < |times| ==> times[i - 1] <= times[i] && times[i] + tick <= times[i - 1] + word
    ensures var c := ClockRun(times, tick, word);
      && c.handed + c.elapsed == times[|times| - 1] as int - times[0]
      && c.elapsed < tick
      && c.lastTime == times[|times| - 1] % word
  {
    if |times| > 1 {
      var (a, b) := (times[|times| - 2], times[|times| - 1]);
      NoTimeLost(times[..|times| - 1], tick, word);
      assert times[..|times| - 1][|times| - 2] == a;
      assert a <= b && b + tick <= a + word;
      DifferenceOfResidues(a, b, word);
      var c := ClockRun(times[..|times| - 1], tick, word);
      Small(c.elapsed + (b - a), word);
    }
  }

  lemma Small(n: nat, d: nat)
    requires n < d
    ensures n % d == n
  {}

  /** The part of the network handler that keeps time. */
  class NetworkClock {
    const tick: nat
    const word: nat
    var lastTime: nat
    var elapsed: nat
    ghost var handed: nat

    ghost function View(): Clock
      reads this
    {
      Clock(lastTime, elapsed, handed)
    }

    constructor (now: nat, tick: nat, word: nat)
      requires tick > 0 && word > 0
      ensures View() == Clock(now, 0, 0) && this.tick == tick && this.word == word
    {
      this.tick, this.word := tick, word;
      lastTime, elapsed, handed := now, 0, 0;
    }

    /** One cycle: the time since the last one is added up, and handed on once a tick is full. */
    method ProcessCyclic(now: nat) returns (due: Option<nat>)
      requires word > 0
      modifies this
      ensures View() == ClockStep(old(View()), now, tick, word)
      ensures handed == old(handed) + if due.Some? then due.value else 0
      ensures due.Some? ==> due.value >= tick && elapsed == 0
    {
      elapsed := (elapsed + (now - lastTime) % word) % word;
      lastTime := now;
      due := None;
      if elapsed >= tick {
        due := Some(elapsed);
        handed := handed + elapsed;
        elapsed := 0;
      }
    }
  }
}
