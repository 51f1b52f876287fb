/**
 * `PerformanceAnalyzer`: named measurement sections, each with two tick/measurement
 * counters. Measurements are added to the write counter; a query swaps the counters and
 * reports the one that was being written. Clock reads and the clock rate are parameters.
 */
module PerformanceAnalyzer {
  import opened Types

  /** `numTicks` is a `uint64_t`: additions wrap around modulo 2^64. */
  const TicksModulus: int := 0x1_0000_0000_0000_0000

  /** The `uint64_t` value of an integer. */
  function Wrap(x: int): (r: int)
    ensures 0 <= r < TicksModulus
  {
    x % TicksModulus
  }

  datatype TicksAndCounter = TicksAndCounter(numTicks: int, numMeasurements: int)

  const ZeroCounter := TicksAndCounter(0, 0)

  /**
   * `MeasurementSection`: `counters` are `sectionCounters[2]`, `counterToWriteTo` selects
   * the one `sectionCounter` points to, `numTicksLastStart` is unset until the first
   * `sectionStart`.
   */
  datatype Section = Section(name: string, counters: seq<TicksAndCounter>, counterToWriteTo: nat,
                             numTicksLastStart: Option<int>)

  predicate ValidSection(s: Section) {
    && |s.counters| == 2
    && s.counterToWriteTo < 2
    && (forall i :: 0 <= i < 2 ==> 0 <= s.counters[i].numTicks < TicksModulus)
  }

  /** The counter `sectionCounter` points to. */
  function WriteCounter(s: Section): TicksAndCounter
    requires ValidSection(s)
  {
    s.counters[s.counterToWriteTo]
  }

  /** The counter that is not being written. */
  function OtherCounter(s: Section): TicksAndCounter
    requires ValidSection(s)
  {
    s.counters[1 - s.counterToWriteTo]
  }

  /** A new section: both counters zero, writing to the first one. */
  function NewSection(name: string): (s: Section)
    ensures ValidSection(s) && s.name == name
    ensures WriteCounter(s) == ZeroCounter && OtherCounter(s) == ZeroCounter
  {
    Section(name, [ZeroCounter, ZeroCounter], 0, None)
  }

  /** `sectionStart`: remembers the clock. */
  function SectionStart(s: Section, now: int): (r: Section)
    requires ValidSection(s)
    ensures ValidSection(r) && r.numTicksLastStart == Some(now)
    ensures r.counters == s.counters && r.counterToWriteTo == s.counterToWriteTo && r.name == s.name
  {
    s.(numTicksLastStart := Some(now))
  }

  /**
   * The clock reading `sectionEnd` subtracts: the last start, or, before any start, whatever
   * the never-initialised `numTicksLastStart` holds, given as `unsetStart`.
   */
  function LastStart(s: Section, unsetStart: int): int {
    if s.numTicksLastStart.Some? then s.numTicksLastStart.value else unsetStart
  }

  /**
   * `sectionEnd`: adds the ticks since the last start to the write counter, wrapping modulo
   * 2^64, and counts one more measurement; the other counter is untouched. An end without a
   * start still counts a measurement, of ticks measured from `unsetStart`.
   */
  function SectionEnd(s: Section, now: int, unsetStart: int): (r: Section)
    requires ValidSection(s)
    ensures ValidSection(r) && r.name == s.name && r.counterToWriteTo == s.counterToWriteTo
    ensures r.numTicksLastStart == s.numTicksLastStart
    ensures WriteCounter(r).numMeasurements == WriteCounter(s).numMeasurements + 1
    ensures s.numTicksLastStart.Some? ==>
              WriteCounter(r).numTicks == Wrap(WriteCounter(s).numTicks + (now - s.numTicksLastStart.value))
    ensures s.numTicksLastStart.None? ==>
              WriteCounter(r).numTicks == Wrap(WriteCounter(s).numTicks + (now - unsetStart))
    ensures OtherCounter(r) == OtherCounter(s)
  {
    var w := s.counterToWriteTo;
    var c := s.counters[w];
    var timeDiff := now - LastStart(s, unsetStart);
    s.(counters := s.counters[w := TicksAndCounter(Wrap(c.numTicks + timeDiff), c.numMeasurements + 1)])
  }

  /**
   * An end without a start counts one measurement whose ticks depend on the uninitialised
   * field; after a start, the uninitialised value plays no part.
   */
  lemma EndWithoutStartReadsUnsetField(name: string, now: int, u1: int, u2: int)
    requires 0 <= now - u1 < now - u2 < TicksModulus
    ensures var s := NewSection(name);
            && WriteCounter(SectionEnd(s, now, u1)).numMeasurements == 1
            && WriteCounter(SectionEnd(s, now, u1)).numTicks != WriteCounter(SectionEnd(s, now, u2)).numTicks
            && forall t :: SectionEnd(SectionStart(s, t), now, u1) == SectionEnd(SectionStart(s, t), now, u2)
  {
    var s := NewSection(name);
    assert WriteCounter(SectionEnd(s, now, u1)).numTicks == now - u1;
    assert WriteCounter(SectionEnd(s, now, u2)).numTicks == now - u2;
  }

  /**
   * `swapCounter`: the write counter becomes the other one; the counter previously written
   * is returned. No counter is changed.
   */
  function SwapCounter(s: Section): (r: (Section, TicksAndCounter))
    requires ValidSection(s)
    ensures ValidSection(r.0) && r.0.name == s.name && r.0.numTicksLastStart == s.numTicksLastStart
    ensures r.1 == WriteCounter(s)
    ensures r.0.counters == s.counters && r.0.counterToWriteTo != s.counterToWriteTo
    ensures WriteCounter(r.0) == OtherCounter(s) && OtherCounter(r.0) == WriteCounter(s)
  {
    (s.(counterToWriteTo := 1 - s.counterToWriteTo), s.counters[s.counterToWriteTo])
  }

  /**
   * The swap the documentation of the queries describes: as `swapCounter`, but the counter
   * that becomes the write counter starts from zero, so that it begins a new period.
   */
  function SwapCounterResetting(s: Section): (r: (Section, TicksAndCounter))
    requires ValidSection(s)
    ensures ValidSection(r.0) && r.0.name == s.name && r.0.numTicksLastStart == s.numTicksLastStart
    ensures r.1 == WriteCounter(s)
    ensures WriteCounter(r.0) == ZeroCounter && OtherCounter(r.0) == WriteCounter(s)
  {
    var w := 1 - s.counterToWriteTo;
    (s.(counterToWriteTo := w, counters := s.counters[w := ZeroCounter]), s.counters[s.counterToWriteTo])
  }

  // ---------------------------------------------------------------------------------------
  // The analyzer

  datatype Analyzer = Analyzer(sections: seq<Section>)

  predicate Valid(a: Analyzer) {
    forall i :: 0 <= i < |a.sections| ==> ValidSection(a.sections[i])
  }

  /** `createMeasurementSection`: appends a new section and reports its index, the previous count. */
  function CreateMeasurementSection(a: Analyzer, name: string): (r: (Analyzer, nat))
    requires Valid(a)
    ensures Valid(r.0)
    ensures r.1 == |a.sections| && |r.0.sections| == |a.sections| + 1
    ensures r.0.sections[..|a.sections|] == a.sections
    ensures r.0.sections[r.1] == NewSection(name)
  {
    (Analyzer(a.sections + [NewSection(name)]), |a.sections|)
  }

  // ---------------------------------------------------------------------------------------
  // Average time per measurement

  /**
   * The average both queries compute as written: the tick count divided by itself, then by
   * the clock rate. `None` is the NaN of 0 / 0.
   */
  function AverageTimeAsWritten(c: TicksAndCounter, ticksPerSecond: real): (r: Option<real>)
    requires ticksPerSecond > 0.0
    ensures c.numTicks != 0 ==> r == Some(1.0 / ticksPerSecond)
    ensures c.numTicks == 0 ==> r.None?
  {
    if c.numTicks == 0 then None
    else
      var ticks := c.numTicks as real;
      var ratio := ticks / ticks;
      assert ratio * ticks == ticks;
      assert ratio == 1.0;
      Some(ratio / ticksPerSecond)
  }

  /**
   * The average time per measurement in seconds, as the variable name
   * `averageNumHighResTicksPerMeasurement` describes: ticks divided by measurements.
   * `None` is the NaN of a period without measurements.
   */
  function AverageTime(c: TicksAndCounter, ticksPerSecond: real): (r: Option<real>)
    requires ticksPerSecond > 0.0
    ensures r.Some? <==> c.numMeasurements != 0
    ensures r.Some? ==> r.value * c.numMeasurements as real * ticksPerSecond == c.numTicks as real
  {
    if c.numMeasurements == 0 then None
    else
      var perMeasurement := c.numTicks as real / c.numMeasurements as real;
      var t := perMeasurement / ticksPerSecond;
      assert t * ticksPerSecond == perMeasurement;
      Some(t)
  }

  /**
   * As written, the reported average does not depend on the counter: one measurement of
   * 100 ticks and five measurements of one tick each both report one tick.
   */
  lemma AverageAsWrittenIgnoresCounts(ticksPerSecond: real)
    requires ticksPerSecond > 0.0
    ensures var long := TicksAndCounter(100, 1);
            var short := TicksAndCounter(5, 5);
            && AverageTimeAsWritten(long, ticksPerSecond) == AverageTimeAsWritten(short, ticksPerSecond)
            && AverageTime(long, ticksPerSecond) != AverageTime(short, ticksPerSecond)
  {
    var long := TicksAndCounter(100, 1);
    var short := TicksAndCounter(5, 5);
    var a := AverageTime(long, ticksPerSecond);
    var b := AverageTime(short, ticksPerSecond);
    assert a.value * ticksPerSecond == 100.0;
    assert b.value * 5.0 * ticksPerSecond == 5.0;
  }

  // ---------------------------------------------------------------------------------------
  // Queries

  /** The analyzer after every section's counters were swapped, as `getResultsForAll` leaves it. */
  function SwapAll(a: Analyzer): (r: Analyzer)
    requires Valid(a)
    ensures Valid(r) && |r.sections| == |a.sections|
    ensures forall i :: 0 <= i < |a.sections| ==> r.sections[i] == SwapCounter(a.sections[i]).0
  {
    Analyzer(seq(|a.sections|, i requires 0 <= i < |a.sections| => SwapCounter(a.sections[i]).0))
  }

  /** The analyzer after every section's counters were swapped with the resetting swap. */
  function SwapAllResetting(a: Analyzer): (r: Analyzer)
    requires Valid(a)
    ensures Valid(r) && |r.sections| == |a.sections|
    ensures forall i :: 0 <= i < |a.sections| ==> r.sections[i] == SwapCounterResetting(a.sections[i]).0
  {
    Analyzer(seq(|a.sections|, i requires 0 <= i < |a.sections| => SwapCounterResetting(a.sections[i]).0))
  }

  /**
   * `getResultsForAll`: swaps every section's counters, in creation order, and reports each
   * section's name, the measurement count of the counter it was writing and the average as
   * the code computes it. No counter is cleared.
   */
  method GetResultsForAll(a: Analyzer, ticksPerSecond: real)
    returns (r: Analyzer, sectionNames: seq<string>, numMeasurements: seq<int>, averageTimePerSection: seq<Option<real>>)
    requires Valid(a) && ticksPerSecond > 0.0
    ensures Valid(r)
    ensures |r.sections| == |a.sections| == |sectionNames| == |numMeasurements| == |averageTimePerSection|
    ensures forall i :: 0 <= i < |a.sections| ==>
              && sectionNames[i] == a.sections[i].name
              && numMeasurements[i] == WriteCounter(a.sections[i]).numMeasurements
              && averageTimePerSection[i] == AverageTimeAsWritten(WriteCounter(a.sections[i]), ticksPerSecond)
              && r.sections[i].name == a.sections[i].name
              && r.sections[i].numTicksLastStart == a.sections[i].numTicksLastStart
              && r.sections[i].counters == a.sections[i].counters
              && WriteCounter(r.sections[i]) == OtherCounter(a.sections[i])
              && OtherCounter(r.sections[i]) == WriteCounter(a.sections[i])
    ensures r == SwapAll(a)
  {
    sectionNames := [];
    numMeasurements := [];
    averageTimePerSection := [];
    var swapped: seq<Section> := [];
    var i := 0;
    while i < |a.sections|
      invariant 0 <= i <= |a.sections|
      invariant |swapped| == |sectionNames| == |numMeasurements| == |averageTimePerSection| == i
      invariant forall j :: 0 <= j < i ==>
                  && sectionNames[j] == a.sections[j].name
                  && numMeasurements[j] == WriteCounter(a.sections[j]).numMeasurements
                  && averageTimePerSection[j] == AverageTimeAsWritten(WriteCounter(a.sections[j]), ticksPerSecond)
                  && swapped[j] == SwapCounter(a.sections[j]).0
    {
      var results := SwapCounter(a.sections[i]);
      swapped := swapped + [results.0];
      sectionNames := sectionNames + [a.sections[i].name];
      numMeasurements := numMeasurements + [results.1.numMeasurements];
      averageTimePerSection := averageTimePerSection + [AverageTimeAsWritten(results.1, ticksPerSecond)];
      i := i + 1;
    }
    r := Analyzer(swapped);
    assert r.sections == SwapAll(a).sections;
  }

  /**
   * `getResultFor`: swaps one section's counters and reports the average, as the code
   * computes it, and the count of the counter it was writing. No counter is cleared.
   */
  function GetResultFor(a: Analyzer, sectionIdx: nat, ticksPerSecond: real): (r: (Analyzer, Option<real>, int))
    requires Valid(a) && sectionIdx < |a.sections| && ticksPerSecond > 0.0
    ensures Valid(r.0) && |r.0.sections| == |a.sections|
    ensures r.1 == AverageTimeAsWritten(WriteCounter(a.sections[sectionIdx]), ticksPerSecond)
    ensures r.2 == WriteCounter(a.sections[sectionIdx]).numMeasurements
    ensures r.0.sections[sectionIdx].counters == a.sections[sectionIdx].counters
    ensures WriteCounter(r.0.sections[sectionIdx]) == OtherCounter(a.sections[sectionIdx])
    ensures OtherCounter(r.0.sections[sectionIdx]) == WriteCounter(a.sections[sectionIdx])
    ensures r.0.sections[sectionIdx].name == a.sections[sectionIdx].name
    ensures r.0.sections[sectionIdx].numTicksLastStart == a.sections[sectionIdx].numTicksLastStart
    ensures forall i :: 0 <= i < |a.sections| && i != sectionIdx ==> r.0.sections[i] == a.sections[i]
  {
    var results := SwapCounter(a.sections[sectionIdx]);
    (Analyzer(a.sections[sectionIdx := results.0]), AverageTimeAsWritten(results.1, ticksPerSecond), results.1.numMeasurements)
  }

  /**
   * The queries as their documentation describes them: each swap starts the next period
   * from zero, and the average divides the ticks by the measurement count.
   */
  method GetResultsForAllResetting(a: Analyzer, ticksPerSecond: real)
    returns (r: Analyzer, sectionNames: seq<string>, numMeasurements: seq<int>, averageTimePerSection: seq<Option<real>>)
    requires Valid(a) && ticksPerSecond > 0.0
    ensures Valid(r)
    ensures |r.sections| == |a.sections| == |sectionNames| == |numMeasurements| == |averageTimePerSection|
    ensures forall i :: 0 <= i < |a.sections| ==>
              && sectionNames[i] == a.sections[i].name
              && numMeasurements[i] == WriteCounter(a.sections[i]).numMeasurements
              && averageTimePerSection[i] == AverageTime(WriteCounter(a.sections[i]), ticksPerSecond)
              && r.sections[i].name == a.sections[i].name
              && r.sections[i].numTicksLastStart == a.sections[i].numTicksLastStart
              && WriteCounter(r.sections[i]) == ZeroCounter
              && OtherCounter(r.sections[i]) == WriteCounter(a.sections[i])
    ensures r == SwapAllResetting(a)
  {
    sectionNames := [];
    numMeasurements := [];
    averageTimePerSection := [];
    var swapped: seq<Section> := [];
    var i := 0;
    while i < |a.sections|
      invariant 0 <= i <= |a.sections|
      invariant |swapped| == |sectionNames| == |numMeasurements| == |averageTimePerSection| == i
      invariant forall j :: 0 <= j < i ==>
                  && sectionNames[j] == a.sections[j].name
                  && numMeasurements[j] == WriteCounter(a.sections[j]).numMeasurements
                  && averageTimePerSection[j] == AverageTime(WriteCounter(a.sections[j]), ticksPerSecond)
                  && swapped[j] == SwapCounterResetting(a.sections[j]).0
    {
      var results := SwapCounterResetting(a.sections[i]);
      swapped := swapped + [results.0];
      sectionNames := sectionNames + [a.sections[i].name];
      numMeasurements := numMeasurements + [results.1.numMeasurements];
      averageTimePerSection := averageTimePerSection + [AverageTime(results.1, ticksPerSecond)];
      i := i + 1;
    }
    r := Analyzer(swapped);
    assert r.sections == SwapAllResetting(a).sections;
  }

  /** `getResultFor` as documented: the section's next period starts from zero. */
  function GetResultForResetting(a: Analyzer, sectionIdx: nat, ticksPerSecond: real): (r: (Analyzer, Option<real>, int))
    requires Valid(a) && sectionIdx < |a.sections| && ticksPerSecond > 0.0
    ensures Valid(r.0) && |r.0.sections| == |a.sections|
    ensures r.1 == AverageTime(WriteCounter(a.sections[sectionIdx]), ticksPerSecond)
    ensures r.2 == WriteCounter(a.sections[sectionIdx]).numMeasurements
    ensures r.1.Some? <==> r.2 != 0
    ensures WriteCounter(r.0.sections[sectionIdx]) == ZeroCounter
    ensures OtherCounter(r.0.sections[sectionIdx]) == WriteCounter(a.sections[sectionIdx])
    ensures r.0.sections[sectionIdx].name == a.sections[sectionIdx].name
    ensures r.0.sections[sectionIdx].numTicksLastStart == a.sections[sectionIdx].numTicksLastStart
    ensures forall i :: 0 <= i < |a.sections| && i != sectionIdx ==> r.0.sections[i] == a.sections[i]
  {
    var results := SwapCounterResetting(a.sections[sectionIdx]);
    (Analyzer(a.sections[sectionIdx := results.0]), AverageTime(results.1, ticksPerSecond), results.1.numMeasurements)
  }

  // ---------------------------------------------------------------------------------------
  // Measurement periods

  /** A run of measurements, each a (start, end) clock pair. */
  function {:induction false} Measure(s: Section, times: seq<(int, int)>): (r: Section)
    requires ValidSection(s)
    ensures ValidSection(r) && r.name == s.name && r.counterToWriteTo == s.counterToWriteTo
    decreases |times|
  {
    if times == [] then s
    else Measure(SectionEnd(SectionStart(s, times[0].0), times[0].1, 0), times[1..])
  }

  /** The clock ticks a run of measurements spans. */
  function Elapsed(times: seq<(int, int)>): int
    decreases |times|
  {
    if times == [] then 0 else (times[0].1 - times[0].0) + Elapsed(times[1..])
  }

  lemma WrapAdd(x: int, d: int)
    ensures Wrap(Wrap(x) + d) == Wrap(x + d)
  {
    var q := x / TicksModulus;
    assert x == q * TicksModulus + x % TicksModulus;
    assert x + d == (x % TicksModulus + d) + q * TicksModulus;
  }

  /**
   * A run of measurements adds its count and its elapsed ticks (modulo 2^64) to the write
   * counter and leaves the other counter alone.
   */
  lemma {:induction false} MeasureAdds(s: Section, times: seq<(int, int)>)
    requires ValidSection(s)
    ensures WriteCounter(Measure(s, times)) ==
              TicksAndCounter(Wrap(WriteCounter(s).numTicks + Elapsed(times)),
                              WriteCounter(s).numMeasurements + |times|)
    ensures OtherCounter(Measure(s, times)) == OtherCounter(s)
    decreases |times|
  {
    if times == [] {
      assert Wrap(WriteCounter(s).numTicks) == WriteCounter(s).numTicks;
    } else {
      var s' := SectionEnd(SectionStart(s, times[0].0), times[0].1, 0);
      MeasureAdds(s', times[1..]);
      var x := WriteCounter(s).numTicks + (times[0].1 - times[0].0);
      assert WriteCounter(s').numTicks == Wrap(x);
      WrapAdd(x, Elapsed(times[1..]));
    }
  }

  /**
   * As written, a query reports the measurements taken since the previous query plus the
   * counter's total from the period before that, because no counter is ever cleared.
   */
  lemma QueryCarriesStaleCount(s: Section, times: seq<(int, int)>)
    requires ValidSection(s)
    ensures var afterQuery := SwapCounter(s).0;
            SwapCounter(Measure(afterQuery, times)).1.numMeasurements
              == OtherCounter(s).numMeasurements + |times|
  {
    MeasureAdds(SwapCounter(s).0, times);
  }

  /**
   * A concrete run: one measurement, then three queries with nothing measured in between.
   * The third query reports that measurement again.
   */
  lemma StaleCountReappears(name: string, t0: int, t1: int)
    ensures var s1 := SectionEnd(SectionStart(NewSection(name), t0), t1, 0);
            var q1 := SwapCounter(s1);
            var q2 := SwapCounter(q1.0);
            var q3 := SwapCounter(q2.0);
            q1.1.numMeasurements == 1 && q2.1.numMeasurements == 0 && q3.1.numMeasurements == 1
  {
  }

  /**
   * With the resetting swap, a query reports exactly the measurements since the previous
   * query and the ticks they spanned.
   */
  lemma ResettingSwapCountsOnePeriod(s: Section, times: seq<(int, int)>)
    requires ValidSection(s)
    ensures var afterQuery := SwapCounterResetting(s).0;
            SwapCounterResetting(Measure(afterQuery, times)).1
              == TicksAndCounter(Wrap(Elapsed(times)), |times|)
  {
    MeasureFromZero(SwapCounterResetting(s).0, times);
  }

  lemma MeasureFromZero(s: Section, times: seq<(int, int)>)
    requires ValidSection(s) && WriteCounter(s) == ZeroCounter
    ensures WriteCounter(Measure(s, times)) == TicksAndCounter(Wrap(Elapsed(times)), |times|)
  {
    var w := WriteCounter(s);
    assert w.numTicks == 0 && w.numMeasurements == 0;
    MeasureAdds(s, times);
  }

  /** A run of measurements taken in one section of the analyzer. */
  function MeasureIn(a: Analyzer, sectionIdx: nat, times: seq<(int, int)>): (r: Analyzer)
    requires Valid(a) && sectionIdx < |a.sections|
    ensures Valid(r) && |r.sections| == |a.sections|
    ensures r.sections[sectionIdx] == Measure(a.sections[sectionIdx], times)
    ensures forall i :: 0 <= i < |a.sections| && i != sectionIdx ==> r.sections[i] == a.sections[i]
  {
    Analyzer(a.sections[sectionIdx := Measure(a.sections[sectionIdx], times)])
  }

  /**
   * As written, two queries of a section with nothing measured between leave the analyzer
   * as it was: the swap only alternates the counters.
   */
  lemma QueryTwiceRestores(a: Analyzer, sectionIdx: nat, ticksPerSecond: real)
    requires Valid(a) && sectionIdx < |a.sections| && ticksPerSecond > 0.0
    ensures GetResultFor(GetResultFor(a, sectionIdx, ticksPerSecond).0, sectionIdx, ticksPerSecond).0 == a
  {
    var first := GetResultFor(a, sectionIdx, ticksPerSecond).0;
    var second := GetResultFor(first, sectionIdx, ticksPerSecond).0;
    assert second.sections == a.sections;
  }

  /**
   * As written, two `getResultsForAll` calls with nothing measured between leave the
   * analyzer as it was; names and last starts are never touched, so a `sectionEnd` after a
   * query still measures from the start taken before it.
   */
  lemma QueryAllTwiceRestores(a: Analyzer)
    requires Valid(a)
    ensures SwapAll(SwapAll(a)) == a
    ensures forall i :: 0 <= i < |a.sections| ==>
              && SwapAll(a).sections[i].name == a.sections[i].name
              && SwapAll(a).sections[i].numTicksLastStart == a.sections[i].numTicksLastStart
  {
    var twice := SwapAll(SwapAll(a));
    forall i | 0 <= i < |a.sections| ensures twice.sections[i] == a.sections[i] {
      var once := SwapAll(a).sections[i];
      assert once == SwapCounter(a.sections[i]).0;
    }
    assert twice.sections == a.sections;
  }

  /**
   * With the documented `getResultsForAll`, two queries with nothing measured between leave
   * every section with two zero counters: the second query reports an empty period.
   */
  lemma QueryAllResettingTwiceClears(a: Analyzer)
    requires Valid(a)
    ensures var twice := SwapAllResetting(SwapAllResetting(a));
            forall i :: 0 <= i < |a.sections| ==>
              && WriteCounter(twice.sections[i]) == ZeroCounter
              && OtherCounter(twice.sections[i]) == ZeroCounter
              && twice.sections[i].name == a.sections[i].name
  {
  }

  /**
   * As written, a query after a run of measurements reports the run plus the count the
   * other counter held before the previous query.
   */
  lemma QueryAsWrittenCarriesStaleCount(a: Analyzer, sectionIdx: nat, times: seq<(int, int)>, ticksPerSecond: real)
    requires Valid(a) && sectionIdx < |a.sections| && ticksPerSecond > 0.0
    ensures var first := GetResultFor(a, sectionIdx, ticksPerSecond).0;
            GetResultFor(MeasureIn(first, sectionIdx, times), sectionIdx, ticksPerSecond).2
              == OtherCounter(a.sections[sectionIdx]).numMeasurements + |times|
  {
    var first := GetResultFor(a, sectionIdx, ticksPerSecond).0;
    MeasureAdds(first.sections[sectionIdx], times);
  }

  /**
   * A concrete run of the queries as written: one measurement, then three `getResultFor`
   * calls with nothing measured between. The third reports that measurement again.
   */
  lemma QueriesRepeatStaleCount(name: string, t0: int, t1: int, ticksPerSecond: real)
    requires ticksPerSecond > 0.0
    ensures var a := Analyzer([SectionEnd(SectionStart(NewSection(name), t0), t1, 0)]);
            var q1 := GetResultFor(a, 0, ticksPerSecond);
            var q2 := GetResultFor(q1.0, 0, ticksPerSecond);
            var q3 := GetResultFor(q2.0, 0, ticksPerSecond);
            q1.2 == 1 && q2.2 == 0 && q3.2 == 1
  {
  }

  /**
   * As written, the reported average does not depend on the measurements: a section that
   * measured once for 100 ticks and one that measured five times for one tick each report
   * the same average, while the documented query tells them apart.
   */
  lemma QueryAverageIgnoresCounts(name: string, ticksPerSecond: real)
    requires ticksPerSecond > 0.0
    ensures var long := Analyzer([Measure(NewSection(name), [(0, 100)])]);
            var short := Analyzer([Measure(NewSection(name), [(0, 1), (1, 2), (2, 3), (3, 4), (4, 5)])]);
            && GetResultFor(long, 0, ticksPerSecond).1 == GetResultFor(short, 0, ticksPerSecond).1
            && GetResultForResetting(long, 0, ticksPerSecond).1 != GetResultForResetting(short, 0, ticksPerSecond).1
  {
    var long := Measure(NewSection(name), [(0, 100)]);
    var short := Measure(NewSection(name), [(0, 1), (1, 2), (2, 3), (3, 4), (4, 5)]);
    OneLongMeasurement(name);
    FiveShortMeasurements(name);
    assert WriteCounter(long) == TicksAndCounter(100, 1);
    assert WriteCounter(short) == TicksAndCounter(5, 5);
    AverageAsWrittenIgnoresCounts(ticksPerSecond);
  }

  lemma OneLongMeasurement(name: string)
    ensures WriteCounter(Measure(NewSection(name), [(0, 100)])) == TicksAndCounter(100, 1)
  {
    MeasureAdds(NewSection(name), [(0, 100)]);
    assert Elapsed([(0, 100)]) == 100;
  }

  lemma FiveShortMeasurements(name: string)
    ensures WriteCounter(Measure(NewSection(name), [(0, 1), (1, 2), (2, 3), (3, 4), (4, 5)])) == TicksAndCounter(5, 5)
  {
    var times := [(0, 1), (1, 2), (2, 3), (3, 4), (4, 5)];
    MeasureAdds(NewSection(name), times);
    assert Elapsed([(4, 5)]) == 1;
    assert Elapsed([(3, 4), (4, 5)]) == 2;
    assert Elapsed([(2, 3), (3, 4), (4, 5)]) == 3;
    assert Elapsed([(1, 2), (2, 3), (3, 4), (4, 5)]) == 4;
    assert Elapsed(times) == 5;
    assert WriteCounter(NewSection(name)) == ZeroCounter;
    assert Wrap(0 + 5) == 5;
  }

  /**
   * With the documented queries, a run of measurements between two queries of a section is
   * reported exactly: its count, and the average of the ticks it spanned (modulo 2^64) over
   * that count, which is present exactly when the run is not empty.
   */
  lemma QueryReportsPeriod(a: Analyzer, sectionIdx: nat, times: seq<(int, int)>, ticksPerSecond: real)
    requires Valid(a) && sectionIdx < |a.sections| && ticksPerSecond > 0.0
    ensures var first := GetResultForResetting(a, sectionIdx, ticksPerSecond).0;
            var second := GetResultForResetting(MeasureIn(first, sectionIdx, times), sectionIdx, ticksPerSecond);
            && second.2 == |times|
            && second.1 == AverageTime(TicksAndCounter(Wrap(Elapsed(times)), |times|), ticksPerSecond)
            && (times != [] <==> second.1.Some?)
  {
    var first := GetResultForResetting(a, sectionIdx, ticksPerSecond).0;
    MeasureFromZero(first.sections[sectionIdx], times);
  }
}
