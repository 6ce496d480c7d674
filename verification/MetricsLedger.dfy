/**
 What the sequence of reports says over a whole run of the metrics loop: the growth of every counter is accounted for
 once, and so is every tick.
 */
module MetricsLedger {
  import opened Bits
  import opened MetricsReporters
  import opened Multisets
  import opened Wrappers

  /** The first reading ever taken: its growth is thrown away, and later growth counts from it. */
  function Baseline(calls: seq<Call>): Option<Metrics>
    decreases |calls|
  {
    if calls == [] then
      None
    else
      var before := Baseline(calls[..|calls| - 1]);
      if before.Some? then before else calls[|calls| - 1].first
  }

  /** Each report starts from the reading where the one before it ended. */
  ghost predicate Chained(reports: seq<Report>) {
    forall i, j :: 0 <= i && j == i + 1 && j < |reports| ==> reports[j].before == reports[i].after
  }

  /** The reports lead from one reading to another without a gap or an overlap. */
  ghost predicate LeadsFromTo(reports: seq<Report>, first: Metrics, last: Metrics) {
    if reports == [] then
      first == last
    else
      Chained(reports) && reports[0].before == first && reports[|reports| - 1].after == last
  }

  function SumOfIntervals(reports: seq<Report>): nat
    decreases |reports|
  {
    if reports == [] then 0 else SumOfIntervals(reports[..|reports| - 1]) + reports[|reports| - 1].intervals
  }

  /** What a report says of a series, and nothing when it does not have it. */
  function Amount(r: Report, s: Series): real {
    if HasSeries(r.after, s) then Reported(r.after, r.before, s) else 0.0
  }

  /** What reports that were delivered, or withheld, say of a series in all. */
  function SumOf(reports: seq<Report>, s: Series, delivered: bool): real
    decreases |reports|
  {
    if reports == [] then
      0.0
    else
      var last := reports[|reports| - 1];
      SumOf(reports[..|reports| - 1], s, delivered) + if last.delivered == delivered then Amount(last, s) else 0.0
  }

  /** A reading without the series makes the reporter forget how far it was. */
  function Forgotten(reports: seq<Report>, s: Series): real
    decreases |reports|
  {
    if reports == [] then
      0.0
    else
      var last := reports[|reports| - 1];
      Forgotten(reports[..|reports| - 1], s) + if HasSeries(last.after, s) then 0.0 else Reading(last.before, s)
  }

  predicate WentDown(r: Report, s: Series) {
    IsWord(s) && HasSeries(r.after, s) && Word(r.after, s) < Word(r.before, s)
  }

  /** How often a 64-bit counter went down. */
  function TimesDown(reports: seq<Report>, s: Series): nat
    decreases |reports|
  {
    if reports == [] then
      0
    else
      TimesDown(reports[..|reports| - 1], s) + if WentDown(reports[|reports| - 1], s) then 1 else 0
  }

  // ---------------------------------------------------------------------------------------------------------------
  // Sums

  lemma WrapOfDifference(a: uint64, b: uint64)
    ensures Wrap(a - b) == if a < b then a - b + TWO_64 else a - b
  {
  }

  lemma WordIsReading(m: Metrics, s: Series)
    requires IsWord(s)
    ensures Reading(m, s) == Word(m, s) as real
  {
  }

  lemma MissingReadsZero(m: Metrics, s: Series)
    requires !HasSeries(m, s)
    ensures Reading(m, s) == 0.0
  {
  }

  /** One report of a counter. */
  lemma AmountIsGrowth(r: Report, s: Series)
    requires !IsGauge(s)
    ensures
      Amount(r, s) ==
      Reading(r.after, s) - Reading(r.before, s)
      + (if HasSeries(r.after, s) then 0.0 else Reading(r.before, s))
      + (if WentDown(r, s) then TWO_64 as real else 0.0)
  {
    if !HasSeries(r.after, s) {
      MissingReadsZero(r.after, s);
    } else if IsWord(s) {
      WordIsReading(r.after, s);
      WordIsReading(r.before, s);
      WrapOfDifference(Word(r.after, s), Word(r.before, s));
    }
  }

  lemma {:induction false} GrowthTelescopes(reports: seq<Report>, first: Metrics, last: Metrics, s: Series)
    requires LeadsFromTo(reports, first, last) && !IsGauge(s)
    ensures
      SumOf(reports, s, true) + SumOf(reports, s, false) ==
      Reading(last, s) - Reading(first, s) + Forgotten(reports, s)
      + TimesDown(reports, s) as real * TWO_64 as real
    decreases |reports|
  {
    if reports != [] {
      var front, r := reports[..|reports| - 1], reports[|reports| - 1];
      GrowthTelescopes(front, first, r.before, s);
      AmountIsGrowth(r, s);
      OneMoreTime(TimesDown(front, s), if WentDown(r, s) then 1 else 0);
    }
  }

  lemma OneMoreTime(times: nat, more: nat)
    ensures (times + more) as real * TWO_64 as real == times as real * TWO_64 as real + more as real * TWO_64 as real
  {
  }

  // ---------------------------------------------------------------------------------------------------------------
  // Runs

  ghost predicate Accounted(p: Progress, calls: seq<Call>, seconds: nat) {
    && p.intervals >= 1
    && SumOfIntervals(p.reports) + p.intervals - 1 == |calls|
    && (p.state.skippedInitialReport <==> Baseline(calls).Some?)
    && (Baseline(calls) == None ==> p.reports == [])
    && (Baseline(calls).Some? ==> LeadsFromTo(p.reports, Baseline(calls).value, p.state.stored))
    && (forall i :: 0 <= i < |p.reports| ==>
          p.reports[i].intervals >= 1 && (p.reports[i].delivered <==> !TooLong(p.reports[i].intervals, seconds)))
  }

  lemma OneMoreReport(reports: seq<Report>, r: Report, first: Metrics)
    requires LeadsFromTo(reports, first, r.before)
    ensures LeadsFromTo(reports + [r], first, r.after)
    ensures SumOfIntervals(reports + [r]) == SumOfIntervals(reports) + r.intervals
  {
    var more := reports + [r];
    assert more[..|more| - 1] == reports;
  }

  lemma MeasureIsAccounted(p: Progress, calls: seq<Call>, call: Call, seconds: nat)
    requires Accounted(p, calls, seconds)
    ensures Accounted(MeasuredOnce(p, call, seconds), calls + [call], seconds)
  {
    var m := Measured(p.state, call, p.intervals, seconds);
    assert (calls + [call])[..|calls|] == calls;
    if m.report.Some? {
      OneMoreReport(p.reports, m.report.value, Baseline(calls + [call]).value);
    }
  }

  /**
   Over every run of the loop, the reports lead from the first reading to the kept one without a gap or an overlap, a
   report is withheld exactly when it covers more than ten minutes, and every tick is in the interval of one report or
   in the failures since the last.
   */
  lemma {:induction false} EveryTickIsAccounted(begin: ReporterState, calls: seq<Call>, seconds: nat)
    requires !begin.skippedInitialReport
    ensures Accounted(Measures(begin, calls, seconds), calls, seconds)
    decreases |calls|
  {
    if calls != [] {
      var front, last := calls[..|calls| - 1], calls[|calls| - 1];
      EveryTickIsAccounted(begin, front, seconds);
      MeasureIsAccounted(Measures(begin, front, seconds), front, last, seconds);
      assert front + [last] == calls;
    }
  }

  /**
   Over every run, for every counter: what was delivered and what was withheld is how far the counter got since the
   first reading, plus what it had reached each time a reading did not have it, plus 2^64 for each time it went down.
   */
  lemma CountersAreAccounted(begin: ReporterState, calls: seq<Call>, seconds: nat, s: Series)
    requires !begin.skippedInitialReport && !IsGauge(s) && Baseline(calls).Some?
    ensures
      var p := Measures(begin, calls, seconds);
      SumOf(p.reports, s, true) + SumOf(p.reports, s, false) ==
      Reading(p.state.stored, s) - Reading(Baseline(calls).value, s) + Forgotten(p.reports, s)
      + TimesDown(p.reports, s) as real * TWO_64 as real
  {
    var p := Measures(begin, calls, seconds);
    EveryTickIsAccounted(begin, calls, seconds);
    GrowthTelescopes(p.reports, Baseline(calls).value, p.state.stored, s);
  }

  lemma {:induction false} NothingForgotten(reports: seq<Report>, s: Series)
    requires forall i :: 0 <= i < |reports| ==> HasSeries(reports[i].after, s) && !WentDown(reports[i], s)
    ensures Forgotten(reports, s) == 0.0 && TimesDown(reports, s) == 0
    decreases |reports|
  {
    if reports != [] {
      NothingForgotten(reports[..|reports| - 1], s);
    }
  }

  lemma {:induction false} NothingWithheld(reports: seq<Report>, s: Series)
    requires forall i :: 0 <= i < |reports| ==> reports[i].delivered
    ensures SumOf(reports, s, false) == 0.0
    decreases |reports|
  {
    if reports != [] {
      NothingWithheld(reports[..|reports| - 1], s);
    }
  }

  /**
   When no report covers more than ten minutes, and the counter is in every reading and never goes down, what was
   delivered is exactly how far it got, however many requests failed in between.
   */
  lemma DeliveredIsGrowth(begin: ReporterState, calls: seq<Call>, seconds: nat, s: Series)
    requires !begin.skippedInitialReport && !IsGauge(s) && Baseline(calls).Some?
    requires
      var reports := Measures(begin, calls, seconds).reports;
      forall i :: 0 <= i < |reports| ==>
        !TooLong(reports[i].intervals, seconds) && HasSeries(reports[i].after, s) && !WentDown(reports[i], s)
    ensures
      var p := Measures(begin, calls, seconds);
      SumOf(p.reports, s, true) == Reading(p.state.stored, s) - Reading(Baseline(calls).value, s)
  {
    var p := Measures(begin, calls, seconds);
    EveryTickIsAccounted(begin, calls, seconds);
    CountersAreAccounted(begin, calls, seconds, s);
    NothingForgotten(p.reports, s);
    NothingWithheld(p.reports, s);
  }

  // ---------------------------------------------------------------------------------------------------------------
  // What the posted points add up to

  /** What a request says of a series. */
  function ValueIn(points: seq<Point>, s: Series): real
    decreases |points|
  {
    if points == [] then
      0.0
    else
      var last := points[|points| - 1];
      ValueIn(points[..|points| - 1], s) + if last.series == s then last.value else 0.0
  }

  function ValueInAll(requests: seq<seq<Point>>, s: Series): real
    decreases |requests|
  {
    if requests == [] then
      0.0
    else
      ValueInAll(requests[..|requests| - 1], s) + ValueIn(requests[|requests| - 1], s)
  }

  lemma {:induction false} ValueOfNone(points: seq<Point>, s: Series)
    requires forall i :: 0 <= i < |points| ==> points[i].series != s
    ensures ValueIn(points, s) == 0.0
    decreases |points|
  {
    if points != [] {
      ValueOfNone(points[..|points| - 1], s);
    }
  }

  lemma {:induction false} ValueOfOne(points: seq<Point>, s: Series, at: nat)
    requires at < |points| && points[at].series == s
    requires forall i :: 0 <= i < |points| && i != at ==> points[i].series != s
    ensures ValueIn(points, s) == points[at].value
    decreases |points|
  {
    if at == |points| - 1 {
      ValueOfNone(points[..at], s);
    } else {
      ValueOfOne(points[..|points| - 1], s, at);
    }
  }

  lemma CountInSet<T>(s: set<T>, x: T)
    ensures multiset(s)[x] == if x in s then 1 else 0
  {
  }

  /** A request says of each series exactly what its report does. */
  lemma RequestSaysAmount(points: seq<Point>, r: Report, s: Series)
    requires IsRequest(points, r.after, r.before, r.intervals)
    ensures ValueIn(points, s) == Amount(r, s)
  {
    var all := PointSet(SeriesOf(r.after), r.after, r.before, r.intervals);
    assert multiset(points) == multiset(all);
    forall i | 0 <= i < |points|
      ensures HasSeries(r.after, points[i].series)
      ensures points[i] == PointOf(points[i].series, r.after, r.before, r.intervals)
    {
      assert points[i] in multiset(points);
      assert points[i] in all;
    }
    if HasSeries(r.after, s) {
      var point := PointOf(s, r.after, r.before, r.intervals);
      assert point in all;
      assert point in multiset(points);
      var at :| 0 <= at < |points| && points[at] == point;
      forall i | 0 <= i < |points| && i != at ensures points[i].series != s {
        OnlyOnce(points, all, i, at);
      }
      ValueOfOne(points, s, at);
    } else {
      ValueOfNone(points, s);
    }
  }

  lemma OnlyOnce<T>(points: seq<T>, all: set<T>, i: nat, j: nat)
    requires multiset(points) == multiset(all) && i < |points| && j < |points| && i != j
    ensures points[i] != points[j]
  {
    CountInSet(all, points[i]);
    if points[i] == points[j] {
      TwiceInMultiset(points, if i < j then i else j, if i < j then j else i);
    }
  }

  /** So the posted requests add up to what the delivered reports say. */
  lemma {:induction false} RequestsAddUp(requests: seq<seq<Point>>, reports: seq<Report>, s: Series)
    requires RequestsOf(requests, reports)
    ensures ValueInAll(requests, s) == SumOf(reports, s, true)
    decreases |reports|
  {
    hide IsRequest;
    if reports != [] {
      var front, last := reports[..|reports| - 1], reports[|reports| - 1];
      if last.delivered {
        var n := |requests| - 1;
        assert DeliveredOf(reports)[..n] == DeliveredOf(front) && DeliveredOf(reports)[n] == last;
        assert RequestsOf(requests[..n], front);
        RequestsAddUp(requests[..n], front, s);
        RequestSaysAmount(requests[n], last, s);
      } else {
        RequestsAddUp(requests, front, s);
      }
    }
  }

  /**
   Over every run of the loop, for every counter: the points that were posted and accepted, together with what was
   withheld, add up to how far the counter got, plus what a reading without it made the reporter forget, plus 2^64 for
   each time it went down.
   */
  lemma PostedPointsAreAccounted(begin: ReporterState, calls: seq<Call>, seconds: nat, requests: seq<seq<Point>>,
                                 s: Series)
    requires !begin.skippedInitialReport && !IsGauge(s) && Baseline(calls).Some?
    requires RequestsOf(requests, Measures(begin, calls, seconds).reports)
    ensures
      var p := Measures(begin, calls, seconds);
      ValueInAll(requests, s) + SumOf(p.reports, s, false) ==
      Reading(p.state.stored, s) - Reading(Baseline(calls).value, s) + Forgotten(p.reports, s)
      + TimesDown(p.reports, s) as real * TWO_64 as real
  {
    CountersAreAccounted(begin, calls, seconds, s);
    RequestsAddUp(requests, Measures(begin, calls, seconds).reports, s);
  }

  // ---------------------------------------------------------------------------------------------------------------
  // When what is reported is not the growth

  /** A report that says more of a 64-bit counter than it grew: it went down, or was there and then missing. */
  ghost predicate Overstates(r: Report, s: Series) {
    WentDown(r, s) || (!HasSeries(r.after, s) && Reading(r.before, s) != 0.0)
  }

  lemma {:induction false} NothingOverstatedIff(reports: seq<Report>, s: Series)
    requires IsWord(s)
    ensures Forgotten(reports, s) >= 0.0
    ensures
      Forgotten(reports, s) == 0.0 && TimesDown(reports, s) == 0 <==>
      forall i :: 0 <= i < |reports| ==> !Overstates(reports[i], s)
    decreases |reports|
  {
    if reports != [] {
      var front, last := reports[..|reports| - 1], reports[|reports| - 1];
      NothingOverstatedIff(front, s);
      WordIsReading(last.before, s);
      assert reports == front + [last];
    }
  }

  /**
   When delivered and withheld amounts of a 64-bit counter are exactly its growth, over every run: if and only if it
   never goes down from one kept reading to the next, and never is missing after it had counted something.
   */
  lemma GrowthIsExactIff(begin: ReporterState, calls: seq<Call>, seconds: nat, s: Series)
    requires !begin.skippedInitialReport && IsWord(s) && Baseline(calls).Some?
    ensures
      var p := Measures(begin, calls, seconds);
      SumOf(p.reports, s, true) + SumOf(p.reports, s, false) ==
      Reading(p.state.stored, s) - Reading(Baseline(calls).value, s) <==>
      forall i :: 0 <= i < |p.reports| ==> !Overstates(p.reports[i], s)
  {
    var p := Measures(begin, calls, seconds);
    CountersAreAccounted(begin, calls, seconds, s);
    NothingOverstatedIff(p.reports, s);
    if TimesDown(p.reports, s) > 0 {
      OneMoreTime(TimesDown(p.reports, s) - 1, 1);
      NotNegative(TimesDown(p.reports, s) - 1);
    }
  }

  lemma NotNegative(times: nat)
    ensures times as real * TWO_64 as real >= 0.0
  {
  }

  lemma {:induction false} NothingWithheldIff(reports: seq<Report>, s: Series)
    requires IsWord(s)
    ensures SumOf(reports, s, false) >= 0.0
    ensures
      SumOf(reports, s, false) == 0.0 <==>
      forall i :: 0 <= i < |reports| && !reports[i].delivered ==> Amount(reports[i], s) == 0.0
    decreases |reports|
  {
    if reports != [] {
      var front, last := reports[..|reports| - 1], reports[|reports| - 1];
      NothingWithheldIff(front, s);
      assert Amount(last, s) >= 0.0;
      assert reports == front + [last];
    }
  }

  /**
   When what was delivered of a 64-bit counter that no report overstates is exactly its growth, over every run: if and
   only if the reports that were withheld had nothing to say of it.
   */
  lemma DeliveredIsGrowthIff(begin: ReporterState, calls: seq<Call>, seconds: nat, s: Series)
    requires !begin.skippedInitialReport && IsWord(s) && Baseline(calls).Some?
    requires
      var reports := Measures(begin, calls, seconds).reports;
      forall i :: 0 <= i < |reports| ==> !Overstates(reports[i], s)
    ensures
      var p := Measures(begin, calls, seconds);
      SumOf(p.reports, s, true) == Reading(p.state.stored, s) - Reading(Baseline(calls).value, s) <==>
      forall i :: 0 <= i < |p.reports| && !p.reports[i].delivered ==> Amount(p.reports[i], s) == 0.0
  {
    GrowthIsExactIff(begin, calls, seconds, s);
    NothingWithheldIff(Measures(begin, calls, seconds).reports, s);
  }

  /** A reading of one total, of the bytes of all network interfaces together. */
  function OnlyNIC(name: string, bytes: uint64): Metrics {
    Metrics(0.0, 0.0, 0, 0, 0, 0, 0, map[], map[name := NIC(bytes, bytes)])
  }

  lemma TwoReports(r1: Report, r2: Report, s: Series)
    requires r1.delivered && r2.delivered
    ensures SumOf([r1, r2], s, true) == Amount(r1, s) + Amount(r2, s)
  {
    assert [r1, r2][..1] == [r1] && [r1][..0] == [];
    assert SumOf([r1], s, true) == Amount(r1, s);
  }

  /** Two measurements in a row that succeed. */
  lemma TwoMeasures(begin: ReporterState, m1: Metrics, m2: Metrics)
    requires !begin.skippedInitialReport
    ensures
      Measures(begin, [Call(Some(m1), Some(m1), true, true), Call(Some(m2), None, true, true)], 30) ==
      Progress(ReporterState(m2, true), 1, [Report(m1, m1, 1, true), Report(m1, m2, 1, true)])
  {
    var first, second := Call(Some(m1), Some(m1), true, true), Call(Some(m2), None, true, true);
    assert [first, second][..1] == [first] && [first][..0] == [];
    assert Measures(begin, [first], 30) == Progress(ReporterState(m1, true), 1, [Report(m1, m1, 1, true)]);
  }

  /**
   A total that goes down, as that of all interfaces does when one of them goes away, is delivered as nearly 2^64 bytes,
   whatever the two totals are.
   */
  lemma FallingTotalIsDeliveredAsGrowth(begin: ReporterState, name: string, before: uint64, after: uint64)
    requires !begin.skippedInitialReport && after < before
    ensures
      var m1, m2 := OnlyNIC(name, before), OnlyNIC(name, after);
      var p := Measures(begin, [Call(Some(m1), Some(m1), true, true), Call(Some(m2), None, true, true)], 30);
      SumOf(p.reports, Network(name, BytesRecv), true) == (TWO_64 - (before - after)) as real
  {
    var m1, m2 := OnlyNIC(name, before), OnlyNIC(name, after);
    var s := Network(name, BytesRecv);
    var r1, r2 := Report(m1, m1, 1, true), Report(m1, m2, 1, true);
    TwoMeasures(begin, m1, m2);
    AmountIsGrowth(r1, s);
    AmountIsGrowth(r2, s);
    assert Word(m1, s) == before && Word(m2, s) == after;
    TwoReports(r1, r2, s);
  }
}
