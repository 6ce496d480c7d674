/**
 What the metrics reporter sends (internal/metrics/reporter.go, internal/metrics/metrics.go): the growth of each counter
 since the last reading it kept, under an interval that says how many ticks that took (tracer.go, systemMetricsLoop).

 Readings and the outcomes of requests are arbitrary inputs. Floating point numbers are reals here; the counters that Go
 keeps as uint64 wrap around.
 */
module MetricsReporters {
  import opened Bits
  import opened MetricsRetry
  import opened Wrappers

  datatype CPU = CPU(user: real, system: real, usage: real, total: real)

  datatype NIC = NIC(bytesReceived: uint64, bytesSent: uint64)

  datatype Metrics = Metrics(
    processUser: real,
    processSystem: real,
    numGC: uint64,
    numGoroutine: uint64,
    memAvailable: uint64,
    memTotal: uint64,
    heapAlloc: uint64,
    cpu: map<string, CPU>,
    nic: map<string, NIC>)

  const MAX_DURATION_IN_SECONDS := 600

  // ---------------------------------------------------------------------------------------------------------------
  // Series and points

  datatype CPUPart = System | User | Total | Usage

  datatype Direction = BytesRecv | BytesSent

  datatype Series =
    | ProcessUser
    | ProcessSystem
    | GCCount
    | Goroutine
    | MemAvailable
    | MemTotal
    | HeapAlloc
    | SystemCPU(name: string, part: CPUPart)
    | Network(name: string, direction: Direction)

  datatype Point = Point(series: Series, value: real, intervals: nat)

  /** Go's zero values for labels that are missing. */
  function CPUOf(m: Metrics, name: string): CPU {
    if name in m.cpu then m.cpu[name] else CPU(0.0, 0.0, 0.0, 0.0)
  }

  function NICOf(m: Metrics, name: string): NIC {
    if name in m.nic then m.nic[name] else NIC(0, 0)
  }

  predicate HasSeries(m: Metrics, s: Series) {
    match s
    case SystemCPU(name, _) => name in m.cpu
    case Network(name, _) => name in m.nic
    case _ => true
  }

  predicate IsGauge(s: Series) {
    s.Goroutine? || s.MemAvailable? || s.MemTotal? || s.HeapAlloc?
  }

  /** A counter that is a uint64. */
  predicate IsWord(s: Series) {
    s.GCCount? || s.Network?
  }

  function CPUReading(c: CPU, part: CPUPart): real {
    match part
    case System => c.system
    case User => c.user
    case Total => c.total
    case Usage => c.usage
  }

  function NICReading(n: NIC, direction: Direction): uint64 {
    if direction == BytesRecv then n.bytesReceived else n.bytesSent
  }

  function Word(m: Metrics, s: Series): uint64
    requires IsWord(s)
  {
    match s
    case GCCount => m.numGC
    case Network(name, direction) => NICReading(NICOf(m, name), direction)
  }

  function Reading(m: Metrics, s: Series): real {
    match s
    case ProcessUser => m.processUser
    case ProcessSystem => m.processSystem
    case GCCount => m.numGC as real
    case Goroutine => m.numGoroutine as real
    case MemAvailable => m.memAvailable as real
    case MemTotal => m.memTotal as real
    case HeapAlloc => m.heapAlloc as real
    case SystemCPU(name, part) => CPUReading(CPUOf(m, name), part)
    case Network(name, direction) => NICReading(NICOf(m, name), direction) as real
  }

  /** What is reported for a series: a gauge as it is, a counter as its growth. */
  function Reported(m: Metrics, stored: Metrics, s: Series): real {
    if IsGauge(s) then Reading(m, s)
    else if IsWord(s) then Wrap(Word(m, s) - Word(stored, s)) as real
    else Reading(m, s) - Reading(stored, s)
  }

  function AddFloat(s: Series, value: real, intervals: nat): Point {
    Point(s, value, intervals)
  }

  function PointOf(s: Series, m: Metrics, stored: Metrics, intervals: nat): Point {
    Point(s, Reported(m, stored, s), intervals)
  }

  ghost function PointSet(series: set<Series>, m: Metrics, stored: Metrics, intervals: nat): set<Point> {
    set s | s in series :: PointOf(s, m, stored, intervals)
  }

  /** In any order, one point for each of these series and no other. */
  ghost predicate PointsFor(points: seq<Point>, series: set<Series>, m: Metrics, stored: Metrics, intervals: nat) {
    multiset(points) == multiset(PointSet(series, m, stored, intervals))
  }

  lemma MorePoints(points: seq<Point>, series: set<Series>, more: seq<Point>, others: set<Series>,
                   m: Metrics, stored: Metrics, intervals: nat)
    requires PointsFor(points, series, m, stored, intervals) && PointsFor(more, others, m, stored, intervals)
    requires series !! others
    ensures PointsFor(points + more, series + others, m, stored, intervals)
  {
    var these, those := PointSet(series, m, stored, intervals), PointSet(others, m, stored, intervals);
    assert PointSet(series + others, m, stored, intervals) == these + those;
    assert multiset(these + those) == multiset(these) + multiset(those) by {
      assert these !! those;
    }
    assert multiset(points + more) == multiset(points) + multiset(more);
  }

  function ProcessSeries(): set<Series> {
    {ProcessUser, ProcessSystem, GCCount, Goroutine, MemAvailable, MemTotal, HeapAlloc}
  }

  function CPUSeries(name: string): set<Series> {
    {SystemCPU(name, System), SystemCPU(name, User), SystemCPU(name, Total), SystemCPU(name, Usage)}
  }

  function NICSeries(name: string): set<Series> {
    {Network(name, BytesRecv), Network(name, BytesSent)}
  }

  function ProcessPoints(m: Metrics, stored: Metrics, intervals: nat): (points: seq<Point>)
    ensures PointsFor(points, ProcessSeries(), m, stored, intervals)
  {
    [AddFloat(ProcessUser, m.processUser - stored.processUser, intervals),
     AddFloat(ProcessSystem, m.processSystem - stored.processSystem, intervals),
     AddFloat(GCCount, Wrap(m.numGC - stored.numGC) as real, intervals),
     AddFloat(Goroutine, m.numGoroutine as real, intervals),
     AddFloat(MemAvailable, m.memAvailable as real, intervals),
     AddFloat(MemTotal, m.memTotal as real, intervals),
     AddFloat(HeapAlloc, m.heapAlloc as real, intervals)]
  }

  function CPUPoints(name: string, m: Metrics, stored: Metrics, intervals: nat): (points: seq<Point>)
    requires name in m.cpu
    ensures PointsFor(points, CPUSeries(name), m, stored, intervals)
  {
    var c, was := m.cpu[name], CPUOf(stored, name);
    [AddFloat(SystemCPU(name, System), c.system - was.system, intervals),
     AddFloat(SystemCPU(name, User), c.user - was.user, intervals),
     AddFloat(SystemCPU(name, Total), c.total - was.total, intervals),
     AddFloat(SystemCPU(name, Usage), c.usage - was.usage, intervals)]
  }

  function NICPoints(name: string, m: Metrics, stored: Metrics, intervals: nat): (points: seq<Point>)
    requires name in m.nic
    ensures PointsFor(points, NICSeries(name), m, stored, intervals)
  {
    var n, was := m.nic[name], NICOf(stored, name);
    [AddFloat(Network(name, BytesRecv), Wrap(n.bytesReceived - was.bytesReceived) as real, intervals),
     AddFloat(Network(name, BytesSent), Wrap(n.bytesSent - was.bytesSent) as real, intervals)]
  }

  ghost function AllCPUSeries(names: set<string>): (all: set<Series>)
    ensures forall s :: s in all <==> s.SystemCPU? && s.name in names
  {
    var all := set name, part: CPUPart | name in names :: SystemCPU(name, part);
    forall s: Series | s.SystemCPU? && s.name in names ensures s in all {
      assert s == SystemCPU(s.name, s.part);
    }
    all
  }

  ghost function AllNICSeries(names: set<string>): (all: set<Series>)
    ensures forall s :: s in all <==> s.Network? && s.name in names
  {
    var all := set name, direction: Direction | name in names :: Network(name, direction);
    forall s: Series | s.Network? && s.name in names ensures s in all {
      assert s == Network(s.name, s.direction);
    }
    all
  }

  lemma OneMoreCPU(names: set<string>, name: string)
    requires name !in names
    ensures AllCPUSeries(names + {name}) == AllCPUSeries(names) + CPUSeries(name)
    ensures AllCPUSeries(names) !! CPUSeries(name)
  {
    forall s | s in AllCPUSeries(names + {name}) ensures s in AllCPUSeries(names) + CPUSeries(name) {
      assert s.part == System || s.part == User || s.part == Total || s.part == Usage;
      assert s == SystemCPU(s.name, s.part);
    }
  }

  lemma OneMoreNIC(names: set<string>, name: string)
    requires name !in names
    ensures AllNICSeries(names + {name}) == AllNICSeries(names) + NICSeries(name)
    ensures AllNICSeries(names) !! NICSeries(name)
  {
    forall s | s in AllNICSeries(names + {name}) ensures s in AllNICSeries(names) + NICSeries(name) {
      assert s.direction == BytesRecv || s.direction == BytesSent;
      assert s == Network(s.name, s.direction);
    }
  }

  lemma MoreCPUPoints(points: seq<Point>, done: set<string>, name: string, m: Metrics, stored: Metrics, intervals: nat)
    requires name in m.cpu && name !in done && PointsFor(points, AllCPUSeries(done), m, stored, intervals)
    ensures PointsFor(points + CPUPoints(name, m, stored, intervals), AllCPUSeries(done + {name}), m, stored, intervals)
  {
    OneMoreCPU(done, name);
    MorePoints(points, AllCPUSeries(done), CPUPoints(name, m, stored, intervals), CPUSeries(name),
               m, stored, intervals);
  }

  lemma MoreNICPoints(points: seq<Point>, done: set<string>, name: string, m: Metrics, stored: Metrics, intervals: nat)
    requires name in m.nic && name !in done && PointsFor(points, AllNICSeries(done), m, stored, intervals)
    ensures PointsFor(points + NICPoints(name, m, stored, intervals), AllNICSeries(done + {name}), m, stored, intervals)
  {
    OneMoreNIC(done, name);
    MorePoints(points, AllNICSeries(done), NICPoints(name, m, stored, intervals), NICSeries(name),
               m, stored, intervals);
  }

  /** The first loop of `Measure`. Go visits the labels in no particular order. */
  method AllCPUPoints(m: Metrics, stored: Metrics, intervals: nat) returns (points: seq<Point>)
    ensures PointsFor(points, AllCPUSeries(m.cpu.Keys), m, stored, intervals)
  {
    points := [];
    var todo := m.cpu.Keys;
    assert m.cpu.Keys - todo == {} && AllCPUSeries({}) == {};
    while todo != {}
      invariant todo <= m.cpu.Keys
      invariant PointsFor(points, AllCPUSeries(m.cpu.Keys - todo), m, stored, intervals)
      decreases todo
    {
      var name :| name in todo;
      MoreCPUPoints(points, m.cpu.Keys - todo, name, m, stored, intervals);
      assert m.cpu.Keys - (todo - {name}) == m.cpu.Keys - todo + {name};
      points := points + CPUPoints(name, m, stored, intervals);
      todo := todo - {name};
    }
    assert m.cpu.Keys - todo == m.cpu.Keys;
  }

  /** The second loop of `Measure`. */
  method AllNICPoints(m: Metrics, stored: Metrics, intervals: nat) returns (points: seq<Point>)
    ensures PointsFor(points, AllNICSeries(m.nic.Keys), m, stored, intervals)
  {
    points := [];
    var todo := m.nic.Keys;
    assert m.nic.Keys - todo == {} && AllNICSeries({}) == {};
    while todo != {}
      invariant todo <= m.nic.Keys
      invariant PointsFor(points, AllNICSeries(m.nic.Keys - todo), m, stored, intervals)
      decreases todo
    {
      var name :| name in todo;
      MoreNICPoints(points, m.nic.Keys - todo, name, m, stored, intervals);
      assert m.nic.Keys - (todo - {name}) == m.nic.Keys - todo + {name};
      points := points + NICPoints(name, m, stored, intervals);
      todo := todo - {name};
    }
    assert m.nic.Keys - todo == m.nic.Keys;
  }

  /** The series that a reading has values for. */
  ghost function SeriesOf(m: Metrics): (all: set<Series>)
    ensures forall s :: s in all <==> HasSeries(m, s)
  {
    ProcessSeries() + AllCPUSeries(m.cpu.Keys) + AllNICSeries(m.nic.Keys)
  }

  /** All the points of a request: one for each series there is a reading of. */
  ghost predicate IsRequest(points: seq<Point>, m: Metrics, stored: Metrics, intervals: nat) {
    PointsFor(points, SeriesOf(m), m, stored, intervals)
  }

  method Points(m: Metrics, stored: Metrics, intervals: nat) returns (points: seq<Point>)
    ensures IsRequest(points, m, stored, intervals)
  {
    var processPoints := ProcessPoints(m, stored, intervals);
    var cpuPoints := AllCPUPoints(m, stored, intervals);
    var nicPoints := AllNICPoints(m, stored, intervals);
    AllTogether(processPoints, cpuPoints, nicPoints, m, stored, intervals);
    points := processPoints + cpuPoints + nicPoints;
  }

  lemma AllTogether(processPoints: seq<Point>, cpuPoints: seq<Point>, nicPoints: seq<Point>,
                    m: Metrics, stored: Metrics, intervals: nat)
    requires PointsFor(processPoints, ProcessSeries(), m, stored, intervals)
    requires PointsFor(cpuPoints, AllCPUSeries(m.cpu.Keys), m, stored, intervals)
    requires PointsFor(nicPoints, AllNICSeries(m.nic.Keys), m, stored, intervals)
    ensures IsRequest(processPoints + cpuPoints + nicPoints, m, stored, intervals)
  {
    var cpus, nics := AllCPUSeries(m.cpu.Keys), AllNICSeries(m.nic.Keys);
    assert ProcessSeries() !! cpus && ProcessSeries() + cpus !! nics;
    MorePoints(processPoints, ProcessSeries(), cpuPoints, cpus, m, stored, intervals);
    MorePoints(processPoints + cpuPoints, ProcessSeries() + cpus, nicPoints, nics, m, stored, intervals);
  }

  // ---------------------------------------------------------------------------------------------------------------
  // A request, read from the two readings

  /** The growth of a uint64, as Go subtracts. */
  function Growth(now: uint64, was: uint64): real {
    ((now - was) % 0x1_0000_0000_0000_0000) as real
  }

  lemma PointIsThere(points: seq<Point>, m: Metrics, stored: Metrics, intervals: nat, s: Series)
    requires IsRequest(points, m, stored, intervals) && HasSeries(m, s)
    ensures Point(s, Reported(m, stored, s), intervals) in points
  {
    var all := PointSet(SeriesOf(m), m, stored, intervals);
    assert s in SeriesOf(m);
    assert PointOf(s, m, stored, intervals) in all;
    assert PointOf(s, m, stored, intervals) in multiset(all);
    assert PointOf(s, m, stored, intervals) in multiset(points);
  }

  /** The points for the process: growth of its times and of its collections, and the gauges as they are. */
  lemma RequestSaysOfProcess(points: seq<Point>, m: Metrics, stored: Metrics, intervals: nat)
    requires IsRequest(points, m, stored, intervals)
    ensures Point(ProcessUser, m.processUser - stored.processUser, intervals) in points
    ensures Point(ProcessSystem, m.processSystem - stored.processSystem, intervals) in points
    ensures Point(GCCount, Growth(m.numGC, stored.numGC), intervals) in points
    ensures Point(Goroutine, m.numGoroutine as real, intervals) in points
    ensures Point(MemAvailable, m.memAvailable as real, intervals) in points
    ensures Point(MemTotal, m.memTotal as real, intervals) in points
    ensures Point(HeapAlloc, m.heapAlloc as real, intervals) in points
  {
    hide IsRequest;
    PointIsThere(points, m, stored, intervals, ProcessUser);
    PointIsThere(points, m, stored, intervals, ProcessSystem);
    PointIsThere(points, m, stored, intervals, GCCount);
    PointIsThere(points, m, stored, intervals, Goroutine);
    PointIsThere(points, m, stored, intervals, MemAvailable);
    PointIsThere(points, m, stored, intervals, MemTotal);
    PointIsThere(points, m, stored, intervals, HeapAlloc);
  }

  /** The points for one CPU: the growth of each of its four times, from 0 when it was not there before. */
  lemma RequestSaysOfCPU(points: seq<Point>, m: Metrics, stored: Metrics, intervals: nat, name: string)
    requires IsRequest(points, m, stored, intervals) && name in m.cpu
    ensures
      var now := m.cpu[name];
      var was := if name in stored.cpu then stored.cpu[name] else CPU(0.0, 0.0, 0.0, 0.0);
      && Point(SystemCPU(name, System), now.system - was.system, intervals) in points
      && Point(SystemCPU(name, User), now.user - was.user, intervals) in points
      && Point(SystemCPU(name, Total), now.total - was.total, intervals) in points
      && Point(SystemCPU(name, Usage), now.usage - was.usage, intervals) in points
  {
    hide IsRequest;
    PointIsThere(points, m, stored, intervals, SystemCPU(name, System));
    PointIsThere(points, m, stored, intervals, SystemCPU(name, User));
    PointIsThere(points, m, stored, intervals, SystemCPU(name, Total));
    PointIsThere(points, m, stored, intervals, SystemCPU(name, Usage));
  }

  /** The points for one network label: the growth of the bytes received and of those sent. */
  lemma RequestSaysOfNIC(points: seq<Point>, m: Metrics, stored: Metrics, intervals: nat, name: string)
    requires IsRequest(points, m, stored, intervals) && name in m.nic
    ensures
      var now := m.nic[name];
      var was := if name in stored.nic then stored.nic[name] else NIC(0, 0);
      && Point(Network(name, BytesRecv), Growth(now.bytesReceived, was.bytesReceived), intervals) in points
      && Point(Network(name, BytesSent), Growth(now.bytesSent, was.bytesSent), intervals) in points
  {
    hide IsRequest;
    PointIsThere(points, m, stored, intervals, Network(name, BytesRecv));
    PointIsThere(points, m, stored, intervals, Network(name, BytesSent));
  }

  lemma SizesOfOne(name: string)
    ensures |CPUSeries(name)| == 4 && |NICSeries(name)| == 2
  {
  }

  lemma NoNamesNoSeries()
    ensures AllCPUSeries({}) == {} && AllNICSeries({}) == {}
  {
  }

  lemma SizeOfTwo<T>(a: set<T>, b: set<T>)
    requires a !! b
    ensures |a + b| == |a| + |b|
  {
  }

  lemma {:induction false} HowManyCPUSeries(names: set<string>)
    ensures |AllCPUSeries(names)| == 4 * |names|
    decreases names
  {
    hide CPUSeries;
    hide AllCPUSeries;
    if names == {} {
      NoNamesNoSeries();
    } else {
      var name :| name in names;
      var rest := names - {name};
      HowManyCPUSeries(rest);
      OneMoreCPU(rest, name);
      SizesOfOne(name);
      assert rest + {name} == names;
      SizeOfTwo(AllCPUSeries(rest), CPUSeries(name));
    }
  }

  lemma {:induction false} HowManyNICSeries(names: set<string>)
    ensures |AllNICSeries(names)| == 2 * |names|
    decreases names
  {
    hide NICSeries;
    hide AllNICSeries;
    if names == {} {
      NoNamesNoSeries();
    } else {
      var name :| name in names;
      var rest := names - {name};
      HowManyNICSeries(rest);
      OneMoreNIC(rest, name);
      SizesOfOne(name);
      assert rest + {name} == names;
      SizeOfTwo(AllNICSeries(rest), NICSeries(name));
    }
  }

  lemma {:induction false} HowManyPoints(series: set<Series>, m: Metrics, stored: Metrics, intervals: nat)
    ensures |PointSet(series, m, stored, intervals)| == |series|
    decreases series
  {
    if series == {} {
      assert PointSet(series, m, stored, intervals) == {};
    } else {
      var s :| s in series;
      var rest := PointSet(series - {s}, m, stored, intervals);
      HowManyPoints(series - {s}, m, stored, intervals);
      assert PointSet(series, m, stored, intervals) == rest + {PointOf(s, m, stored, intervals)};
      assert PointOf(s, m, stored, intervals) !in rest;
    }
  }

  /** And there are no others: seven for the process, four for each CPU, two for each network label. */
  lemma RequestHasNoOthers(points: seq<Point>, m: Metrics, stored: Metrics, intervals: nat)
    requires IsRequest(points, m, stored, intervals)
    ensures |points| == 7 + 4 * |m.cpu.Keys| + 2 * |m.nic.Keys|
  {
    HowManySeries(m);
    HowManyPoints(SeriesOf(m), m, stored, intervals);
    AsManyPoints(points, PointSet(SeriesOf(m), m, stored, intervals));
  }

  lemma AsManyPoints(points: seq<Point>, all: set<Point>)
    requires multiset(points) == multiset(all)
    ensures |points| == |all|
  {
    assert |multiset(points)| == |points| && |multiset(all)| == |all|;
  }

  lemma HowManySeries(m: Metrics)
    ensures |SeriesOf(m)| == 7 + 4 * |m.cpu.Keys| + 2 * |m.nic.Keys|
  {
    var cpus, nics := AllCPUSeries(m.cpu.Keys), AllNICSeries(m.nic.Keys);
    HowManyCPUSeries(m.cpu.Keys);
    HowManyNICSeries(m.nic.Keys);
    SevenProcessSeries();
    SeriesAreApart(m);
    hide ProcessSeries;
    SizeOfThree(ProcessSeries(), cpus, nics);
  }

  lemma SevenProcessSeries()
    ensures |ProcessSeries()| == 7
  {
  }

  lemma SeriesAreApart(m: Metrics)
    ensures
      var cpus, nics := AllCPUSeries(m.cpu.Keys), AllNICSeries(m.nic.Keys);
      ProcessSeries() !! cpus && ProcessSeries() !! nics && cpus !! nics
  {
  }

  lemma SizeOfThree<T>(a: set<T>, b: set<T>, c: set<T>)
    requires a !! b && a !! c && b !! c
    ensures |a + b + c| == |a| + |b| + |c|
  {
    assert (a + b) !! c;
  }

  // ---------------------------------------------------------------------------------------------------------------
  // One measurement

  /** What `Measure` depends on: up to two readings, the key, and whether the request could be sent. */
  datatype Call = Call(first: Option<Metrics>, second: Option<Metrics>, keyed: bool, sent: bool)

  datatype ReporterState = ReporterState(stored: Metrics, skippedInitialReport: bool)

  /** A change of the kept reading, with the request for it delivered or, when it covers too long, withheld. */
  datatype Report = Report(before: Metrics, after: Metrics, intervals: nat, delivered: bool)

  datatype Measurement = Measurement(state: ReporterState, ok: bool, report: Option<Report>)

  predicate TooLong(intervals: nat, seconds: nat) {
    intervals * seconds > MAX_DURATION_IN_SECONDS
  }

  function Measured(r: ReporterState, call: Call, intervals: nat, seconds: nat): Measurement {
    if call.first == None then
      Measurement(r, false, None)
    else
      var stored := if r.skippedInitialReport then r.stored else call.first.value;
      var m := if r.skippedInitialReport then call.first else call.second;
      if m == None || !call.keyed || (!TooLong(intervals, seconds) && !call.sent) then
        Measurement(ReporterState(stored, true), false, None)
      else
        Measurement(ReporterState(m.value, true), true,
                    Some(Report(stored, m.value, intervals, !TooLong(intervals, seconds))))
  }

  /**
   When a measurement succeeds, what it keeps and what it reports: the growth since the reading kept before, or since
   the first of two readings when there was none yet.
   */
  lemma MeasuredIff(r: ReporterState, call: Call, intervals: nat, seconds: nat)
    ensures
      var m := Measured(r, call, intervals, seconds);
      var before := if !r.skippedInitialReport && call.first.Some? then call.first.value else r.stored;
      && (m.ok <==>
            && call.first.Some? && (r.skippedInitialReport || call.second.Some?) && call.keyed
            && (intervals * seconds > 600 || call.sent))
      && (m.report.Some? <==> m.ok)
      && m.state.skippedInitialReport == (r.skippedInitialReport || call.first.Some?)
      && (!m.ok ==> m.state.stored == before)
      && (m.ok ==>
            var after := if r.skippedInitialReport then call.first.value else call.second.value;
            && m.state.stored == after
            && m.report.value == Report(before, after, intervals, intervals * seconds <= 600))
  {
  }

  class Reporter {
    const timeout: nat
    const measurementDuration: nat
    var stored: Metrics
    var skippedInitialReport: bool
    var start: nat
    var end: nat
    var metricsCount: nat

    constructor (timeout: nat, measurementDuration: nat)
      ensures this.timeout == timeout && this.measurementDuration == measurementDuration
      ensures !skippedInitialReport
    {
      this.timeout := timeout;
      this.measurementDuration := measurementDuration;
      stored := Metrics(0.0, 0.0, 0, 0, 0, 0, 0, map[], map[]);
      skippedInitialReport := false;
      start, end, metricsCount := 0, 0, 0;
    }

    function State(): ReporterState
      reads this
    {
      ReporterState(stored, skippedInitialReport)
    }

    /** The whole seconds of the measurement duration. */
    function Seconds(): nat {
      measurementDuration / NANOS_IN_A_SECOND
    }

    /** The reading to report. The growth up to the very first one is thrown away, and another reading is taken. */
    method Snapshot(first: Option<Metrics>, second: Option<Metrics>) returns (m: Option<Metrics>)
      modifies `stored, `skippedInitialReport
      ensures m == if old(skippedInitialReport) || first == None then first else second
      ensures skippedInitialReport == (old(skippedInitialReport) || first.Some?)
      ensures stored == if old(skippedInitialReport) || first == None then old(stored) else first.value
    {
      m := first;
      if first == None {
        return;
      }
      if !skippedInitialReport {
        skippedInitialReport := true;
        stored := first.value;
        m := second;
      }
    }

    /** Nothing is posted when it covers too long, and that is no error. */
    method Post(points: seq<Point>, intervals: nat, built: bool, replies: nat -> Reply, draws: nat -> Draw)
      returns (ok: bool, posted: Option<seq<Point>>)
      ensures ok == (TooLong(intervals, Seconds()) || (built && SendAll(timeout, replies, draws).result == Sent))
      ensures posted == if ok && !TooLong(intervals, Seconds()) then Some(points) else None
      ensures intervals * (measurementDuration / 1_000_000_000) > 600 ==> ok && posted == None
      ensures posted.Some? ==> built && intervals * (measurementDuration / 1_000_000_000) <= 600
    {
      ok, posted := true, None;
      if intervals * Seconds() <= MAX_DURATION_IN_SECONDS {
        if !built {
          return false, None;
        }
        var result, retries, waited := Send(timeout, replies, draws);
        assert result == SendAll(timeout, replies, draws).result;
        if result != Sent {
          return false, None;
        }
        posted := Some(points);
      }
    }

    /**
     `posted` is the request that was accepted, if any. `built` says that the request could be encoded, `began` and
     `ended` are what the clock shows.
     */
    method Measure(first: Option<Metrics>, second: Option<Metrics>, keyed: bool, built: bool, replies: nat -> Reply,
                   draws: nat -> Draw, intervals: nat, began: nat, ended: nat)
      returns (ok: bool, posted: Option<seq<Point>>)
      modifies this
      ensures
        var call := Call(first, second, keyed, built && SendAll(timeout, replies, draws).result == Sent);
        var was := Measured(old(State()), call, intervals, Seconds());
        && State() == was.state && ok == was.ok
        && (posted.Some? <==> was.report.Some? && was.report.value.delivered)
        && (posted.Some? ==> IsRequest(posted.value, was.report.value.after, was.report.value.before, intervals))
        && (posted.Some? ==> metricsCount == |posted.value|)
      ensures start == began && end == (if ok then ended else old(end))
      ensures !ok ==> metricsCount == old(metricsCount)
    {
      start, posted := began, None;
      var reading := Snapshot(first, second);
      if reading == None {
        return false, None;
      }
      var m := reading.value;
      if !keyed {
        return false, None;
      }
      var points := Points(m, stored, intervals);
      var handled, request := Post(points, intervals, built, replies, draws);
      if !handled {
        return false, None;
      }
      posted := request;
      stored := m;
      metricsCount := |points|;
      end := ended;
      ok := true;
    }
  }

  // ---------------------------------------------------------------------------------------------------------------
  // The loop of the tracer

  datatype Progress = Progress(state: ReporterState, intervals: nat, reports: seq<Report>)

  function Measures(begin: ReporterState, calls: seq<Call>, seconds: nat): Progress
    decreases |calls|
  {
    if calls == [] then
      Progress(begin, 1, [])
    else
      MeasuredOnce(Measures(begin, calls[..|calls| - 1], seconds), calls[|calls| - 1], seconds)
  }

  function MeasuredOnce(p: Progress, call: Call, seconds: nat): Progress {
    var m := Measured(p.state, call, p.intervals, seconds);
    var reports := if m.report.Some? then p.reports + [m.report.value] else p.reports;
    Progress(m.state, if m.ok then 1 else p.intervals + 1, reports)
  }

  /** What one turn of the loop depends on. */
  datatype Turn = Turn(
    first: Option<Metrics>,
    second: Option<Metrics>,
    keyed: bool,
    built: bool,
    replies: nat -> Reply,
    draws: nat -> Draw,
    began: nat,
    ended: nat)

  function CallOf(turn: Turn, timeout: nat): Call {
    Call(turn.first, turn.second, turn.keyed, turn.built && SendAll(timeout, turn.replies, turn.draws).result == Sent)
  }

  function CallsOf(turns: nat -> Turn, timeout: nat, n: nat): seq<Call> {
    seq(n, i requires 0 <= i < n => CallOf(turns(i), timeout))
  }

  /** The reports among these that were delivered. */
  function DeliveredOf(reports: seq<Report>): seq<Report>
    decreases |reports|
  {
    if reports == [] then
      []
    else
      var last := reports[|reports| - 1];
      DeliveredOf(reports[..|reports| - 1]) + if last.delivered then [last] else []
  }

  /** These requests, in this order, are the delivered ones of these reports. */
  ghost predicate RequestsOf(requests: seq<seq<Point>>, reports: seq<Report>) {
    var delivered := DeliveredOf(reports);
    && |requests| == |delivered|
    && forall i :: 0 <= i < |requests| ==>
         IsRequest(requests[i], delivered[i].after, delivered[i].before, delivered[i].intervals)
  }

  lemma OneMoreRequest(requests: seq<seq<Point>>, reports: seq<Report>, posted: Option<seq<Point>>, report: Report)
    requires RequestsOf(requests, reports) && posted.Some? == report.delivered
    requires posted.Some? ==> IsRequest(posted.value, report.after, report.before, report.intervals)
    ensures RequestsOf(if posted.Some? then requests + [posted.value] else requests, reports + [report])
  {
    hide IsRequest;
    assert (reports + [report])[..|reports|] == reports;
  }

  /**
   One measurement at the start and one at each of `ticks` ticks, after which the tracer is found disabled. `requests`
   are those that were accepted.
   */
  method SystemMetricsLoop(reporter: Reporter, turns: nat -> Turn, ticks: nat)
    returns (intervals: nat, requests: seq<seq<Point>>)
    modifies reporter
    ensures
      var p := Measures(old(reporter.State()), CallsOf(turns, reporter.timeout, ticks + 1), reporter.Seconds());
      reporter.State() == p.state && intervals == p.intervals && RequestsOf(requests, p.reports)
  {
    intervals, requests := 1, [];
    for i := 0 to ticks + 1
      invariant
        var p := Measures(old(reporter.State()), CallsOf(turns, reporter.timeout, i), reporter.Seconds());
        reporter.State() == p.state && intervals == p.intervals && RequestsOf(requests, p.reports)
    {
      var turn := turns(i);
      ghost var p := Measures(old(reporter.State()), CallsOf(turns, reporter.timeout, i), reporter.Seconds());
      assert CallsOf(turns, reporter.timeout, i + 1)[..i] == CallsOf(turns, reporter.timeout, i);
      var ok, posted := reporter.Measure(turn.first, turn.second, turn.keyed, turn.built, turn.replies, turn.draws,
                                         intervals, turn.began, turn.ended);
      ghost var m := Measured(p.state, CallOf(turn, reporter.timeout), intervals, reporter.Seconds());
      MoreRequests(requests, p, posted, m, intervals);
      intervals := if ok then 1 else intervals + 1;
      requests := if posted.Some? then requests + [posted.value] else requests;
    }
  }

  /** What one measurement adds to the requests. */
  lemma MoreRequests(requests: seq<seq<Point>>, p: Progress, posted: Option<seq<Point>>, m: Measurement, intervals: nat)
    requires RequestsOf(requests, p.reports)
    requires posted.Some? <==> m.report.Some? && m.report.value.delivered
    requires m.report.Some? ==> m.report.value.intervals == intervals
    requires posted.Some? ==> IsRequest(posted.value, m.report.value.after, m.report.value.before, intervals)
    ensures
      RequestsOf(if posted.Some? then requests + [posted.value] else requests,
                 if m.report.Some? then p.reports + [m.report.value] else p.reports)
  {
    hide IsRequest;
    if m.report.Some? {
      OneMoreRequest(requests, p.reports, posted, m.report.value);
    }
  }
}
