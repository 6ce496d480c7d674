/**
 The life of a span (span.go): its capped log buffer, which keeps the oldest logs and treats the rest as a
 circular buffer, and `FinishWithOptions`, which straightens that buffer out and hands the span over once.

 `SpanState` and the functions on it say what each method does to the fields. The class `Span` does it in place.
 The theorems about whole histories of a span are in `SpanHistories`.
 */
module SpanLogs {
  import opened Clock
  import opened Wrappers

  datatype Field = Str(key: string, text: string) | Int(key: string, number: int)

  datatype LogRecord = LogRecord(timestamp: Time, fields: seq<Field>)

  /** What replaces the oldest of the recent logs when logs were dropped. */
  function DropMarker(timestamp: Time, count: int): LogRecord {
    LogRecord(timestamp, [
      Str("event", "dropped Span logs"),
      Int("dropped_log_count", count),
      Str("component", "basictracer")
    ])
  }

  lemma MarkerHolds(timestamp: Time, count: int)
    ensures DropMarker(timestamp, count).timestamp == timestamp
    ensures
      DropMarker(timestamp, count).fields ==
      [Str("event", "dropped Span logs"), Int("dropped_log_count", count), Str("component", "basictracer")]
  {
  }

  /** The tracer options a span reads. `maxLogs == 0` means no limit. */
  datatype Options = Options(maxLogs: nat, dropSpanLogs: bool)

  /** How many of the oldest logs a buffer of `n` slots never overwrites. */
  function NumOld(n: nat): (r: nat)
    ensures n > 0 ==> r < n
  {
    if n == 0 then 0 else (n - 1) / 2
  }

  function NumNew(n: nat): (r: nat)
    ensures n > 0 ==> r > 0 && NumOld(n) + r == n
  {
    n - NumOld(n)
  }

  datatype SpanState = SpanState(
    finished: bool,
    operation: string,
    tags: map<string, string>,
    baggage: map<string, string>,
    logs: seq<LogRecord>,
    numDroppedLogs: nat)

  const FRESH_SPAN := SpanState(false, "", map[], map[], [], 0)

  /** The buffer never outgrows the limit, and logs are only dropped once it is full. */
  predicate LogsInBounds(opts: Options, s: SpanState) {
    opts.maxLogs > 0 ==> |s.logs| <= opts.maxLogs && (s.numDroppedLogs > 0 ==> |s.logs| == opts.maxLogs)
  }

  predicate NoDropsWithoutLimit(opts: Options, s: SpanState) {
    opts.maxLogs == 0 ==> s.numDroppedLogs == 0
  }

  ghost predicate ValidState(opts: Options, s: SpanState) {
    LogsInBounds(opts, s) && NoDropsWithoutLimit(opts, s)
  }

  function Append(opts: Options, s: SpanState, lr: LogRecord): (r: SpanState)
    requires ValidState(opts, s)
    ensures ValidState(opts, r)
  {
    if opts.maxLogs == 0 || |s.logs| < opts.maxLogs then
      s.(logs := s.logs + [lr])
    else
      var slot := NumOld(opts.maxLogs) + s.numDroppedLogs % NumNew(opts.maxLogs);
      s.(logs := s.logs[slot := lr], numDroppedLogs := s.numDroppedLogs + 1)
  }

  function AppendAll(opts: Options, s: SpanState, lrs: seq<LogRecord>): (r: SpanState)
    requires ValidState(opts, s)
    ensures ValidState(opts, r)
    decreases |lrs|
  {
    if lrs == [] then s else Append(opts, AppendAll(opts, s, lrs[..|lrs| - 1]), lrs[|lrs| - 1])
  }

  /** `pos` circular left shifts. */
  function Rotated<T>(s: seq<T>, pos: nat): seq<T>
    requires pos <= |s|
  {
    s[pos..] + s[..pos]
  }

  /** The part of `s` from `lo` to `hi` rotated, the rest left alone. */
  function WindowRotated<T>(s: seq<T>, lo: nat, hi: nat, pos: nat): seq<T>
    requires lo <= hi <= |s| && pos <= hi - lo
  {
    s[..lo] + Rotated(s[lo..hi], pos) + s[hi..]
  }

  /** The log buffer put back in order. */
  function Turned(s: SpanState): (r: seq<LogRecord>)
    requires |s.logs| > 0
    ensures |r| == |s.logs|
  {
    WindowRotated(s.logs, NumOld(|s.logs|), |s.logs|, s.numDroppedLogs % NumNew(|s.logs|))
  }

  /** The log buffer put back in order, with the drop marker in its middle. */
  function Straightened(s: SpanState): seq<LogRecord>
    requires s.numDroppedLogs > 0 ==> |s.logs| > 0
  {
    if s.numDroppedLogs == 0 then
      s.logs
    else
      var turned := Turned(s);
      var numOld := NumOld(|s.logs|);
      turned[numOld := DropMarker(turned[numOld].timestamp, s.numDroppedLogs + 1)]
  }

  /** `FinishWithOptions`: the state it leaves, and the logs of the span it records, if it records one. */
  function Finish(opts: Options, s: SpanState, extra: seq<LogRecord>): (r: (SpanState, Option<seq<LogRecord>>))
    requires ValidState(opts, s)
    ensures ValidState(opts, r.0)
  {
    if s.finished then
      (s, None)
    else
      var full := AppendAll(opts, s.(finished := true), extra);
      var logs := Straightened(full);
      (full.(logs := logs), Some(logs))
  }

  // ---------------------------------------------------------------------------------------------------------------
  // The three-index rotation

  /** The order the rotation is heading for, when everything before `first` is in place already. */
  ghost function Heading<T>(buf: seq<T>, first: nat, middle: nat, next: nat, hi: nat): seq<T>
    requires first <= middle <= next <= hi <= |buf|
  {
    buf[..first] + buf[next..hi] + buf[middle..next] + buf[first..middle] + buf[hi..]
  }

  function SwappedAt<T>(buf: seq<T>, i: nat, j: nat): (r: seq<T>)
    requires i < |buf| && j < |buf|
    ensures |r| == |buf|
  {
    buf[i := buf[j]][j := buf[i]]
  }

  /** A swap puts one more record in place, and keeps where the rotation is heading. */
  lemma SwapKeepsHeading<T>(buf: seq<T>, first: nat, middle: nat, next: nat, hi: nat)
    requires first < middle <= next < hi <= |buf|
    ensures
      Heading(SwappedAt(buf, first, next), first + 1, middle, next + 1, hi) == Heading(buf, first, middle, next, hi)
  {
    var after := SwappedAt(buf, first, next);
    assert buf[next..hi] == [buf[next]] + buf[next + 1..hi];
    assert buf[first..middle] == [buf[first]] + buf[first + 1..middle];
    assert after[..first + 1] == buf[..first] + [buf[next]];
    assert after[next + 1..hi] == buf[next + 1..hi];
    assert after[middle..next + 1] == buf[middle..next] + [buf[first]];
    assert after[first + 1..middle] == buf[first + 1..middle];
    assert after[hi..] == buf[hi..];
  }

  /** Both ways of moving `middle` or `next` between swaps keep it too. */
  lemma MovesKeepHeading<T>(buf: seq<T>, first: nat, middle: nat, next: nat, hi: nat)
    requires first <= middle <= next <= hi <= |buf|
    ensures next == hi ==> Heading(buf, first, middle, middle, hi) == Heading(buf, first, middle, next, hi)
    ensures first == middle ==> Heading(buf, first, next, next, hi) == Heading(buf, first, middle, next, hi)
  {
    if next == hi {
      assert buf[next..hi] == [] && buf[middle..middle] == [];
    }
    if first == middle {
      assert buf[first..middle] == [] && buf[next..next] == [];
      assert buf[middle..next] == buf[first..next];
    }
  }

  /** Where `middle` and `next` go after a swap. */
  function Moved(first: nat, middle: nat, next: nat, hi: nat): (r: (nat, nat))
    requires first <= middle < next <= hi
    ensures first <= r.0 <= r.1 < hi && (first == r.0 ==> r.1 == r.0)
  {
    if next == hi then (middle, middle) else if first == middle then (next, next) else (middle, next)
  }

  lemma StepKeepsHeading<T>(buf: seq<T>, first: nat, middle: nat, next: nat, hi: nat)
    requires first < middle <= next < hi <= |buf|
    ensures
      var (middle', next') := Moved(first + 1, middle, next + 1, hi);
      Heading(SwappedAt(buf, first, next), first + 1, middle', next', hi) == Heading(buf, first, middle, next, hi)
  {
    hide Heading;
    hide SwappedAt;
    SwapKeepsHeading(buf, first, middle, next, hi);
    MovesKeepHeading(SwappedAt(buf, first, next), first + 1, middle, next + 1, hi);
  }

  lemma HeadingStart<T>(buf: seq<T>, lo: nat, hi: nat, pos: nat)
    requires lo <= lo + pos <= hi <= |buf|
    ensures Heading(buf, lo, lo + pos, lo + pos, hi) == WindowRotated(buf, lo, hi, pos)
  {
    assert buf[lo..hi][pos..] == buf[lo + pos..hi];
    assert buf[lo..hi][..pos] == buf[lo..lo + pos];
    assert buf[lo + pos..lo + pos] == [];
  }

  lemma HeadingDone<T>(buf: seq<T>, at: nat, hi: nat)
    requires at <= hi <= |buf|
    ensures Heading(buf, at, at, at, hi) == buf
  {
    assert buf[at..at] == [];
    assert buf == buf[..at] + buf[at..hi] + buf[hi..];
  }

  /** Moved by swaps only: the rotated buffer holds the same records. */
  lemma RotationPermutes<T>(s: seq<T>, lo: nat, hi: nat, pos: nat)
    requires lo <= hi <= |s| && pos <= hi - lo
    ensures multiset(WindowRotated(s, lo, hi, pos)) == multiset(s)
  {
    var win := s[lo..hi];
    assert multiset(win) == multiset(win[..pos]) + multiset(win[pos..]) by {
      assert win == win[..pos] + win[pos..];
    }
    assert multiset(s) == multiset(s[..lo]) + multiset(win) + multiset(s[hi..]) by {
      assert s == s[..lo] + win + s[hi..];
    }
  }

  method SwapSlots(buf: array<LogRecord>, i: nat, j: nat)
    requires i < buf.Length && j < buf.Length
    modifies buf
    ensures buf[..] == SwappedAt(old(buf[..]), i, j)
  {
    buf[i], buf[j] := buf[j], buf[i];
  }

  /** Rotates the window of `buf` that starts at `lo` and ends at `hi`, in place and by swaps only. */
  method RotateLogBuffer(buf: array<LogRecord>, lo: nat, hi: nat, pos: nat)
    requires lo < hi <= buf.Length
    requires pos < hi - lo
    modifies buf
    ensures buf[..] == WindowRotated(old(buf[..]), lo, hi, pos)
  {
    hide Heading;
    var first, middle, next := lo, lo + pos, lo + pos;
    ghost var target := WindowRotated(buf[..], lo, hi, pos);
    HeadingStart(buf[..], lo, hi, pos);
    while first != middle
      invariant first <= middle <= next < hi
      invariant first == middle ==> next == middle
      invariant Heading(buf[..], first, middle, next, hi) == target
      decreases hi - first
    {
      StepKeepsHeading(buf[..], first, middle, next, hi);
      SwapSlots(buf, first, next);
      first := first + 1;
      next := next + 1;
      if next == hi {
        next := middle;
      } else if first == middle {
        middle := next;
      }
    }
    HeadingDone(buf[..], first, hi);
  }

  // ---------------------------------------------------------------------------------------------------------------
  // The span itself

  class Span {
    const opts: Options
    var finished: bool
    var operation: string
    var tags: map<string, string>
    var baggage: map<string, string>
    // The slice of logs: the first `size` slots of a backing array, which `append` replaces when it is full.
    var store: array<LogRecord>
    var size: nat
    var numDroppedLogs: nat

    ghost predicate Valid()
      reads this, store
    {
      size <= store.Length && ValidState(opts, Model())
    }

    ghost function Model(): SpanState
      reads this, store
      requires size <= store.Length
    {
      SpanState(finished, operation, tags, baggage, store[..size], numDroppedLogs)
    }

    constructor (opts: Options)
      ensures Valid() && fresh(store)
      ensures this.opts == opts && Model() == FRESH_SPAN
    {
      this.opts := opts;
      finished, operation, tags, baggage := false, "", map[], map[];
      store := new LogRecord[0];
      size, numDroppedLogs := 0, 0;
    }

    method SetOperationName(name: string)
      requires Valid()
      modifies this`operation
      ensures Valid() && Model() == Apply(opts, old(Model()), SetOperationNameOp(name)).0
      ensures operation == if finished then old(operation) else name
    {
      if finished {
        return;
      }
      operation := name;
    }

    method SetTag(key: string, value: string)
      requires Valid()
      modifies this`tags
      ensures Valid() && Model() == Apply(opts, old(Model()), SetTagOp(key, value)).0
      ensures tags == if finished then old(tags) else old(tags)[key := value]
    {
      if finished {
        return;
      }
      tags := tags[key := value];
    }

    method SetBaggageItem(key: string, value: string)
      requires Valid()
      modifies this`baggage
      ensures Valid() && Model() == Apply(opts, old(Model()), SetBaggageItemOp(key, value)).0
      ensures baggage == if finished then old(baggage) else old(baggage)[key := value]
    {
      if finished {
        return;
      }
      baggage := baggage[key := value];
    }

    /** Go's `append` of one record: in place while there is room, into a bigger array otherwise. */
    method Push(lr: LogRecord)
      requires size <= store.Length
      modifies this`store, this`size, store
      ensures size <= store.Length && store[..size] == old(store[..size]) + [lr]
      ensures store == old(store) || fresh(store)
    {
      if size == store.Length {
        var bigger := new LogRecord[2 * size + 1];
        forall i | 0 <= i < size {
          bigger[i] := store[i];
        }
        assert bigger[..size] == store[..size];
        store := bigger;
      }
      store[size] := lr;
      size := size + 1;
      assert store[..size] == store[..size - 1] + [lr];
    }

    method AppendLog(lr: LogRecord)
      requires Valid()
      modifies this`store, this`size, this`numDroppedLogs, store
      ensures Valid() && Model() == Append(opts, old(Model()), lr)
      ensures store == old(store) || fresh(store)
    {
      if opts.maxLogs == 0 || size < opts.maxLogs {
        Push(lr);
        return;
      }
      var numOld := (opts.maxLogs - 1) / 2;
      var numNew := opts.maxLogs - numOld;
      store[numOld + numDroppedLogs % numNew] := lr;
      numDroppedLogs := numDroppedLogs + 1;
    }

    method LogFields(fields: seq<Field>, now: Time)
      requires Valid()
      modifies this`store, this`size, this`numDroppedLogs, store
      ensures Valid() && Model() == Apply(opts, old(Model()), LogFieldsOp(fields, now)).0
      ensures store == old(store) || fresh(store)
    {
      if finished || opts.dropSpanLogs {
        return;
      }
      AppendLog(LogRecord(now, fields));
    }

    method Log(lr: LogRecord, now: Time)
      requires Valid()
      modifies this`store, this`size, this`numDroppedLogs, store
      ensures Valid() && Model() == Apply(opts, old(Model()), LogOp(lr, now)).0
      ensures store == old(store) || fresh(store)
    {
      if finished || opts.dropSpanLogs {
        return;
      }
      var stamped := lr;
      if stamped.timestamp == ZERO_TIME {
        stamped := stamped.(timestamp := now);
      }
      AppendLog(stamped);
    }

    method AppendEach(lrs: seq<LogRecord>)
      requires Valid()
      modifies this`store, this`size, this`numDroppedLogs, store
      ensures Valid() && Model() == AppendAll(opts, old(Model()), lrs)
      ensures store == old(store) || fresh(store)
    {
      for i := 0 to |lrs|
        invariant Valid() && (store == old(store) || fresh(store))
        invariant Model() == AppendAll(opts, old(Model()), lrs[..i])
      {
        assert lrs[..i + 1][..i] == lrs[..i];
        AppendLog(lrs[i]);
      }
      assert lrs[..|lrs|] == lrs;
    }

    /** De-circularizes the log buffer in place. */
    method Turn()
      requires Valid() && size > 0
      modifies store
      ensures store[..size] == Turned(old(Model()))
    {
      hide WindowRotated;
      var numOld := (size - 1) / 2;
      var numNew := size - numOld;
      WindowOfPrefix(store[..], numOld, size, numDroppedLogs % numNew);
      assert store[..][..size] == store[..size];
      RotateLogBuffer(store, numOld, size, numDroppedLogs % numNew);
      assert store[..][..size] == store[..size];
    }

    /** De-circularizes the log buffer, and writes the drop marker into its middle. */
    method Straighten()
      requires Valid()
      modifies store
      ensures Valid() && Model() == old(Model()).(logs := Straightened(old(Model())))
      ensures numDroppedLogs > 0 ==>
        store[(size - 1) / 2].fields ==
        [Str("event", "dropped Span logs"), Int("dropped_log_count", numDroppedLogs + 1),
         Str("component", "basictracer")]
    {
      hide DropMarker;
      hide Turned;
      if numDroppedLogs > 0 {
        Turn();
        var numOld := (size - 1) / 2;
        var numDropped := numDroppedLogs + 1;
        MarkerHolds(store[numOld].timestamp, numDropped);
        store[numOld] := DropMarker(store[numOld].timestamp, numDropped);
      }
    }

    /** Finishes the span once. `recorded` is what it passes to the tracer's `RecordSpan`. */
    method FinishWithOptions(logRecords: seq<LogRecord>, bulkLogData: seq<LogRecord>)
      returns (recorded: Option<seq<LogRecord>>)
      requires Valid()
      modifies this`finished, this`store, this`size, this`numDroppedLogs, store
      ensures Valid()
      ensures (Model(), recorded) == Finish(opts, old(Model()), logRecords + bulkLogData)
    {
      if finished {
        return None;
      }
      finished := true;
      AppendAllConcat(opts, Model(), logRecords, bulkLogData);
      AppendEach(logRecords);
      AppendEach(bulkLogData);
      Straighten();
      recorded := Some(store[..size]);
    }
  }

  // ---------------------------------------------------------------------------------------------------------------
  // What each call does to the state

  datatype Op =
    | SetOperationNameOp(name: string)
    | SetTagOp(key: string, value: string)
    | SetBaggageItemOp(key: string, value: string)
    | LogFieldsOp(fields: seq<Field>, now: Time)
    | LogOp(record: LogRecord, now: Time)
    | FinishOp(extra: seq<LogRecord>)

  function Apply(opts: Options, s: SpanState, op: Op): (r: (SpanState, Option<seq<LogRecord>>))
    requires ValidState(opts, s)
    ensures ValidState(opts, r.0)
  {
    match op
    case FinishOp(extra) => Finish(opts, s, extra)
    case SetOperationNameOp(name) => (if s.finished then s else s.(operation := name), None)
    case SetTagOp(key, value) => (if s.finished then s else s.(tags := s.tags[key := value]), None)
    case SetBaggageItemOp(key, value) => (if s.finished then s else s.(baggage := s.baggage[key := value]), None)
    case LogFieldsOp(fields, now) =>
      (if s.finished || opts.dropSpanLogs then s else Append(opts, s, LogRecord(now, fields)), None)
    case LogOp(record, now) =>
      (if s.finished || opts.dropSpanLogs then s else Append(opts, s, Stamped(record, now)), None)
  }

  function Stamped(record: LogRecord, now: Time): LogRecord {
    if record.timestamp == ZERO_TIME then record.(timestamp := now) else record
  }

  lemma {:induction false} AppendAllConcat(opts: Options, s: SpanState, a: seq<LogRecord>, b: seq<LogRecord>)
    requires ValidState(opts, s)
    ensures AppendAll(opts, s, a + b) == AppendAll(opts, AppendAll(opts, s, a), b)
    decreases |b|
  {
    if b == [] {
      assert a + b == a;
    } else {
      assert (a + b)[..|a + b| - 1] == a + b[..|b| - 1];
      AppendAllConcat(opts, s, a, b[..|b| - 1]);
    }
  }

  /** Rotating a window that ends at `hi` of a longer buffer is rotating the tail of its first `hi` records. */
  lemma WindowOfPrefix<T>(s: seq<T>, lo: nat, hi: nat, pos: nat)
    requires lo <= hi <= |s| && pos <= hi - lo
    ensures WindowRotated(s, lo, hi, pos)[..hi] == WindowRotated(s[..hi], lo, hi, pos)
  {
    assert s[..hi][lo..hi] == s[lo..hi];
    assert s[..hi][hi..] == [] && s[..hi][..lo] == s[..lo];
  }
}
