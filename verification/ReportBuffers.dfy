/**
 The report buffer (report_buffer.go): finished spans waiting to be sent, in a slice of fixed capacity, with the
 counters of what was lost on the way.

 `Buffer` is the value of a buffer and the functions on it say what each method does. The class `ReportBuffer` does it
 in place, on a backing array that it never has to replace.
 */
module ReportBuffers {
  import opened Clock

  /** A finished span. `length` stands for what `RawSpan.Len` estimates from its contents. */
  datatype RawSpan = RawSpan(id: nat, sampled: string, length: nat)

  datatype Buffer = Buffer(
    spans: seq<RawSpan>,
    capacity: nat,
    droppedSpanCount: int,
    reportedDroppedSpanCount: int,
    logEncoderErrorCount: int,
    reportedLogEncoderErrorCount: int,
    reportStart: Time,
    reportEnd: Time)

  /** The slice fits its storage and no counter has reported more than it counted. */
  ghost predicate Sound(b: Buffer) {
    && |b.spans| <= b.capacity
    && 0 <= b.reportedDroppedSpanCount <= b.droppedSpanCount
    && 0 <= b.reportedLogEncoderErrorCount <= b.logEncoderErrorCount
  }

  function Empty(capacity: nat): Buffer {
    Buffer([], capacity, 0, 0, 0, 0, ZERO_TIME, ZERO_TIME)
  }

  predicate HalfFull(b: Buffer) {
    |b.spans| > b.capacity / 2
  }

  function WithCurrent(b: Buffer, now: Time): Buffer {
    b.(reportStart := now, reportEnd := now)
  }

  function WithFlushing(b: Buffer, now: Time): Buffer {
    b.(reportEnd := now)
  }

  function Added(b: Buffer, span: RawSpan): Buffer {
    if |b.spans| == b.capacity then
      b.(droppedSpanCount := b.droppedSpanCount + 1)
    else
      b.(spans := b.spans + [span])
  }

  /** How many spans of `from` fit behind those of `into`. */
  function Fitting(into: Buffer, from: Buffer): (n: nat)
    requires |into.spans| <= into.capacity
    ensures n <= |from.spans| && |into.spans| + n <= into.capacity
  {
    var space := into.capacity - |into.spans|;
    if space > |from.spans| then |from.spans| else space
  }

  function Merged(into: Buffer, from: Buffer): Buffer
    requires |into.spans| <= into.capacity
  {
    var space := Fitting(into, from);
    into.(
      spans := into.spans + from.spans[..space],
      droppedSpanCount := into.droppedSpanCount + from.droppedSpanCount + (|from.spans| - space),
      reportedDroppedSpanCount := into.reportedDroppedSpanCount + from.reportedDroppedSpanCount,
      logEncoderErrorCount := into.logEncoderErrorCount + from.logEncoderErrorCount,
      reportedLogEncoderErrorCount := into.reportedLogEncoderErrorCount + from.reportedLogEncoderErrorCount,
      reportStart := if from.reportStart < into.reportStart then from.reportStart else into.reportStart,
      reportEnd := if from.reportEnd > into.reportEnd then from.reportEnd else into.reportEnd)
  }

  /** What the next status event will say was dropped. */
  function Unreported(b: Buffer): int {
    b.droppedSpanCount - b.reportedDroppedSpanCount
  }

  function UnreportedErrors(b: Buffer): int {
    b.logEncoderErrorCount - b.reportedLogEncoderErrorCount
  }

  function Reported(b: Buffer): Buffer {
    b.(reportedDroppedSpanCount := b.droppedSpanCount, reportedLogEncoderErrorCount := b.logEncoderErrorCount)
  }

  // ---------------------------------------------------------------------------------------------------------------
  // What merging keeps

  /** The spans a merge has no room for. */
  ghost function Overflow(into: Buffer, from: Buffer): seq<RawSpan>
    requires |into.spans| <= into.capacity
  {
    from.spans[Fitting(into, from)..]
  }

  /**
   A merge keeps every newer span in place and restores a prefix of the failed ones, as long as the room allows. The
   rest is counted as dropped, so spans kept and drops counted come out as they went in.
   */
  lemma MergeRestoresPrefix(into: Buffer, from: Buffer)
    requires Sound(into) && Sound(from)
    ensures
      var m := Merged(into, from);
      && Sound(m)
      && into.spans <= m.spans
      && m.spans[|into.spans|..] <= from.spans
      && |m.spans| ==
         (if |into.spans| + |from.spans| <= into.capacity then |into.spans| + |from.spans| else into.capacity)
      && multiset(m.spans) + multiset(Overflow(into, from)) == multiset(into.spans) + multiset(from.spans)
      && m.droppedSpanCount == into.droppedSpanCount + from.droppedSpanCount + |Overflow(into, from)|
      && |m.spans| + m.droppedSpanCount ==
         |into.spans| + into.droppedSpanCount + |from.spans| + from.droppedSpanCount
      && Unreported(m) == Unreported(into) + Unreported(from) + |Overflow(into, from)|
      && UnreportedErrors(m) == UnreportedErrors(into) + UnreportedErrors(from)
      && m.logEncoderErrorCount == into.logEncoderErrorCount + from.logEncoderErrorCount
      && m.reportStart <= into.reportStart && m.reportStart <= from.reportStart
      && (m.reportStart == into.reportStart || m.reportStart == from.reportStart)
      && m.reportEnd >= into.reportEnd && m.reportEnd >= from.reportEnd
      && (m.reportEnd == into.reportEnd || m.reportEnd == from.reportEnd)
  {
    assert from.spans == from.spans[..Fitting(into, from)] + Overflow(into, from);
  }

  // ---------------------------------------------------------------------------------------------------------------
  // The buffer in place

  class ReportBuffer {
    // The slice of spans: the first `len` slots of its backing array, whose length is the slice's capacity.
    var rawSpans: array<RawSpan>
    var len: nat
    var droppedSpanCount: int
    var reportedDroppedSpanCount: int
    var logEncoderErrorCount: int
    var reportedLogEncoderErrorCount: int
    var reportStart: Time
    var reportEnd: Time

    ghost predicate Valid()
      reads this
    {
      len <= rawSpans.Length
    }

    ghost function Model(): Buffer
      reads this, rawSpans
      requires Valid()
    {
      Buffer(rawSpans[..len], rawSpans.Length, droppedSpanCount, reportedDroppedSpanCount, logEncoderErrorCount,
             reportedLogEncoderErrorCount, reportStart, reportEnd)
    }

    constructor (size: nat)
      ensures Valid() && fresh(rawSpans) && Model() == Empty(size)
    {
      rawSpans := new RawSpan[size];
      len := 0;
      droppedSpanCount, reportedDroppedSpanCount := 0, 0;
      logEncoderErrorCount, reportedLogEncoderErrorCount := 0, 0;
      reportStart, reportEnd := ZERO_TIME, ZERO_TIME;
    }

    method IsHalfFull() returns (r: bool)
      requires Valid()
      ensures r == HalfFull(Model())
      ensures r <==> 2 * len > rawSpans.Length
    {
      r := len > rawSpans.Length / 2;
    }

    method SetCurrent(now: Time)
      requires Valid()
      modifies this`reportStart, this`reportEnd
      ensures Valid() && Model() == WithCurrent(old(Model()), now)
    {
      reportStart := now;
      reportEnd := now;
    }

    method SetFlushing(now: Time)
      requires Valid()
      modifies this`reportEnd
      ensures Valid() && Model() == WithFlushing(old(Model()), now)
    {
      reportEnd := now;
    }

    method Clear()
      requires Valid()
      modifies this
      ensures Valid() && rawSpans == old(rawSpans) && Model() == Empty(old(Model()).capacity)
      ensures len == 0 && droppedSpanCount == reportedDroppedSpanCount == 0
      ensures logEncoderErrorCount == reportedLogEncoderErrorCount == 0 && reportStart == reportEnd == ZERO_TIME
    {
      len := 0;
      reportStart := ZERO_TIME;
      reportEnd := ZERO_TIME;
      droppedSpanCount := 0;
      reportedDroppedSpanCount := 0;
      logEncoderErrorCount := 0;
      reportedLogEncoderErrorCount := 0;
    }

    /** Go's `append`: in place while there is room, into a bigger array otherwise. */
    method Append(spans: seq<RawSpan>)
      requires Valid()
      modifies this`rawSpans, this`len, rawSpans
      ensures Valid() && rawSpans[..len] == old(rawSpans[..len]) + spans
      ensures old(len) + |spans| <= old(rawSpans.Length) ==> rawSpans == old(rawSpans)
      ensures old(len) + |spans| > old(rawSpans.Length) ==> fresh(rawSpans)
    {
      if len + |spans| > rawSpans.Length {
        var bigger := new RawSpan[2 * (len + |spans|)];
        forall i | 0 <= i < len {
          bigger[i] := rawSpans[i];
        }
        assert bigger[..len] == rawSpans[..len];
        rawSpans := bigger;
      }
      ghost var kept := rawSpans[..len];
      forall i | 0 <= i < |spans| {
        rawSpans[len + i] := spans[i];
      }
      len := len + |spans|;
      assert rawSpans[..len] == kept + spans;
    }

    method AddSpan(span: RawSpan)
      requires Valid()
      modifies this`rawSpans, this`len, this`droppedSpanCount, rawSpans
      ensures Valid() && rawSpans == old(rawSpans) && Model() == Added(old(Model()), span)
    {
      if len == rawSpans.Length {
        droppedSpanCount := droppedSpanCount + 1;
        return;
      }
      Append([span]);
    }

    /** The counters and times of a merge, before the spans are looked at. */
    method MergeMetadata(from: ReportBuffer)
      requires Valid() && from.Valid() && from != this
      modifies this`droppedSpanCount, this`reportedDroppedSpanCount
      modifies this`logEncoderErrorCount, this`reportedLogEncoderErrorCount
      modifies this`reportStart, this`reportEnd
      ensures Valid()
      ensures
        var into, from := old(Model()), old(from.Model());
        Model() == Merged(into, from).(
          spans := into.spans,
          droppedSpanCount := into.droppedSpanCount + from.droppedSpanCount)
    {
      droppedSpanCount := droppedSpanCount + from.droppedSpanCount;
      reportedDroppedSpanCount := reportedDroppedSpanCount + from.reportedDroppedSpanCount;
      logEncoderErrorCount := logEncoderErrorCount + from.logEncoderErrorCount;
      reportedLogEncoderErrorCount := reportedLogEncoderErrorCount + from.reportedLogEncoderErrorCount;

      if from.reportStart < reportStart {
        reportStart := from.reportStart;
      }
      if from.reportEnd > reportEnd {
        reportEnd := from.reportEnd;
      }
    }

    method MergeFrom(from: ReportBuffer)
      requires Valid() && from.Valid() && from != this && from.rawSpans != rawSpans
      modifies this, rawSpans, from
      ensures Valid() && from.Valid() && rawSpans == old(rawSpans) && from.rawSpans == old(from.rawSpans)
      ensures Model() == Merged(old(Model()), old(from.Model()))
      ensures from.Model() == Empty(old(from.Model()).capacity)
    {
      MergeMetadata(from);
      var have := len;
      var space := rawSpans.Length - have;
      var unreported := from.len;
      if space > unreported {
        space := unreported;
      }
      assert from.rawSpans[..space] == old(from.Model()).spans[..space];
      Append(from.rawSpans[..space]);
      if unreported > space {
        droppedSpanCount := droppedSpanCount + (unreported - space);
      }
      from.Clear();
    }

    method ReportDroppedSpanCount() returns (toReport: int)
      requires Valid()
      modifies this`reportedDroppedSpanCount
      ensures toReport == Unreported(old(Model()))
      ensures Valid() && Model() == old(Model()).(reportedDroppedSpanCount := old(Model()).droppedSpanCount)
    {
      toReport, reportedDroppedSpanCount := droppedSpanCount - reportedDroppedSpanCount, droppedSpanCount;
    }

    method ReportLogEncoderErrorCount() returns (toReport: int)
      requires Valid()
      modifies this`reportedLogEncoderErrorCount
      ensures toReport == UnreportedErrors(old(Model()))
      ensures Valid() && Model() == old(Model()).(reportedLogEncoderErrorCount := old(Model()).logEncoderErrorCount)
    {
      toReport, reportedLogEncoderErrorCount :=
        logEncoderErrorCount - reportedLogEncoderErrorCount, logEncoderErrorCount;
    }

    /** Both counters of a status event. */
    method ReportCounts() returns (dropped: int, errors: int)
      requires Valid()
      modifies this`reportedDroppedSpanCount, this`reportedLogEncoderErrorCount
      ensures dropped == Unreported(old(Model())) && errors == UnreportedErrors(old(Model()))
      ensures Valid() && Model() == Reported(old(Model()))
    {
      dropped := ReportDroppedSpanCount();
      errors := ReportLogEncoderErrorCount();
    }
  }
}
