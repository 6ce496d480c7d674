/**
 The tracer's state and the regions it guards with its lock (tracer.go), each as one atomic step.

 `Core` is the value of that state and the functions on it say what each region does. The class `TracerImpl` does it
 on the two report buffers, which it swaps and merges without ever replacing their storage.
 */
module TracerCore {
  import opened Clock
  import opened ReportBuffers
  import opened ReportSplit
  import opened Wrappers

  datatype Connection = Connection(id: nat)

  datatype Core = Core(
    buffer: Buffer,
    flushing: Buffer,
    reportInFlight: bool,
    disabled: bool,
    connection: Option<Connection>,
    lastReportAttempt: Time)

  datatype FlushError = TracerDisabled | TracerClosed | TranslateFailed | TransportFailed | ReportFailed

  datatype StatusReport = StatusReport(
    startTime: Time,
    finishTime: Time,
    sentSpans: nat,
    droppedSpans: int,
    encodingErrors: int)

  /** The options the tracer reads. Times are in the clock's unit. */
  datatype TracerOptions = TracerOptions(
    maxBufferedSpans: nat,
    minReportingPeriod: Time,
    reportingPeriod: Time,
    maxMessageBytes: nat)

  function NewCore(opts: TracerOptions, now: Time, connection: Connection): Core {
    Core(WithCurrent(Empty(opts.maxBufferedSpans), now), Empty(opts.maxBufferedSpans), false, false,
         Some(connection), ZERO_TIME)
  }

  predicate Records(c: Core, span: RawSpan) {
    !c.disabled && span.sampled != "false"
  }

  function SpanRecorded(c: Core, span: RawSpan): Core {
    if Records(c, span) then c.(buffer := Added(c.buffer, span)) else c
  }

  function PreFlushError(c: Core): Option<FlushError> {
    if c.disabled then Some(TracerDisabled)
    else if c.connection == None then Some(TracerClosed)
    else None
  }

  function Swapped(c: Core, now: Time): Core {
    if PreFlushError(c).Some? then
      c
    else
      c.(
        buffer := WithCurrent(c.flushing, now),
        flushing := WithFlushing(c.buffer, now),
        reportInFlight := true,
        lastReportAttempt := now)
  }

  /** Converting the flushing buffer to a report, which may run into log fields that do not encode. */
  function Encoded(c: Core, errors: nat): Core {
    c.(flushing := c.flushing.(logEncoderErrorCount := c.flushing.logEncoderErrorCount + errors))
  }

  function Landed(c: Core, error: Option<FlushError>): (r: (Core, StatusReport))
    requires |c.buffer.spans| <= c.buffer.capacity
  {
    var c := c.(reportInFlight := false);
    var done := c.(flushing := Empty(c.flushing.capacity));
    match error
    case None =>
      (done,
       StatusReport(c.flushing.reportStart, c.flushing.reportEnd, |c.flushing.spans|, Unreported(c.flushing),
                    UnreportedErrors(c.flushing)))
    case Some(e) =>
      var buffer := if e == TranslateFailed then c.buffer else Merged(c.buffer, c.flushing);
      (done.(buffer := Reported(buffer)),
       StatusReport(c.flushing.reportStart, c.flushing.reportEnd, 0, Unreported(buffer), UnreportedErrors(buffer)))
  }

  function AfterDisable(c: Core): Core {
    if c.disabled then c else c.(disabled := true, buffer := Empty(c.buffer.capacity))
  }

  function ShouldFlush(c: Core, opts: TracerOptions, now: Time): bool {
    now + opts.minReportingPeriod - c.lastReportAttempt > opts.reportingPeriod || HalfFull(c.buffer)
  }

  // ---------------------------------------------------------------------------------------------------------------
  // One flush from beginning to end, when nothing else touches the tracer meanwhile

  /** Which client carries the reports: the HTTP client encodes them in `Translate`, the others send proto requests. */
  datatype Transport = Http | Proto

  /** What comes back for one part: a transport error, or a response that may hold errors and a disable command. */
  datatype Reply = TransportError | Response(hasErrors: bool, disable: bool)

  function ReplyError(reply: Reply): Option<FlushError> {
    match reply
    case TransportError => Some(TransportFailed)
    case Response(hasErrors, _) => if hasErrors then Some(ReportFailed) else None
  }

  function Replied(c: Core, reply: Reply): Core {
    if reply.Response? && reply.disable then AfterDisable(c) else c
  }

  /** Everything a flush gets from outside: times, random draws, encoder errors and the collector's replies. */
  datatype Surroundings = Surroundings(
    now: Time,
    draws: (nat, nat),
    encoderErrors: nat,
    translates: bool,
    replies: nat -> Reply)

  /** What each part of a flush of `spans` carries when it is sent. */
  ghost function PartsSent(transport: Transport, opts: TracerOptions, spans: seq<RawSpan>, draws: (nat, nat))
    : (r: seq<seq<RawSpan>>)
    requires opts.maxMessageBytes > 0
    ensures |r| > 0
  {
    if transport == Http then [spans] else AsSent(spans, PartCount(opts, spans, draws))
  }

  ghost function PartCount(opts: TracerOptions, spans: seq<RawSpan>, draws: (nat, nat)): nat
    requires opts.maxMessageBytes > 0
  {
    if spans == [] then 1 else PartsFor(SampledSize(spans, draws) * |spans|, opts.maxMessageBytes)
  }

  /** Sends `count` parts, starting at `next`, until one fails: the state after that, and the failure. */
  ghost function SendParts(c: Core, replies: nat -> Reply, next: nat, count: nat): (Core, Option<FlushError>)
    requires next <= count
    decreases count - next
  {
    if next == count then
      (c, None)
    else
      var after := Replied(c, replies(next));
      if ReplyError(replies(next)).Some? then
        (after, ReplyError(replies(next)))
      else
        SendParts(after, replies, next + 1, count)
  }

  /** How many of the `count` parts are sent before the flush stops. */
  ghost function PartsTried(replies: nat -> Reply, next: nat, count: nat): (n: nat)
    requires next <= count
    ensures n <= count - next
    decreases count - next
  {
    if next == count then 0
    else if ReplyError(replies(next)).Some? then 1
    else 1 + PartsTried(replies, next + 1, count)
  }

  lemma {:induction false} SendPartsKeepsBuffersSmall(c: Core, replies: nat -> Reply, next: nat, count: nat)
    requires next <= count && |c.buffer.spans| <= c.buffer.capacity
    ensures
      var after := SendParts(c, replies, next, count).0;
      |after.buffer.spans| <= after.buffer.capacity && after.flushing == c.flushing
    decreases count - next
  {
    if next < count && ReplyError(replies(next)) == None {
      SendPartsKeepsBuffersSmall(Replied(c, replies(next)), replies, next + 1, count);
    }
  }

  /** Answered without an error by the transport or in the response. */
  predicate AnsweredWell(reply: Reply) {
    reply.Response? && !reply.hasErrors
  }

  /** The parts are all sent if and only if all are answered well; otherwise the first that is not says why. */
  lemma {:induction false} SendPartsOutcome(c: Core, replies: nat -> Reply, next: nat, count: nat)
    requires next <= count
    ensures
      var error := SendParts(c, replies, next, count).1;
      && (error == None <==> forall i: nat :: next <= i < count ==> AnsweredWell(replies(i)))
      && (error.Some? ==>
            var bad := next + PartsTried(replies, next, count) - 1;
            && next <= bad < count && !AnsweredWell(replies(bad))
            && (forall i: nat :: next <= i < bad ==> AnsweredWell(replies(i)))
            && error == Some(if replies(bad).TransportError? then TransportFailed else ReportFailed))
    decreases count - next
  {
    if next < count && AnsweredWell(replies(next)) {
      SendPartsOutcome(Replied(c, replies(next)), replies, next + 1, count);
    }
  }

  ghost function FlushAlone(transport: Transport, opts: TracerOptions, c: Core, env: Surroundings): Core
    requires opts.maxMessageBytes > 0
    requires |c.buffer.spans| <= c.buffer.capacity && |c.flushing.spans| <= c.flushing.capacity
  {
    if PreFlushError(c).Some? then
      c
    else
      var swapped := Swapped(c, env.now);
      var encoded := Encoded(swapped, env.encoderErrors);
      if !env.translates then
        Landed(encoded, Some(TranslateFailed)).0
      else
        var count := |PartsSent(transport, opts, swapped.flushing.spans, env.draws)|;
        var sent := SendParts(encoded, env.replies, 0, count);
        SendPartsKeepsBuffersSmall(encoded, env.replies, 0, count);
        Landed(sent.0, sent.1).0
  }

  /** What the requests carry that such a flush sends. */
  ghost function CarriedAlone(transport: Transport, opts: TracerOptions, c: Core, env: Surroundings): seq<seq<RawSpan>>
    requires opts.maxMessageBytes > 0
  {
    if PreFlushError(c).Some? || !env.translates then
      []
    else
      var parts := PartsSent(transport, opts, c.buffer.spans, env.draws);
      parts[..PartsTried(env.replies, 0, |parts|)]
  }

  // ---------------------------------------------------------------------------------------------------------------
  // The tracer in place

  class TracerImpl {
    const opts: TracerOptions
    const transport: Transport
    var buffer: ReportBuffer
    var flushing: ReportBuffer
    var reportInFlight: bool
    var disabled: bool
    var connection: Option<Connection>
    var lastReportAttempt: Time

    /** The storage of the two buffers. No step ever changes this set. */
    ghost const storage: set<object>

    ghost function Repr(): set<object>
      reads this, buffer, flushing
    {
      {this, buffer, flushing, buffer.rawSpans, flushing.rawSpans}
    }

    ghost predicate Valid()
      reads this, buffer, flushing
    {
      && opts.maxMessageBytes > 0
      && buffer != flushing && buffer.rawSpans != flushing.rawSpans
      && buffer.Valid() && flushing.Valid()
      && storage == {buffer.rawSpans, flushing.rawSpans}
    }

    ghost function Model(): Core
      reads this, buffer, flushing, buffer.rawSpans, flushing.rawSpans
      requires Valid()
    {
      Core(buffer.Model(), flushing.Model(), reportInFlight, disabled, connection, lastReportAttempt)
    }

    constructor (opts: TracerOptions, transport: Transport, now: Time, connection: Connection)
      requires opts.maxMessageBytes > 0
      ensures Valid() && this.opts == opts && this.transport == transport
      ensures Model() == NewCore(opts, now, connection)
      ensures !disabled && !reportInFlight && this.connection == Some(connection) && lastReportAttempt == 0
      ensures buffer.len == flushing.len == 0 && buffer.reportStart == buffer.reportEnd == now
      ensures buffer.rawSpans.Length == flushing.rawSpans.Length == opts.maxBufferedSpans
      ensures fresh(Repr())
    {
      this.opts := opts;
      this.transport := transport;
      var b := new ReportBuffer(opts.maxBufferedSpans);
      var f := new ReportBuffer(opts.maxBufferedSpans);
      buffer := b;
      flushing := f;
      storage := {b.rawSpans, f.rawSpans};
      reportInFlight, disabled := false, false;
      this.connection := Some(connection);
      lastReportAttempt := ZERO_TIME;
      new;
      hide WithCurrent;
      hide Empty;
      buffer.SetCurrent(now);
    }

    method RecordSpan(raw: RawSpan)
      requires Valid()
      modifies buffer, buffer.rawSpans
      ensures Valid() && Model() == SpanRecorded(old(Model()), raw)
      ensures disabled || raw.sampled == "false" ==> Model() == old(Model())
      ensures !disabled && raw.sampled != "false" ==>
        var was := old(buffer.Model());
        && buffer.Model().spans == (if |was.spans| < was.capacity then was.spans + [raw] else was.spans)
        && buffer.droppedSpanCount == was.droppedSpanCount + (if |was.spans| < was.capacity then 0 else 1)
    {
      if disabled || raw.sampled == "false" {
        return;
      }
      buffer.AddSpan(raw);
    }

    /** Swaps the buffers under the lock, unless the tracer is disabled or closed. */
    method PreFlush(now: Time) returns (error: Option<FlushError>)
      requires Valid()
      modifies this`buffer, this`flushing, this`reportInFlight, this`lastReportAttempt, buffer, flushing
      ensures Valid() && error == PreFlushError(old(Model())) && Model() == Swapped(old(Model()), now)
      ensures error == Some(TracerDisabled) <==> disabled
      ensures error == Some(TracerClosed) <==> !disabled && connection == None
      ensures error == None <==> !disabled && connection.Some?
      ensures error == None ==>
        && reportInFlight && lastReportAttempt == now
        && flushing.reportStart == old(buffer.reportStart) && flushing.reportEnd == now
        && buffer.reportStart == buffer.reportEnd == now
      ensures if error == None then buffer == old(flushing) && flushing == old(buffer)
              else buffer == old(buffer) && flushing == old(flushing)
      ensures buffer.rawSpans == old(if error == None then flushing.rawSpans else buffer.rawSpans)
      ensures flushing.rawSpans == old(if error == None then buffer.rawSpans else flushing.rawSpans)
    {
      error := None;
      if disabled {
        return Some(TracerDisabled);
      }
      if connection == None {
        return Some(TracerClosed);
      }
      buffer, flushing := flushing, buffer;
      reportInFlight := true;
      flushing.SetFlushing(now);
      buffer.SetCurrent(now);
      lastReportAttempt := now;
    }

    /** What becomes of the spans of a failed flush: a report that does not translate is not tried again. */
    method Restore(error: FlushError)
      requires Valid()
      modifies buffer, buffer.rawSpans, flushing
      ensures Valid() && flushing.Model() == Empty(old(flushing.Model()).capacity)
      ensures buffer.Model() ==
        if error == TranslateFailed then old(buffer.Model()) else Merged(old(buffer.Model()), old(flushing.Model()))
    {
      match error {
        case TranslateFailed => flushing.Clear();
        case _ => buffer.MergeFrom(flushing);
      }
    }

    /** Clears or merges back the flushing buffer under the lock, and reports what was dropped. */
    method PostFlush(error: Option<FlushError>) returns (report: StatusReport)
      requires Valid()
      modifies this`reportInFlight, buffer, buffer.rawSpans, flushing
      ensures Valid() && (Model(), report) == Landed(old(Model()), error)
      ensures report.startTime == old(flushing.reportStart) && report.finishTime == old(flushing.reportEnd)
      ensures report.sentSpans == if error == None then old(flushing.len) else 0
      ensures !reportInFlight && flushing.len == 0
      ensures error == None || error == Some(TranslateFailed) ==> buffer.Model().spans == old(buffer.Model().spans)
      ensures error.Some? && error != Some(TranslateFailed) ==>
        old(buffer.Model().spans) <= buffer.Model().spans <= old(buffer.Model().spans + flushing.Model().spans)
      ensures error.Some? ==> buffer.reportedDroppedSpanCount == buffer.droppedSpanCount
    {
      reportInFlight := false;
      var start, end := flushing.reportStart, flushing.reportEnd;
      if error == None {
        var sentSpans := flushing.len;
        var dropped, errors := flushing.ReportCounts();
        flushing.Clear();
        return StatusReport(start, end, sentSpans, dropped, errors);
      }
      Restore(error.value);
      var dropped, errors := buffer.ReportCounts();
      report := StatusReport(start, end, 0, dropped, errors);
    }

    method Disable()
      requires Valid()
      modifies this`disabled, buffer
      ensures Valid() && Model() == AfterDisable(old(Model()))
      ensures buffer.rawSpans == old(buffer.rawSpans)
    {
      if disabled {
        return;
      }
      disabled := true;
      buffer.Clear();
    }

    /** The part of `reconnectClient` under the lock. */
    method SwapConnection(conn: Connection) returns (oldConn: Option<Connection>)
      requires Valid()
      modifies this`connection
      ensures Valid() && oldConn == old(connection) && Model() == old(Model()).(connection := Some(conn))
    {
      oldConn := connection;
      connection := Some(conn);
    }

    /** The part of `Close` under the lock. */
    method TakeConnection() returns (conn: Option<Connection>)
      requires Valid()
      modifies this`connection
      ensures Valid() && conn == old(connection) && Model() == old(Model()).(connection := None)
    {
      conn := connection;
      connection := None;
    }

    method ShouldFlushLocked(now: Time) returns (r: bool)
      requires Valid()
      ensures r == ShouldFlush(Model(), opts, now)
      ensures
        r <==>
          || now + opts.minReportingPeriod > lastReportAttempt + opts.reportingPeriod
          || 2 * buffer.len > buffer.rawSpans.Length
    {
      if now + opts.minReportingPeriod - lastReportAttempt > opts.reportingPeriod {
        return true;
      }
      r := buffer.IsHalfFull();
    }

    /** Counts what the converter could not encode. It runs without the lock, on the flushing buffer only. */
    method CountEncoderErrors(errors: nat)
      requires Valid()
      modifies flushing`logEncoderErrorCount
      ensures Valid() && Model() == Encoded(old(Model()), errors)
    {
      flushing.logEncoderErrorCount := flushing.logEncoderErrorCount + errors;
    }

    method FlushSingle(reply: Reply) returns (error: Option<FlushError>)
      requires Valid()
      modifies this`disabled, buffer
      ensures Valid() && error == ReplyError(reply) && Model() == Replied(old(Model()), reply)
      ensures error == None <==> reply.Response? && !reply.hasErrors
      ensures error == Some(ReportFailed) <==> reply.Response? && reply.hasErrors
      ensures error == Some(TransportFailed) <==> reply.TransportError?
      ensures disabled == (old(disabled) || (reply.Response? && reply.disable))
      ensures disabled && !old(disabled) ==> buffer.len == 0
      ensures buffer.rawSpans == old(buffer.rawSpans)
    {
      error := None;
      match reply {
        case TransportError =>
          error := Some(TransportFailed);
        case Response(hasErrors, disable) =>
          if hasErrors {
            error := Some(ReportFailed);
          }
          if disable {
            Disable();
          }
      }
    }

    /** Sends one part after the other and stops at the first that fails. */
    method SendEach(rrs: seq<ReportRequest>, replies: nat -> Reply)
      returns (error: Option<FlushError>, carried: seq<seq<RawSpan>>)
      requires Valid()
      requires forall r :: r in rrs ==> r.protoRequest != null || r.httpRequest.Some?
      modifies this`disabled, buffer
      ensures Valid() && (Model(), error) == SendParts(old(Model()), replies, 0, |rrs|)
      ensures buffer.rawSpans == old(buffer.rawSpans)
      ensures carried == old(Carried(rrs))[..PartsTried(replies, 0, |rrs|)]
    {
      error := None;
      carried := [];
      var i := 0;
      while i < |rrs|
        invariant 0 <= i <= |rrs| && Valid() && buffer.rawSpans == old(buffer.rawSpans)
        invariant error == None
        invariant SendParts(Model(), replies, i, |rrs|) == SendParts(old(Model()), replies, 0, |rrs|)
        invariant i + PartsTried(replies, i, |rrs|) == PartsTried(replies, 0, |rrs|)
        invariant carried == old(Carried(rrs))[..i]
      {
        assert rrs[i] in rrs;
        carried := carried +
          [if rrs[i].protoRequest == null then rrs[i].httpRequest.GetOr([]) else rrs[i].protoRequest.spans];
        error := FlushSingle(replies(i));
        if error != None {
          return;
        }
        i := i + 1;
      }
    }

    /** The spans of the flushing buffer, converted, translated and split into the requests to send. */
    method Prepare(draws: (nat, nat)) returns (rrs: seq<ReportRequest>)
      requires Valid()
      ensures forall r :: r in rrs ==> r.protoRequest != null || r.httpRequest.Some?
      ensures forall r :: r in rrs && r.protoRequest != null ==> fresh(r.protoRequest)
      ensures Carried(rrs) == PartsSent(transport, opts, flushing.Model().spans, draws)
    {
      var spans := flushing.rawSpans[..flushing.len];
      var parts := ChooseParts(spans, opts.maxMessageBytes, draws);
      var protoReq := new ProtoRequest(spans);
      match transport {
        case Http =>
          var req := ReportRequest(null, Some(spans));
          rrs := SplitByParts(req, parts);
          assert rrs[0] in rrs && rrs == [req];
          assert Carried(rrs) == [spans];
        case Proto =>
          rrs := SplitAndLook(ReportRequest(protoReq, None), parts);
      }
    }

    /**
     A whole flush, when nothing else touches the tracer meanwhile. `carried` is what the requests it sent carried.
     */
    method Flush(env: Surroundings) returns (carried: seq<seq<RawSpan>>)
      requires Valid()
      modifies this, buffer, buffer.rawSpans, flushing, flushing.rawSpans
      ensures Valid() && Model() == FlushAlone(transport, opts, old(Model()), env)
      ensures carried == CarriedAlone(transport, opts, old(Model()), env)
    {
      carried := [];
      var refused := PreFlush(env.now);
      if refused != None {
        return;
      }
      CountEncoderErrors(env.encoderErrors);
      if !env.translates {
        var report := PostFlush(Some(TranslateFailed));
        return;
      }
      var rrs := Prepare(env.draws);
      SendPartsKeepsBuffersSmall(Model(), env.replies, 0, |rrs|);
      label sending:
      var error;
      error, carried := SendEach(rrs, env.replies);
      assert old@sending(Carried(rrs)) == PartsSent(transport, opts, old(buffer.Model()).spans, env.draws);
      var report := PostFlush(error);
    }
  }
}
