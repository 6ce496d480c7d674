/**
 Runs of a tracer with options it can have, that lead where one might not expect: spans counted as sent that the
 collector never receives, a span delivered twice, and spans left in a disabled tracer.
 */
module TracerRuns {
  import opened ReportBuffers
  import opened ReportSplit
  import opened TracerCore
  import opened TracerLedgers
  import opened TracerMachine
  import opened Wrappers

  /** Two buffered spans, the default periods in milliseconds, and messages of up to 150 bytes. */
  const TIGHT := Setup(TracerOptions(2, 500, 2500, 150), Proto)

  /** The least that a span can be estimated at is 80 bytes. */
  const FIRST := RawSpan(1, "", 100)
  const SECOND := RawSpan(2, "", 100)
  const FINE := Response(false, false)

  lemma TightFlushSplits()
    ensures PartsSent(Proto, TIGHT.opts, [FIRST, SECOND], (0, 0)) == [[SECOND], [SECOND]]
    ensures PartsSent(Proto, TIGHT.opts, [FIRST], (0, 0)) == [[FIRST]]
  {
    assert SampledSize([FIRST, SECOND], (0, 0)) == 100;
    assert PartCount(TIGHT.opts, [FIRST, SECOND], (0, 0)) == 2;
    SplitLosesTheFirstOfTwo(FIRST, SECOND);
    assert PartCount(TIGHT.opts, [FIRST], (0, 0)) == 1;
    assert Slices([FIRST], 1) == [[FIRST]];
  }

  /** A whole flush in which both parts are answered well, when its buffer holds the two spans. */
  lemma SplitFlushRun(w: World) returns (w': World)
    requires w.flight == SwappedBuffers(Caller) && w.core.flushing.spans == [FIRST, SECOND] && BuffersFit(w.core)
    requires w.history.shipped == [] && w.history.received == multiset{}
    ensures Leads(TIGHT, w, w')
    ensures |w'.history.shipped| == 1 && w'.history.shipped[0].spans == [FIRST, SECOND]
    ensures w'.history.received == multiset{SECOND, SECOND}
  {
    TightFlushSplits();
    var translate := Translate(0, (0, 0));
    var w1 := Next(TIGHT, w, translate);
    w' := BothPartsRun(w1);
    StepLeads(TIGHT, w, translate, w');
  }

  lemma BothPartsRun(w: World) returns (w': World)
    requires w.flight == Sending(Caller, [[SECOND], [SECOND]], 0, w.core.flushing.droppedSpanCount)
    requires w.core.flushing.spans == [FIRST, SECOND]
    requires w.history.shipped == [] && w.history.received == multiset{} && BuffersFit(w.core)
    ensures Leads(TIGHT, w, w')
    ensures |w'.history.shipped| == 1 && w'.history.shipped[0].spans == [FIRST, SECOND]
    ensures w'.history.received == multiset{SECOND, SECOND}
  {
    var part := ReportPart(FINE, true);
    var w2 := PartTaken(w, FINE, true);
    var w3 := PartTaken(w2, FINE, true);
    assert w3.history.received == multiset([SECOND]) + multiset([SECOND]);
    w' := FlushEnded(w3);
    NowLeads(TIGHT, w');
    StepLeads(TIGHT, w3, EndFlush, w');
    StepLeads(TIGHT, w2, part, w');
    StepLeads(TIGHT, w, part, w');
  }

  lemma OnlyShipment(s: Shipment)
    ensures ShippedSpans([s]) == multiset(s.spans)
  {
    OneMoreShipment([], s);
    assert [] + [s] == [s];
  }

  /** The world when this span is the only one recorded, and its flush began. */
  lemma FirstInFlight() returns (w1: World, w2: World)
    ensures w1 == Recorded(Start(TIGHT, 0), FIRST) && BuffersFit(w1.core)
    ensures Enabled(w1, BeginFlush(Caller, 0)) && w2 == Next(TIGHT, w1, BeginFlush(Caller, 0))
    ensures w2.flight == SwappedBuffers(Caller) && !w2.core.disabled && PreFlushError(w2.core) == None && w2.clock == 0
    ensures w2.core.flushing == Buffer([FIRST], 2, 0, 0, 0, 0, 0, 0) && w2.core.buffer == Empty(2)
    ensures w2.history.shipped == [] && w2.history.received == multiset{}
    ensures forall w :: Leads(TIGHT, w2, w) ==> Reachable(TIGHT, 0, w)
  {
    var w0 := Start(TIGHT, 0);
    w1 := Recorded(w0, FIRST);
    w2 := Next(TIGHT, w1, BeginFlush(Caller, 0));
    forall w | Leads(TIGHT, w2, w) ensures Reachable(TIGHT, 0, w) {
      StepLeads(TIGHT, w1, BeginFlush(Caller, 0), w);
      StepLeads(TIGHT, w0, Record(FIRST), w);
    }
  }

  /** A run that loses a span: it is shipped in a flush that succeeds, but the collector never receives it. */
  lemma SplitFlushLosesASpan() returns (w: World)
    ensures ValidSetup(TIGHT) && Reachable(TIGHT, 0, w)
    ensures ShippedSpans(w.history.shipped)[FIRST] == 1 && FIRST !in w.history.received
  {
    var w0 := Start(TIGHT, 0);
    var w1 := Recorded(w0, FIRST);
    var w2 := Recorded(w1, SECOND);
    var w3 := Next(TIGHT, w2, BeginFlush(Caller, 0));
    w := SplitFlushRun(w3);
    StepLeads(TIGHT, w2, BeginFlush(Caller, 0), w);
    StepLeads(TIGHT, w1, Record(SECOND), w);
    StepLeads(TIGHT, w0, Record(FIRST), w);
    OnlyShipment(w.history.shipped[0]);
    assert w.history.shipped == [w.history.shipped[0]];
  }

  /** A flush of one span whose part the collector keeps, whatever it answers. */
  lemma OneSpanFlushRun(w: World, reply: Reply) returns (w': World)
    requires w.flight == SwappedBuffers(Caller) && w.core.flushing == Buffer([FIRST], 2, 0, 0, 0, 0, 0, 0)
    requires w.core.buffer == Empty(2) && !w.core.disabled && (reply == FINE || reply == TransportError)
    ensures forall w'' :: Leads(TIGHT, w', w'') ==> Leads(TIGHT, w, w'')
    ensures w'.core == Landed(w.core, ReplyError(reply)).0 && w'.flight == Grounded && w'.clock == w.clock
    ensures w'.history.received == w.history.received + multiset{FIRST}
    ensures
      w'.history.shipped ==
      w.history.shipped + if reply == FINE then [Shipment([FIRST], 0, [[FIRST]], [FINE])] else []
  {
    var w1 := FirstTranslated(w);
    w' := LastPartRun(w1, reply);
    forall w'' | Leads(TIGHT, w', w'') ensures Leads(TIGHT, w, w'') {
      LeadsOn(TIGHT, w1, w', w'');
      LeadsOn(TIGHT, w, w1, w'');
    }
  }

  /** The only part of a flush, and its end. */
  lemma LastPartRun(w: World, reply: Reply) returns (w': World)
    requires w.flight == Sending(Caller, [[FIRST]], 0, 0) && w.history.answers == [] && BuffersFit(w.core)
    requires w.core.flushing.spans == [FIRST] && w.core.flushing.droppedSpanCount == 0
    requires reply == FINE || reply == TransportError
    ensures Leads(TIGHT, w, w')
    ensures w'.core == Landed(w.core, ReplyError(reply)).0 && w'.flight == Grounded && w'.clock == w.clock
    ensures w'.history.received == w.history.received + multiset{FIRST}
    ensures
      w'.history.shipped ==
      w.history.shipped + if reply == FINE then [Shipment([FIRST], 0, [[FIRST]], [FINE])] else []
  {
    var part := ReportPart(reply, true);
    var w1 := PartTaken(w, reply, true);
    assert w1.core == w.core && w1.history.answers == [reply] && w1.history.shipped == w.history.shipped;
    assert w1.flight == Landing(Caller, ReplyError(reply), [[FIRST]]);
    assert w1.history.received == w.history.received + multiset{FIRST};
    assert Enabled(w, part) && Next(TIGHT, w, part) == w1;
    hide PartTaken;
    w' := FlushEnded(w1);
    NowLeads(TIGHT, w');
    StepLeads(TIGHT, w1, EndFlush, w');
    StepLeads(TIGHT, w, part, w');
  }

  /** The next flush, which succeeds, once a failed one has put the span back. */
  lemma SecondFlushRun(w: World) returns (w': World)
    requires w.core.buffer == Buffer([FIRST], 2, 0, 0, 0, 0, 0, 0) && w.core.flushing == Empty(2)
    requires w.flight == Grounded && PreFlushError(w.core) == None && w.clock == 0 && w.history.shipped == []
    ensures Leads(TIGHT, w, w') && w'.history.received == w.history.received + multiset{FIRST}
    ensures w'.history.shipped == [Shipment([FIRST], 0, [[FIRST]], [FINE])]
  {
    var begin := BeginFlush(Caller, 0);
    var w1 := Next(TIGHT, w, begin);
    w' := OneSpanFlushRun(w1, FINE);
    NowLeads(TIGHT, w');
    StepLeads(TIGHT, w, begin, w');
  }

  /**
   A run that delivers a span twice and ships it once: the reply to the first attempt is lost after the collector took
   the span.
   */
  lemma FailedFlushDeliversTwice() returns (w: World)
    ensures ValidSetup(TIGHT) && Reachable(TIGHT, 0, w)
    ensures ShippedSpans(w.history.shipped)[FIRST] == 1 && w.history.received[FIRST] == 2
  {
    var w1, w2 := FirstInFlight();
    var w3 := OneSpanFlushRun(w2, TransportError);
    SpanPutBack(w2.core);
    hide Landed;
    w := SecondFlushRun(w3);
    OnlyShipment(w.history.shipped[0]);
  }

  lemma SpanPutBack(c: Core)
    requires c.flushing == Buffer([FIRST], 2, 0, 0, 0, 0, 0, 0) && c.buffer == Empty(2)
    ensures
      var core := Landed(c, Some(TransportFailed)).0;
      && core.buffer == Buffer([FIRST], 2, 0, 0, 0, 0, 0, 0) && core.flushing == Empty(2)
      && core.disabled == c.disabled && core.connection == c.connection
  {
    assert [] + [FIRST][..1] == [FIRST];
  }

  /** A flush of one span that fails, whatever the tracer has become meanwhile. */
  lemma FailedPartRun(w: World) returns (w': World)
    requires w.flight == Sending(Caller, [[FIRST]], 0, 0) && w.core.flushing == Buffer([FIRST], 2, 0, 0, 0, 0, 0, 0)
    requires w.core.buffer == Empty(2)
    ensures Leads(TIGHT, w, w') && w'.flight == Grounded
    ensures w'.core.disabled == w.core.disabled && w'.core.buffer.spans == [FIRST]
  {
    var part := ReportPart(TransportError, false);
    var w1 := PartTaken(w, TransportError, false);
    assert w1.core == w.core && w1.flight == Landing(Caller, Some(TransportFailed), [[FIRST]]);
    w' := FlushEnded(w1);
    assert w'.core.buffer.spans == [] + [FIRST][..1];
    NowLeads(TIGHT, w');
    StepLeads(TIGHT, w1, EndFlush, w');
    StepLeads(TIGHT, w, part, w');
  }

  /** A flush of one span that is disabled before its only part fails. */
  lemma DisabledMidFlightRun(w: World) returns (w': World)
    requires w.flight == SwappedBuffers(Caller) && w.core.flushing == Buffer([FIRST], 2, 0, 0, 0, 0, 0, 0)
    requires w.core.buffer == Empty(2) && !w.core.disabled
    ensures Leads(TIGHT, w, w')
    ensures w'.core.disabled && w'.flight == Grounded && w'.core.buffer.spans == [FIRST]
  {
    hide Leads;
    var w1 := FirstTranslated(w);
    var w2 := DisabledMeanwhile(w1);
    w' := FailedPartRun(w2);
    LeadsOn(TIGHT, w1, w2, w');
    LeadsOn(TIGHT, w, w1, w');
  }

  lemma FirstTranslated(w: World) returns (w1: World)
    requires w.flight == SwappedBuffers(Caller) && w.core.flushing == Buffer([FIRST], 2, 0, 0, 0, 0, 0, 0)
    requires BuffersFit(w.core)
    ensures Leads(TIGHT, w, w1) && w1.core == w.core && w1.flight == Sending(Caller, [[FIRST]], 0, 0)
    ensures w1.history == w.history.(answers := []) && w1.clock == w.clock
  {
    TightFlushSplits();
    var translate := Translate(0, (0, 0));
    w1 := Next(TIGHT, w, translate);
    assert w1.core == w.core && w1.flight == Sending(Caller, [[FIRST]], 0, 0);
    hide Next;
    NowLeads(TIGHT, w1);
    StepLeads(TIGHT, w, translate, w1);
  }

  lemma DisabledMeanwhile(w: World) returns (w1: World)
    requires w.core.buffer == Empty(2) && BuffersFit(w.core)
    ensures Leads(TIGHT, w, w1) && w1.core == w.core.(disabled := true) && w1.flight == w.flight
  {
    w1 := Next(TIGHT, w, DisableTracer);
    assert w1.core == w.core.(disabled := true) && w1.flight == w.flight;
    hide Next;
    NowLeads(TIGHT, w1);
    StepLeads(TIGHT, w, DisableTracer, w1);
  }

  /** A run that leaves spans in a disabled tracer: a flush in flight fails after Disable has cleared the buffer. */
  lemma FailedFlushRefillsDisabledTracer() returns (w: World)
    ensures ValidSetup(TIGHT) && Reachable(TIGHT, 0, w)
    ensures w.core.disabled && w.flight == Grounded && w.core.buffer.spans == [FIRST]
  {
    var w1, w2 := FirstInFlight();
    w := DisabledMidFlightRun(w2);
  }
}
