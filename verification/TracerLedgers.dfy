/**
 What every run of the tracer keeps: no span is lost without being counted, the drop counters balance, the reporting
 windows tile time, and the buffers never outgrow their storage.
 */
module TracerLedgers {
  import opened Clock
  import opened ReportBuffers
  import opened ReportSplit
  import opened TracerCore
  import opened TracerMachine
  import opened Wrappers

  // ---------------------------------------------------------------------------------------------------------------
  // Totals over the history

  ghost function ShippedSpans(shipped: seq<Shipment>): multiset<RawSpan> {
    if shipped == [] then multiset{} else ShippedSpans(shipped[..|shipped| - 1]) + multiset(Last(shipped).spans)
  }

  ghost function ShippedDrops(shipped: seq<Shipment>): int {
    if shipped == [] then 0 else ShippedDrops(shipped[..|shipped| - 1]) + Last(shipped).droppedSpanCount
  }

  ghost function ToldDrops(status: seq<StatusReport>): int {
    if status == [] then 0 else ToldDrops(status[..|status| - 1]) + Last(status).droppedSpans
  }

  ghost function ToldErrors(status: seq<StatusReport>): int {
    if status == [] then 0 else ToldErrors(status[..|status| - 1]) + Last(status).encodingErrors
  }

  ghost function ToldSent(status: seq<StatusReport>): int {
    if status == [] then 0 else ToldSent(status[..|status| - 1]) + Last(status).sentSpans
  }

  lemma OneMoreShipment(shipped: seq<Shipment>, s: Shipment)
    ensures ShippedSpans(shipped + [s]) == ShippedSpans(shipped) + multiset(s.spans)
    ensures ShippedDrops(shipped + [s]) == ShippedDrops(shipped) + s.droppedSpanCount
  {
    assert (shipped + [s])[..|shipped|] == shipped;
  }

  lemma OneMoreStatus(status: seq<StatusReport>, r: StatusReport)
    ensures ToldDrops(status + [r]) == ToldDrops(status) + r.droppedSpans
    ensures ToldErrors(status + [r]) == ToldErrors(status) + r.encodingErrors
    ensures ToldSent(status + [r]) == ToldSent(status) + r.sentSpans
  {
    assert (status + [r])[..|status|] == status;
  }

  // ---------------------------------------------------------------------------------------------------------------
  // The invariants

  /** Storage and counters are sound, and the flushing buffer is empty unless a flush is in flight. */
  ghost predicate Shape(u: Setup, w: World) {
    && Sound(w.core.buffer) && Sound(w.core.flushing)
    && w.core.buffer.capacity == w.core.flushing.capacity == u.opts.maxBufferedSpans
    && (w.flight == Grounded ==> w.core.flushing == Empty(u.opts.maxBufferedSpans))
    && w.core.reportInFlight == (w.flight != Grounded)
    && (w.flight.Sending? ==>
          w.flight.next < |w.flight.parts| && w.flight.droppedInRequest == w.core.flushing.droppedSpanCount)
  }

  /** Every span that was accepted is somewhere, once. */
  ghost predicate SpansBalance(w: World) {
    w.history.accepted ==
    ShippedSpans(w.history.shipped) + w.history.dropped + w.history.discarded
    + multiset(w.core.buffer.spans) + multiset(w.core.flushing.spans)
  }

  /** Every dropped span is counted, in what reports carried, in the buffers, or in what was cleared. */
  ghost predicate DropsBalanceInReports(w: World) {
    |w.history.dropped| ==
    ShippedDrops(w.history.shipped) + w.history.wipedDrops
    + w.core.buffer.droppedSpanCount + w.core.flushing.droppedSpanCount
  }

  /** Every dropped span is told in a status event, still to be told, or was cleared before it was. */
  ghost predicate DropsBalanceInEvents(w: World) {
    |w.history.dropped| ==
    ToldDrops(w.history.status) + w.history.wipedUnreported + Unreported(w.core.buffer) + Unreported(w.core.flushing)
  }

  ghost predicate ErrorsBalanceInEvents(w: World) {
    w.history.encoderErrors ==
    ToldErrors(w.history.status) + w.history.wipedErrors
    + UnreportedErrors(w.core.buffer) + UnreportedErrors(w.core.flushing)
  }

  /** The status events tell of exactly the shipped spans. */
  ghost predicate SentBalancesInEvents(w: World) {
    |ShippedSpans(w.history.shipped)| == ToldSent(w.history.status)
  }

  ghost predicate Ledgers(w: World) {
    && SpansBalance(w)
    && SentBalancesInEvents(w)
    && DropsBalanceInReports(w)
    && DropsBalanceInEvents(w)
    && ErrorsBalanceInEvents(w)
  }

  ghost predicate Books(u: Setup, w: World) {
    Shape(u, w) && Ledgers(w)
  }

  // ---------------------------------------------------------------------------------------------------------------
  // Step by step

  /** A span that finds room. */
  lemma RoomKeepsBooks(u: Setup, w: World, span: RawSpan)
    requires Books(u, w) && Records(w.core, span) && |w.core.buffer.spans| < w.core.buffer.capacity
    ensures Books(u, Recorded(w, span))
  {
    assert multiset(Added(w.core.buffer, span).spans) == multiset(w.core.buffer.spans) + multiset{span};
  }

  /** A span that finds the buffer full. */
  lemma FullKeepsBooks(u: Setup, w: World, span: RawSpan)
    requires Books(u, w) && Records(w.core, span) && |w.core.buffer.spans| == w.core.buffer.capacity
    ensures Books(u, Recorded(w, span))
  {
    assert |w.history.dropped + multiset{span}| == |w.history.dropped| + 1;
  }

  lemma RecordKeepsBooks(u: Setup, w: World, span: RawSpan)
    requires Books(u, w)
    ensures Books(u, Recorded(w, span))
  {
    if Records(w.core, span) {
      if |w.core.buffer.spans| < w.core.buffer.capacity {
        RoomKeepsBooks(u, w, span);
      } else {
        FullKeepsBooks(u, w, span);
      }
    }
  }

  lemma BeginKeepsBooks(u: Setup, w: World, owner: Owner, now: Time)
    requires ValidSetup(u) && Books(u, w) && Enabled(w, BeginFlush(owner, now))
    ensures Books(u, Next(u, w, BeginFlush(owner, now)))
  {
  }

  lemma DisableKeepsBooks(u: Setup, w: World)
    requires Books(u, w)
    ensures Books(u, Disabled(w))
  {
  }

  lemma TranslateKeepsBooks(u: Setup, w: World, errors: nat, draws: (nat, nat))
    requires ValidSetup(u) && Books(u, w) && w.flight.SwappedBuffers?
    ensures Books(u, Translated(u, w, errors, draws))
    ensures Books(u, Next(u, w, FailTranslate(errors)))
  {
  }

  lemma PartKeepsBooks(u: Setup, w: World, reply: Reply, taken: bool)
    requires Books(u, w) && Enabled(w, ReportPart(reply, taken))
    ensures Books(u, PartReported(w, reply, taken))
  {
    assert w.flight.Sending? && w.flight.next < |w.flight.parts|;
    hide Books;
    hide PartTaken;
    hide Disabled;
    PartTakenKeepsBooks(u, w, reply, taken);
    DisableKeepsBooks(u, PartTaken(w, reply, taken));
  }

  lemma PartTakenKeepsBooks(u: Setup, w: World, reply: Reply, taken: bool)
    requires Books(u, w) && Enabled(w, ReportPart(reply, taken))
    ensures Books(u, PartTaken(w, reply, taken))
  {
    hide Contents;
    hide Ledgers;
    var w' := PartTaken(w, reply, taken);
    assert Shape(u, w');
    assert w'.core == w.core && w'.history.shipped == w.history.shipped && w'.history.status == w.history.status;
    hide PartTaken;
    LedgersCarryOver(w, w');
  }

  /** The ledgers do not look at what the collector has received. */
  lemma LedgersCarryOver(w: World, w': World)
    requires Ledgers(w) && w'.core == w.core
    requires
      w'.history ==
      w.history.(received := w'.history.received, takenInVain := w'.history.takenInVain, answers := w'.history.answers)
    ensures Ledgers(w')
  {
  }

  lemma EndKeepsShape(u: Setup, w: World)
    requires Books(u, w) && w.flight.Landing?
    ensures Shape(u, FlushEnded(w))
  {
    MergeRestoresPrefix(w.core.buffer, w.core.flushing);
  }

  /** A flush that was sent: its spans are shipped and its counters are reported. */
  lemma SuccessKeepsLedgers(u: Setup, w: World)
    requires Books(u, w) && w.flight.Landing? && w.flight.error == None
    ensures Ledgers(FlushEnded(w))
  {
    var h, f := w.history, w.core.flushing;
    OneMoreShipment(h.shipped, Shipment(f.spans, f.droppedSpanCount, w.flight.parts, h.answers));
    OneMoreStatus(h.status, Landed(w.core, w.flight.error).1);
  }

  /** A report that did not translate: its spans and its counters are gone. */
  lemma TranslateFailureKeepsLedgers(u: Setup, w: World)
    requires Books(u, w) && w.flight.Landing? && w.flight.error == Some(TranslateFailed)
    ensures Ledgers(FlushEnded(w))
  {
    OneMoreStatus(w.history.status, Landed(w.core, w.flight.error).1);
  }

  lemma LostInstead<T>(a: multiset<T>, d: multiset<T>, x: multiset<T>, b: multiset<T>, f: multiset<T>,
                       m: multiset<T>, lost: multiset<T>)
    requires m + lost == b + f
    ensures a + d + x + b + f == a + (d + lost) + x + m
  {
    forall e: T ensures (a + d + x + b + f)[e] == (a + (d + lost) + x + m)[e] {
      assert (m + lost)[e] == (b + f)[e];
    }
  }

  /** A flush that failed to be sent: what fits is merged back, the rest is dropped and counted. */
  lemma RestoreKeepsSpans(u: Setup, w: World)
    requires Books(u, w) && w.flight.Landing? && w.flight.error.Some? && w.flight.error != Some(TranslateFailed)
    ensures SpansBalance(FlushEnded(w))
  {
    var h, b, f := w.history, w.core.buffer, w.core.flushing;
    MergeRestoresPrefix(b, f);
    LostInstead(ShippedSpans(h.shipped), h.dropped, h.discarded, multiset(b.spans), multiset(f.spans),
                multiset(Merged(b, f).spans), multiset(Overflow(b, f)));
  }

  lemma RestoreKeepsLedgers(u: Setup, w: World)
    requires Books(u, w) && w.flight.Landing? && w.flight.error.Some? && w.flight.error != Some(TranslateFailed)
    ensures Ledgers(FlushEnded(w))
  {
    RestoreKeepsSpans(u, w);
    var h, b, f, w' := w.history, w.core.buffer, w.core.flushing, FlushEnded(w);
    OneMoreStatus(h.status, Landed(w.core, w.flight.error).1);
    MergeRestoresPrefix(b, f);
    assert |w'.history.dropped| == |h.dropped| + |Overflow(b, f)|;
  }

  lemma EndKeepsBooks(u: Setup, w: World)
    requires Books(u, w) && w.flight.Landing?
    ensures Books(u, FlushEnded(w))
  {
    EndKeepsShape(u, w);
    match w.flight.error
    case None => SuccessKeepsLedgers(u, w);
    case Some(TranslateFailed) => TranslateFailureKeepsLedgers(u, w);
    case Some(_) => RestoreKeepsLedgers(u, w);
  }

  /** Actions that touch neither the buffers nor the history. */
  ghost predicate Quiet(w: World, w': World) {
    && w'.core.buffer == w.core.buffer && w'.core.flushing == w.core.flushing
    && w'.core.reportInFlight == w.core.reportInFlight
    && w'.flight == w.flight && w'.history == w.history
  }

  ghost predicate Loud(a: Action) {
    a.Record? || a.BeginFlush? || a.FailTranslate? || a.Translate? || a.ReportPart? || a.EndFlush? || a.DisableTracer?
  }

  lemma OtherStepsAreQuiet(u: Setup, w: World, a: Action)
    requires ValidSetup(u) && BuffersFit(w.core) && Enabled(w, a) && !Loud(a)
    ensures Quiet(w, Next(u, w, a))
  {
  }

  lemma QuietKeepsBooks(u: Setup, w: World, w': World)
    requires Books(u, w) && Quiet(w, w')
    ensures Books(u, w')
  {
  }

  lemma GoingOnKeepsBooks(u: Setup, w: World, owner: Owner)
    requires Books(u, w)
    ensures Books(u, FlushOver(w, owner))
  {
    QuietKeepsBooks(u, w, FlushOver(w, owner));
  }

  lemma OtherStepsKeepBooks(u: Setup, w: World, a: Action)
    requires ValidSetup(u) && Books(u, w) && Enabled(w, a) && !Loud(a)
    ensures Books(u, Next(u, w, a))
  {
    OtherStepsAreQuiet(u, w, a);
    QuietKeepsBooks(u, w, Next(u, w, a));
  }

  lemma EndStepKeepsBooks(u: Setup, w: World)
    requires ValidSetup(u) && Books(u, w) && Enabled(w, EndFlush)
    ensures Books(u, Next(u, w, EndFlush))
  {
    EndKeepsBooks(u, w);
    GoingOnKeepsBooks(u, FlushEnded(w), w.flight.owner);
  }

  lemma FlushStepKeepsBooks(u: Setup, w: World, a: Action)
    requires ValidSetup(u) && Books(u, w) && Enabled(w, a)
    requires a.FailTranslate? || a.Translate? || a.ReportPart?
    ensures Books(u, Next(u, w, a))
  {
    match a
    case FailTranslate(errors) => TranslateKeepsBooks(u, w, errors, (0, 0));
    case Translate(errors, draws) => TranslateKeepsBooks(u, w, errors, draws);
    case ReportPart(reply, taken) => PartKeepsBooks(u, w, reply, taken);
  }

  lemma StepKeepsBooks(u: Setup, w: World, a: Action)
    requires ValidSetup(u) && Books(u, w) && Enabled(w, a)
    ensures Books(u, Next(u, w, a))
  {
    match a
    case Record(span) => RecordKeepsBooks(u, w, span);
    case BeginFlush(owner, now) => BeginKeepsBooks(u, w, owner, now);
    case FailTranslate(_) => FlushStepKeepsBooks(u, w, a);
    case Translate(_, _) => FlushStepKeepsBooks(u, w, a);
    case ReportPart(_, _) => FlushStepKeepsBooks(u, w, a);
    case EndFlush => EndStepKeepsBooks(u, w);
    case DisableTracer => DisableKeepsBooks(u, w);
    case _ => OtherStepsKeepBooks(u, w, a);
  }

  lemma {:induction false} PlayKeepsBooks(u: Setup, w: World, actions: seq<Action>)
    requires ValidSetup(u) && Feasible(u, w, actions) && Books(u, w)
    ensures Books(u, Play(u, w, actions))
    decreases |actions|
  {
    if actions != [] {
      StepKeepsBooks(u, w, actions[0]);
      PlayKeepsBooks(u, Next(u, w, actions[0]), actions[1..]);
    }
  }

  /**
   In every run, whatever the interleaving: accepted spans are shipped, dropped, discarded or still buffered, and the
   two drop ledgers and the encoder error ledger balance.
   */
  lemma BooksBalance(u: Setup, t0: Time, w: World)
    requires ValidSetup(u) && Reachable(u, t0, w)
    ensures Books(u, w)
  {
    var actions :| Feasible(u, Start(u, t0), actions) && w == Play(u, Start(u, t0), actions);
    PlayKeepsBooks(u, Start(u, t0), actions);
  }

  /** How often a span is held by the tracer: waiting, or in the flush in flight. */
  ghost function Held(w: World, span: RawSpan): nat {
    multiset(w.core.buffer.spans)[span] + multiset(w.core.flushing.spans)[span]
  }

  /**
   Every accepted span has exactly one fate. In particular a span that was recorded once is in at most one successful
   flush, and if it is in none, it is still held, or it was dropped or discarded.
   */
  lemma OneFatePerSpan(u: Setup, t0: Time, w: World, span: RawSpan)
    requires ValidSetup(u) && Reachable(u, t0, w)
    ensures
      var h := w.history;
      h.accepted[span] == ShippedSpans(h.shipped)[span] + h.dropped[span] + h.discarded[span] + Held(w, span)
  {
    BooksBalance(u, t0, w);
    var h := w.history;
    assert h.accepted[span] ==
      (ShippedSpans(h.shipped) + h.dropped + h.discarded
       + multiset(w.core.buffer.spans) + multiset(w.core.flushing.spans))[span];
  }

  /** The buffers never hold more than they were made for, so no run is ever held up for lack of room. */
  lemma BuffersAlwaysFit(u: Setup, t0: Time, w: World)
    requires ValidSetup(u) && Reachable(u, t0, w)
    ensures BuffersFit(w.core)
    ensures |w.core.buffer.spans| <= u.opts.maxBufferedSpans && |w.core.flushing.spans| <= u.opts.maxBufferedSpans
    ensures 0 <= w.core.buffer.reportedDroppedSpanCount <= w.core.buffer.droppedSpanCount
    ensures 0 <= w.core.flushing.reportedDroppedSpanCount <= w.core.flushing.droppedSpanCount
  {
    BooksBalance(u, t0, w);
  }
}
