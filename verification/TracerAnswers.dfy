/**
 What the collector's answers decide, over every run: a flush counts as sent exactly when every part of it was answered
 without an error, and otherwise its spans are kept or counted as dropped.
 */
module TracerAnswers {
  import opened Clock
  import opened ReportBuffers
  import opened TracerCore
  import opened TracerLedgers
  import opened TracerMachine
  import opened Wrappers

  ghost predicate AllAnsweredWell(answers: seq<Reply>) {
    forall i :: 0 <= i < |answers| ==> answers[i].Response? && !answers[i].hasErrors
  }

  ghost predicate ShipmentsAnsweredWell(shipped: seq<Shipment>) {
    forall i :: 0 <= i < |shipped| ==>
      |shipped[i].answers| == |shipped[i].parts| && AllAnsweredWell(shipped[i].answers)
  }

  /** The flush in flight goes on while its parts are answered well, and fails with the first that is not. */
  ghost predicate FlightAnswered(f: Flight, answers: seq<Reply>) {
    match f
    case Sending(_, parts, next, _) => |answers| == next && AllAnsweredWell(answers)
    case Landing(_, None, parts) => |answers| == |parts| && AllAnsweredWell(answers)
    case Landing(_, Some(TranslateFailed), parts) => answers == []
    case Landing(_, Some(error), parts) =>
      && answers != [] && AllAnsweredWell(answers[..|answers| - 1])
      && (match answers[|answers| - 1]
          case TransportError => error == TransportFailed
          case Response(hasErrors, _) => hasErrors && error == ReportFailed)
    case _ => true
  }

  ghost predicate Answered(w: World) {
    FlightAnswered(w.flight, w.history.answers) && ShipmentsAnsweredWell(w.history.shipped)
  }

  lemma PartKeepsAnswered(w: World, reply: Reply, taken: bool)
    requires Answered(w) && Enabled(w, ReportPart(reply, taken))
    ensures Answered(PartTaken(w, reply, taken))
  {
    hide Contents;
    var answers := w.history.answers + [reply];
    assert answers[..|answers| - 1] == w.history.answers;
  }

  lemma QuietKeepsAnswered(w: World, w': World)
    requires Answered(w) && w'.flight == w.flight
    requires w'.history.answers == w.history.answers && w'.history.shipped == w.history.shipped
    ensures Answered(w')
  {
  }

  lemma ReportKeepsAnswered(w: World, reply: Reply, taken: bool)
    requires Answered(w) && Enabled(w, ReportPart(reply, taken))
    ensures Answered(PartReported(w, reply, taken))
  {
    hide Answered;
    hide PartTaken;
    PartKeepsAnswered(w, reply, taken);
    QuietKeepsAnswered(PartTaken(w, reply, taken), PartReported(w, reply, taken));
  }

  lemma EndKeepsAnswered(w: World)
    requires Answered(w) && w.flight.Landing? && BuffersFit(w.core)
    ensures Answered(FlushEnded(w))
  {
  }

  lemma FlightBegins(u: Setup, w: World, a: Action)
    requires ValidSetup(u) && BuffersFit(w.core) && Answered(w) && Enabled(w, a)
    requires a.BeginFlush? || a.FailTranslate? || a.Translate?
    ensures Answered(Next(u, w, a))
  {
  }

  lemma StepKeepsAnswered(u: Setup, w: World, a: Action)
    requires ValidSetup(u) && BuffersFit(w.core) && Answered(w) && Enabled(w, a)
    ensures Answered(Next(u, w, a))
  {
    hide Answered;
    match a
    case BeginFlush(_, _) => FlightBegins(u, w, a);
    case FailTranslate(_) => FlightBegins(u, w, a);
    case Translate(_, _) => FlightBegins(u, w, a);
    case ReportPart(reply, taken) => ReportKeepsAnswered(w, reply, taken);
    case EndFlush =>
      EndKeepsAnswered(w);
      hide FlushEnded;
      QuietKeepsAnswered(FlushEnded(w), Next(u, w, a));
    case _ => OtherStepsKeepAnswered(u, w, a);
  }

  lemma OtherStepsKeepAnswered(u: Setup, w: World, a: Action)
    requires ValidSetup(u) && BuffersFit(w.core) && Answered(w) && Enabled(w, a)
    requires !a.BeginFlush? && !a.FailTranslate? && !a.Translate? && !a.ReportPart? && !a.EndFlush?
    ensures Answered(Next(u, w, a))
  {
    hide Answered;
    if !Loud(a) {
      OtherStepsAreQuiet(u, w, a);
      hide Next;
    }
    QuietKeepsAnswered(w, Next(u, w, a));
  }

  lemma {:induction false} PlayKeepsAnswered(u: Setup, w: World, actions: seq<Action>)
    requires ValidSetup(u) && Feasible(u, w, actions) && Answered(w)
    ensures Answered(Play(u, w, actions))
    decreases |actions|
  {
    if actions != [] {
      StepKeepsAnswered(u, w, actions[0]);
      PlayKeepsAnswered(u, Next(u, w, actions[0]), actions[1..]);
    }
  }

  lemma AlwaysAnswered(u: Setup, t0: Time, w: World)
    requires ValidSetup(u) && Reachable(u, t0, w)
    ensures Answered(w)
  {
    var actions :| Feasible(u, Start(u, t0), actions) && w == Play(u, Start(u, t0), actions);
    PlayKeepsAnswered(u, Start(u, t0), actions);
  }

  /** In every run, each part of each flush that counts as sent was answered, and without an error. */
  lemma ShipmentsWereAnsweredWell(u: Setup, t0: Time, w: World, i: nat, j: nat)
    requires ValidSetup(u) && Reachable(u, t0, w) && i < |w.history.shipped| && j < |w.history.shipped[i].parts|
    ensures |w.history.shipped[i].answers| == |w.history.shipped[i].parts|
    ensures w.history.shipped[i].answers[j].Response? && !w.history.shipped[i].answers[j].hasErrors
  {
    AlwaysAnswered(u, t0, w);
  }

  /**
   In every run, a flush of which some part got a transport error, or an answer that holds errors, does not count as
   sent: its spans are in the buffer again, behind the newer ones, or among the dropped.
   */
  lemma BadAnswerRestores(u: Setup, t0: Time, w: World, i: nat)
    requires ValidSetup(u) && Reachable(u, t0, w) && w.flight.Landing? && i < |w.history.answers|
    requires w.history.answers[i].TransportError? || w.history.answers[i].hasErrors
    ensures BuffersFit(w.core)
    ensures
      var w', newer, failed := FlushEnded(w), w.core.buffer.spans, w.core.flushing.spans;
      && w'.history.shipped == w.history.shipped && w'.history.discarded == w.history.discarded
      && newer <= w'.core.buffer.spans && w'.core.flushing.spans == []
      && exists kept, lost ::
           && failed == kept + lost && w'.core.buffer.spans == newer + kept
           && w'.history.dropped == w.history.dropped + multiset(lost)
  {
    AlwaysAnswered(u, t0, w);
    BooksBalance(u, t0, w);
    assert w.flight.error.Some? && w.flight.error != Some(TranslateFailed);
    var n := Fitting(w.core.buffer, w.core.flushing);
    var kept, lost := w.core.flushing.spans[..n], w.core.flushing.spans[n..];
    assert w.core.flushing.spans == kept + lost;
    assert FlushEnded(w).core.buffer.spans == w.core.buffer.spans + kept;
  }

  /** And one of which every part was answered well counts as sent, and leaves the buffer alone. */
  lemma GoodAnswersShip(u: Setup, t0: Time, w: World)
    requires ValidSetup(u) && Reachable(u, t0, w) && w.flight.Landing? && w.history.answers != []
    requires AllAnsweredWell(w.history.answers)
    ensures BuffersFit(w.core)
    ensures
      var w' := FlushEnded(w);
      && |w'.history.shipped| == |w.history.shipped| + 1
      && w'.history.shipped[|w.history.shipped|].spans == w.core.flushing.spans
      && w'.core.buffer == w.core.buffer && w'.core.flushing.spans == []
  {
    AlwaysAnswered(u, t0, w);
    BooksBalance(u, t0, w);
    assert w.flight.error == None;
  }

  // ---------------------------------------------------------------------------------------------------------------
  // What a tick asks for

  /**
   In every run, a tick of a tracer that is not disabled asks for a flush exactly when the reporting period would end
   before the next tick or more than half of the buffer is used, and for a reconnect exactly when no flush is in flight
   and the connection is due for one.
   */
  lemma TickAsksFor(u: Setup, t0: Time, w: World, now: Time, due: bool)
    requires ValidSetup(u) && Reachable(u, t0, w) && Enabled(w, Tick(now, due))
    ensures BuffersFit(w.core)
    ensures
      var loop := Next(u, w, Tick(now, due)).loop;
      && (loop == ExitedDisabled <==> w.core.disabled)
      && (!w.core.disabled ==>
            && loop.AfterTick?
            && (loop.wantFlush <==>
                  || now + u.opts.minReportingPeriod > w.core.lastReportAttempt + u.opts.reportingPeriod
                  || 2 * |w.core.buffer.spans| > u.opts.maxBufferedSpans)
            && (loop.wantReconnect <==> w.flight == Grounded && due))
  {
    BooksBalance(u, t0, w);
  }

  /** Which spans are accepted: those recorded while the tracer is not disabled, unless they are not sampled. */
  lemma AcceptsIff(u: Setup, w: World, span: RawSpan)
    requires ValidSetup(u) && BuffersFit(w.core)
    ensures
      var w' := Next(u, w, Record(span));
      w'.history.accepted ==
      w.history.accepted + if !w.core.disabled && span.sampled != "false" then multiset{span} else multiset{}
  {
  }
}
