/**
 The tracer under any interleaving (tracer.go): goroutines that record spans, flush, disable and close it, its report
 loop and its metrics loop. Every action is one region under the tracer's lock, or one step that touches nothing
 shared. What the collector answers, when things happen and who goes next is arbitrary.

 A `World` also keeps a history of what became of every span and every counter, for the ledgers to balance against.
 */
module TracerMachine {
  import opened Clock
  import opened ReportBuffers
  import opened ReportSplit
  import opened TracerCore
  import opened Wrappers

  /** Who holds `flushingLock`. Any number of other goroutines may want to flush. */
  datatype Owner = Caller | ReportLoop | Closer

  /** How far the flush in flight is. */
  datatype Flight =
    | Grounded
    | SwappedBuffers(owner: Owner)
    | Sending(owner: Owner, parts: seq<seq<RawSpan>>, next: nat, droppedInRequest: int)
    | Landing(owner: Owner, error: Option<FlushError>, parts: seq<seq<RawSpan>>)

  datatype LoopState =
    | Selecting
    | AfterTick(wantFlush: bool, wantReconnect: bool)
    | LoopFlushing(wantReconnect: bool)
    | Dialed(conn: Connection)
    | ClosingOld(replaced: Option<Connection>)
    | ExitedClosed   // it closed reportLoopClosedChannel on its way out
    | ExitedDisabled // it did not

  datatype CloseState =
    | NotClosing
    | Waiting
    | WantsLastFlush
    | LastFlush
    | Taking
    | Closing(conn: Option<Connection>)
    | ClosedDown
    | GaveUp

  /** A channel that only ever carries a close. Receiving from a nil channel blocks for ever. */
  datatype Signal = NilSignal | OpenSignal | ClosedSignal

  /** A successful flush: its spans, the drop count its report carried, what its parts carried, and their answers. */
  datatype Shipment = Shipment(
    spans: seq<RawSpan>,
    droppedSpanCount: int,
    parts: seq<seq<RawSpan>>,
    answers: seq<Reply>)

  datatype Window = Window(start: Time, end: Time)

  datatype History = History(
    accepted: multiset<RawSpan>,  // handed to the buffer
    dropped: multiset<RawSpan>,   // refused by a full buffer, or left over by a merge
    discarded: multiset<RawSpan>, // cleared by Disable, or with a report that did not translate
    shipped: seq<Shipment>,
    status: seq<StatusReport>,
    windows: seq<Window>,         // of the flushes that succeeded or did not translate
    encoderErrors: int,           // encountered
    wipedDrops: int,              // drops counted and cleared before a report carried them
    wipedUnreported: int,         // drops counted and cleared before a status event told of them
    wipedErrors: int,             // the same for encoder errors
    received: multiset<RawSpan>,  // that the collector took, at any attempt
    takenInVain: multiset<RawSpan>, // the part of them that it took from flushes that then failed
    answers: seq<Reply>)          // to the parts of the latest flush

  const NO_HISTORY := History(multiset{}, multiset{}, multiset{}, [], [], [], 0, 0, 0, 0, multiset{}, multiset{}, [])

  datatype World = World(
    core: Core,
    flight: Flight,
    loop: LoopState,
    closer: CloseState,
    closeReportLoop: Signal,
    closeMetricsLoop: Signal,
    metricsStopped: bool,
    clock: Time,
    nextConnection: nat,
    closedConnections: seq<Connection>,
    history: History)

  datatype Setup = Setup(opts: TracerOptions, transport: Transport)

  ghost predicate ValidSetup(u: Setup) {
    u.opts.maxMessageBytes > 0
  }

  /** A new tracer makes the channel that closes its report loop, but not the one that would close its metrics loop. */
  ghost function Start(u: Setup, now: Time): World {
    World(NewCore(u.opts, now, Connection(0)), Grounded, Selecting, NotClosing, OpenSignal, NilSignal, false, now, 1,
          [], NO_HISTORY)
  }

  /** Go's `close`, behind the check for nil that `Close` makes. */
  function CloseUnlessNil(s: Signal): Signal {
    if s == NilSignal then s else ClosedSignal
  }

  datatype Action =
    | Record(span: RawSpan)
    | BeginFlush(owner: Owner, now: Time)
    | RefuseFlush(owner: Owner)
    | FailTranslate(errors: nat)
    | Translate(errors: nat, draws: (nat, nat))
    | ReportPart(reply: Reply, taken: bool) // `taken` says whether the collector kept the part, whatever it answered
    | EndFlush
    | DisableTracer
    | Tick(now: Time, shouldReconnect: bool)
    | GoOnSelecting
    | DialFails
    | DialSucceeds
    | SwapInConnection
    | CloseOldConnection
    | SeeCloseSignal
    | CallClose
    | GoOnClosing
    | GiveUpClosing
    | TakeConnection
    | CloseTakenConnection
    | TickMetrics
    | SeeMetricsCloseSignal

  // ---------------------------------------------------------------------------------------------------------------
  // Which actions are possible

  ghost predicate MayFlush(w: World, owner: Owner) {
    match owner
    case Caller => true
    case ReportLoop => w.loop.AfterTick? && w.loop.wantFlush
    case Closer => w.closer == WantsLastFlush
  }

  ghost predicate Enabled(w: World, a: Action) {
    match a
    case Record(_) => true
    case BeginFlush(owner, now) =>
      w.flight == Grounded && MayFlush(w, owner) && PreFlushError(w.core) == None && now >= w.clock
    case RefuseFlush(owner) => w.flight == Grounded && MayFlush(w, owner) && PreFlushError(w.core).Some?
    case FailTranslate(_) => w.flight.SwappedBuffers?
    case Translate(_, _) => w.flight.SwappedBuffers?
    case ReportPart(reply, taken) =>
      w.flight.Sending? && w.flight.next < |w.flight.parts| && (ReplyError(reply) == None ==> taken)
    case EndFlush => w.flight.Landing?
    case DisableTracer => true
    case Tick(now, _) => w.loop == Selecting && now >= w.clock
    case GoOnSelecting => w.loop == AfterTick(false, false)
    case DialFails => w.loop == AfterTick(false, true)
    case DialSucceeds => w.loop == AfterTick(false, true)
    case SwapInConnection => w.loop.Dialed?
    case CloseOldConnection => w.loop.ClosingOld? && w.loop.replaced.Some?
    case SeeCloseSignal => w.loop == Selecting && w.closeReportLoop == ClosedSignal
    case CallClose => w.closer == NotClosing
    case GoOnClosing => w.closer == Waiting && w.loop == ExitedClosed
    case GiveUpClosing => w.closer == Waiting
    case TakeConnection => w.closer == Taking
    case CloseTakenConnection => w.closer.Closing?
    case TickMetrics => !w.metricsStopped
    case SeeMetricsCloseSignal => !w.metricsStopped && w.closeMetricsLoop == ClosedSignal
  }

  // ---------------------------------------------------------------------------------------------------------------
  // What each action does

  ghost function Next(u: Setup, w: World, a: Action): World
    requires ValidSetup(u) && Enabled(w, a) && BuffersFit(w.core)
  {
    match a
    case Record(span) => Recorded(w, span)
    case BeginFlush(owner, now) =>
      FlushStarted(w, owner).(core := Swapped(w.core, now), flight := SwappedBuffers(owner), clock := now)
    case RefuseFlush(owner) => FlushOver(FlushStarted(w, owner), owner)
    case FailTranslate(errors) =>
      var w' := WithErrors(w, errors);
      w'.(flight := Landing(w.flight.owner, Some(TranslateFailed), []), history := w'.history.(answers := []))
    case Translate(errors, draws) => Translated(u, w, errors, draws)
    case ReportPart(reply, taken) => PartReported(w, reply, taken)
    case EndFlush => FlushOver(FlushEnded(w), w.flight.owner)
    case DisableTracer => Disabled(w)
    case Tick(now, shouldReconnect) =>
      w.(clock := now,
         loop := if w.core.disabled then ExitedDisabled
                 else AfterTick(ShouldFlush(w.core, u.opts, now), !w.core.reportInFlight && shouldReconnect))
    case GoOnSelecting => w.(loop := Selecting)
    case DialFails => w.(loop := Selecting)
    case DialSucceeds => w.(loop := Dialed(Connection(w.nextConnection)), nextConnection := w.nextConnection + 1)
    case SwapInConnection =>
      w.(loop := ClosingOld(w.core.connection), core := w.core.(connection := Some(w.loop.conn)))
    case CloseOldConnection =>
      w.(loop := Selecting, closedConnections := w.closedConnections + [w.loop.replaced.value])
    case SeeCloseSignal => w.(loop := ExitedClosed)
    case CallClose =>
      w.(closer := Waiting,
         closeReportLoop := CloseUnlessNil(w.closeReportLoop),
         closeMetricsLoop := CloseUnlessNil(w.closeMetricsLoop))
    case GoOnClosing => w.(closer := WantsLastFlush)
    case GiveUpClosing => w.(closer := GaveUp)
    case TakeConnection => w.(closer := Closing(w.core.connection), core := w.core.(connection := None))
    case CloseTakenConnection =>
      w.(closer := ClosedDown,
         closedConnections :=
           w.closedConnections + (if w.closer.conn.Some? then [w.closer.conn.value] else []))
    case TickMetrics => w.(metricsStopped := w.core.disabled)
    case SeeMetricsCloseSignal => w.(metricsStopped := true)
  }

  /** No buffer holds more than its storage. */
  ghost predicate BuffersFit(c: Core) {
    |c.buffer.spans| <= c.buffer.capacity && |c.flushing.spans| <= c.flushing.capacity
  }

  ghost function Recorded(w: World, span: RawSpan): World {
    var h := w.history;
    if !Records(w.core, span) then
      w
    else
      w.(core := SpanRecorded(w.core, span),
         history := h.(
           accepted := h.accepted + multiset{span},
           dropped :=
             if |w.core.buffer.spans| == w.core.buffer.capacity then h.dropped + multiset{span} else h.dropped))
  }

  ghost function FlushStarted(w: World, owner: Owner): World
    requires MayFlush(w, owner)
  {
    match owner
    case Caller => w
    case ReportLoop => w.(loop := LoopFlushing(w.loop.wantReconnect))
    case Closer => w.(closer := LastFlush)
  }

  /** Whoever flushed goes on. */
  ghost function FlushOver(w: World, owner: Owner): World {
    match owner
    case Caller => w
    case ReportLoop => if w.loop.LoopFlushing? then w.(loop := AfterTick(false, w.loop.wantReconnect)) else w
    case Closer => if w.closer == LastFlush then w.(closer := Taking) else w
  }

  ghost function WithErrors(w: World, errors: nat): World {
    w.(core := Encoded(w.core, errors),
       history := w.history.(encoderErrors := w.history.encoderErrors + errors))
  }

  ghost function Translated(u: Setup, w: World, errors: nat, draws: (nat, nat)): World
    requires ValidSetup(u) && w.flight.SwappedBuffers?
  {
    var parts := PartsSent(u.transport, u.opts, w.core.flushing.spans, draws);
    var w' := WithErrors(w, errors);
    w'.(flight := Sending(w.flight.owner, parts, 0, w.core.flushing.droppedSpanCount),
        history := w'.history.(answers := []))
  }

  /** All the spans that these parts carry, as often as they carry them. */
  ghost function Contents(parts: seq<seq<RawSpan>>): multiset<RawSpan>
    decreases |parts|
  {
    if parts == [] then multiset{} else Contents(parts[..|parts| - 1]) + multiset(Last(parts))
  }

  lemma OneMorePart(parts: seq<seq<RawSpan>>, next: nat)
    requires next < |parts|
    ensures Contents(parts[..next + 1]) == Contents(parts[..next]) + multiset(parts[next])
    ensures next + 1 == |parts| ==> Contents(parts) == Contents(parts[..next]) + multiset(parts[next])
  {
    assert parts[..next + 1][..next] == parts[..next];
    assert next + 1 == |parts| ==> parts[..next + 1] == parts;
  }

  /** What a part's reply means for the flush, and for what the collector holds. */
  ghost function PartTaken(w: World, reply: Reply, taken: bool): World
    requires w.flight.Sending? && w.flight.next < |w.flight.parts|
  {
    var f, h := w.flight, w.history;
    var part := if taken then multiset(f.parts[f.next]) else multiset{};
    if ReplyError(reply).Some? then
      w.(flight := Landing(f.owner, ReplyError(reply), f.parts),
         history := h.(
           received := h.received + part,
           takenInVain := h.takenInVain + Contents(f.parts[..f.next]) + part,
           answers := h.answers + [reply]))
    else
      w.(flight := if f.next + 1 == |f.parts| then Landing(f.owner, None, f.parts) else f.(next := f.next + 1),
         history := h.(received := h.received + part, answers := h.answers + [reply]))
  }

  ghost function PartReported(w: World, reply: Reply, taken: bool): World
    requires w.flight.Sending? && w.flight.next < |w.flight.parts|
  {
    var w' := PartTaken(w, reply, taken);
    if reply.Response? && reply.disable then Disabled(w') else w'
  }

  ghost function Disabled(w: World): World {
    var h, b := w.history, w.core.buffer;
    if w.core.disabled then
      w
    else
      w.(core := AfterDisable(w.core),
         history := h.(
           discarded := h.discarded + multiset(b.spans),
           wipedDrops := h.wipedDrops + b.droppedSpanCount,
           wipedUnreported := h.wipedUnreported + Unreported(b),
           wipedErrors := h.wipedErrors + UnreportedErrors(b)))
  }

  ghost function FlushEnded(w: World): World
    requires w.flight.Landing? && BuffersFit(w.core)
  {
    var h, b, f := w.history, w.core.buffer, w.core.flushing;
    var (core, report) := Landed(w.core, w.flight.error);
    var w' := w.(core := core, flight := Grounded);
    var told := h.(status := h.status + [report]);
    match w.flight.error
    case None =>
      w'.(history := told.(
        shipped := h.shipped + [Shipment(f.spans, f.droppedSpanCount, w.flight.parts, h.answers)],
        windows := h.windows + [Window(f.reportStart, f.reportEnd)]))
    case Some(TranslateFailed) =>
      w'.(history := told.(
        discarded := h.discarded + multiset(f.spans),
        wipedDrops := h.wipedDrops + f.droppedSpanCount,
        wipedUnreported := h.wipedUnreported + Unreported(f),
        wipedErrors := h.wipedErrors + UnreportedErrors(f),
        windows := h.windows + [Window(f.reportStart, f.reportEnd)]))
    case Some(_) =>
      w'.(history := told.(dropped := h.dropped + multiset(Overflow(b, f))))
  }

  // ---------------------------------------------------------------------------------------------------------------
  // Runs

  /** Whether `actions` can happen in this order, starting in `w`. */
  ghost predicate Feasible(u: Setup, w: World, actions: seq<Action>)
    requires ValidSetup(u)
    decreases |actions|
  {
    actions == [] ||
    (BuffersFit(w.core) && Enabled(w, actions[0]) && Feasible(u, Next(u, w, actions[0]), actions[1..]))
  }

  ghost function Play(u: Setup, w: World, actions: seq<Action>): World
    requires ValidSetup(u) && Feasible(u, w, actions)
    decreases |actions|
  {
    if actions == [] then w else Play(u, Next(u, w, actions[0]), actions[1..])
  }

  /** Whether some run leads from one world to the other. */
  ghost predicate Leads(u: Setup, w: World, w': World)
    requires ValidSetup(u)
  {
    exists actions :: Feasible(u, w, actions) && w' == Play(u, w, actions)
  }

  lemma NowLeads(u: Setup, w: World)
    requires ValidSetup(u)
    ensures Leads(u, w, w)
  {
    assert Feasible(u, w, []) && w == Play(u, w, []);
  }

  /** One action first, and then a run. */
  lemma StepLeads(u: Setup, w: World, a: Action, w': World)
    requires ValidSetup(u) && BuffersFit(w.core) && Enabled(w, a) && Leads(u, Next(u, w, a), w')
    ensures Leads(u, w, w')
  {
    hide Next;
    hide Enabled;
    var rest :| Feasible(u, Next(u, w, a), rest) && w' == Play(u, Next(u, w, a), rest);
    var run := [a] + rest;
    assert run[0] == a && run[1..] == rest;
    assert Feasible(u, w, run) && w' == Play(u, w, run);
  }

  lemma {:induction false} PlayOn(u: Setup, w: World, first: seq<Action>, second: seq<Action>)
    requires ValidSetup(u) && Feasible(u, w, first) && Feasible(u, Play(u, w, first), second)
    ensures Feasible(u, w, first + second) && Play(u, w, first + second) == Play(u, Play(u, w, first), second)
    decreases |first|
  {
    hide Next;
    hide Enabled;
    hide BuffersFit;
    if first == [] {
      assert first + second == second;
    } else {
      PlayOn(u, Next(u, w, first[0]), first[1..], second);
      assert (first + second)[0] == first[0] && (first + second)[1..] == first[1..] + second;
    }
  }

  /** One run, and then another. */
  lemma LeadsOn(u: Setup, w: World, w': World, w'': World)
    requires ValidSetup(u) && Leads(u, w, w') && Leads(u, w', w'')
    ensures Leads(u, w, w'')
  {
    hide Feasible;
    hide Play;
    var first :| Feasible(u, w, first) && w' == Play(u, w, first);
    var second :| Feasible(u, w', second) && w'' == Play(u, w', second);
    PlayOn(u, w, first, second);
  }

  /** Everything the tracer can come to after it was created at time `t0`. */
  ghost predicate Reachable(u: Setup, t0: Time, w: World)
    requires ValidSetup(u)
  {
    Leads(u, Start(u, t0), w)
  }
}
