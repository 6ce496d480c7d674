/**
 How a tracer ends: its connections, its report loop, `Close` and `Disable`, over every run.
 */
module TracerLifecycle {
  import opened Clock
  import opened Multisets
  import opened ReportBuffers
  import opened TracerCore
  import opened TracerLedgers
  import opened TracerMachine
  import opened Wrappers

  // ---------------------------------------------------------------------------------------------------------------
  // Connections

  /** The connections somebody holds open: the tracer's, one just dialed, one replaced, and one taken by Close. */
  ghost function Open(w: World): multiset<Connection> {
    (if w.core.connection.Some? then multiset{w.core.connection.value} else multiset{})
    + (if w.loop.Dialed? then multiset{w.loop.conn} else multiset{})
    + (if w.loop.ClosingOld? && w.loop.replaced.Some? then multiset{w.loop.replaced.value} else multiset{})
    + (if w.closer.Closing? && w.closer.conn.Some? then multiset{w.closer.conn.value} else multiset{})
  }

  /** Every connection ever made is open or closed, once. */
  ghost predicate ConnectionsBalance(w: World) {
    && w.nextConnection > 0
    && (forall c: Connection ::
          (Open(w) + multiset(w.closedConnections))[c] == if c.id < w.nextConnection then 1 else 0)
  }

  ghost predicate PastTheLoop(closer: CloseState) {
    closer == WantsLastFlush || closer == LastFlush || closer == Taking || closer.Closing? || closer == ClosedDown
  }

  /** Where the report loop and Close can be, relative to each other and to the connection. */
  ghost predicate Protocol(w: World) {
    && (w.core.connection == None <==> w.closer.Closing? || w.closer == ClosedDown)
    && (PastTheLoop(w.closer) ==> w.loop == ExitedClosed)
    && (w.loop == ExitedClosed ==> w.closer != NotClosing)
    && w.closeReportLoop == (if w.closer == NotClosing then OpenSignal else ClosedSignal)
    && w.closeMetricsLoop == NilSignal
    && (w.loop == ExitedDisabled ==> w.core.disabled)
    && (w.loop.ClosingOld? ==> w.loop.replaced.Some?)
    && (w.closer.Closing? ==> w.closer.conn.Some?)
    && (w.metricsStopped ==> w.core.disabled)
  }

  /** The flushing lock is held by whoever is in the middle of a flush. */
  ghost predicate OwnersAgree(w: World) {
    && (w.loop.LoopFlushing? <==> w.flight != Grounded && w.flight.owner == ReportLoop)
    && (w.closer == LastFlush <==> w.flight != Grounded && w.flight.owner == Closer)
  }

  ghost predicate Orderly(w: World) {
    ConnectionsBalance(w) && Protocol(w) && OwnersAgree(w)
  }

  /** Steps of a flush and of its callers that leave connections and loops alone. Disabling is for good. */
  ghost predicate OnlyData(w: World, w': World) {
    && w'.core.connection == w.core.connection && (w.core.disabled ==> w'.core.disabled)
    && w'.loop == w.loop && w'.closer == w.closer && w'.metricsStopped == w.metricsStopped
    && w'.closeReportLoop == w.closeReportLoop && w'.closeMetricsLoop == w.closeMetricsLoop
    && w'.nextConnection == w.nextConnection && w'.closedConnections == w.closedConnections
  }

  ghost predicate SameFlight(w: World, w': World) {
    (w'.flight == Grounded <==> w.flight == Grounded) && (w.flight != Grounded ==> w'.flight.owner == w.flight.owner)
  }

  ghost predicate DataAction(a: Action) {
    a.Record? || a.FailTranslate? || a.Translate? || a.ReportPart? || a.DisableTracer?
  }

  lemma DataActionsAreOnlyData(u: Setup, w: World, a: Action)
    requires ValidSetup(u) && BuffersFit(w.core) && Enabled(w, a) && DataAction(a)
    ensures OnlyData(w, Next(u, w, a)) && SameFlight(w, Next(u, w, a))
  {
    if a.ReportPart? {
      assert OnlyData(w, PartTaken(w, a.reply, a.taken)) && SameFlight(w, PartTaken(w, a.reply, a.taken));
    }
  }

  lemma OnlyDataKeepsOrder(w: World, w': World)
    requires Orderly(w) && OnlyData(w, w') && SameFlight(w, w')
    ensures Orderly(w')
  {
    assert Open(w') == Open(w);
  }

  lemma LandingIsOnlyData(w: World)
    requires w.flight.Landing? && BuffersFit(w.core)
    ensures OnlyData(w, FlushEnded(w)) && FlushEnded(w).flight == Grounded
  {
  }

  lemma BalanceCarriesOver(w: World, w': World)
    requires ConnectionsBalance(w) && w'.nextConnection == w.nextConnection
    requires Open(w') + multiset(w'.closedConnections) == Open(w) + multiset(w.closedConnections)
    ensures ConnectionsBalance(w')
  {
  }

  lemma BeginningKeepsOrder(u: Setup, w: World, owner: Owner, now: Time)
    requires ValidSetup(u) && BuffersFit(w.core) && Orderly(w) && Enabled(w, BeginFlush(owner, now))
    ensures Orderly(Next(u, w, BeginFlush(owner, now)))
  {
    var w' := Next(u, w, BeginFlush(owner, now));
    assert Open(w') == Open(w);
    BalanceCarriesOver(w, w');
  }

  lemma RefusingKeepsOrder(u: Setup, w: World, owner: Owner)
    requires ValidSetup(u) && BuffersFit(w.core) && Orderly(w) && Enabled(w, RefuseFlush(owner))
    ensures Orderly(Next(u, w, RefuseFlush(owner)))
  {
    var w' := Next(u, w, RefuseFlush(owner));
    assert Open(w') == Open(w);
    BalanceCarriesOver(w, w');
  }

  lemma EndingKeepsOrder(u: Setup, w: World)
    requires ValidSetup(u) && BuffersFit(w.core) && Orderly(w) && Enabled(w, EndFlush)
    ensures Orderly(Next(u, w, EndFlush))
  {
    LandingIsOnlyData(w);
    GoingOnKeepsOrder(w, FlushEnded(w));
  }

  lemma GoingOnKeepsOrder(w: World, landed: World)
    requires Orderly(w) && w.flight != Grounded && OnlyData(w, landed) && landed.flight == Grounded
    ensures Orderly(FlushOver(landed, w.flight.owner))
  {
    var w' := FlushOver(landed, w.flight.owner);
    assert Open(w') == Open(w);
    BalanceCarriesOver(w, w');
  }

  lemma ClosingKeepsOrder(u: Setup, w: World, a: Action)
    requires ValidSetup(u) && BuffersFit(w.core) && Orderly(w) && Enabled(w, a)
    requires a.CallClose? || a.GoOnClosing? || a.GiveUpClosing?
    ensures Orderly(Next(u, w, a))
  {
    assert Open(Next(u, w, a)) == Open(w);
  }

  lemma TakingKeepsOrder(u: Setup, w: World, a: Action)
    requires ValidSetup(u) && BuffersFit(w.core) && Orderly(w) && Enabled(w, a)
    requires a.TakeConnection? || a.CloseTakenConnection?
    ensures Orderly(Next(u, w, a))
  {
    BalanceCarriesOver(w, Next(u, w, a));
  }

  lemma LoopKeepsOrder(u: Setup, w: World, a: Action)
    requires ValidSetup(u) && BuffersFit(w.core) && Orderly(w) && Enabled(w, a)
    requires
      || a.Tick? || a.GoOnSelecting? || a.DialFails? || a.SeeCloseSignal?
      || a.TickMetrics? || a.SeeMetricsCloseSignal?
    ensures Orderly(Next(u, w, a))
  {
    assert Open(Next(u, w, a)) == Open(w);
  }

  lemma DialKeepsOrder(u: Setup, w: World)
    requires ValidSetup(u) && BuffersFit(w.core) && Orderly(w) && Enabled(w, DialSucceeds)
    ensures Orderly(Next(u, w, DialSucceeds))
  {
    assert Open(Next(u, w, DialSucceeds)) == Open(w) + multiset{Connection(w.nextConnection)};
  }

  lemma ReplacingKeepsOrder(u: Setup, w: World, a: Action)
    requires ValidSetup(u) && BuffersFit(w.core) && Orderly(w) && Enabled(w, a)
    requires a.SwapInConnection? || a.CloseOldConnection?
    ensures Orderly(Next(u, w, a))
  {
    BalanceCarriesOver(w, Next(u, w, a));
  }

  lemma StepKeepsOrder(u: Setup, w: World, a: Action)
    requires ValidSetup(u) && BuffersFit(w.core) && Orderly(w) && Enabled(w, a)
    ensures Orderly(Next(u, w, a))
  {
    if DataAction(a) {
      DataActionsAreOnlyData(u, w, a);
      OnlyDataKeepsOrder(w, Next(u, w, a));
    } else if a.BeginFlush? {
      BeginningKeepsOrder(u, w, a.owner, a.now);
    } else if a.RefuseFlush? {
      RefusingKeepsOrder(u, w, a.owner);
    } else if a.EndFlush? {
      EndingKeepsOrder(u, w);
    } else if a.DialSucceeds? {
      DialKeepsOrder(u, w);
    } else if a.SwapInConnection? || a.CloseOldConnection? {
      ReplacingKeepsOrder(u, w, a);
    } else if a.TakeConnection? || a.CloseTakenConnection? {
      TakingKeepsOrder(u, w, a);
    } else if a.CallClose? || a.GoOnClosing? || a.GiveUpClosing? {
      ClosingKeepsOrder(u, w, a);
    } else {
      LoopKeepsOrder(u, w, a);
    }
  }

  lemma {:induction false} PlayKeepsOrder(u: Setup, w: World, actions: seq<Action>)
    requires ValidSetup(u) && Feasible(u, w, actions) && Orderly(w)
    ensures Orderly(Play(u, w, actions))
    decreases |actions|
  {
    if actions != [] {
      StepKeepsOrder(u, w, actions[0]);
      PlayKeepsOrder(u, Next(u, w, actions[0]), actions[1..]);
    }
  }

  lemma AlwaysOrderly(u: Setup, t0: Time, w: World)
    requires ValidSetup(u) && Reachable(u, t0, w)
    ensures Orderly(w)
  {
    var actions :| Feasible(u, Start(u, t0), actions) && w == Play(u, Start(u, t0), actions);
    PlayKeepsOrder(u, Start(u, t0), actions);
  }

  /** In every run: no connection is closed twice, none is lost, and reconnecting never closes a nil connection. */
  lemma ConnectionsAreClosedOnce(u: Setup, t0: Time, w: World)
    requires ValidSetup(u) && Reachable(u, t0, w)
    ensures forall i, j :: 0 <= i < j < |w.closedConnections| ==> w.closedConnections[i] != w.closedConnections[j]
    ensures forall c: Connection :: c.id < w.nextConnection <==> c in w.closedConnections || c in Open(w)
    ensures forall c: Connection :: c in Open(w) ==> c !in w.closedConnections
    ensures w.loop.ClosingOld? ==> Enabled(w, CloseOldConnection)
  {
    AlwaysOrderly(u, t0, w);
    var all := Open(w) + multiset(w.closedConnections);
    forall i, j | 0 <= i < j < |w.closedConnections| ensures w.closedConnections[i] != w.closedConnections[j] {
      if w.closedConnections[i] == w.closedConnections[j] {
        TwiceInMultiset(w.closedConnections, i, j);
      }
      assert all[w.closedConnections[i]] <= 1;
    }
    forall c: Connection
      ensures c.id < w.nextConnection <==> c in w.closedConnections || c in Open(w)
      ensures c in Open(w) ==> c !in w.closedConnections
    {
      assert all[c] == Open(w)[c] + multiset(w.closedConnections)[c];
    }
  }

  // ---------------------------------------------------------------------------------------------------------------
  // For good

  /** A closed tracer stays closed, and a disabled one disabled. */
  lemma StepKeepsTheEnd(u: Setup, w: World, a: Action)
    requires ValidSetup(u) && BuffersFit(w.core) && Orderly(w) && Enabled(w, a)
    ensures w.core.connection == None ==> Next(u, w, a).core.connection == None
    ensures w.core.disabled ==> Next(u, w, a).core.disabled
    ensures w.loop == ExitedDisabled ==> Next(u, w, a).loop == ExitedDisabled
  {
    if DataAction(a) {
      DataActionsAreOnlyData(u, w, a);
    } else if a.EndFlush? {
      LandingIsOnlyData(w);
    }
  }

  lemma {:induction false} PlayKeepsTheEnd(u: Setup, w: World, actions: seq<Action>)
    requires ValidSetup(u) && Feasible(u, w, actions) && Orderly(w)
    ensures Orderly(Play(u, w, actions))
    ensures w.core.connection == None ==> Play(u, w, actions).core.connection == None
    ensures w.core.disabled ==> Play(u, w, actions).core.disabled
    ensures w.loop == ExitedDisabled ==> Play(u, w, actions).loop == ExitedDisabled
    decreases |actions|
  {
    if actions != [] {
      StepKeepsOrder(u, w, actions[0]);
      StepKeepsTheEnd(u, w, actions[0]);
      PlayKeepsTheEnd(u, Next(u, w, actions[0]), actions[1..]);
    }
  }

  /** A nil connection means the report loop is gone. It stays nil, and no flush passes preFlush any more. */
  lemma NilConnectionIsForGood(u: Setup, t0: Time, w: World, w': World, owner: Owner, now: Time)
    requires ValidSetup(u) && Reachable(u, t0, w) && Leads(u, w, w') && w.core.connection == None
    ensures w'.core.connection == None && w'.loop == ExitedClosed
    ensures !Enabled(w', BeginFlush(owner, now))
  {
    AlwaysOrderly(u, t0, w);
    var actions :| Feasible(u, w, actions) && w' == Play(u, w, actions);
    PlayKeepsTheEnd(u, w, actions);
  }

  /**
   Once the report loop has exited because the tracer was disabled, Close can only wait until its context ends: it
   never takes the connection, which stays open for good.
   */
  lemma DisabledLoopStrandsClose(u: Setup, t0: Time, w: World, w': World)
    requires ValidSetup(u) && Reachable(u, t0, w) && Leads(u, w, w') && w.loop == ExitedDisabled
    ensures w'.closer == NotClosing || w'.closer == Waiting || w'.closer == GaveUp
    ensures w'.core.connection.Some? && w'.core.connection.value !in w'.closedConnections
  {
    AlwaysOrderly(u, t0, w);
    var actions :| Feasible(u, w, actions) && w' == Play(u, w, actions);
    PlayKeepsTheEnd(u, w, actions);
    var c := w'.core.connection.value;
    assert (Open(w') + multiset(w'.closedConnections))[c] <= 1;
    assert c in Open(w');
  }

  /**
   The metrics loop only ever ends because the tracer was disabled: the channel on which it waits for `Close` is nil in
   every run, so closing the tracer does not stop it.
   */
  lemma CloseDoesNotStopMetrics(u: Setup, t0: Time, w: World)
    requires ValidSetup(u) && Reachable(u, t0, w)
    ensures w.closeMetricsLoop == NilSignal
    ensures w.metricsStopped ==> w.core.disabled
  {
    AlwaysOrderly(u, t0, w);
  }

  /** What ends the metrics loop, in every run: a tick that finds the tracer disabled, and nothing else. */
  lemma MetricsLoopEndsIff(u: Setup, t0: Time, w: World, a: Action)
    requires ValidSetup(u) && Reachable(u, t0, w) && !w.metricsStopped && Enabled(w, a)
    ensures BuffersFit(w.core)
    ensures Next(u, w, a).metricsStopped <==> a.TickMetrics? && w.core.disabled
  {
    AlwaysOrderly(u, t0, w);
    BuffersAlwaysFit(u, t0, w);
    assert w.closeMetricsLoop == NilSignal;
    hide Orderly;
    hide Reachable;
    if DataAction(a) {
      DataActionsAreOnlyData(u, w, a);
      hide Next;
    } else if a.EndFlush? {
      LandingIsOnlyData(w);
      hide FlushEnded;
    } else {
      OnlyTicksEndMetrics(u, w, a);
      hide Next;
    }
  }

  lemma OnlyTicksEndMetrics(u: Setup, w: World, a: Action)
    requires ValidSetup(u) && BuffersFit(w.core) && !w.metricsStopped && w.closeMetricsLoop == NilSignal
    requires Enabled(w, a) && !DataAction(a) && !a.EndFlush?
    ensures Next(u, w, a).metricsStopped <==> a.TickMetrics? && w.core.disabled
  {
  }

  // ---------------------------------------------------------------------------------------------------------------
  // After Disable

  /** A disabled tracer with no flush in flight: nothing it holds or tells changes any more. */
  lemma StepAfterDisable(u: Setup, w: World, a: Action)
    requires ValidSetup(u) && BuffersFit(w.core) && Enabled(w, a) && w.core.disabled && w.flight == Grounded
    ensures
      var w' := Next(u, w, a);
      w'.core.disabled && w'.flight == Grounded && w'.core.buffer == w.core.buffer && w'.history == w.history
  {
  }

  lemma {:induction false} PlayAfterDisable(u: Setup, w: World, actions: seq<Action>)
    requires ValidSetup(u) && Feasible(u, w, actions) && w.core.disabled && w.flight == Grounded
    ensures Play(u, w, actions).core.buffer == w.core.buffer && Play(u, w, actions).history == w.history
    decreases |actions|
  {
    if actions != [] {
      StepAfterDisable(u, w, actions[0]);
      PlayAfterDisable(u, Next(u, w, actions[0]), actions[1..]);
    }
  }

  /**
   Disabling is silent for good: once no flush is in flight, nothing is accepted, shipped, told or received any more,
   and spans that a failed flush merged back after Disable stay where they are.
   */
  lemma DisabledTracerIsSilent(u: Setup, w: World, w': World)
    requires ValidSetup(u) && Leads(u, w, w') && w.core.disabled && w.flight == Grounded
    ensures w'.core.buffer == w.core.buffer && w'.history == w.history
  {
    var actions :| Feasible(u, w, actions) && w' == Play(u, w, actions);
    PlayAfterDisable(u, w, actions);
  }
}
