/**
 How regularly the report loop makes the tracer report: when its ticks come in time and the flush that a tick asks for
 is not kept waiting, attempts are never further apart than the reporting period.
 */
module TracerTicks {
  import opened Clock
  import opened ReportBuffers
  import opened TracerLifecycle
  import opened TracerMachine

  ghost predicate WantsFlush(w: World) {
    w.loop.AfterTick? && w.loop.wantFlush
  }

  /** At most one minimum period after the last tick, and before time goes on for a wanted flush. */
  ghost predicate InTime(u: Setup, w: World, lastTick: Time, a: Action) {
    match a
    case Tick(now, _) => now <= lastTick + u.opts.minReportingPeriod
    case BeginFlush(_, now) => now <= lastTick + u.opts.minReportingPeriod && (WantsFlush(w) ==> now == w.clock)
    case _ => true
  }

  function TickAfter(lastTick: Time, a: Action): Time {
    if a.Tick? then a.now else lastTick
  }

  /** A run in which everything happens in time. */
  ghost predicate InTimeThroughout(u: Setup, w: World, lastTick: Time, actions: seq<Action>)
    requires ValidSetup(u) && Feasible(u, w, actions)
    decreases |actions|
  {
    actions != [] ==>
      && InTime(u, w, lastTick, actions[0])
      && InTimeThroughout(u, Next(u, w, actions[0]), TickAfter(lastTick, actions[0]), actions[1..])
  }

  function LastTick(lastTick: Time, actions: seq<Action>): Time
    decreases |actions|
  {
    if actions == [] then lastTick else LastTick(TickAfter(lastTick, actions[0]), actions[1..])
  }

  /** When the tracer last tried to report, or was created. */
  function LastAttempt(t0: Time, w: World): Time {
    if w.core.lastReportAttempt > t0 then w.core.lastReportAttempt else t0
  }

  /** The reporting period, unless the loop ticks less often than that. */
  function Regularity(u: Setup): Time {
    if u.opts.reportingPeriod > u.opts.minReportingPeriod then u.opts.reportingPeriod else u.opts.minReportingPeriod
  }

  ghost predicate LoopAlive(w: World) {
    !w.core.disabled && w.loop != ExitedClosed && w.loop != ExitedDisabled
  }

  ghost predicate ClockInTime(u: Setup, w: World, lastTick: Time) {
    && lastTick <= w.clock <= lastTick + u.opts.minReportingPeriod
    && w.core.lastReportAttempt <= w.clock
  }

  /** A tick asked for a flush that is due, the loop is at it, or the last attempt will do until the next tick. */
  ghost predicate AttemptInTime(u: Setup, t0: Time, w: World, lastTick: Time) {
    LoopAlive(w) ==>
      if WantsFlush(w) then w.clock == lastTick && lastTick - LastAttempt(t0, w) <= Regularity(u)
      else if w.loop.LoopFlushing? then LastAttempt(t0, w) >= lastTick
      else lastTick + u.opts.minReportingPeriod - LastAttempt(t0, w) <= Regularity(u)
  }

  ghost predicate Regular(u: Setup, t0: Time, w: World, lastTick: Time) {
    ClockInTime(u, w, lastTick) && AttemptInTime(u, t0, w, lastTick)
  }

  lemma TickKeepsRegular(u: Setup, t0: Time, w: World, lastTick: Time, now: Time, shouldReconnect: bool)
    requires ValidSetup(u) && BuffersFit(w.core) && Regular(u, t0, w, lastTick) && u.opts.minReportingPeriod >= 0
    requires Enabled(w, Tick(now, shouldReconnect)) && InTime(u, w, lastTick, Tick(now, shouldReconnect))
    ensures Regular(u, t0, Next(u, w, Tick(now, shouldReconnect)), now)
  {
  }

  lemma BeginKeepsRegular(u: Setup, t0: Time, w: World, lastTick: Time, owner: Owner, now: Time)
    requires ValidSetup(u) && BuffersFit(w.core) && Orderly(w) && Regular(u, t0, w, lastTick)
    requires Enabled(w, BeginFlush(owner, now)) && InTime(u, w, lastTick, BeginFlush(owner, now))
    ensures Regular(u, t0, Next(u, w, BeginFlush(owner, now)), lastTick)
  {
    hide ConnectionsBalance;
    assert Next(u, w, BeginFlush(owner, now)).core.lastReportAttempt == now;
  }

  lemma RefusalKeepsRegular(u: Setup, t0: Time, w: World, lastTick: Time, owner: Owner)
    requires ValidSetup(u) && BuffersFit(w.core) && Orderly(w) && Regular(u, t0, w, lastTick)
    requires Enabled(w, RefuseFlush(owner))
    ensures Regular(u, t0, Next(u, w, RefuseFlush(owner)), lastTick)
  {
    hide ConnectionsBalance;
  }

  lemma EndKeepsRegular(u: Setup, t0: Time, w: World, lastTick: Time)
    requires ValidSetup(u) && BuffersFit(w.core) && Orderly(w) && Regular(u, t0, w, lastTick) && w.flight.Landing?
    ensures Regular(u, t0, Next(u, w, EndFlush), lastTick)
  {
    LandingIsOnlyData(w);
    var w' := FlushEnded(w);
    assert w'.core.lastReportAttempt == w.core.lastReportAttempt && w'.clock == w.clock;
    hide FlushEnded;
    hide ConnectionsBalance;
  }

  lemma DataKeepsRegular(u: Setup, t0: Time, w: World, lastTick: Time, a: Action)
    requires ValidSetup(u) && BuffersFit(w.core) && Regular(u, t0, w, lastTick) && Enabled(w, a) && DataAction(a)
    ensures Regular(u, t0, Next(u, w, a), lastTick)
  {
    hide Contents;
    DataActionsAreOnlyData(u, w, a);
    var w' := Next(u, w, a);
    if a.ReportPart? {
      assert PartTaken(w, a.reply, a.taken).core == w.core && PartTaken(w, a.reply, a.taken).clock == w.clock;
    }
    assert w'.core.lastReportAttempt == w.core.lastReportAttempt && w'.clock == w.clock;
  }

  lemma OtherStepsKeepRegular(u: Setup, t0: Time, w: World, lastTick: Time, a: Action)
    requires ValidSetup(u) && BuffersFit(w.core) && Regular(u, t0, w, lastTick) && Enabled(w, a)
    requires !DataAction(a) && !a.Tick? && !a.BeginFlush? && !a.RefuseFlush? && !a.EndFlush?
    ensures Regular(u, t0, Next(u, w, a), lastTick)
  {
  }

  lemma StepKeepsRegular(u: Setup, t0: Time, w: World, lastTick: Time, a: Action)
    requires ValidSetup(u) && BuffersFit(w.core) && Orderly(w) && u.opts.minReportingPeriod >= 0
    requires Regular(u, t0, w, lastTick) && Enabled(w, a) && InTime(u, w, lastTick, a)
    ensures Regular(u, t0, Next(u, w, a), TickAfter(lastTick, a))
  {
    hide Regular;
    match a
    case Tick(now, shouldReconnect) => TickKeepsRegular(u, t0, w, lastTick, now, shouldReconnect);
    case BeginFlush(owner, now) => BeginKeepsRegular(u, t0, w, lastTick, owner, now);
    case RefuseFlush(owner) => RefusalKeepsRegular(u, t0, w, lastTick, owner);
    case EndFlush => EndKeepsRegular(u, t0, w, lastTick);
    case _ =>
      if DataAction(a) {
        DataKeepsRegular(u, t0, w, lastTick, a);
      } else {
        OtherStepsKeepRegular(u, t0, w, lastTick, a);
      }
  }

  lemma {:induction false} PlayKeepsRegular(u: Setup, t0: Time, w: World, lastTick: Time, actions: seq<Action>)
    requires ValidSetup(u) && Feasible(u, w, actions) && InTimeThroughout(u, w, lastTick, actions)
    requires Orderly(w) && Regular(u, t0, w, lastTick) && u.opts.minReportingPeriod >= 0
    ensures Regular(u, t0, Play(u, w, actions), LastTick(lastTick, actions))
    decreases |actions|
  {
    if actions != [] {
      StepKeepsRegular(u, t0, w, lastTick, actions[0]);
      StepKeepsOrder(u, w, actions[0]);
      PlayKeepsRegular(u, t0, Next(u, w, actions[0]), TickAfter(lastTick, actions[0]), actions[1..]);
    }
  }

  lemma StartIsRegular(u: Setup, t0: Time)
    requires u.opts.minReportingPeriod >= 0 && t0 >= ZERO_TIME
    ensures Orderly(Start(u, t0)) && Regular(u, t0, Start(u, t0), t0)
  {
  }

  /**
   Over every run in which ticks come at most one minimum period apart and no wanted flush is kept waiting, as long as
   the report loop is alive: it is never longer than the reporting period since the last attempt, so the next one comes
   in time too. (A loop that ticks less often than that attempts at every tick.)
   */
  lemma AttemptsAreRegular(u: Setup, t0: Time, actions: seq<Action>, owner: Owner, now: Time)
    requires ValidSetup(u) && Feasible(u, Start(u, t0), actions) && InTimeThroughout(u, Start(u, t0), t0, actions)
    requires u.opts.minReportingPeriod >= 0 && t0 >= ZERO_TIME
    ensures
      var w := Play(u, Start(u, t0), actions);
      LoopAlive(w) ==>
        && w.clock - LastAttempt(t0, w) <= Regularity(u)
        && (Enabled(w, BeginFlush(owner, now)) && InTime(u, w, LastTick(t0, actions), BeginFlush(owner, now)) ==>
              now - LastAttempt(t0, w) <= Regularity(u))
  {
    StartIsRegular(u, t0);
    PlayKeepsRegular(u, t0, Start(u, t0), t0, actions);
    PlayKeepsOrder(u, Start(u, t0), actions);
  }
}
