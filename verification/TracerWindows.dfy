/** The reporting windows of a tracer's flushes, over every run under a clock that does not go back. */
module TracerWindows {
  import opened Clock
  import opened ReportBuffers
  import opened TracerCore
  import opened TracerMachine
  import opened Wrappers

  /** Up to where the finished windows cover time. */
  ghost function Covered(t0: Time, windows: seq<Window>): Time {
    if windows == [] then t0 else windows[|windows| - 1].end
  }

  /** Each window starts where the one before ends, the first when the tracer was created. */
  ghost predicate Tiles(t0: Time, windows: seq<Window>) {
    && (forall i :: 0 <= i < |windows| ==> windows[i].start <= windows[i].end)
    && (windows != [] ==> windows[0].start == t0)
    && (forall i, j :: 0 <= i < |windows| && 0 <= j < |windows| && j == i + 1 ==> windows[i].end == windows[j].start)
  }

  /**
   The next window is already under way: in the flushing buffer while a flush is in flight, otherwise in the current
   one. After Disable only a flush still in flight matters.
   */
  ghost predicate Timeline(t0: Time, w: World) {
    var covered := Covered(t0, w.history.windows);
    && Tiles(t0, w.history.windows)
    && BuffersFit(w.core)
    && covered <= w.clock
    && (w.flight == Grounded && !w.core.disabled ==> w.core.buffer.reportStart == covered)
    && (w.flight != Grounded ==> w.core.flushing.reportStart == covered <= w.core.flushing.reportEnd <= w.clock)
    && (w.flight != Grounded && !w.core.disabled ==> w.core.buffer.reportStart == w.core.flushing.reportEnd)
  }

  lemma OneMoreWindow(t0: Time, windows: seq<Window>, next: Window)
    requires Tiles(t0, windows) && Covered(t0, windows) == next.start <= next.end
    ensures Tiles(t0, windows + [next]) && Covered(t0, windows + [next]) == next.end
  {
  }

  /** What ending a flush does to the times: a failed one lends its start to the current window. */
  lemma EndKeepsTimeline(t0: Time, w: World)
    requires Timeline(t0, w) && w.flight.Landing?
    ensures Timeline(t0, FlushEnded(w))
  {
    var f, w' := w.core.flushing, FlushEnded(w);
    if w.flight.error == None || w.flight.error == Some(TranslateFailed) {
      OneMoreWindow(t0, w.history.windows, Window(f.reportStart, f.reportEnd));
      assert w'.history.windows == w.history.windows + [Window(f.reportStart, f.reportEnd)];
      assert w'.core.buffer.reportStart == w.core.buffer.reportStart;
    } else {
      assert w'.history.windows == w.history.windows;
    }
  }

  lemma EndStepKeepsTimeline(u: Setup, t0: Time, w: World)
    requires ValidSetup(u) && Timeline(t0, w) && w.flight.Landing?
    ensures Timeline(t0, Next(u, w, EndFlush))
  {
    EndKeepsTimeline(t0, w);
    var w' := FlushEnded(w);
    var next := FlushOver(w', w.flight.owner);
    assert next.core == w'.core && next.history == w'.history && next.flight == w'.flight && next.clock == w'.clock;
  }

  lemma PartStepKeepsTimeline(t0: Time, w: World, reply: Reply, taken: bool)
    requires Timeline(t0, w) && Enabled(w, ReportPart(reply, taken))
    ensures Timeline(t0, PartReported(w, reply, taken))
  {
    assert Timeline(t0, PartTaken(w, reply, taken));
  }

  lemma OtherStepsKeepTimeline(u: Setup, t0: Time, w: World, a: Action)
    requires ValidSetup(u) && Timeline(t0, w) && Enabled(w, a)
    requires !a.EndFlush? && !a.ReportPart? && !a.BeginFlush?
    ensures Timeline(t0, Next(u, w, a))
  {
    var w' := Next(u, w, a);
    assert w'.history.windows == w.history.windows && w'.clock >= w.clock;
    assert w'.flight == Grounded <==> w.flight == Grounded;
    assert w'.core.disabled || w'.core.buffer.reportStart == w.core.buffer.reportStart;
  }

  lemma StepKeepsTimeline(u: Setup, t0: Time, w: World, a: Action)
    requires ValidSetup(u) && Timeline(t0, w) && Enabled(w, a)
    ensures Timeline(t0, Next(u, w, a))
  {
    match a
    case EndFlush => EndStepKeepsTimeline(u, t0, w);
    case ReportPart(reply, taken) => PartStepKeepsTimeline(t0, w, reply, taken);
    case BeginFlush(_, _) =>
    case _ => OtherStepsKeepTimeline(u, t0, w, a);
  }

  lemma {:induction false} PlayKeepsTimeline(u: Setup, t0: Time, w: World, actions: seq<Action>)
    requires ValidSetup(u) && Feasible(u, w, actions) && Timeline(t0, w)
    ensures Timeline(t0, Play(u, w, actions))
    decreases |actions|
  {
    if actions != [] {
      StepKeepsTimeline(u, t0, w, actions[0]);
      PlayKeepsTimeline(u, t0, Next(u, w, actions[0]), actions[1..]);
    }
  }

  /**
   In every run the windows of the flushes that succeeded or did not translate tile the time since the tracer was
   created, without gap or overlap: the window of a flush that could not be sent becomes part of the next one. The
   window of a flush in flight goes on where they end, and until Disable the current window goes on from there.
   */
  lemma WindowsTileTime(u: Setup, t0: Time, w: World)
    requires ValidSetup(u) && Reachable(u, t0, w)
    ensures Tiles(t0, w.history.windows)
    ensures
      var covered := Covered(t0, w.history.windows);
      && covered <= w.clock
      && (w.flight == Grounded && !w.core.disabled ==> w.core.buffer.reportStart == covered)
      && (w.flight != Grounded ==> w.core.flushing.reportStart == covered <= w.core.flushing.reportEnd <= w.clock)
      && (w.flight != Grounded && !w.core.disabled ==> w.core.buffer.reportStart == w.core.flushing.reportEnd)
  {
    var actions :| Feasible(u, Start(u, t0), actions) && w == Play(u, Start(u, t0), actions);
    PlayKeepsTimeline(u, t0, Start(u, t0), actions);
  }
}
