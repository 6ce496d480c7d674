/** What a disabled tracer still holds: nothing but the spans of a flush that was in flight and failed to be sent. */
module TracerDisabled {
  import opened Clock
  import opened ReportBuffers
  import opened TracerCore
  import opened TracerLedgers
  import opened TracerMachine
  import opened Wrappers

  /** While a flush outlives Disable, the buffer it left behind is empty. */
  ghost predicate EmptyInFlight(w: World) {
    w.core.disabled && w.flight != Grounded ==> w.core.buffer.spans == []
  }

  lemma StepKeepsEmpty(u: Setup, w: World, a: Action)
    requires ValidSetup(u) && BuffersFit(w.core) && EmptyInFlight(w) && Enabled(w, a)
    ensures EmptyInFlight(Next(u, w, a))
  {
    hide Contents;
    if a.EndFlush? {
      assert Next(u, w, a).flight == Grounded;
    } else if a.ReportPart? {
      assert PartTaken(w, a.reply, a.taken).core == w.core;
    }
  }

  lemma {:induction false} PlayKeepsEmpty(u: Setup, w: World, actions: seq<Action>)
    requires ValidSetup(u) && Feasible(u, w, actions) && EmptyInFlight(w)
    ensures EmptyInFlight(Play(u, w, actions))
    decreases |actions|
  {
    if actions != [] {
      StepKeepsEmpty(u, w, actions[0]);
      PlayKeepsEmpty(u, Next(u, w, actions[0]), actions[1..]);
    }
  }

  /** In every run, a disabled tracer with a flush in flight has an empty buffer. */
  lemma DisabledInFlightIsEmpty(u: Setup, t0: Time, w: World)
    requires ValidSetup(u) && Reachable(u, t0, w)
    ensures EmptyInFlight(w)
  {
    var actions :| Feasible(u, Start(u, t0), actions) && w == Play(u, Start(u, t0), actions);
    PlayKeepsEmpty(u, Start(u, t0), actions);
  }

  /** A flush that was sent, or did not translate, is not merged back. */
  ghost predicate FailedToSend(error: Option<FlushError>) {
    error.Some? && error != Some(TranslateFailed)
  }

  /**
   What a flush that outlives Disable leaves in the buffer, in every run: all its spans when it failed to be sent, and
   nothing otherwise.
   */
  lemma OutlivingFlushLeaves(u: Setup, t0: Time, w: World)
    requires ValidSetup(u) && Reachable(u, t0, w) && w.core.disabled && w.flight.Landing?
    ensures BuffersFit(w.core)
    ensures FlushEnded(w).core.buffer.spans == if FailedToSend(w.flight.error) then w.core.flushing.spans else []
  {
    BooksBalance(u, t0, w);
    DisabledInFlightIsEmpty(u, t0, w);
    var f := w.core.flushing.spans;
    assert f[..|f|] == f;
  }

  /**
   When a disabled tracer comes to hold spans, in every run: exactly when a flush in flight that holds spans ends and
   has failed to be sent.
   */
  lemma RefillsIff(u: Setup, t0: Time, w: World, a: Action)
    requires ValidSetup(u) && Reachable(u, t0, w) && w.core.disabled && w.core.buffer.spans == [] && Enabled(w, a)
    ensures BuffersFit(w.core)
    ensures
      Next(u, w, a).core.buffer.spans != [] <==>
      a.EndFlush? && FailedToSend(w.flight.error) && w.core.flushing.spans != []
  {
    BuffersAlwaysFit(u, t0, w);
    if a.EndFlush? {
      OutlivingFlushLeaves(u, t0, w);
      assert Next(u, w, a).core == FlushEnded(w).core;
    } else {
      StaysEmpty(u, w, a);
    }
  }

  lemma StaysEmpty(u: Setup, w: World, a: Action)
    requires ValidSetup(u) && BuffersFit(w.core) && w.core.disabled && w.core.buffer.spans == []
    requires Enabled(w, a) && !a.EndFlush?
    ensures Next(u, w, a).core.buffer.spans == []
  {
    hide Contents;
  }

  /** Disable itself leaves nothing in the buffer. */
  lemma DisableEmpties(u: Setup, t0: Time, w: World)
    requires ValidSetup(u) && Reachable(u, t0, w) && !w.core.disabled
    ensures Disabled(w).core.disabled && Disabled(w).core.buffer == Empty(u.opts.maxBufferedSpans)
  {
    BooksBalance(u, t0, w);
  }
}
