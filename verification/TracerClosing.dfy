/** How far `Close` gets: to the connection, unless the report loop has ended because the tracer was disabled. */
module TracerClosing {
  import opened Clock
  import opened ReportBuffers
  import opened TracerCore
  import opened TracerLedgers
  import opened TracerLifecycle
  import opened TracerMachine

  /** What holds in every run. */
  ghost predicate Good(u: Setup, w: World) {
    Books(u, w) && Orderly(w)
  }

  lemma GoodFacts(u: Setup, w: World)
    requires Good(u, w)
    ensures BuffersFit(w.core)
    ensures w.flight.Sending? ==> w.flight.next < |w.flight.parts|
    ensures w.loop.ClosingOld? ==> w.loop.replaced.Some?
    ensures w.closer == Waiting ==> w.closeReportLoop == ClosedSignal
    ensures w.loop.LoopFlushing? <==> w.flight != Grounded && w.flight.owner == ReportLoop
    ensures w.closer == LastFlush <==> w.flight != Grounded && w.flight.owner == Closer
  {
    hide ConnectionsBalance;
    hide Ledgers;
  }

  /** One more action. */
  lemma Go(u: Setup, w: World, a: Action) returns (w': World)
    requires ValidSetup(u) && Good(u, w) && Enabled(w, a)
    ensures BuffersFit(w.core) && w' == Next(u, w, a) && Good(u, w') && Leads(u, w, w')
  {
    hide Books;
    hide Orderly;
    assert BuffersFit(w.core) by { GoodFacts(u, w); }
    hide Enabled;
    hide Next;
    StepKeepsBooks(u, w, a);
    StepKeepsOrder(u, w, a);
    w' := Next(u, w, a);
    NowLeads(u, w');
    StepLeads(u, w, a, w');
  }

  /** A flush that reached its end. */
  lemma End(u: Setup, w: World) returns (w': World)
    requires ValidSetup(u) && Good(u, w) && w.flight.Landing?
    ensures Leads(u, w, w') && Good(u, w') && w'.flight == Grounded
    ensures w'.loop == FlushOver(w, w.flight.owner).loop && w'.closer == FlushOver(w, w.flight.owner).closer
  {
    hide Good;
    hide Leads;
    w' := Go(u, w, EndFlush);
    LandingIsOnlyData(w);
    hide FlushEnded;
  }

  /** A flush that failed before its end. */
  lemma Fail(u: Setup, w: World) returns (w': World)
    requires ValidSetup(u) && Good(u, w) && (w.flight.SwappedBuffers? || w.flight.Sending?)
    ensures Leads(u, w, w') && Good(u, w') && w'.flight.Landing? && w'.flight.owner == w.flight.owner
    ensures w'.loop == w.loop && w'.closer == w.closer
  {
    GoodFacts(u, w);
    hide Good;
    hide Leads;
    hide Contents;
    if w.flight.SwappedBuffers? {
      w' := Go(u, w, FailTranslate(0));
    } else {
      w' := Go(u, w, ReportPart(TransportError, false));
    }
  }

  /** Whatever flush is in flight may end. */
  lemma Land(u: Setup, w: World) returns (w': World)
    requires ValidSetup(u) && Good(u, w) && w.flight != Grounded
    ensures Leads(u, w, w') && Good(u, w') && w'.flight == Grounded
    ensures w'.loop == FlushOver(w, w.flight.owner).loop && w'.closer == FlushOver(w, w.flight.owner).closer
  {
    hide Good;
    hide Leads;
    if w.flight.Landing? {
      w' := End(u, w);
    } else {
      var w1 := Fail(u, w);
      w' := End(u, w1);
      LeadsOn(u, w, w1, w');
    }
  }

  /** Whoever may flush may get it over with. */
  lemma FlushAtOnce(u: Setup, w: World, owner: Owner) returns (w': World)
    requires ValidSetup(u) && Good(u, w) && w.flight == Grounded && MayFlush(w, owner)
    ensures Leads(u, w, w') && Good(u, w') && w'.flight == Grounded
    ensures w'.loop == FlushOver(FlushStarted(w, owner), owner).loop
    ensures w'.closer == FlushOver(FlushStarted(w, owner), owner).closer
  {
    hide Good;
    hide Leads;
    if PreFlushError(w.core).Some? {
      w' := Go(u, w, RefuseFlush(owner));
    } else {
      var w1 := Go(u, w, BeginFlush(owner, w.clock));
      w' := Land(u, w1);
      LeadsOn(u, w, w1, w');
    }
  }

  /** Waiting for `Close` to be noticed does not depend on a flush in flight. */
  lemma LandWhileWaiting(u: Setup, w: World) returns (w': World)
    requires ValidSetup(u) && Good(u, w) && w.closer == Waiting
    ensures Leads(u, w, w') && Good(u, w') && w'.flight == Grounded && w'.closer == Waiting
    ensures w'.loop == if w.loop.LoopFlushing? then AfterTick(false, w.loop.wantReconnect) else w.loop
  {
    GoodFacts(u, w);
    hide Good;
    if w.flight == Grounded {
      w' := w;
      NowLeads(u, w);
    } else {
      w' := Land(u, w);
    }
  }

  /** A report loop that asks for a flush may have it. */
  lemma FlushIfWanted(u: Setup, w: World) returns (w': World)
    requires ValidSetup(u) && Good(u, w) && w.closer == Waiting && w.flight == Grounded && w.loop.AfterTick?
    ensures Leads(u, w, w') && Good(u, w') && w'.closer == Waiting
    ensures w'.loop == AfterTick(false, w.loop.wantReconnect)
  {
    hide Good;
    if w.loop.wantFlush {
      w' := FlushAtOnce(u, w, ReportLoop);
    } else {
      w' := w;
      NowLeads(u, w);
    }
  }

  /** After a tick, the loop gets back to its select. */
  lemma FinishTick(u: Setup, w: World) returns (w': World)
    requires ValidSetup(u) && Good(u, w) && w.closer == Waiting && w.flight == Grounded && w.loop.AfterTick?
    ensures Leads(u, w, w') && Good(u, w') && w'.closer == Waiting && w'.loop == Selecting
  {
    hide Good;
    hide Leads;
    var w1 := FlushIfWanted(u, w);
    w' := Go(u, w1, if w1.loop.wantReconnect then DialFails else GoOnSelecting);
    LeadsOn(u, w, w1, w');
  }

  /** After closing the connection it replaced, too. */
  lemma FinishReconnect(u: Setup, w: World) returns (w': World)
    requires ValidSetup(u) && Good(u, w) && w.closer == Waiting && (w.loop.Dialed? || w.loop.ClosingOld?)
    ensures Leads(u, w, w') && Good(u, w') && w'.closer == Waiting && w'.loop == Selecting
  {
    hide Good;
    hide Leads;
    if w.loop.ClosingOld? {
      w' := FinishReplacing(u, w);
    } else {
      var w1 := Go(u, w, SwapInConnection);
      w' := FinishReplacing(u, w1);
      LeadsOn(u, w, w1, w');
    }
  }

  lemma FinishReplacing(u: Setup, w: World) returns (w': World)
    requires ValidSetup(u) && Good(u, w) && w.closer == Waiting && w.loop.ClosingOld?
    ensures Leads(u, w, w') && Good(u, w') && w'.closer == Waiting && w'.loop == Selecting
  {
    GoodFacts(u, w);
    hide Good;
    hide Leads;
    w' := Go(u, w, CloseOldConnection);
  }

  /** A report loop that has not ended gets back to its select. */
  lemma GetsToSelect(u: Setup, w: World) returns (w': World)
    requires ValidSetup(u) && Good(u, w) && w.closer == Waiting && w.flight == Grounded
    requires w.loop != ExitedClosed && w.loop != ExitedDisabled
    ensures Leads(u, w, w') && Good(u, w') && w'.closer == Waiting && w'.loop == Selecting
  {
    GoodFacts(u, w);
    hide Good;
    if w.loop == Selecting {
      w' := w;
      NowLeads(u, w);
    } else if w.loop.AfterTick? {
      w' := FinishTick(u, w);
    } else {
      w' := FinishReconnect(u, w);
    }
  }

  lemma LoopExits(u: Setup, w: World) returns (w': World)
    requires ValidSetup(u) && Good(u, w) && w.closer == Waiting && w.loop != ExitedDisabled
    ensures Leads(u, w, w') && Good(u, w') && w'.closer == Waiting && w'.loop == ExitedClosed
  {
    hide Good;
    if w.loop == ExitedClosed {
      w' := w;
      NowLeads(u, w);
    } else {
      hide Leads;
      var w1 := LandWhileWaiting(u, w);
      var w2 := GetsToSelect(u, w1);
      GoodFacts(u, w2);
      w' := Go(u, w2, SeeCloseSignal);
      LeadsOn(u, w1, w2, w');
      LeadsOn(u, w, w1, w');
    }
  }

  /** Once the loop is gone: the last flush, or its refusal, and then the connection. */
  lemma Takes(u: Setup, w: World) returns (w': World)
    requires ValidSetup(u) && Good(u, w) && w.closer == Waiting && w.loop == ExitedClosed
    ensures Leads(u, w, w') && w'.closer.Closing?
  {
    hide Good;
    hide Leads;
    var w1 := LandWhileWaiting(u, w);
    var w2 := Go(u, w1, GoOnClosing);
    var w3 := FlushAtOnce(u, w2, Closer);
    w' := Go(u, w3, TakeConnection);
    LeadsOn(u, w2, w3, w');
    LeadsOn(u, w1, w2, w');
    LeadsOn(u, w, w1, w');
  }

  /**
   Whether a waiting `Close` can still get to the connection, in every run: if and only if the report loop has not ended
   because the tracer was disabled.
   */
  lemma CloseGetsTheConnectionIff(u: Setup, t0: Time, w: World)
    requires ValidSetup(u) && Reachable(u, t0, w) && w.closer == Waiting
    ensures (exists w' :: Leads(u, w, w') && w'.closer.Closing?) <==> w.loop != ExitedDisabled
  {
    if w.loop == ExitedDisabled {
      forall w' | Leads(u, w, w') ensures !w'.closer.Closing? {
        DisabledLoopStrandsClose(u, t0, w, w');
      }
    } else {
      BooksBalance(u, t0, w);
      AlwaysOrderly(u, t0, w);
      var w1 := LoopExits(u, w);
      var w2 := Takes(u, w1);
      LeadsOn(u, w, w1, w2);
    }
  }

  /** It can come to that with any options: disable the tracer, let the loop tick, and call `Close`. */
  lemma LoopMayEndDisabled(u: Setup, t0: Time, now: Time) returns (w: World)
    requires ValidSetup(u) && now >= t0
    ensures Reachable(u, t0, w) && w.loop == ExitedDisabled && w.closer == Waiting
  {
    var w0 := Start(u, t0);
    var w1 := Next(u, w0, DisableTracer);
    var w2 := Next(u, w1, Tick(now, false));
    w := Next(u, w2, CallClose);
    NowLeads(u, w);
    StepLeads(u, w2, CallClose, w);
    StepLeads(u, w1, Tick(now, false), w);
    StepLeads(u, w0, DisableTracer, w);
  }

  // ---------------------------------------------------------------------------------------------------------------
  // The last flush

  /** The end of the flush that `Close` makes, or its refusal. */
  ghost predicate EndsLastFlush(w: World, a: Action) {
    || (a == RefuseFlush(Closer) && PreFlushError(w.core).Some?)
    || (a == EndFlush && w.flight.Landing? && w.flight.owner == Closer)
  }

  /** Some action of the run ends the flush that `Close` makes. */
  ghost predicate FlushedLast(u: Setup, w: World, actions: seq<Action>)
    requires ValidSetup(u) && Feasible(u, w, actions)
    decreases |actions|
  {
    && actions != []
    && (EndsLastFlush(w, actions[0]) || FlushedLast(u, Next(u, w, actions[0]), actions[1..]))
  }

  ghost predicate PastLastFlush(w: World) {
    w.closer == Taking || w.closer.Closing? || w.closer == ClosedDown
  }

  lemma OnlyLastFlushGoesOn(u: Setup, w: World, a: Action)
    requires ValidSetup(u) && BuffersFit(w.core) && Enabled(w, a) && !PastLastFlush(w) && PastLastFlush(Next(u, w, a))
    ensures EndsLastFlush(w, a)
  {
    if a.EndFlush? {
      LandingIsOnlyData(w);
      hide FlushEnded;
    }
  }

  lemma {:induction false} LastFlushIsOnTheWay(u: Setup, w: World, actions: seq<Action>)
    requires ValidSetup(u) && Feasible(u, w, actions) && !PastLastFlush(w) && PastLastFlush(Play(u, w, actions))
    ensures FlushedLast(u, w, actions)
    decreases |actions|
  {
    hide Next;
    hide Enabled;
    hide EndsLastFlush;
    if PastLastFlush(Next(u, w, actions[0])) {
      OnlyLastFlushGoesOn(u, w, actions[0]);
    } else {
      LastFlushIsOnTheWay(u, Next(u, w, actions[0]), actions[1..]);
    }
  }

  /** `Close` does not take the connection before a last flush has ended or was refused. */
  lemma CloseFlushesFirst(u: Setup, t0: Time, actions: seq<Action>)
    requires ValidSetup(u) && Feasible(u, Start(u, t0), actions) && Play(u, Start(u, t0), actions).closer.Closing?
    ensures FlushedLast(u, Start(u, t0), actions)
  {
    LastFlushIsOnTheWay(u, Start(u, t0), actions);
  }
}
