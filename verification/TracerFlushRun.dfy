/** The `Flush` method and the machine agree: a flush that nothing interrupts is one of the machine's runs. */
module TracerFlushRun {
  import opened Multisets
  import opened TracerCore
  import opened TracerMachine
  import opened Wrappers

  /** Sending one part to a collector that keeps it. */
  lemma PartRun(u: Setup, w: World, reply: Reply) returns (w1: World)
    requires ValidSetup(u) && BuffersFit(w.core) && w.flight.Sending? && w.flight.next < |w.flight.parts|
    ensures Leads(u, w, w1) && BuffersFit(w1.core)
    ensures w1.core == Replied(w.core, reply)
    ensures w1.history.received == w.history.received + multiset(w.flight.parts[w.flight.next])
    ensures
      var f := w.flight;
      w1.flight ==
      if ReplyError(reply).Some? then Landing(f.owner, ReplyError(reply), f.parts)
      else if f.next + 1 == |f.parts| then Landing(f.owner, None, f.parts)
      else f.(next := f.next + 1)
  {
    hide Contents;
    var a := ReportPart(reply, true);
    w1 := PartReported(w, reply, true);
    assert Enabled(w, a) && Next(u, w, a) == w1;
    hide Next;
    NowLeads(u, w1);
    StepLeads(u, w, a, w1);
  }

  /** Sending the parts one after the other until one fails, with a collector that keeps all it is sent. */
  lemma {:induction false} PartsRun(u: Setup, w: World, replies: nat -> Reply) returns (w': World)
    requires ValidSetup(u) && BuffersFit(w.core)
    requires w.flight.Sending? && w.flight.owner == Caller && w.flight.next < |w.flight.parts|
    ensures Leads(u, w, w')
    ensures
      var (core, error) := SendParts(w.core, replies, w.flight.next, |w.flight.parts|);
      w'.core == core && w'.flight == Landing(Caller, error, w.flight.parts) && BuffersFit(w'.core)
    ensures
      var parts, next := w.flight.parts, w.flight.next;
      w'.history.received + Contents(parts[..next]) ==
      w.history.received + Contents(parts[..next + PartsTried(replies, next, |parts|)])
    decreases |w.flight.parts| - w.flight.next
  {
    hide Contents;
    var parts, next := w.flight.parts, w.flight.next;
    var reply := replies(next);
    var w1 := PartRun(u, w, reply);
    OneMorePart(parts, next);
    hide BuffersFit;
    if w1.flight.Landing? {
      w' := w1;
      assert PartsTried(replies, next, |parts|) == 1;
    } else {
      w' := PartsRun(u, w1, replies);
      LeadsOn(u, w, w1, w');
    }
    var tried := next + PartsTried(replies, next, |parts|);
    var sent, all, part := Contents(parts[..next]), Contents(parts[..tried]), multiset(parts[next]);
    Cancel(w.history.received, sent, w.history.received, sent, part);
    Cancel(w'.history.received, sent, w.history.received, all, part);
  }

  /** From the translation to the end of the flush. */
  lemma SendRun(u: Setup, w: World, env: Surroundings) returns (w': World)
    requires ValidSetup(u) && BuffersFit(w.core) && w.flight == SwappedBuffers(Caller) && env.translates
    ensures Leads(u, w, w') && w'.flight == Grounded
    ensures
      var encoded := Encoded(w.core, env.encoderErrors);
      var count := |PartsSent(u.transport, u.opts, w.core.flushing.spans, env.draws)|;
      var (core, error) := SendParts(encoded, env.replies, 0, count);
      BuffersFit(core) && w'.core == Landed(core, error).0
    ensures
      var parts := PartsSent(u.transport, u.opts, w.core.flushing.spans, env.draws);
      w'.history.received == w.history.received + Contents(parts[..PartsTried(env.replies, 0, |parts|)])
  {
    hide Leads;
    hide Contents;
    var w1 := TranslateRun(u, w, env);
    var w2 := PartsRun(u, w1, env.replies);
    assert w1.flight.parts[..0] == [];
    NoContents();
    w' := EndRun(u, w2);
    LeadsOn(u, w1, w2, w');
    LeadsOn(u, w, w1, w');
  }

  lemma NoContents()
    ensures Contents([]) == multiset{}
  {
  }

  lemma TranslateRun(u: Setup, w: World, env: Surroundings) returns (w1: World)
    requires ValidSetup(u) && BuffersFit(w.core) && w.flight == SwappedBuffers(Caller)
    ensures Leads(u, w, w1) && BuffersFit(w1.core) && w1.core == Encoded(w.core, env.encoderErrors)
    ensures w1.flight == Sending(Caller, PartsSent(u.transport, u.opts, w.core.flushing.spans, env.draws), 0,
                                 w.core.flushing.droppedSpanCount)
    ensures w1.history.received == w.history.received
  {
    var translate := Translate(env.encoderErrors, env.draws);
    w1 := Translated(u, w, env.encoderErrors, env.draws);
    NowLeads(u, w1);
    StepLeads(u, w, translate, w1);
  }

  lemma EndRun(u: Setup, w: World) returns (w1: World)
    requires ValidSetup(u) && BuffersFit(w.core) && w.flight.Landing? && w.flight.owner == Caller
    ensures Leads(u, w, w1) && w1.core == Landed(w.core, w.flight.error).0 && w1.flight == Grounded
    ensures w1.history.received == w.history.received
  {
    w1 := FlushEnded(w);
    NowLeads(u, w1);
    StepLeads(u, w, EndFlush, w1);
  }

  /**
   Whatever state the tracer is in, an uninterrupted flush does what one run of the machine does: it ends in the same
   state, and a collector that keeps all it is sent receives exactly what the requests of the flush carried.
   */
  lemma FlushAloneIsARun(u: Setup, w: World, env: Surroundings) returns (w': World)
    requires ValidSetup(u) && BuffersFit(w.core) && w.flight == Grounded && env.now >= w.clock
    ensures Leads(u, w, w') && w'.flight == Grounded
    ensures w'.core == FlushAlone(u.transport, u.opts, w.core, env)
    ensures w'.history.received == w.history.received + Contents(CarriedAlone(u.transport, u.opts, w.core, env))
  {
    if PreFlushError(w.core).Some? {
      w' := w;
      NowLeads(u, w);
    } else {
      var begin := BeginFlush(Caller, env.now);
      var w1 := Next(u, w, begin);
      if env.translates {
        w' := SendRun(u, w1, env);
      } else {
        var fail := FailTranslate(env.encoderErrors);
        var w2 := Next(u, w1, fail);
        w' := FlushEnded(w2);
        NowLeads(u, w');
        StepLeads(u, w2, EndFlush, w');
        StepLeads(u, w1, fail, w');
      }
      StepLeads(u, w, begin, w');
    }
  }
}
