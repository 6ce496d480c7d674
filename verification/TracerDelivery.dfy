/**
 What reaches the collector, over every run: what the successful flushes carried, and what it took from flushes that
 then failed. Delivery is at least once as long as no flush is split, and exactly once when nothing was taken in vain. A
 split flush loses every span outside its last slice, although it counts as sent.
 */
module TracerDelivery {
  import opened Arithmetic
  import opened Clock
  import Multisets
  import opened ReportBuffers
  import opened ReportSplit
  import opened TracerCore
  import opened TracerLedgers
  import opened TracerMachine
  import opened Wrappers

  /** When a request is not split, what it carries is the whole. */
  lemma OnePartCarriesAll(u: Setup, spans: seq<RawSpan>, draws: (nat, nat))
    requires ValidSetup(u) && |PartsSent(u.transport, u.opts, spans, draws)| == 1
    ensures PartsSent(u.transport, u.opts, spans, draws) == [spans]
  {
    var parts := PartCount(u.opts, spans, draws);
    if u.transport == Proto && spans != [] && parts > 1 {
      var slices := Slices(spans, parts);
      SlicesPartition(spans, parts);
      assert slices == [slices[0]] && slices[1..] == [];
      assert Flatten(slices) == slices[0] + Flatten(slices[1..]) == slices[0];
    }
  }

  /**
   A flush carries all its spans to the collector if and only if it uses the HTTP client, or is small enough for one
   message, or has at most one span. (The spans of a report are objects of their own, so they are distinct.)
   */
  lemma FlushCarriesEverySpanIff(u: Setup, spans: seq<RawSpan>, draws: (nat, nat))
    requires ValidSetup(u) && Distinct(spans)
    ensures
      (forall span :: span in spans ==> Carries(PartsSent(u.transport, u.opts, spans, draws), span)) <==>
      u.transport == Http || |spans| <= 1 || SampledSize(spans, draws) * |spans| <= u.opts.maxMessageBytes
  {
    var parts := PartCount(u.opts, spans, draws);
    if u.transport == Http {
      assert PartsSent(u.transport, u.opts, spans, draws)[0] == spans;
    } else {
      SplitCarriesEverySpanIff(spans, parts);
      if |spans| > 1 {
        MoreThanOnePart(SampledSize(spans, draws) * |spans|, u.opts.maxMessageBytes);
      }
    }
  }

  lemma MoreThanOnePart(byteSize: nat, limit: nat)
    requires limit > 0
    ensures PartsFor(byteSize, limit) > 1 <==> byteSize > limit
  {
    if byteSize > limit {
      assert byteSize <= PartSize(byteSize, limit) * limit;
    }
  }

  // ---------------------------------------------------------------------------------------------------------------
  // What the collector has received

  /** What the shipped flushes carried. */
  ghost function ShippedContents(shipped: seq<Shipment>): multiset<RawSpan>
    decreases |shipped|
  {
    if shipped == [] then multiset{} else ShippedContents(shipped[..|shipped| - 1]) + Contents(Last(shipped).parts)
  }

  lemma OneMoreShippedContents(shipped: seq<Shipment>, s: Shipment)
    ensures ShippedContents(shipped + [s]) == ShippedContents(shipped) + Contents(s.parts)
  {
    assert (shipped + [s])[..|shipped|] == shipped;
  }

  /** What the collector already took of the flush in flight, when that has not failed. */
  ghost function TakenInFlight(f: Flight): multiset<RawSpan> {
    match f
    case Sending(_, parts, next, _) => if next <= |parts| then Contents(parts[..next]) else multiset{}
    case Landing(_, None, parts) => Contents(parts)
    case _ => multiset{}
  }

  ghost predicate SentAs(u: Setup, spans: seq<RawSpan>, parts: seq<seq<RawSpan>>)
    requires ValidSetup(u)
  {
    exists draws: (nat, nat) :: parts == PartsSent(u.transport, u.opts, spans, draws)
  }

  /** The collector has received what flushes carried, once for each flush. */
  ghost predicate ReceivedBalances(w: World) {
    && (w.flight.Sending? ==> w.flight.next < |w.flight.parts|)
    && w.history.received ==
       ShippedContents(w.history.shipped) + w.history.takenInVain + TakenInFlight(w.flight)
  }

  /** Every flush carries what splitting its spans leaves in its parts. */
  ghost predicate PartsAreSent(u: Setup, w: World)
    requires ValidSetup(u)
  {
    && (forall i :: 0 <= i < |w.history.shipped| ==>
          SentAs(u, w.history.shipped[i].spans, w.history.shipped[i].parts))
    && (w.flight.Sending? || (w.flight.Landing? && w.flight.error == None) ==>
          SentAs(u, w.core.flushing.spans, w.flight.parts))
  }

  ghost predicate Delivered(u: Setup, w: World)
    requires ValidSetup(u)
  {
    ReceivedBalances(w) && PartsAreSent(u, w)
  }

  lemma TranslateKeepsDelivered(u: Setup, w: World, errors: nat, draws: (nat, nat))
    requires ValidSetup(u) && Delivered(u, w) && w.flight.SwappedBuffers?
    ensures Delivered(u, Translated(u, w, errors, draws))
  {
    var parts := PartsSent(u.transport, u.opts, w.core.flushing.spans, draws);
    assert parts[..0] == [];
    assert SentAs(u, w.core.flushing.spans, parts);
  }

  lemma PartKeepsBalance(w: World, reply: Reply, taken: bool)
    requires ReceivedBalances(w) && Enabled(w, ReportPart(reply, taken))
    ensures ReceivedBalances(PartTaken(w, reply, taken))
  {
    hide Contents;
    hide ShippedContents;
    var f, h := w.flight, w.history;
    var part := if taken then multiset(f.parts[f.next]) else multiset{};
    OneMorePart(f.parts, f.next);
    Multisets.Regroup(ShippedContents(h.shipped), h.takenInVain, Contents(f.parts[..f.next]), part);
  }

  lemma PartKeepsSent(u: Setup, w: World, reply: Reply, taken: bool)
    requires ValidSetup(u) && PartsAreSent(u, w) && Enabled(w, ReportPart(reply, taken))
    ensures PartsAreSent(u, PartTaken(w, reply, taken))
  {
    hide SentAs;
    hide Contents;
  }

  lemma PartKeepsDelivered(u: Setup, w: World, reply: Reply, taken: bool)
    requires ValidSetup(u) && Delivered(u, w) && Enabled(w, ReportPart(reply, taken))
    ensures Delivered(u, PartReported(w, reply, taken))
  {
    hide PartTaken;
    hide ReceivedBalances;
    hide PartsAreSent;
    var w' := PartTaken(w, reply, taken);
    PartKeepsBalance(w, reply, taken);
    PartKeepsSent(u, w, reply, taken);
    QuietKeepsDelivered(u, w', PartReported(w, reply, taken));
  }

  /** A step that sends nothing and lets the flush in flight be. */
  lemma QuietKeepsDelivered(u: Setup, w: World, w': World)
    requires ValidSetup(u) && Delivered(u, w)
    requires w'.flight == w.flight && w'.core.flushing.spans == w.core.flushing.spans
    requires w'.history.shipped == w.history.shipped && w'.history.received == w.history.received
    requires w'.history.takenInVain == w.history.takenInVain
    ensures Delivered(u, w')
  {
  }

  lemma SuccessKeepsDelivered(u: Setup, w: World)
    requires ValidSetup(u) && Delivered(u, w) && w.flight.Landing? && w.flight.error == None && BuffersFit(w.core)
    ensures Delivered(u, FlushEnded(w))
  {
    hide Contents;
    var f := w.core.flushing;
    OneMoreShippedContents(w.history.shipped,
                           Shipment(f.spans, f.droppedSpanCount, w.flight.parts, w.history.answers));
  }

  lemma FailureKeepsDelivered(u: Setup, w: World)
    requires ValidSetup(u) && Delivered(u, w) && w.flight.Landing? && w.flight.error.Some? && BuffersFit(w.core)
    ensures Delivered(u, FlushEnded(w))
  {
    var w' := FlushEnded(w);
    assert w'.history.shipped == w.history.shipped && w'.history.received == w.history.received;
    assert w'.history.takenInVain == w.history.takenInVain;
  }

  lemma EndKeepsDelivered(u: Setup, w: World)
    requires ValidSetup(u) && Delivered(u, w) && w.flight.Landing? && BuffersFit(w.core)
    ensures Delivered(u, Next(u, w, EndFlush))
  {
    hide FlushEnded;
    hide Delivered;
    if w.flight.error == None {
      SuccessKeepsDelivered(u, w);
    } else {
      FailureKeepsDelivered(u, w);
    }
    QuietKeepsDelivered(u, FlushEnded(w), Next(u, w, EndFlush));
  }

  lemma BeginKeepsDelivered(u: Setup, w: World, owner: Owner, now: Time)
    requires ValidSetup(u) && BuffersFit(w.core) && Delivered(u, w) && Enabled(w, BeginFlush(owner, now))
    ensures Delivered(u, Next(u, w, BeginFlush(owner, now)))
  {
    hide SentAs;
    hide Contents;
  }

  lemma FailedTranslateKeepsDelivered(u: Setup, w: World, errors: nat)
    requires ValidSetup(u) && BuffersFit(w.core) && Delivered(u, w) && Enabled(w, FailTranslate(errors))
    ensures Delivered(u, Next(u, w, FailTranslate(errors)))
  {
    hide SentAs;
    hide Contents;
  }

  lemma OtherStepsKeepDelivered(u: Setup, w: World, a: Action)
    requires ValidSetup(u) && BuffersFit(w.core) && Delivered(u, w) && Enabled(w, a)
    requires !a.BeginFlush? && !a.FailTranslate? && !a.Translate? && !a.ReportPart? && !a.EndFlush?
    ensures Delivered(u, Next(u, w, a))
  {
    hide Delivered;
    if !Loud(a) {
      OtherStepsAreQuiet(u, w, a);
    }
    QuietKeepsDelivered(u, w, Next(u, w, a));
  }

  lemma StepKeepsDelivered(u: Setup, w: World, a: Action)
    requires ValidSetup(u) && BuffersFit(w.core) && Delivered(u, w) && Enabled(w, a)
    ensures Delivered(u, Next(u, w, a))
  {
    hide Delivered;
    match a
    case Translate(errors, draws) => TranslateKeepsDelivered(u, w, errors, draws);
    case ReportPart(reply, taken) => PartKeepsDelivered(u, w, reply, taken);
    case EndFlush => EndKeepsDelivered(u, w);
    case BeginFlush(owner, now) => BeginKeepsDelivered(u, w, owner, now);
    case FailTranslate(errors) => FailedTranslateKeepsDelivered(u, w, errors);
    case _ => OtherStepsKeepDelivered(u, w, a);
  }

  lemma {:induction false} PlayKeepsDelivered(u: Setup, w: World, actions: seq<Action>)
    requires ValidSetup(u) && Feasible(u, w, actions) && Delivered(u, w)
    ensures Delivered(u, Play(u, w, actions))
    decreases |actions|
  {
    if actions != [] {
      StepKeepsDelivered(u, w, actions[0]);
      PlayKeepsDelivered(u, Next(u, w, actions[0]), actions[1..]);
    }
  }

  /**
   In every run, splitting and failing as it may: the collector has received what the shipped flushes carried, what it
   took from flushes that failed, and what it took of the flush in flight, and no flush carries anything else than
   splitting its spans leaves.
   */
  lemma DeliveryBalances(u: Setup, t0: Time, w: World)
    requires ValidSetup(u) && Reachable(u, t0, w)
    ensures Delivered(u, w)
  {
    var actions :| Feasible(u, Start(u, t0), actions) && w == Play(u, Start(u, t0), actions);
    PlayKeepsDelivered(u, Start(u, t0), actions);
  }

  // ---------------------------------------------------------------------------------------------------------------
  // At least once, and exactly once

  /** Every shipped flush went in one part. */
  ghost predicate AllWhole(shipped: seq<Shipment>) {
    forall i :: 0 <= i < |shipped| ==> |shipped[i].parts| == 1
  }

  lemma {:induction false} WholeShipmentsCarryTheirSpans(u: Setup, shipped: seq<Shipment>)
    requires ValidSetup(u) && AllWhole(shipped)
    requires forall i :: 0 <= i < |shipped| ==> SentAs(u, shipped[i].spans, shipped[i].parts)
    ensures ShippedContents(shipped) == ShippedSpans(shipped)
    decreases |shipped|
  {
    if shipped != [] {
      var front, last := shipped[..|shipped| - 1], shipped[|shipped| - 1];
      forall i | 0 <= i < |front| ensures SentAs(u, front[i].spans, front[i].parts) && |front[i].parts| == 1 {
        assert front[i] == shipped[i];
      }
      WholeShipmentsCarryTheirSpans(u, front);
      var draws: (nat, nat) :| last.parts == PartsSent(u.transport, u.opts, last.spans, draws);
      OnePartCarriesAll(u, last.spans, draws);
      OneMorePart(last.parts, 0);
      assert last.parts[..0] == [];
    }
  }

  /**
   In every run in which the flushes that succeeded went in one part each: the collector received every shipped span as
   often as it was shipped, and besides only what it took from flushes that failed or are in flight.
   */
  lemma AtLeastOnceUnlessSplit(u: Setup, t0: Time, w: World)
    requires ValidSetup(u) && Reachable(u, t0, w) && AllWhole(w.history.shipped)
    ensures
      w.history.received ==
      ShippedSpans(w.history.shipped) + w.history.takenInVain + TakenInFlight(w.flight)
    ensures ShippedSpans(w.history.shipped) <= w.history.received
  {
    DeliveryBalances(u, t0, w);
    WholeShipmentsCarryTheirSpans(u, w.history.shipped);
  }

  /** When no shipped flush was split, delivery is exactly once if and only if nothing was taken in vain. */
  lemma ExactlyOnceUnlessSplitIff(u: Setup, t0: Time, w: World)
    requires ValidSetup(u) && Reachable(u, t0, w) && AllWhole(w.history.shipped) && w.flight == Grounded
    ensures w.history.received == ShippedSpans(w.history.shipped) <==> w.history.takenInVain == multiset{}
  {
    AtLeastOnceUnlessSplit(u, t0, w);
    var shipped, vain := ShippedSpans(w.history.shipped), w.history.takenInVain;
    assert |shipped + vain| == |shipped| + |vain|;
  }

  lemma {:induction false} CopiesOf(parts: seq<seq<RawSpan>>, part: seq<RawSpan>, x: RawSpan)
    requires x in part && forall i :: 0 <= i < |parts| ==> parts[i] == part
    ensures Contents(parts)[x] >= |parts|
    decreases |parts|
  {
    if parts != [] {
      CopiesOf(parts[..|parts| - 1], part, x);
      assert x in multiset(part);
    }
  }

  /** A flush in several parts carries some span more than once. */
  lemma SplitCarriesTwice(u: Setup, spans: seq<RawSpan>, parts: seq<seq<RawSpan>>) returns (x: RawSpan)
    requires ValidSetup(u) && SentAs(u, spans, parts) && |parts| != 1
    ensures Contents(parts)[x] >= 2
  {
    var draws: (nat, nat) :| parts == PartsSent(u.transport, u.opts, spans, draws);
    var count := PartCount(u.opts, spans, draws);
    assert spans != [] && count > 1 && parts == AsSent(spans, count);
    SlicesPartition(spans, count);
    var part := Last(Slices(spans, count));
    x := part[0];
    CopiesOf(parts, part, x);
  }

  lemma {:induction false} ShipmentIsShipped(shipped: seq<Shipment>, i: nat, x: RawSpan)
    requires i < |shipped|
    ensures ShippedContents(shipped)[x] >= Contents(shipped[i].parts)[x]
    decreases |shipped|
  {
    if i < |shipped| - 1 {
      ShipmentIsShipped(shipped[..|shipped| - 1], i, x);
    }
  }

  /**
   When delivery is exactly once, in every run that records each span once, with no flush in flight: exactly if every
   flush that succeeded went in one part, and the collector took nothing from a flush that then failed.
   */
  lemma ExactlyOnceIff(u: Setup, t0: Time, w: World)
    requires ValidSetup(u) && Reachable(u, t0, w) && w.flight == Grounded
    requires forall span :: w.history.accepted[span] <= 1
    ensures
      w.history.received == ShippedSpans(w.history.shipped) <==>
      AllWhole(w.history.shipped) && w.history.takenInVain == multiset{}
  {
    if AllWhole(w.history.shipped) {
      ExactlyOnceUnlessSplitIff(u, t0, w);
    } else {
      SplitIsNotExactlyOnce(u, t0, w);
    }
  }

  lemma SplitIsNotExactlyOnce(u: Setup, t0: Time, w: World)
    requires ValidSetup(u) && Reachable(u, t0, w) && !AllWhole(w.history.shipped)
    requires forall span :: w.history.accepted[span] <= 1
    ensures w.history.received != ShippedSpans(w.history.shipped)
  {
    var shipped := w.history.shipped;
    DeliveryBalances(u, t0, w);
    var i :| 0 <= i < |shipped| && |shipped[i].parts| != 1;
    var x := SplitCarriesTwice(u, shipped[i].spans, shipped[i].parts);
    ShipmentIsShipped(shipped, i, x);
    OneFatePerSpan(u, t0, w, x);
    assert w.history.received[x] >= 2 && ShippedSpans(shipped)[x] <= 1;
  }

  /** Over HTTP no flush is ever split, so delivery is always at least once. */
  lemma HttpDeliversAtLeastOnce(u: Setup, t0: Time, w: World)
    requires ValidSetup(u) && Reachable(u, t0, w) && u.transport == Http
    ensures AllWhole(w.history.shipped)
    ensures ShippedSpans(w.history.shipped) <= w.history.received
  {
    DeliveryBalances(u, t0, w);
    forall i | 0 <= i < |w.history.shipped| ensures |w.history.shipped[i].parts| == 1 {
      assert SentAs(u, w.history.shipped[i].spans, w.history.shipped[i].parts);
    }
    AtLeastOnceUnlessSplit(u, t0, w);
  }

  // ---------------------------------------------------------------------------------------------------------------
  // Options under which no flush is split

  ghost predicate Small(spans: seq<RawSpan>, size: nat) {
    forall i :: 0 <= i < |spans| ==> spans[i].length <= size
  }

  /** A flush of spans of at most this size goes in one part, when a whole buffer of them fits a message. */
  lemma SmallFlushIsWhole(u: Setup, spans: seq<RawSpan>, size: nat, draws: (nat, nat))
    requires ValidSetup(u) && Small(spans, size) && |spans| <= u.opts.maxBufferedSpans
    requires size * u.opts.maxBufferedSpans <= u.opts.maxMessageBytes
    ensures |PartsSent(u.transport, u.opts, spans, draws)| == 1
  {
    if spans != [] {
      var sampled := SampledSize(spans, draws);
      assert sampled <= size;
      hide SampledSize;
      WholeBufferFits(sampled, size, |spans|, u.opts.maxBufferedSpans, u.opts.maxMessageBytes);
    }
  }

  lemma WholeBufferFits(sampled: nat, size: nat, n: nat, max: nat, limit: nat)
    requires sampled <= size && n <= max && size * max <= limit
    ensures sampled * n <= limit
  {
    MulMonotone(sampled, size, n);
    MulMonotone(n, max, size);
    assert size * n == n * size && size * max == max * size;
  }

  ghost predicate AllSmall(size: nat, w: World) {
    && Small(w.core.buffer.spans, size) && Small(w.core.flushing.spans, size)
    && (w.flight.Sending? || (w.flight.Landing? && w.flight.error == None) ==> |w.flight.parts| == 1)
    && AllWhole(w.history.shipped)
  }

  lemma EndKeepsSmall(size: nat, w: World)
    requires AllSmall(size, w) && BuffersFit(w.core) && w.flight.Landing?
    ensures AllSmall(size, FlushEnded(w))
  {
  }

  lemma TranslateKeepsSmall(u: Setup, size: nat, w: World, errors: nat, draws: (nat, nat))
    requires ValidSetup(u) && AllSmall(size, w) && w.flight.SwappedBuffers?
    requires |w.core.flushing.spans| <= u.opts.maxBufferedSpans
    requires size * u.opts.maxBufferedSpans <= u.opts.maxMessageBytes
    ensures AllSmall(size, Translated(u, w, errors, draws))
  {
    hide PartsSent;
    SmallFlushIsWhole(u, w.core.flushing.spans, size, draws);
  }

  lemma PartTakenKeepsSmall(size: nat, w: World, reply: Reply, taken: bool)
    requires AllSmall(size, w) && Enabled(w, ReportPart(reply, taken))
    ensures AllSmall(size, PartTaken(w, reply, taken))
  {
    hide Contents;
  }

  lemma DisableKeepsSmall(size: nat, w: World)
    requires AllSmall(size, w)
    ensures AllSmall(size, Disabled(w))
  {
  }

  lemma PartKeepsSmall(size: nat, w: World, reply: Reply, taken: bool)
    requires AllSmall(size, w) && Enabled(w, ReportPart(reply, taken))
    ensures AllSmall(size, PartReported(w, reply, taken))
  {
    hide AllSmall;
    hide PartTaken;
    hide Disabled;
    PartTakenKeepsSmall(size, w, reply, taken);
    DisableKeepsSmall(size, PartTaken(w, reply, taken));
  }

  lemma RecordKeepsSmall(size: nat, w: World, span: RawSpan)
    requires AllSmall(size, w) && span.length <= size
    ensures AllSmall(size, Recorded(w, span))
  {
  }

  lemma BeginKeepsSmall(u: Setup, size: nat, w: World, owner: Owner, now: Time)
    requires ValidSetup(u) && AllSmall(size, w) && BuffersFit(w.core) && Enabled(w, BeginFlush(owner, now))
    ensures AllSmall(size, Next(u, w, BeginFlush(owner, now)))
  {
  }

  lemma QuietKeepsSmall(size: nat, w: World, w': World)
    requires AllSmall(size, w) && Quiet(w, w')
    ensures AllSmall(size, w')
  {
  }

  lemma StepKeepsSmall(u: Setup, size: nat, w: World, a: Action)
    requires ValidSetup(u) && AllSmall(size, w) && BuffersFit(w.core) && Enabled(w, a)
    requires |w.core.flushing.spans| <= u.opts.maxBufferedSpans
    requires size * u.opts.maxBufferedSpans <= u.opts.maxMessageBytes
    requires a.Record? ==> a.span.length <= size
    ensures AllSmall(size, Next(u, w, a))
  {
    hide AllSmall;
    hide FlushEnded;
    match a
    case Record(span) => RecordKeepsSmall(size, w, span);
    case BeginFlush(owner, now) => BeginKeepsSmall(u, size, w, owner, now);
    case FailTranslate(errors) => FailedTranslateKeepsSmall(u, size, w, errors);
    case Translate(errors, draws) => TranslateKeepsSmall(u, size, w, errors, draws);
    case ReportPart(reply, taken) => PartKeepsSmall(size, w, reply, taken);
    case EndFlush =>
      EndKeepsSmall(size, w);
      QuietKeepsSmall(size, FlushEnded(w), Next(u, w, a));
    case DisableTracer => DisableKeepsSmall(size, w);
    case _ =>
      OtherStepsAreQuiet(u, w, a);
      QuietKeepsSmall(size, w, Next(u, w, a));
  }

  lemma FailedTranslateKeepsSmall(u: Setup, size: nat, w: World, errors: nat)
    requires ValidSetup(u) && AllSmall(size, w) && BuffersFit(w.core) && Enabled(w, FailTranslate(errors))
    ensures AllSmall(size, Next(u, w, FailTranslate(errors)))
  {
  }

  lemma {:induction false} PlayKeepsSmall(u: Setup, size: nat, w: World, actions: seq<Action>)
    requires ValidSetup(u) && Feasible(u, w, actions) && Books(u, w) && AllSmall(size, w)
    requires size * u.opts.maxBufferedSpans <= u.opts.maxMessageBytes
    requires forall i :: 0 <= i < |actions| && actions[i].Record? ==> actions[i].span.length <= size
    ensures AllSmall(size, Play(u, w, actions))
    decreases |actions|
  {
    if actions != [] {
      StepKeepsBooks(u, w, actions[0]);
      StepKeepsSmall(u, size, w, actions[0]);
      PlayKeepsSmall(u, size, Next(u, w, actions[0]), actions[1..]);
    }
  }

  /**
   What a user can set: if no span is larger than `size` and a full buffer of such spans fits a message, then no run
   ever splits a flush, and delivery is at least once.
   */
  lemma SmallSpansAreDelivered(u: Setup, t0: Time, size: nat, actions: seq<Action>)
    requires ValidSetup(u) && Feasible(u, Start(u, t0), actions)
    requires size * u.opts.maxBufferedSpans <= u.opts.maxMessageBytes
    requires forall i :: 0 <= i < |actions| && actions[i].Record? ==> actions[i].span.length <= size
    ensures
      var w := Play(u, Start(u, t0), actions);
      && (w.flight.Sending? ==> |w.flight.parts| == 1)
      && AllWhole(w.history.shipped)
      && ShippedSpans(w.history.shipped) <= w.history.received
  {
    var w := Play(u, Start(u, t0), actions);
    StartIsSmall(u, t0, size);
    PlayKeepsSmall(u, size, Start(u, t0), actions);
    assert Leads(u, Start(u, t0), w);
    AtLeastOnceUnlessSplit(u, t0, w);
  }

  lemma StartIsSmall(u: Setup, t0: Time, size: nat)
    requires ValidSetup(u)
    ensures Books(u, Start(u, t0)) && AllSmall(size, Start(u, t0))
  {
  }

  // ---------------------------------------------------------------------------------------------------------------
  // Other options split some flush

  /** A run in which no recorded span is larger than `size`. */
  ghost predicate RecordsSmall(size: nat, actions: seq<Action>) {
    forall i :: 0 <= i < |actions| && actions[i].Record? ==> actions[i].span.length <= size
  }

  /** No run with spans of at most this size has a flush in several parts. */
  ghost predicate NeverSplits(u: Setup, t0: Time, size: nat)
    requires ValidSetup(u)
  {
    forall actions ::
      Feasible(u, Start(u, t0), actions) && RecordsSmall(size, actions) ==>
        var w := Play(u, Start(u, t0), actions);
        w.flight.Sending? ==> |w.flight.parts| == 1
  }

  function SpansOfSize(size: nat, n: nat): (r: seq<RawSpan>)
    ensures |r| == n
  {
    seq(n, i requires 0 <= i < n => RawSpan(i, "", size))
  }

  function RecordAll(spans: seq<RawSpan>): (r: seq<Action>)
    ensures |r| == |spans|
  {
    seq(|spans|, i requires 0 <= i < |spans| => Record(spans[i]))
  }

  /** Recording as many spans as there is room for. */
  lemma {:induction false} Fill(u: Setup, t0: Time, size: nat, n: nat)
    requires ValidSetup(u) && n <= u.opts.maxBufferedSpans
    ensures Feasible(u, Start(u, t0), RecordAll(SpansOfSize(size, n)))
    ensures
      var w := Play(u, Start(u, t0), RecordAll(SpansOfSize(size, n)));
      && w.core == Start(u, t0).core.(buffer := Start(u, t0).core.buffer.(spans := SpansOfSize(size, n)))
      && w.flight == Grounded && w.clock == t0
  {
    var all := RecordAll(SpansOfSize(size, n));
    if n > 0 {
      Fill(u, t0, size, n - 1);
      var front, last := RecordAll(SpansOfSize(size, n - 1)), Record(RawSpan(n - 1, "", size));
      assert all == front + [last];
      assert SpansOfSize(size, n) == SpansOfSize(size, n - 1) + [RawSpan(n - 1, "", size)];
      var w := Play(u, Start(u, t0), front);
      OneMoreRecord(u, w, RawSpan(n - 1, "", size));
      PlayOn(u, Start(u, t0), front, [last]);
    }
  }

  lemma OneMoreRecord(u: Setup, w: World, span: RawSpan)
    requires ValidSetup(u) && BuffersFit(w.core) && !w.core.disabled && span.sampled == ""
    requires |w.core.buffer.spans| < w.core.buffer.capacity
    ensures Feasible(u, w, [Record(span)])
    ensures
      var w' := Play(u, w, [Record(span)]);
      && w'.core == w.core.(buffer := w.core.buffer.(spans := w.core.buffer.spans + [span]))
      && w'.flight == w.flight && w'.clock == w.clock
  {
    assert [Record(span)][1..] == [];
  }

  /** A flush of a full buffer of such spans goes in several parts, when the buffer does not fit a message. */
  lemma FullFlushSplits(u: Setup, size: nat, spans: seq<RawSpan>)
    requires ValidSetup(u) && u.transport == Proto && |spans| == u.opts.maxBufferedSpans >= 2
    requires forall i :: 0 <= i < |spans| ==> spans[i].length == size
    requires size * u.opts.maxBufferedSpans > u.opts.maxMessageBytes
    ensures |PartsSent(u.transport, u.opts, spans, (0, 0))| > 1
  {
    var count := PartCount(u.opts, spans, (0, 0));
    assert SampledSize(spans, (0, 0)) == size;
    MoreThanOnePart(size * |spans|, u.opts.maxMessageBytes);
    SlicesPartition(spans, count);
    SplitsInEarnest(|spans|, count);
  }

  lemma FlushOfFullBuffer(u: Setup, w: World)
    requires ValidSetup(u) && BuffersFit(w.core) && w.flight == Grounded && PreFlushError(w.core) == None
    ensures
      var actions := [BeginFlush(Caller, w.clock), Translate(0, (0, 0))];
      && Feasible(u, w, actions)
      && Play(u, w, actions).flight.Sending?
      && Play(u, w, actions).flight.parts == PartsSent(u.transport, u.opts, w.core.buffer.spans, (0, 0))
  {
    var begin, translate := BeginFlush(Caller, w.clock), Translate(0, (0, 0));
    var w1 := Next(u, w, begin);
    assert w1.core.flushing.spans == w.core.buffer.spans && w1.flight == SwappedBuffers(Caller) && BuffersFit(w1.core);
    var w2 := Next(u, w1, translate);
    assert [begin, translate][1..] == [translate] && [translate][1..] == [];
    assert Enabled(w, begin) && Enabled(w1, translate);
    hide Next;
    assert Feasible(u, w2, []) && Play(u, w2, []) == w2;
    assert Feasible(u, w1, [translate]) && Play(u, w1, [translate]) == w2;
  }

  /** The run that fills the buffer with spans of this size and flushes it. */
  lemma SplittingRun(u: Setup, t0: Time, size: nat) returns (actions: seq<Action>)
    requires ValidSetup(u) && u.transport == Proto && u.opts.maxBufferedSpans >= 2
    requires size * u.opts.maxBufferedSpans > u.opts.maxMessageBytes
    ensures Feasible(u, Start(u, t0), actions) && RecordsSmall(size, actions)
    ensures
      var w := Play(u, Start(u, t0), actions);
      w.flight.Sending? && |w.flight.parts| > 1
  {
    var n := u.opts.maxBufferedSpans;
    var first := RecordAll(SpansOfSize(size, n));
    Fill(u, t0, size, n);
    var w := Play(u, Start(u, t0), first);
    FlushOfFullBuffer(u, w);
    FullFlushSplits(u, size, w.core.buffer.spans);
    var second := [BeginFlush(Caller, w.clock), Translate(0, (0, 0))];
    PlayOn(u, Start(u, t0), first, second);
    actions := first + second;
  }

  /** Over HTTP, or with room for one span only, there is nothing to split. */
  lemma NothingToSplit(u: Setup, t0: Time, w: World)
    requires ValidSetup(u) && Reachable(u, t0, w) && w.flight.Sending?
    requires u.transport == Http || u.opts.maxBufferedSpans < 2
    ensures |w.flight.parts| == 1
  {
    DeliveryBalances(u, t0, w);
    BuffersAlwaysFit(u, t0, w);
    var spans := w.core.flushing.spans;
    var draws: (nat, nat) :| w.flight.parts == PartsSent(u.transport, u.opts, spans, draws);
    if u.transport == Proto {
      NotSplitInEarnest(spans, PartCount(u.opts, spans, draws));
    }
  }

  /**
   Which options rule splitting out, for spans of at most a given size: exactly HTTP, room for one span, or messages
   that a full buffer of such spans fits.
   */
  lemma NeverSplitsIff(u: Setup, t0: Time, size: nat)
    requires ValidSetup(u)
    ensures
      NeverSplits(u, t0, size) <==>
      || u.transport == Http || u.opts.maxBufferedSpans < 2
      || size * u.opts.maxBufferedSpans <= u.opts.maxMessageBytes
  {
    if u.transport == Http || u.opts.maxBufferedSpans < 2 {
      forall actions | Feasible(u, Start(u, t0), actions)
        ensures
          var w := Play(u, Start(u, t0), actions);
          w.flight.Sending? ==> |w.flight.parts| == 1
      {
        var w := Play(u, Start(u, t0), actions);
        assert Leads(u, Start(u, t0), w);
        if w.flight.Sending? {
          NothingToSplit(u, t0, w);
        }
      }
    } else if size * u.opts.maxBufferedSpans <= u.opts.maxMessageBytes {
      forall actions | Feasible(u, Start(u, t0), actions) && RecordsSmall(size, actions)
        ensures
          var w := Play(u, Start(u, t0), actions);
          w.flight.Sending? ==> |w.flight.parts| == 1
      {
        SmallSpansAreDelivered(u, t0, size, actions);
      }
    } else {
      var actions := SplittingRun(u, t0, size);
    }
  }
}
