/**
 The propagator stack (propagation_stack.go): several propagators write the same context to one carrier, and the first
 that can read it back does.
 */
module PropagatorStacks {
  import opened Propagators
  import opened RoundTrips
  import opened TextPropagation
  import opened Wrappers

  /** The carrier after each of the propagators injected in turn. */
  ghost function StackInjected(before: map<string, string>, stack: seq<Propagator>, sc: SpanContext)
    : map<string, string>
    decreases |stack|
  {
    if stack == [] then
      before
    else
      var last := stack[|stack| - 1];
      StackInjected(before, stack[..|stack| - 1], sc) + Injected(Filled(last, sc), sc.baggage)
  }

  ghost predicate Fails(kind: Propagator, entries: seq<Entry>) {
    !ExtractFrom(Reader(kind), entries).Extracted?
  }

  class PropagatorStack {
    var propagators: seq<Propagator>

    constructor ()
      ensures propagators == []
    {
      propagators := [];
    }

    method PushPropagator(p: Propagator)
      modifies this
      ensures propagators == old(propagators) + [p]
    {
      propagators := propagators + [p];
    }

    /** Fails, with "No valid propagator configured", only when there is no propagator. */
    method Inject(sc: SpanContext, carrier: TextMapCarrier) returns (ok: bool)
      modifies carrier
      ensures ok == (propagators != [])
      ensures carrier.entries == StackInjected(old(carrier.entries), propagators, sc)
    {
      if |propagators| == 0 {
        return false;
      }
      for i := 0 to |propagators|
        invariant carrier.entries == StackInjected(old(carrier.entries), propagators[..i], sc)
      {
        InjectInto(propagators[i], sc, carrier);
        assert propagators[..i + 1][..i] == propagators[..i];
      }
      assert propagators[..|propagators|] == propagators;
      ok := true;
    }

    /** The context that the first propagator to succeed extracts, or nothing when all of them fail. */
    method Extract(entries: seq<Entry>) returns (r: Option<SpanContext>)
      ensures r.Some? ==> exists i ::
        && 0 <= i < |propagators|
        && ExtractFrom(Reader(propagators[i]), entries) == Extracted(r.value)
        && forall j :: 0 <= j < i ==> Fails(propagators[j], entries)
      ensures r.None? ==> forall i :: 0 <= i < |propagators| ==> Fails(propagators[i], entries)
      ensures r == FirstExtracted(propagators, entries)
    {
      if |propagators| == 0 {
        return None;
      }
      for i := 0 to |propagators|
        invariant forall j :: 0 <= j < i ==> Fails(propagators[j], entries)
        invariant FirstExtracted(propagators, entries) == FirstExtracted(propagators[i..], entries)
      {
        var extracted := ExtractWith(propagators[i], entries);
        if extracted.Extracted? {
          return Some(extracted.context);
        }
        assert propagators[i..][1..] == propagators[i + 1..];
      }
      r := None;
    }
  }

  ghost function FirstExtracted(stack: seq<Propagator>, entries: seq<Entry>): Option<SpanContext> {
    if stack == [] then
      None
    else if Fails(stack[0], entries) then
      FirstExtracted(stack[1..], entries)
    else
      Some(ExtractFrom(Reader(stack[0]), entries).context)
  }

  ghost function Kinds(stack: seq<Propagator>): set<Propagator> {
    set kind | kind in stack
  }

  /** No propagator of the stack overwrites the fields of another: the carrier has what each of them wrote. */
  lemma {:induction false} NothingIsOverwritten(stack: seq<Propagator>, sc: SpanContext)
    requires stack != []
    ensures Contains(StackInjected(map[], stack, sc), sc, Kinds(stack))
    decreases |stack|
  {
    var front, last := stack[..|stack| - 1], stack[|stack| - 1];
    assert stack == front + [last];
    assert Kinds(stack) == Kinds(front) + {last};
    if front == [] {
      assert StackInjected(map[], front, sc) == map[] && Kinds(front) == {};
    } else {
      NothingIsOverwritten(front, sc);
    }
    AddingContains(StackInjected(map[], front, sc), sc, Kinds(front), last);
  }

  /** Deleting the three fields of one propagator leaves those of the others and the baggage. */
  lemma DeletingFields(carrier: map<string, string>, sc: SpanContext, live: set<Propagator>, kind: Propagator)
    requires Contains(carrier, sc, live)
    ensures Contains(carrier - KeysOf(kind), sc, live - {kind})
  {
    var rest := carrier - KeysOf(kind);
    forall k | k in live - {kind} ensures ContainsFields(rest, sc, k) {
      FieldsOfOthersStay(carrier, sc, k, kind);
    }
    forall b | b in sc.baggage ensures Prefixed(b) in rest && rest[Prefixed(b)] == sc.baggage[b] {
      PrefixedIsNoField(b, kind);
    }
    forall key | key in rest ensures IsField(key, live - {kind}) || IsBaggage(key, sc.baggage) {
      if IsField(key, live) {
        StillAField(key, live, kind);
      }
    }
  }

  lemma StillAField(key: string, live: set<Propagator>, kind: Propagator)
    requires IsField(key, live) && key !in KeysOf(kind)
    ensures IsField(key, live - {kind})
  {
    var k :| k in live && key in KeysOf(k);
    assert k in live - {kind};
  }

  lemma FieldsOfOthersStay(carrier: map<string, string>, sc: SpanContext, k: Propagator, kind: Propagator)
    requires k != kind && ContainsFields(carrier, sc, k)
    ensures ContainsFields(carrier - KeysOf(kind), sc, k)
  {
    KeysAreApart(k, kind);
    assert TraceIDKey(k) in KeysOf(k) && SpanIDKey(k) in KeysOf(k) && SampledKey(k) in KeysOf(k);
  }

  /** What a propagator reads back of its own fields, if they are there and it does not report them as corrupted. */
  ghost function Back(kind: Propagator, sc: SpanContext, live: set<Propagator>): Option<SpanContext> {
    if kind in live && RoundTrip(kind, sc).Extracted? then Some(RoundTrip(kind, sc).context) else None
  }

  function Other(kind: Propagator): Propagator {
    if kind == LightStep then B3 else LightStep
  }

  function Choice(kind: Propagator, lightStep: Option<SpanContext>, b3: Option<SpanContext>): Option<SpanContext> {
    if kind == LightStep then lightStep else b3
  }

  function FirstOf(stack: seq<Propagator>, lightStep: Option<SpanContext>, b3: Option<SpanContext>)
    : Option<SpanContext>
  {
    if stack == [] then None
    else if Choice(stack[0], lightStep, b3).Some? then Choice(stack[0], lightStep, b3)
    else FirstOf(stack[1..], lightStep, b3)
  }

  /** The first of the stack decides, and the other, if it is in the stack, when the first has nothing. */
  lemma {:induction false} FirstOrOther(stack: seq<Propagator>, lightStep: Option<SpanContext>, b3: Option<SpanContext>)
    requires stack != []
    ensures
      FirstOf(stack, lightStep, b3) ==
      if Choice(stack[0], lightStep, b3).Some? then Choice(stack[0], lightStep, b3)
      else if Other(stack[0]) in stack then Choice(Other(stack[0]), lightStep, b3)
      else None
  {
    assert stack == [stack[0]] + stack[1..];
    if |stack| > 1 {
      FirstOrOther(stack[1..], lightStep, b3);
    }
  }

  lemma {:induction false} StackReadsBack(stack: seq<Propagator>, carrier: map<string, string>, sc: SpanContext,
                                          live: set<Propagator>, entries: seq<Entry>)
    requires Contains(carrier, sc, live) && CaseDistinct(sc.baggage) && Shows(entries, carrier)
    ensures FirstExtracted(stack, entries) == FirstOf(stack, Back(LightStep, sc, live), Back(B3, sc, live))
  {
    if stack != [] {
      ReadBack(carrier, sc, live, stack[0], entries);
      StackReadsBack(stack[1..], carrier, sc, live, entries);
    }
  }

  /** Without a high half of the trace id, both propagators read their own fields back. */
  lemma ShortIDsComeBack(kind: Propagator, sc: SpanContext)
    requires sc.traceIDUpper == 0
    ensures RoundTrip(kind, sc).Extracted?
  {
  }

  lemma AllAreReadBack(stack: seq<Propagator>, sc: SpanContext, entries: seq<Entry>)
    requires stack != [] && DistinctButForCase(sc.baggage)
    requires Visits(entries, StackInjected(map[], stack, sc))
    ensures
      FirstExtracted(stack, entries) == FirstOf(stack, Back(LightStep, sc, Kinds(stack)), Back(B3, sc, Kinds(stack)))
  {
    NothingIsOverwritten(stack, sc);
    WrittenCarrierIsShown(StackInjected(map[], stack, sc), sc, Kinds(stack), entries);
    StackReadsBack(stack, StackInjected(map[], stack, sc), sc, Kinds(stack), entries);
  }

  /**
   What the stack extracts from what it injected, in any order and any case: the first propagator's own round trip. When
   that propagator reports its own trace id as corrupted, which takes a high half, the other one's if it is in the
   stack, and nothing otherwise.
   */
  lemma StackRoundTrip(stack: seq<Propagator>, sc: SpanContext, entries: seq<Entry>)
    requires stack != [] && DistinctButForCase(sc.baggage)
    requires Visits(entries, StackInjected(map[], stack, sc))
    ensures
      var first, other := RoundTrip(stack[0], sc), RoundTrip(Other(stack[0]), sc);
      FirstExtracted(stack, entries) ==
      if first.Extracted? then Some(first.context)
      else if Other(stack[0]) in stack && other.Extracted? then Some(other.context)
      else None
    ensures sc.traceIDUpper == 0 ==> RoundTrip(stack[0], sc).Extracted?
  {
    AllAreReadBack(stack, sc, entries);
    hide Visits;
    hide DistinctButForCase;
    hide StackInjected;
    FirstOrOther(stack, Back(LightStep, sc, Kinds(stack)), Back(B3, sc, Kinds(stack)));
    assert stack[0] in Kinds(stack);
    if sc.traceIDUpper == 0 {
      ShortIDsComeBack(stack[0], sc);
    }
  }

  lemma DeletedFirstIsSkipped(stack: seq<Propagator>, sc: SpanContext, entries: seq<Entry>, live: set<Propagator>)
    requires stack != [] && DistinctButForCase(sc.baggage) && live == Kinds(stack) - {stack[0]}
    requires Visits(entries, StackInjected(map[], stack, sc) - KeysOf(stack[0]))
    ensures FirstExtracted(stack, entries) == FirstOf(stack, Back(LightStep, sc, live), Back(B3, sc, live))
  {
    var carrier := StackInjected(map[], stack, sc);
    NothingIsOverwritten(stack, sc);
    DeletingFields(carrier, sc, Kinds(stack), stack[0]);
    WrittenCarrierIsShown(carrier - KeysOf(stack[0]), sc, live, entries);
    StackReadsBack(stack, carrier - KeysOf(stack[0]), sc, live, entries);
  }

  lemma FirstWithoutFirst(stack: seq<Propagator>, sc: SpanContext, live: set<Propagator>)
    requires stack != [] && live == Kinds(stack) - {stack[0]}
    ensures
      FirstOf(stack, Back(LightStep, sc, live), Back(B3, sc, live)) ==
      if Other(stack[0]) in stack then Back(Other(stack[0]), sc, {Other(stack[0])}) else None
  {
    assert stack[0] !in live && (Other(stack[0]) in stack <==> Other(stack[0]) in live);
    FirstOrOther(stack, Back(LightStep, sc, live), Back(B3, sc, live));
  }

  /**
   Once the first propagator's three fields are deleted from the carrier, the stack extracts the other's round trip, if
   the other is in the stack and does not report its own trace id as corrupted.
   */
  lemma StackFallsBack(stack: seq<Propagator>, sc: SpanContext, entries: seq<Entry>)
    requires stack != [] && DistinctButForCase(sc.baggage)
    requires Visits(entries, StackInjected(map[], stack, sc) - KeysOf(stack[0]))
    ensures
      var other := RoundTrip(Other(stack[0]), sc);
      FirstExtracted(stack, entries) ==
      if Other(stack[0]) in stack && other.Extracted? then Some(other.context) else None
    ensures sc.traceIDUpper == 0 ==> RoundTrip(Other(stack[0]), sc).Extracted?
  {
    var live := Kinds(stack) - {stack[0]};
    DeletedFirstIsSkipped(stack, sc, entries, live);
    FirstWithoutFirst(stack, sc, live);
    if sc.traceIDUpper == 0 {
      ShortIDsComeBack(Other(stack[0]), sc);
    }
  }
}
