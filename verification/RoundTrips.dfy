/**
 Round trips of a span context through a carrier: injected by one or more propagators, shown in any order and with its
 keys in any case, and extracted again.
 */
module RoundTrips {
  import opened Base16
  import opened Bits
  import opened Propagators
  import opened TextPropagation
  import opened Wrappers

  /** What comes back from a carrier that `kind` wrote `sc` to. */
  ghost function RoundTrip(kind: Propagator, sc: SpanContext): ExtractResult {
    match kind
    case LightStep =>
      Extracted(SpanContext(0, sc.traceID, sc.spanID, if sc.sampled == "" then "true" else sc.sampled,
                            LowerKeys(sc.baggage)))
    case B3 =>
      var ids := B3ReadBack(sc.traceID, sc.traceIDUpper);
      if ids == None then
        SpanContextCorrupted
      else
        Extracted(SpanContext(ids.value.upper, ids.value.lower, sc.spanID, B3Sampled(sc), LowerKeys(sc.baggage)))
  }

  // ---------------------------------------------------------------------------------------------------------------
  // What a carrier holds

  ghost predicate ContainsFields(carrier: map<string, string>, sc: SpanContext, kind: Propagator) {
    var p := Filled(kind, sc);
    && TraceIDKey(kind) in carrier && carrier[TraceIDKey(kind)] == p.traceID
    && SpanIDKey(kind) in carrier && carrier[SpanIDKey(kind)] == p.spanID
    && SampledKey(kind) in carrier && carrier[SampledKey(kind)] == (if p.sampled == "" then "true" else p.sampled)
  }

  ghost predicate ContainsBaggage(carrier: map<string, string>, sc: SpanContext) {
    forall b :: b in sc.baggage ==> Prefixed(b) in carrier && carrier[Prefixed(b)] == sc.baggage[b]
  }

  function Prefixed(b: string): string {
    PREFIX_BAGGAGE + b
  }

  ghost predicate IsField(key: string, live: set<Propagator>) {
    exists kind :: kind in live && key in KeysOf(kind)
  }

  ghost predicate IsBaggage(key: string, baggage: map<string, string>) {
    exists b :: b in baggage && key == Prefixed(b)
  }

  /** A carrier with the fields that the propagators in `live` wrote for `sc`, its baggage, and nothing else. */
  ghost predicate Contains(carrier: map<string, string>, sc: SpanContext, live: set<Propagator>) {
    && (forall kind :: kind in live ==> ContainsFields(carrier, sc, kind))
    && ContainsBaggage(carrier, sc)
    && (forall key :: key in carrier ==> IsField(key, live) || IsBaggage(key, sc.baggage))
  }

  lemma LowerOfPrefixed(b: string)
    ensures Lower(Prefixed(b)) == Prefixed(Lower(b))
  {
    LowerOfConcat(PREFIX_BAGGAGE, b);
    LowerCaseStays(PREFIX_BAGGAGE);
  }

  lemma PrefixedIsInjective(b: string, b': string)
    requires Prefixed(b) == Prefixed(b')
    ensures b == b'
  {
    assert Prefixed(b)[|PREFIX_BAGGAGE|..] == b;
    assert Prefixed(b')[|PREFIX_BAGGAGE|..] == b';
  }

  lemma PrefixedIsNoField(b: string, kind: Propagator)
    ensures Prefixed(b) !in KeysOf(kind)
  {
    KeysAreNotBaggage(kind);
    assert PREFIX_BAGGAGE <= Prefixed(b);
  }

  /** Two keys of such a carrier that are the same in lower case are the same, if that is so for the baggage. */
  lemma ContainsIsCaseDistinct(carrier: map<string, string>, sc: SpanContext, live: set<Propagator>)
    requires Contains(carrier, sc, live) && CaseDistinct(sc.baggage)
    ensures CaseDistinct(carrier)
  {
    forall k, k' | k in carrier && k' in carrier && Lower(k) == Lower(k') ensures k == k' {
      if IsField(k, live) && IsField(k', live) {
        FieldStays(k, live);
        FieldStays(k', live);
      } else if IsField(k, live) {
        FieldIsNotBaggage(k, k', live, sc.baggage);
      } else if IsField(k', live) {
        FieldIsNotBaggage(k', k, live, sc.baggage);
      } else {
        var b :| b in sc.baggage && k == Prefixed(b);
        var b' :| b' in sc.baggage && k' == Prefixed(b');
        LowerOfPrefixed(b);
        LowerOfPrefixed(b');
        PrefixedIsInjective(Lower(b), Lower(b'));
      }
    }
  }

  lemma FieldStays(key: string, live: set<Propagator>)
    requires IsField(key, live)
    ensures Lower(key) == key
  {
    var kind :| kind in live && key in KeysOf(kind);
    KeyStays(kind, key);
  }

  lemma FieldIsNotBaggage(field: string, key: string, live: set<Propagator>, baggage: map<string, string>)
    requires IsField(field, live) && IsBaggage(key, baggage)
    ensures Lower(field) != Lower(key)
  {
    var kind :| kind in live && field in KeysOf(kind);
    KeyStays(kind, field);
    var b :| b in baggage && key == Prefixed(b);
    LowerOfPrefixed(b);
    PrefixedIsNoField(Lower(b), kind);
  }

  /** In lower case, the carrier has a propagator's key exactly when that propagator wrote it. */
  lemma FieldsInLowerCase(carrier: map<string, string>, sc: SpanContext, live: set<Propagator>, kind: Propagator)
    requires Contains(carrier, sc, live) && CaseDistinct(carrier)
    ensures kind in live ==> forall key :: key in KeysOf(kind) ==>
      key in LowerKeys(carrier) && key in carrier && LowerKeys(carrier)[key] == carrier[key]
    ensures kind !in live ==> forall key :: key in KeysOf(kind) ==> key !in LowerKeys(carrier)
  {
    forall key | key in KeysOf(kind) && kind in live
      ensures key in LowerKeys(carrier) && key in carrier && LowerKeys(carrier)[key] == carrier[key]
    {
      assert key in carrier;
      KeyStays(kind, key);
    }
    forall key | key in KeysOf(kind) && kind !in live ensures key !in LowerKeys(carrier) {
      if key in LowerKeys(carrier) {
        var k :| k in carrier && Lower(k) == key;
        ForeignKeyIsAbsent(k, sc, live, kind);
      }
    }
  }

  lemma ForeignKeyIsAbsent(k: string, sc: SpanContext, live: set<Propagator>, kind: Propagator)
    requires IsField(k, live) || IsBaggage(k, sc.baggage)
    requires kind !in live
    ensures Lower(k) !in KeysOf(kind)
  {
    if IsField(k, live) {
      FieldStays(k, live);
      var kind' :| kind' in live && k in KeysOf(kind');
      KeysAreApart(kind, kind');
    } else {
      var b :| b in sc.baggage && k == Prefixed(b);
      LowerOfPrefixed(b);
      PrefixedIsNoField(Lower(b), kind);
    }
  }

  /** Each piece of baggage read was written. */
  lemma BaggageReadWasWritten(carrier: map<string, string>, sc: SpanContext, live: set<Propagator>, x: string)
    requires Contains(carrier, sc, live) && CaseDistinct(carrier) && CaseDistinct(sc.baggage)
    requires Prefixed(x) in LowerKeys(carrier)
    ensures x in LowerKeys(sc.baggage) && LowerKeys(carrier)[Prefixed(x)] == LowerKeys(sc.baggage)[x]
  {
    var k :| k in carrier && Lower(k) == Prefixed(x) && LowerKeys(carrier)[Prefixed(x)] == carrier[k];
    PrefixedKeyIsBaggage(k, live, sc.baggage, x);
    var b :| b in sc.baggage && k == Prefixed(b);
    LowerOfPrefixed(b);
    PrefixedIsInjective(x, Lower(b));
  }

  lemma PrefixedKeyIsBaggage(k: string, live: set<Propagator>, baggage: map<string, string>, x: string)
    requires IsField(k, live) || IsBaggage(k, baggage)
    requires Lower(k) == Prefixed(x)
    ensures IsBaggage(k, baggage)
  {
    if IsField(k, live) {
      var kind :| kind in live && k in KeysOf(kind);
      KeyStays(kind, k);
      PrefixedIsNoField(x, kind);
    }
  }

  /** Each piece of baggage written is read. */
  lemma BaggageWrittenIsRead(carrier: map<string, string>, sc: SpanContext, live: set<Propagator>, x: string)
    requires Contains(carrier, sc, live) && x in LowerKeys(sc.baggage)
    ensures Prefixed(x) in LowerKeys(carrier)
  {
    var b :| b in sc.baggage && Lower(b) == x;
    LowerOfPrefixed(b);
    assert Prefixed(b) in carrier;
  }

  lemma ReaderTakesBaggage(kind: Propagator, m: map<string, string>, x: string)
    ensures x in BaggageOf(Reader(kind), m) <==> Prefixed(x) in m
    ensures x in BaggageOf(Reader(kind), m) ==> BaggageOf(Reader(kind), m)[x] == m[Prefixed(x)]
  {
    PrefixedIsNoField(x, kind);
    assert PREFIX_BAGGAGE <= Prefixed(x);
  }

  /** The baggage read from the carrier is the baggage written, with its keys in lower case. */
  lemma BaggageInLowerCase(carrier: map<string, string>, sc: SpanContext, live: set<Propagator>, kind: Propagator)
    requires Contains(carrier, sc, live) && CaseDistinct(carrier) && CaseDistinct(sc.baggage)
    ensures BaggageOf(Reader(kind), LowerKeys(carrier)) == LowerKeys(sc.baggage)
  {
    var m, read, written := LowerKeys(carrier), BaggageOf(Reader(kind), LowerKeys(carrier)), LowerKeys(sc.baggage);
    forall x | x in read ensures x in written && read[x] == written[x] {
      ReaderTakesBaggage(kind, m, x);
      BaggageReadWasWritten(carrier, sc, live, x);
    }
    forall x | x in written ensures x in read {
      ReaderTakesBaggage(kind, m, x);
      BaggageWrittenIsRead(carrier, sc, live, x);
    }
    SameMap(read, written);
  }

  /** Reading the three fields that a propagator wrote. */
  lemma MeaningOfFields(m: map<string, string>, sc: SpanContext, kind: Propagator)
    requires ContainsFields(m, sc, kind) && BaggageOf(Reader(kind), m) == LowerKeys(sc.baggage)
    ensures ExtractMap(Reader(kind), m) == RoundTrip(kind, sc)
  {
    ParseOfFormat(sc.traceID);
    ParseOfFormat(sc.spanID);
    B3TraceIDReadBack(sc.traceID, sc.traceIDUpper);
  }

  lemma MeaningOfCarrier(carrier: map<string, string>, sc: SpanContext, live: set<Propagator>, kind: Propagator)
    requires Contains(carrier, sc, live) && CaseDistinct(sc.baggage) && CaseDistinct(carrier)
    ensures
      ExtractMap(Reader(kind), LowerKeys(carrier)) ==
      if kind in live then RoundTrip(kind, sc) else SpanContextNotFound
  {
    FieldsInLowerCase(carrier, sc, live, kind);
    if kind in live {
      BaggageInLowerCase(carrier, sc, live, kind);
      MeaningOfFields(LowerKeys(carrier), sc, kind);
    } else {
      NoFieldsMeanNothing(LowerKeys(carrier), kind);
    }
  }

  /** Any reader of a carrier gets the context back from the propagators that wrote to it, and nothing otherwise. */
  lemma ReadBack(carrier: map<string, string>, sc: SpanContext, live: set<Propagator>, kind: Propagator,
                 entries: seq<Entry>)
    requires Contains(carrier, sc, live) && CaseDistinct(sc.baggage) && Shows(entries, carrier)
    ensures ExtractFrom(Reader(kind), entries) == if kind in live then RoundTrip(kind, sc) else SpanContextNotFound
  {
    KeysDiffer(kind, NO_CONTEXT);
    ExtractIgnoresOrder(Reader(kind), entries);
    MeaningOfCarrier(carrier, sc, live, kind);
  }

  lemma NoFieldsMeanNothing(m: map<string, string>, kind: Propagator)
    requires forall key :: key in KeysOf(kind) ==> key !in m
    ensures ExtractMap(Reader(kind), m) == SpanContextNotFound
  {
  }

  // ---------------------------------------------------------------------------------------------------------------
  // One propagator

  /** What one injection leaves in a carrier that was empty. */
  lemma InjectedContains(kind: Propagator, sc: SpanContext)
    ensures Contains(Injected(Filled(kind, sc), sc.baggage), sc, {kind})
  {
    var injected := Injected(Filled(kind, sc), sc.baggage);
    AddingContains(map[], sc, {}, kind);
    assert map[] + injected == injected && {} + {kind} == {kind};
  }

  lemma BaggageIsNoField(key: string, baggage: map<string, string>, kind: Propagator)
    requires IsBaggage(key, baggage)
    ensures key !in KeysOf(kind)
  {
    var b :| b in baggage && key == Prefixed(b);
    PrefixedIsNoField(b, kind);
  }

  lemma BaggageEntryIsBaggage(key: string, baggage: map<string, string>)
    requires key in BaggageEntries(PREFIX_BAGGAGE, baggage)
    ensures IsBaggage(key, baggage)
  {
    assert key == Prefixed(key[|PREFIX_BAGGAGE|..]);
  }

  lemma StateFields(kind: Propagator, sc: SpanContext)
    ensures ContainsFields(StateEntries(Filled(kind, sc)), sc, kind)
    ensures forall key :: key in StateEntries(Filled(kind, sc)) ==> key in KeysOf(kind)
  {
    KeysDiffer(kind, sc);
  }

  /** An injection writes its propagator's fields. */
  lemma InjectedFields(kind: Propagator, sc: SpanContext)
    ensures ContainsFields(Injected(Filled(kind, sc), sc.baggage), sc, kind)
  {
    StateFields(kind, sc);
    var bag := BaggageEntries(PREFIX_BAGGAGE, sc.baggage);
    forall key | key in KeysOf(kind) ensures key !in bag {
      KeysAreNotBaggage(kind);
    }
    FieldsSurvive(StateEntries(Filled(kind, sc)), bag, sc, kind);
  }

  lemma FieldsSurvive(m: map<string, string>, more: map<string, string>, sc: SpanContext, kind: Propagator)
    requires ContainsFields(m, sc, kind)
    requires forall key :: key in KeysOf(kind) ==> key !in more
    ensures ContainsFields(m + more, sc, kind)
  {
    assert TraceIDKey(kind) in KeysOf(kind) && SpanIDKey(kind) in KeysOf(kind) && SampledKey(kind) in KeysOf(kind);
  }

  lemma LaterFieldsWin(m: map<string, string>, more: map<string, string>, sc: SpanContext, kind: Propagator)
    requires ContainsFields(more, sc, kind)
    ensures ContainsFields(m + more, sc, kind)
  {
  }

  /** An injection writes nothing but its propagator's fields and the baggage. */
  lemma InjectedKey(kind: Propagator, sc: SpanContext, key: string)
    requires key in Injected(Filled(kind, sc), sc.baggage)
    ensures key in KeysOf(kind) || IsBaggage(key, sc.baggage)
  {
    StateFields(kind, sc);
    if key in BaggageEntries(PREFIX_BAGGAGE, sc.baggage) {
      BaggageEntryIsBaggage(key, sc.baggage);
    }
  }

  lemma InjectedKeyIsNot(kind: Propagator, sc: SpanContext, other: Propagator, key: string)
    requires other != kind && key in KeysOf(other)
    ensures key !in Injected(Filled(kind, sc), sc.baggage)
  {
    KeysAreApart(kind, other);
    if key in Injected(Filled(kind, sc), sc.baggage) {
      InjectedKey(kind, sc, key);
      BaggageIsNoField(key, sc.baggage, other);
    }
  }

  /** An injection leaves the fields of the other propagators alone. */
  lemma OtherFieldsStay(carrier: map<string, string>, sc: SpanContext, other: Propagator, kind: Propagator)
    requires other != kind && ContainsFields(carrier, sc, other)
    ensures ContainsFields(carrier + Injected(Filled(kind, sc), sc.baggage), sc, other)
  {
    forall key | key in KeysOf(other) ensures key !in Injected(Filled(kind, sc), sc.baggage) {
      InjectedKeyIsNot(kind, sc, other, key);
    }
    FieldsSurvive(carrier, Injected(Filled(kind, sc), sc.baggage), sc, other);
  }

  lemma InjectedBaggage(kind: Propagator, sc: SpanContext, b: string)
    requires b in sc.baggage
    ensures
      var injected := Injected(Filled(kind, sc), sc.baggage);
      Prefixed(b) in injected && injected[Prefixed(b)] == sc.baggage[b]
  {
    assert Prefixed(b) in BaggageEntries(PREFIX_BAGGAGE, sc.baggage);
  }

  /** One more injection of the same context never overwrites what the others wrote. */
  lemma AddingContains(carrier: map<string, string>, sc: SpanContext, live: set<Propagator>, kind: Propagator)
    requires Contains(carrier, sc, live) || (carrier == map[] && live == {})
    ensures Contains(carrier + Injected(Filled(kind, sc), sc.baggage), sc, live + {kind})
  {
    var after := carrier + Injected(Filled(kind, sc), sc.baggage);
    forall k | k in live + {kind} ensures ContainsFields(after, sc, k) {
      if k != kind {
        OtherFieldsStay(carrier, sc, k, kind);
      } else {
        InjectedFields(kind, sc);
        LaterFieldsWin(carrier, Injected(Filled(kind, sc), sc.baggage), sc, kind);
      }
    }
    forall b | b in sc.baggage ensures Prefixed(b) in after && after[Prefixed(b)] == sc.baggage[b] {
      InjectedBaggage(kind, sc, b);
    }
    forall key | key in after ensures IsField(key, live + {kind}) || IsBaggage(key, sc.baggage) {
      NoOtherKeys(carrier, sc, live, kind, key);
    }
  }

  lemma NoOtherKeys(carrier: map<string, string>, sc: SpanContext, live: set<Propagator>, kind: Propagator, key: string)
    requires key in carrier ==> IsField(key, live) || IsBaggage(key, sc.baggage)
    requires key in carrier || key in Injected(Filled(kind, sc), sc.baggage)
    ensures IsField(key, live + {kind}) || IsBaggage(key, sc.baggage)
  {
    if key in carrier && IsField(key, live) {
      var k :| k in live && key in KeysOf(k);
      assert k in live + {kind};
    } else if key !in carrier {
      InjectedKey(kind, sc, key);
      assert kind in live + {kind};
    }
  }

  /** There is always something to read: a carrier that propagators wrote a context to can be visited. */
  lemma WrittenCarrierCanBeVisited(carrier: map<string, string>, sc: SpanContext, live: set<Propagator>)
    returns (entries: seq<Entry>)
    requires Contains(carrier, sc, live) && DistinctButForCase(sc.baggage)
    ensures Visits(entries, carrier)
  {
    CaseDistinctIff(sc.baggage);
    ContainsIsCaseDistinct(carrier, sc, live);
    CaseDistinctIff(carrier);
    entries := EveryCarrierCanBeVisited(carrier);
  }

  /** Any visit of such a carrier shows it. */
  lemma WrittenCarrierIsShown(carrier: map<string, string>, sc: SpanContext, live: set<Propagator>, entries: seq<Entry>)
    requires Contains(carrier, sc, live) && DistinctButForCase(sc.baggage) && Visits(entries, carrier)
    ensures CaseDistinct(sc.baggage) && Shows(entries, carrier)
  {
    CaseDistinctIff(sc.baggage);
    ContainsIsCaseDistinct(carrier, sc, live);
    VisitShows(entries, carrier);
  }

  /** What each propagator puts on the wire, header by header. */
  lemma LightStepWrites(sc: SpanContext)
    ensures
      var m := Injected(Filled(LightStep, sc), sc.baggage);
      && "ot-tracer-traceid" in m && m["ot-tracer-traceid"] == FormatUint(sc.traceID)
      && "ot-tracer-spanid" in m && m["ot-tracer-spanid"] == FormatUint(sc.spanID)
      && "ot-tracer-sampled" in m && m["ot-tracer-sampled"] == (if |sc.sampled| > 0 then sc.sampled else "true")
      && (forall b :: b in sc.baggage ==> "ot-baggage-" + b in m && m["ot-baggage-" + b] == sc.baggage[b])
      && (forall key :: key in m ==>
            || key in {"ot-tracer-traceid", "ot-tracer-spanid", "ot-tracer-sampled"}
            || exists b :: b in sc.baggage && key == "ot-baggage-" + b)
  {
    hide Injected;
    hide Filled;
    hide FormatUint;
    FilledIs(sc);
    InjectedFields(LightStep, sc);
    WritesBaggage(LightStep, sc);
  }

  /** What each propagator fills in, in words. */
  lemma FilledIs(sc: SpanContext)
    ensures Filled(LightStep, sc).traceID == FormatUint(sc.traceID)
    ensures Filled(LightStep, sc).spanID == FormatUint(sc.spanID)
    ensures Filled(LightStep, sc).sampled == sc.sampled
    ensures
      Filled(B3, sc).traceID ==
      if sc.traceIDUpper == 0 then FormatUint(sc.traceID) else FormatUint(sc.traceIDUpper) + FormatUint(sc.traceID)
    ensures Filled(B3, sc).spanID == FormatUint(sc.spanID)
    ensures Filled(B3, sc).sampled == B3Sampled(sc)
  {
  }

  lemma B3Writes(sc: SpanContext)
    ensures
      var m := Injected(Filled(B3, sc), sc.baggage);
      && "x-b3-traceid" in m && "x-b3-spanid" in m && "x-b3-sampled" in m
      && m["x-b3-traceid"] ==
         (if sc.traceIDUpper == 0 then FormatUint(sc.traceID)
          else FormatUint(sc.traceIDUpper) + FormatUint(sc.traceID))
      && m["x-b3-spanid"] == FormatUint(sc.spanID)
      && m["x-b3-sampled"] ==
         (if "x-b3-sampled" in sc.baggage && |sc.baggage["x-b3-sampled"]| > 0 then sc.baggage["x-b3-sampled"] else "1")
      && (forall b :: b in sc.baggage ==> "ot-baggage-" + b in m && m["ot-baggage-" + b] == sc.baggage[b])
      && (forall key :: key in m ==>
            || key in {"x-b3-traceid", "x-b3-spanid", "x-b3-sampled"}
            || exists b :: b in sc.baggage && key == "ot-baggage-" + b)
  {
    hide Injected;
    hide Filled;
    hide FormatUint;
    FilledIs(sc);
    InjectedFields(B3, sc);
    WritesBaggage(B3, sc);
    B3SampledIsNotEmpty(sc);
  }

  lemma B3SampledIsNotEmpty(sc: SpanContext)
    ensures B3Sampled(sc) != ""
  {
  }

  lemma WritesBaggage(kind: Propagator, sc: SpanContext)
    ensures
      var m := Injected(Filled(kind, sc), sc.baggage);
      && (forall b :: b in sc.baggage ==> "ot-baggage-" + b in m && m["ot-baggage-" + b] == sc.baggage[b])
      && (forall key :: key in m ==>
            key in KeysOf(kind) || exists b :: b in sc.baggage && key == "ot-baggage-" + b)
  {
    var m := Injected(Filled(kind, sc), sc.baggage);
    forall b | b in sc.baggage ensures "ot-baggage-" + b in m && m["ot-baggage-" + b] == sc.baggage[b] {
      InjectedBaggage(kind, sc, b);
      assert Prefixed(b) == "ot-baggage-" + b;
    }
    forall key | key in m ensures key in KeysOf(kind) || exists b :: b in sc.baggage && key == "ot-baggage-" + b {
      InjectedKey(kind, sc, key);
      if IsBaggage(key, sc.baggage) {
        var b :| b in sc.baggage && key == Prefixed(b);
        assert key == "ot-baggage-" + b;
      }
    }
  }

  /** Which ids each propagator accepts, and as what. */
  lemma ReadersParse(v: string)
    ensures
      Reader(LightStep).parseTraceID(v) ==
      if v != "" && AllDigits(v) && Value(v) < TWO_64 then Some(Ids(Value(v), 0)) else None
    ensures
      |v| != 32 ==>
        Reader(B3).parseTraceID(v) ==
        if v != "" && AllDigits(v) && Value(v) < TWO_64 then Some(Ids(Value(v), 0)) else None
    ensures
      |v| == 32 ==>
        && (Reader(B3).parseTraceID(v).Some? <==> AllDigits(v[..15]) && AllDigits(v[16..]))
        && (Reader(B3).parseTraceID(v).Some? ==>
              && Reader(B3).parseTraceID(v).value.upper == Value(v[..15])
              && Reader(B3).parseTraceID(v).value.lower == Value(v[16..]))
  {
    hide ParseUint;
    hide AllDigits;
    hide Value;
    ParseUintMeans(v);
    if |v| == 32 {
      B3ParsesLongIDs(v);
    }
  }

  /**
   LightStep round trip, for the written pairs in any order and with their keys in any case: the ids, the baggage
   without capitals in its keys, and the sampled flag, where an empty one has become "true". The high half of the trace
   id is not carried.
   */
  lemma LightStepRoundTrip(sc: SpanContext, entries: seq<Entry>)
    requires DistinctButForCase(sc.baggage)
    requires Visits(entries, Injected(Filled(LightStep, sc), sc.baggage))
    ensures
      var back := ExtractFrom(Reader(LightStep), entries);
      && back.Extracted?
      && back.context.traceID == sc.traceID && back.context.spanID == sc.spanID && back.context.traceIDUpper == 0
      && back.context.sampled == (if sc.sampled == "" then "true" else sc.sampled)
      && WithoutCapitals(back.context.baggage, sc.baggage)
      && (back.context.traceIDUpper == sc.traceIDUpper <==> sc.traceIDUpper == 0)
  {
    var carrier := Injected(Filled(LightStep, sc), sc.baggage);
    InjectedContains(LightStep, sc);
    WrittenCarrierIsShown(carrier, sc, {LightStep}, entries);
    ReadBack(carrier, sc, {LightStep}, LightStep, entries);
    LowerKeysHaveNoCapitals(sc.baggage);
  }

  lemma B3RoundTripIDs(sc: SpanContext)
    ensures
      var back, digits := RoundTrip(B3, sc), |FormatUint(sc.traceIDUpper)| + |FormatUint(sc.traceID)|;
      && (back.Extracted? && Ids(back.context.traceID, back.context.traceIDUpper) == Ids(sc.traceID, sc.traceIDUpper)
          <==> sc.traceIDUpper == 0)
      && (sc.traceIDUpper != 0 && digits == 32 ==>
            back.Extracted? && back.context.traceIDUpper == sc.traceIDUpper / 16 && back.context.traceID == sc.traceID)
      && (sc.traceIDUpper != 0 && 16 < digits < 32 ==> back == SpanContextCorrupted)
      && (sc.traceIDUpper != 0 && digits <= 16 ==>
            back.Extracted? && back.context.traceIDUpper == 0 &&
            back.context.traceID == sc.traceIDUpper * Pow16(|FormatUint(sc.traceID)|) + sc.traceID)
  {
    B3TraceIDReadBack(sc.traceID, sc.traceIDUpper);
    B3KeepsTraceIDIff(sc.traceID, sc.traceIDUpper);
  }

  /**
   B3 round trip, for the written pairs in any order and with their keys in any case. The trace id survives if and only
   if it has no high half. With one, either both halves have 16 digits and the high half comes back divided by 16, or
   they have 17 to 31 digits and the context is reported as corrupted, or they have at most 16 and come back as one
   64-bit id.
   */
  lemma B3RoundTrip(sc: SpanContext, entries: seq<Entry>)
    requires DistinctButForCase(sc.baggage)
    requires Visits(entries, Injected(Filled(B3, sc), sc.baggage))
    ensures
      var back := ExtractFrom(Reader(B3), entries);
      var digits := |FormatUint(sc.traceIDUpper)| + |FormatUint(sc.traceID)|;
      && (back.Extracted? ==>
            && back.context.spanID == sc.spanID
            && back.context.sampled ==
               (if "x-b3-sampled" in sc.baggage && |sc.baggage["x-b3-sampled"]| > 0 then sc.baggage["x-b3-sampled"]
                else "1")
            && WithoutCapitals(back.context.baggage, sc.baggage))
      && (back.Extracted? && Ids(back.context.traceID, back.context.traceIDUpper) == Ids(sc.traceID, sc.traceIDUpper)
          <==> sc.traceIDUpper == 0)
      && (sc.traceIDUpper != 0 && digits == 32 ==>
            back.Extracted? && back.context.traceIDUpper == sc.traceIDUpper / 16 && back.context.traceID == sc.traceID)
      && (sc.traceIDUpper != 0 && 16 < digits < 32 ==> back == SpanContextCorrupted)
      && (sc.traceIDUpper != 0 && digits <= 16 ==>
            back.Extracted? && back.context.traceIDUpper == 0 &&
            back.context.traceID == sc.traceIDUpper * Pow16(|FormatUint(sc.traceID)|) + sc.traceID)
  {
    hide Injected;
    hide Filled;
    hide Contains;
    hide ExtractFrom;
    hide FormatUint;
    hide Pow16;
    hide WithoutCapitals;
    hide DistinctButForCase;
    hide Visits;
    var carrier := Injected(Filled(B3, sc), sc.baggage);
    InjectedContains(B3, sc);
    WrittenCarrierIsShown(carrier, sc, {B3}, entries);
    ReadBack(carrier, sc, {B3}, B3, entries);
    B3RoundTripIDs(sc);
    LowerKeysHaveNoCapitals(sc.baggage);
  }

  lemma ThreeVisits(p: TextMapPropagator, first: Entry, second: Entry, third: Entry)
    ensures
      var one := Visited(p, NOTHING_CAPTURED, first);
      var two := if one == None then None else Visited(p, one.value, second);
      VisitAll(p, [first, second, third]) == if two == None then None else Visited(p, two.value, third)
  {
    hide Visited;
    var all := [first, second, third];
    assert all[..2] == [first, second] && all[..2][..1] == [first] && [first][..0] == [];
    assert VisitAll(p, [first]) == Visited(p, NOTHING_CAPTURED, first);
  }

  lemma LightStepVisits(c: Captured, e: Entry)
    requires e.value == "1"
    ensures Lower(e.key) == FIELD_NAME_TRACE_ID ==>
      Visited(Reader(LightStep), c, e) == Some(c.(ids := Ids(1, 0), requiredFieldCount := c.requiredFieldCount + 1))
    ensures Lower(e.key) == FIELD_NAME_SPAN_ID ==>
      Visited(Reader(LightStep), c, e) == Some(c.(spanID := 1, requiredFieldCount := c.requiredFieldCount + 1))
  {
    KeysDiffer(LightStep, NO_CONTEXT);
    assert ParseUint("1") == Some(1);
  }

  /**
   Why the keys must differ by more than case: `Extract` counts fields, not which ones. Two spellings of the trace id
   stand in for the missing sampled flag.
   */
  lemma RepeatedKeyStandsInForMissing()
    ensures
      ExtractFrom(Reader(LightStep),
                  [Entry("ot-tracer-traceid", "1"), Entry("OT-TRACER-TRACEID", "1"), Entry("ot-tracer-spanid", "1")]) ==
      Extracted(SpanContext(0, 1, 1, "", map[]))
  {
    var first, second, third :=
      Entry("ot-tracer-traceid", "1"), Entry("OT-TRACER-TRACEID", "1"), Entry("ot-tracer-spanid", "1");
    KeyStays(LightStep, FIELD_NAME_TRACE_ID);
    KeyStays(LightStep, FIELD_NAME_SPAN_ID);
    assert Lower(second.key) == FIELD_NAME_TRACE_ID;
    LightStepVisits(NOTHING_CAPTURED, first);
    LightStepVisits(Captured(1, Ids(1, 0), 0, "", map[]), second);
    LightStepVisits(Captured(2, Ids(1, 0), 0, "", map[]), third);
    ThreeVisits(Reader(LightStep), first, second, third);
  }
}
