/**
 The LightStep and B3 propagators (propagation_lightstep.go, propagation_b3.go): two ways to fill in the text
 propagator, and what of a span context survives each of them.
 */
module Propagators {
  import opened Arithmetic
  import opened Base16
  import opened Bits
  import opened TextPropagation
  import opened Wrappers

  datatype Propagator = LightStep | B3

  const FIELD_NAME_TRACE_ID := "ot-tracer-traceid"
  const FIELD_NAME_SPAN_ID := "ot-tracer-spanid"
  const FIELD_NAME_SAMPLED := "ot-tracer-sampled"
  const B3_FIELD_NAME_TRACE_ID := "x-b3-traceid"
  const B3_FIELD_NAME_SPAN_ID := "x-b3-spanid"
  const B3_FIELD_NAME_SAMPLED := "x-b3-sampled"

  function LightStepTraceIDParser(v: string): Option<Ids> {
    var id := ParseUint(v);
    if id == None then None else Some(Ids(id.value, 0))
  }

  function B3TraceIDParser(v: string): Option<Ids> {
    if |v| == 32 then
      // The upper half is read from 15 digits.
      var upper := ParseUint(v[..15]);
      if upper == None then
        None
      else
        var lower := ParseUint(v[16..]);
        if lower == None then None else Some(Ids(lower.value, upper.value))
    else
      var id := ParseUint(v);
      if id == None then None else Some(Ids(id.value, 0))
  }

  function FormatTraceID(lower: uint64, upper: uint64): string {
    if upper == 0 then FormatUint(lower) else FormatUint(upper) + FormatUint(lower)
  }

  function B3Sampled(sc: SpanContext): string {
    if B3_FIELD_NAME_SAMPLED in sc.baggage && |sc.baggage[B3_FIELD_NAME_SAMPLED]| > 0 then
      sc.baggage[B3_FIELD_NAME_SAMPLED]
    else
      "1"
  }

  /** The text propagator each of the two fills in. Injecting uses its values, extracting its parser. */
  function Filled(kind: Propagator, sc: SpanContext): TextMapPropagator {
    match kind
    case LightStep =>
      TextMapPropagator(PREFIX_BAGGAGE, FIELD_NAME_TRACE_ID, FormatUint(sc.traceID), FIELD_NAME_SPAN_ID,
                        FormatUint(sc.spanID), FIELD_NAME_SAMPLED, sc.sampled, LightStepTraceIDParser)
    case B3 =>
      TextMapPropagator(PREFIX_BAGGAGE, B3_FIELD_NAME_TRACE_ID, FormatTraceID(sc.traceID, sc.traceIDUpper),
                        B3_FIELD_NAME_SPAN_ID, FormatUint(sc.spanID), B3_FIELD_NAME_SAMPLED, B3Sampled(sc),
                        B3TraceIDParser)
  }

  const NO_CONTEXT := SpanContext(0, 0, 0, "", map[])

  function Reader(kind: Propagator): TextMapPropagator {
    Filled(kind, NO_CONTEXT)
  }

  method InjectInto(kind: Propagator, sc: SpanContext, carrier: TextMapCarrier)
    modifies carrier
    ensures carrier.entries == old(carrier.entries) + Injected(Filled(kind, sc), sc.baggage)
  {
    Inject(Filled(kind, sc), sc, carrier);
  }

  method ExtractWith(kind: Propagator, entries: seq<Entry>) returns (r: ExtractResult)
    ensures r == ExtractFrom(Reader(kind), entries)
  {
    r := Extract(Reader(kind), entries);
  }

  // ---------------------------------------------------------------------------------------------------------------
  // Keys

  function TraceIDKey(kind: Propagator): string {
    if kind == LightStep then FIELD_NAME_TRACE_ID else B3_FIELD_NAME_TRACE_ID
  }

  function SpanIDKey(kind: Propagator): string {
    if kind == LightStep then FIELD_NAME_SPAN_ID else B3_FIELD_NAME_SPAN_ID
  }

  function SampledKey(kind: Propagator): string {
    if kind == LightStep then FIELD_NAME_SAMPLED else B3_FIELD_NAME_SAMPLED
  }

  function KeysOf(kind: Propagator): set<string> {
    {TraceIDKey(kind), SpanIDKey(kind), SampledKey(kind)}
  }

  ghost predicate IsLowerCase(s: string) {
    forall i :: 0 <= i < |s| ==> !('A' <= s[i] <= 'Z')
  }

  lemma LowerCaseStays(s: string)
    requires IsLowerCase(s)
    ensures Lower(s) == s
  {
  }

  lemma KeysAreLowerCase(kind: Propagator)
    ensures IsLowerCase(TraceIDKey(kind)) && IsLowerCase(SpanIDKey(kind)) && IsLowerCase(SampledKey(kind))
  {
    match kind
    case LightStep => LightStepKeysAreLowerCase();
    case B3 => B3KeysAreLowerCase();
  }

  lemma LightStepKeysAreLowerCase()
    ensures IsLowerCase(FIELD_NAME_TRACE_ID) && IsLowerCase(FIELD_NAME_SPAN_ID) && IsLowerCase(FIELD_NAME_SAMPLED)
  {
  }

  lemma B3KeysAreLowerCase()
    ensures
      IsLowerCase(B3_FIELD_NAME_TRACE_ID) && IsLowerCase(B3_FIELD_NAME_SPAN_ID) && IsLowerCase(B3_FIELD_NAME_SAMPLED)
  {
  }

  lemma KeyStays(kind: Propagator, key: string)
    requires key in KeysOf(kind)
    ensures Lower(key) == key
  {
    KeysAreLowerCase(kind);
    LowerCaseStays(key);
  }

  lemma KeysAreNotBaggage(kind: Propagator)
    ensures forall key :: key in KeysOf(kind) ==> !(PREFIX_BAGGAGE <= key)
  {
    assert forall key :: key in KeysOf(kind) ==> |key| > 3 && (key[0] == 'x' || key[3] == 't');
    assert PREFIX_BAGGAGE[0] == 'o' && PREFIX_BAGGAGE[3] == 'b';
  }

  lemma KeysDiffer(kind: Propagator, sc: SpanContext)
    ensures DistinctKeys(Filled(kind, sc))
  {
    assert |TraceIDKey(kind)| == |SpanIDKey(kind)| + 1;
    assert SampledKey(kind)[|SampledKey(kind)| - 2] == 'e';
    assert TraceIDKey(kind)[|TraceIDKey(kind)| - 2] == 'i' && SpanIDKey(kind)[|SpanIDKey(kind)| - 2] == 'i';
  }

  lemma KeysAreApart(kind: Propagator, kind': Propagator)
    requires kind != kind'
    ensures KeysOf(kind) !! KeysOf(kind')
  {
    assert forall key :: key in KeysOf(LightStep) ==> key[0] == 'o';
    assert forall key :: key in KeysOf(B3) ==> key[0] == 'x';
  }

  // ---------------------------------------------------------------------------------------------------------------
  // B3 trace ids

  /**
   What B3 reads back from the trace id it writes. The low half is not padded, and the high half loses its last digit:
   only ids without a high half survive.
   */
  function B3ReadBack(lower: uint64, upper: uint64): Option<Ids> {
    if upper == 0 then
      Some(Ids(lower, 0))
    else
      var digits := |FormatUint(upper)| + |FormatUint(lower)|;
      if digits == 32 then Some(Ids(lower, upper / 16))
      else if digits > 16 then None
      else
        Collapsed(lower, upper);
        Some(Ids(upper * Pow16(|FormatUint(lower)|) + lower, 0))
  }

  lemma Collapsed(lower: uint64, upper: uint64)
    requires |FormatUint(upper)| + |FormatUint(lower)| <= 16
    ensures 0 <= upper * Pow16(|FormatUint(lower)|) + lower < TWO_64
  {
    var u, l := FormatUint(upper), FormatUint(lower);
    FormatUintMeans(upper);
    FormatUintMeans(lower);
    ValueOfConcat(u, l);
    ValueBelow(u + l);
    Pow16Grows(|u + l|, 16);
    Pow16Of16();
  }

  lemma {:induction false} ValueBelow(s: string)
    requires AllDigits(s)
    ensures Value(s) < Pow16(|s|)
    decreases |s|
  {
    if s != "" {
      ValueBelow(s[..|s| - 1]);
    }
  }

  /** More than 16 digits, the first of which is not 0, do not fit 64 bits. */
  lemma TooManyDigits(lower: uint64, upper: uint64)
    requires upper > 0 && |FormatUint(upper)| + |FormatUint(lower)| > 16
    ensures ParseUint(FormatUint(upper) + FormatUint(lower)) == None
  {
    var u, l := FormatUint(upper), FormatUint(lower);
    FormatUintMeans(upper);
    FormatUintMeans(lower);
    ValueOfConcat(u, l);
    ParseUintMeans(u + l);
    Pow16Of16();
    Pow16Adds(|u| - 1, |l|);
    MulMonotone(Pow16(|u| - 1), upper, Pow16(|l|));
    Pow16Grows(16, |u| - 1 + |l|);
  }

  lemma {:induction false} Pow16Adds(a: nat, b: nat)
    ensures Pow16(a + b) == Pow16(a) * Pow16(b)
  {
    if a > 0 {
      Pow16Adds(a - 1, b);
      MulAssociates(16, Pow16(a - 1), Pow16(b));
    }
  }

  lemma FewDigits(lower: uint64, upper: uint64)
    requires |FormatUint(upper)| + |FormatUint(lower)| <= 16
    ensures 0 <= upper * Pow16(|FormatUint(lower)|) + lower < TWO_64
    ensures
      ParseUint(FormatUint(upper) + FormatUint(lower)) == Some(upper * Pow16(|FormatUint(lower)|) + lower)
  {
    Collapsed(lower, upper);
    FormatUintMeans(upper);
    FormatUintMeans(lower);
    ValueOfConcat(FormatUint(upper), FormatUint(lower));
    ParseUintMeans(FormatUint(upper) + FormatUint(lower));
  }

  /** Reading 15 of 16 digits divides by 16. */
  lemma LastDigitLost(upper: uint64)
    requires |FormatUint(upper)| == 16
    ensures ParseUint(FormatUint(upper)[..15]) == Some(upper / 16)
  {
    var u := FormatUint(upper);
    assert u == FormatUint(upper / 16) + [DIGITS[upper % 16]];
    assert u[..15] == FormatUint(upper / 16);
    ParseOfFormat(upper / 16);
  }

  lemma B3TraceIDReadBack(lower: uint64, upper: uint64)
    ensures B3TraceIDParser(FormatTraceID(lower, upper)) == B3ReadBack(lower, upper)
  {
    var u, l := FormatUint(upper), FormatUint(lower);
    ParseOfFormat(lower);
    ParseOfFormat(upper);
    if upper != 0 {
      if |u| + |l| == 32 {
        assert (u + l)[..15] == u[..15] && (u + l)[16..] == l;
        LastDigitLost(upper);
      } else if |u| + |l| > 16 {
        TooManyDigits(lower, upper);
      } else {
        FewDigits(lower, upper);
      }
    }
  }

  // ---------------------------------------------------------------------------------------------------------------
  // B3 trace ids of 32 characters, whoever wrote them

  /** What B3 makes of any 32 characters: the first 15 are the high half, the last 16 the low half, one is not read. */
  lemma B3ParsesLongIDs(v: string)
    requires |v| == 32
    ensures AllDigits(v[..15]) ==> Value(v[..15]) < TWO_64
    ensures AllDigits(v[16..]) ==> Value(v[16..]) < TWO_64
    ensures
      B3TraceIDParser(v) ==
      if AllDigits(v[..15]) && AllDigits(v[16..]) then Some(Ids(Value(v[16..]), Value(v[..15]))) else None
  {
    ParseUintMeans(v[..15]);
    ParseUintMeans(v[16..]);
    if AllDigits(v[..15]) {
      ValueFitsWord(v[..15]);
    }
    if AllDigits(v[16..]) {
      ValueFitsWord(v[16..]);
    }
  }

  lemma ValueFitsWord(s: string)
    requires AllDigits(s) && |s| <= 16
    ensures Value(s) < TWO_64
  {
    ValueBelow(s);
    Pow16Grows(|s|, 16);
    Pow16Of16();
  }

  /** The 16th character makes no difference, whatever it is. */
  lemma SixteenthIsNotRead(v: string, v': string)
    requires |v| == |v'| == 32 && v[..15] == v'[..15] && v[16..] == v'[16..]
    ensures B3TraceIDParser(v) == B3TraceIDParser(v')
  {
  }

  /** Sixteen digits, with leading zeros, as the B3 specification asks for. */
  function Padded(v: uint64): (s: string)
    ensures |s| == 16
  {
    FormatFits(v);
    seq(16 - |FormatUint(v)|, _ => '0') + FormatUint(v)
  }

  lemma FormatFits(v: uint64)
    ensures |FormatUint(v)| <= 16
  {
    hide FormatUint;
    hide Pow16;
    hide Value;
    FormatUintLength(v);
    Pow16Of16();
    if v > 0 {
      Pow16Order(|FormatUint(v)| - 1, 16);
    } else {
      ZeroIsOneDigit();
    }
  }

  lemma ZeroIsOneDigit()
    ensures |FormatUint(0)| == 1
  {
  }

  lemma {:induction false} ZerosMeanNothing(n: nat)
    ensures AllDigits(seq(n, _ => '0')) && Value(seq(n, _ => '0')) == 0
  {
    var zeros := seq(n, _ => '0');
    if n > 0 {
      ZerosMeanNothing(n - 1);
      assert zeros[..n - 1] == seq(n - 1, _ => '0');
    }
  }

  lemma PaddedMeans(v: uint64)
    ensures AllDigits(Padded(v)) && Value(Padded(v)) == v
  {
    hide FormatUint;
    hide Pow16;
    hide Value;
    hide AllDigits;
    FormatFits(v);
    FormatUintValue(v);
    ZerosMeanNothing(16 - |FormatUint(v)|);
    ValueOfConcat(seq(16 - |FormatUint(v)|, _ => '0'), FormatUint(v));
  }

  /**
   Even an id that another program padded to 32 digits is read with its high half divided by 16, so it comes through if
   and only if that half is zero.
   */
  lemma PaddedIDsComeThroughIff(lower: uint64, upper: uint64)
    ensures B3TraceIDParser(Padded(upper) + Padded(lower)) == Some(Ids(lower, upper / 16))
    ensures B3TraceIDParser(Padded(upper) + Padded(lower)) == Some(Ids(lower, upper)) <==> upper == 0
  {
    var u, l := Padded(upper), Padded(lower);
    PaddedMeans(upper);
    PaddedMeans(lower);
    assert (u + l)[..15] == u[..15] && (u + l)[16..] == l;
    assert u == u[..15] + [u[15]] && u[..|u| - 1] == u[..15];
    B3ParsesLongIDs(u + l);
    LastDigitOf(u);
  }

  lemma LastDigitOf(s: string)
    requires AllDigits(s) && s != ""
    ensures AllDigits(s[..|s| - 1]) && Value(s[..|s| - 1]) == Value(s) / 16
  {
  }

  /** A B3 trace id comes back as it was if and only if it has no high half. */
  lemma B3KeepsTraceIDIff(lower: uint64, upper: uint64)
    ensures B3TraceIDParser(FormatTraceID(lower, upper)) == Some(Ids(lower, upper)) <==> upper == 0
  {
    B3TraceIDReadBack(lower, upper);
  }
}
