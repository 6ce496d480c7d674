/**
 Text propagation (propagation_text.go): writing a span context into a carrier of string pairs, and reading it back
 from the pairs in whatever order the carrier shows them, ignoring the case of their keys.

 `ExtractFrom` follows the visiting order. `ExtractMap` has no order: it reads a map of lower-cased keys. They agree
 when the keys differ by more than case.
 */
module TextPropagation {
  import opened Base16
  import opened Bits
  import opened Wrappers

  datatype SpanContext = SpanContext(
    traceIDUpper: uint64,
    traceID: uint64,
    spanID: uint64,
    sampled: string,
    baggage: map<string, string>)

  /** The prefix of baggage keys. It is a field of the propagator here, so that nothing hangs on its letters. */
  const PREFIX_BAGGAGE := "ot-baggage-"
  const TRACER_STATE_FIELD_COUNT := 3

  datatype Ids = Ids(lower: uint64, upper: uint64)

  datatype TextMapPropagator = TextMapPropagator(
    prefixBaggage: string,
    traceIDKey: string,
    traceID: string,
    spanIDKey: string,
    spanID: string,
    sampledKey: string,
    sampled: string,
    parseTraceID: string -> Option<Ids>)

  ghost predicate DistinctKeys(p: TextMapPropagator) {
    p.traceIDKey != p.spanIDKey && p.traceIDKey != p.sampledKey && p.spanIDKey != p.sampledKey
  }

  // ---------------------------------------------------------------------------------------------------------------
  // Lower case

  function LowerChar(c: char): char {
    if 'A' <= c <= 'Z' then 'a' + (c - 'A') else c
  }

  function Lower(s: string): (r: string)
    ensures |r| == |s|
    ensures forall i :: 0 <= i < |s| ==> r[i] == LowerChar(s[i])
  {
    seq(|s|, i requires 0 <= i < |s| => LowerChar(s[i]))
  }

  lemma LowerOfConcat(a: string, b: string)
    ensures Lower(a + b) == Lower(a) + Lower(b)
  {
  }

  /** Two characters that are the same, or the two cases of an ASCII letter. */
  predicate SameLetter(c: char, d: char) {
    || c == d
    || ('A' <= c <= 'Z' && d as int == c as int + 32)
    || ('A' <= d <= 'Z' && c as int == d as int + 32)
  }

  /** Two strings that differ at most in case, position by position. */
  ghost predicate SameButForCase(a: string, b: string) {
    |a| == |b| && forall i :: 0 <= i < |a| ==> SameLetter(a[i], b[i])
  }

  predicate IsCapital(c: char) {
    'A' <= c <= 'Z'
  }

  ghost predicate HasNoCapitals(s: string) {
    forall i :: 0 <= i < |s| ==> !IsCapital(s[i])
  }

  lemma LowerCharIs(c: char)
    ensures IsCapital(c) ==> LowerChar(c) as int == c as int + 32
    ensures !IsCapital(c) ==> LowerChar(c) == c
    ensures !IsCapital(LowerChar(c)) && SameLetter(c, LowerChar(c))
  {
  }

  lemma LowerCharAgrees(c: char, d: char)
    ensures SameLetter(c, d) <==> LowerChar(c) == LowerChar(d)
  {
  }

  /** Lower case is the same exactly for strings that differ at most in case. */
  lemma LowerIffSameButForCase(a: string, b: string)
    ensures Lower(a) == Lower(b) <==> SameButForCase(a, b)
  {
    hide LowerChar;
    hide SameLetter;
    if |a| == |b| {
      forall i | 0 <= i < |a| ensures SameLetter(a[i], b[i]) <==> Lower(a)[i] == Lower(b)[i] {
        LowerCharAgrees(a[i], b[i]);
      }
    }
  }

  /** Lower case is the only spelling that differs at most in case and has no capitals. */
  lemma LowerIs(s: string)
    ensures SameButForCase(s, Lower(s)) && HasNoCapitals(Lower(s))
    ensures forall t :: SameButForCase(s, t) && HasNoCapitals(t) ==> t == Lower(s)
  {
    hide LowerChar;
    hide SameLetter;
    forall i | 0 <= i < |s| ensures SameLetter(s[i], Lower(s)[i]) && !IsCapital(Lower(s)[i]) {
      LowerCharIs(s[i]);
    }
    forall t | SameButForCase(s, t) && HasNoCapitals(t) ensures t == Lower(s) {
      LowerIffSameButForCase(s, t);
      forall i | 0 <= i < |t| ensures Lower(t)[i] == t[i] {
        assert !IsCapital(t[i]);
        LowerCharIs(t[i]);
      }
      assert Lower(t) == t;
    }
  }

  /** No two keys are the same when lower-cased. */
  ghost predicate CaseDistinct(m: map<string, string>) {
    forall k, k' :: k in m && k' in m && Lower(k) == Lower(k') ==> k == k'
  }

  /** The map with its keys lower-cased. */
  ghost function LowerKeys(m: map<string, string>): (r: map<string, string>)
    ensures forall key :: key in r ==> exists k :: k in m && Lower(k) == key && r[key] == m[k]
    ensures forall k :: k in m ==> Lower(k) in r
    ensures CaseDistinct(m) ==> forall k :: k in m ==> r[Lower(k)] == m[k]
  {
    var keys := set k | k in m :: Lower(k);
    map key | key in keys :: m[KeyFor(m, key)]
  }

  ghost function KeyFor(m: map<string, string>, key: string): (k: string)
    requires exists k :: k in m && Lower(k) == key
    ensures k in m && Lower(k) == key
  {
    var k :| k in m && Lower(k) == key;
    k
  }

  // ---------------------------------------------------------------------------------------------------------------
  // Inject

  /** Go's `TextMapCarrier`. */
  class TextMapCarrier {
    var entries: map<string, string>

    constructor ()
      ensures entries == map[]
    {
      entries := map[];
    }

    method Set(key: string, value: string)
      modifies this
      ensures entries == old(entries)[key := value]
    {
      entries := entries[key := value];
    }
  }

  function BaggageEntries(prefix: string, baggage: map<string, string>): (r: map<string, string>)
    ensures forall k :: k in baggage ==> prefix + k in r && r[prefix + k] == baggage[k]
    ensures forall key :: key in r ==> prefix <= key && key[|prefix|..] in baggage
  {
    map key | key in (set k | k in baggage :: prefix + k) :: baggage[key[|prefix|..]]
  }

  function StateEntries(p: TextMapPropagator): map<string, string> {
    map[p.traceIDKey := p.traceID]
       [p.spanIDKey := p.spanID]
       [p.sampledKey := if |p.sampled| > 0 then p.sampled else "true"]
  }

  /** What injecting a context with this baggage writes. */
  function Injected(p: TextMapPropagator, baggage: map<string, string>): map<string, string> {
    StateEntries(p) + BaggageEntries(p.prefixBaggage, baggage)
  }

  method Inject(p: TextMapPropagator, sc: SpanContext, carrier: TextMapCarrier)
    modifies carrier
    ensures carrier.entries == old(carrier.entries) + Injected(p, sc.baggage)
  {
    carrier.Set(p.traceIDKey, p.traceID);
    carrier.Set(p.spanIDKey, p.spanID);
    if |p.sampled| > 0 {
      carrier.Set(p.sampledKey, p.sampled);
    } else {
      carrier.Set(p.sampledKey, "true");
    }
    StateEntriesMerge(old(carrier.entries), p);
    InjectBaggage(p.prefixBaggage, sc.baggage, carrier);
    MergeAssociates(old(carrier.entries), StateEntries(p), BaggageEntries(p.prefixBaggage, sc.baggage));
  }

  /** The loop of `Inject`. Go visits the baggage in no particular order. */
  method InjectBaggage(prefix: string, baggage: map<string, string>, carrier: TextMapCarrier)
    modifies carrier
    ensures carrier.entries == old(carrier.entries) + BaggageEntries(prefix, baggage)
  {
    var todo := baggage.Keys;
    assert baggage - todo == map[];
    while todo != {}
      invariant todo <= baggage.Keys
      invariant carrier.entries == old(carrier.entries) + BaggageEntries(prefix, baggage - todo)
      decreases todo
    {
      var k :| k in todo;
      carrier.Set(prefix + k, baggage[k]);
      OneMoreInjected(old(carrier.entries), prefix, baggage, todo, k);
      todo := todo - {k};
    }
    assert baggage - todo == baggage;
  }

  lemma OneMoreInjected(before: map<string, string>, prefix: string, baggage: map<string, string>,
                        todo: set<string>, k: string)
    requires k in todo && todo <= baggage.Keys
    ensures
      (before + BaggageEntries(prefix, baggage - todo))[prefix + k := baggage[k]] ==
      before + BaggageEntries(prefix, baggage - (todo - {k}))
  {
    assert baggage - (todo - {k}) == (baggage - todo)[k := baggage[k]];
    OneMoreBaggageEntry(prefix, baggage - todo, k, baggage[k]);
    UpdateMerges(before, BaggageEntries(prefix, baggage - todo), prefix + k, baggage[k]);
  }

  lemma StateEntriesMerge(before: map<string, string>, p: TextMapPropagator)
    ensures
      var sampled := if |p.sampled| > 0 then p.sampled else "true";
      before[p.traceIDKey := p.traceID][p.spanIDKey := p.spanID][p.sampledKey := sampled] == before + StateEntries(p)
  {
    assert before[p.traceIDKey := p.traceID] == before + map[p.traceIDKey := p.traceID];
    UpdateMerges(before, map[p.traceIDKey := p.traceID], p.spanIDKey, p.spanID);
    UpdateMerges(before, map[p.traceIDKey := p.traceID][p.spanIDKey := p.spanID], p.sampledKey,
                 if |p.sampled| > 0 then p.sampled else "true");
  }

  lemma MergeAssociates<K, V>(a: map<K, V>, b: map<K, V>, c: map<K, V>)
    ensures a + b + c == a + (b + c)
  {
  }

  lemma UpdateMerges<K, V>(a: map<K, V>, b: map<K, V>, k: K, v: V)
    ensures (a + b)[k := v] == a + b[k := v]
  {
  }

  lemma OneMoreBaggageEntry(prefix: string, done: map<string, string>, k: string, v: string)
    ensures BaggageEntries(prefix, done[k := v]) == BaggageEntries(prefix, done)[prefix + k := v]
  {
    var more := BaggageEntries(prefix, done[k := v]);
    forall key | key in more ensures key in BaggageEntries(prefix, done)[prefix + k := v] {
      assert key == prefix + key[|prefix|..];
    }
    forall key | key in BaggageEntries(prefix, done)[prefix + k := v]
      ensures key in more && more[key] == BaggageEntries(prefix, done)[prefix + k := v][key]
    {
      assert key == prefix + key[|prefix|..];
    }
  }

  // ---------------------------------------------------------------------------------------------------------------
  // Extract

  datatype ExtractResult = Extracted(context: SpanContext) | SpanContextNotFound | SpanContextCorrupted

  datatype Entry = Entry(key: string, value: string)

  /** The variables that the callback of `Extract` captures. */
  datatype Captured = Captured(
    requiredFieldCount: nat,
    ids: Ids,
    spanID: uint64,
    sampled: string,
    decodedBaggage: map<string, string>)

  const NOTHING_CAPTURED := Captured(0, Ids(0, 0), 0, "", map[])

  /** One call of the callback, or the error it ends the visit with. */
  function Visited(p: TextMapPropagator, c: Captured, e: Entry): Option<Captured> {
    var key := Lower(e.key);
    if key == p.traceIDKey then
      var ids := p.parseTraceID(e.value);
      if ids == None then None else Some(c.(ids := ids.value, requiredFieldCount := c.requiredFieldCount + 1))
    else if key == p.spanIDKey then
      var id := ParseUint(e.value);
      if id == None then None else Some(c.(spanID := id.value, requiredFieldCount := c.requiredFieldCount + 1))
    else if key == p.sampledKey then
      Some(c.(sampled := e.value, requiredFieldCount := c.requiredFieldCount + 1))
    else if p.prefixBaggage <= key then
      Some(c.(decodedBaggage := c.decodedBaggage[key[|p.prefixBaggage|..] := e.value]))
    else
      Some(c)
  }

  function VisitAll(p: TextMapPropagator, entries: seq<Entry>): Option<Captured>
    decreases |entries|
  {
    if entries == [] then
      Some(NOTHING_CAPTURED)
    else
      var before := VisitAll(p, entries[..|entries| - 1]);
      if before == None then None else Visited(p, before.value, entries[|entries| - 1])
  }

  function Conclude(c: Option<Captured>): ExtractResult {
    if c == None then
      SpanContextCorrupted
    else if c.value.requiredFieldCount < TRACER_STATE_FIELD_COUNT then
      if c.value.requiredFieldCount == 0 then SpanContextNotFound else SpanContextCorrupted
    else
      Extracted(SpanContext(c.value.ids.upper, c.value.ids.lower, c.value.spanID, c.value.sampled,
                            c.value.decodedBaggage))
  }

  function ExtractFrom(p: TextMapPropagator, entries: seq<Entry>): ExtractResult {
    Conclude(VisitAll(p, entries))
  }

  lemma {:induction false} ErrorEndsTheVisit(p: TextMapPropagator, entries: seq<Entry>, i: nat)
    requires i <= |entries| && VisitAll(p, entries[..i]) == None
    ensures VisitAll(p, entries) == None
    decreases |entries|
  {
    if i == |entries| {
      assert entries[..i] == entries;
    } else {
      assert entries[..|entries| - 1][..i] == entries[..i];
      ErrorEndsTheVisit(p, entries[..|entries| - 1], i);
    }
  }

  /** `entries` are the carrier's pairs in the order in which it shows them. */
  method Extract(p: TextMapPropagator, entries: seq<Entry>) returns (r: ExtractResult)
    ensures r == ExtractFrom(p, entries)
  {
    var requiredFieldCount := 0;
    var ids, spanID: uint64 := Ids(0, 0), 0;
    var sampled := "";
    var decodedBaggage: map<string, string> := map[];
    var i := 0;
    while i < |entries|
      invariant 0 <= i <= |entries|
      invariant VisitAll(p, entries[..i]) == Some(Captured(requiredFieldCount, ids, spanID, sampled, decodedBaggage))
    {
      var k, v := entries[i].key, entries[i].value;
      assert entries[..i + 1][..i] == entries[..i];
      var lowercaseK := Lower(k);
      if lowercaseK == p.traceIDKey {
        var parsed := p.parseTraceID(v);
        if parsed == None {
          ErrorEndsTheVisit(p, entries, i + 1);
          return SpanContextCorrupted;
        }
        ids := parsed.value;
        requiredFieldCount := requiredFieldCount + 1;
      } else if lowercaseK == p.spanIDKey {
        var parsed := ParseUint(v);
        if parsed == None {
          ErrorEndsTheVisit(p, entries, i + 1);
          return SpanContextCorrupted;
        }
        spanID := parsed.value;
        requiredFieldCount := requiredFieldCount + 1;
      } else if lowercaseK == p.sampledKey {
        sampled := v;
        requiredFieldCount := requiredFieldCount + 1;
      } else if p.prefixBaggage <= lowercaseK {
        decodedBaggage := decodedBaggage[lowercaseK[|p.prefixBaggage|..] := v];
      }
      i := i + 1;
    }
    assert entries[..i] == entries;
    if requiredFieldCount < TRACER_STATE_FIELD_COUNT {
      if requiredFieldCount == 0 {
        return SpanContextNotFound;
      }
      return SpanContextCorrupted;
    }
    r := Extracted(SpanContext(ids.upper, ids.lower, spanID, sampled, decodedBaggage));
  }

  // ---------------------------------------------------------------------------------------------------------------
  // Extract without an order

  /** No two entries have the same key when lower-cased. */
  ghost predicate UniqueKeys(entries: seq<Entry>) {
    forall i, j :: 0 <= i < j < |entries| ==> Lower(entries[i].key) != Lower(entries[j].key)
  }

  ghost function LowerMap(entries: seq<Entry>): (m: map<string, string>)
    ensures forall key :: key in m ==> exists i :: 0 <= i < |entries| && Lower(entries[i].key) == key
    decreases |entries|
  {
    if entries == [] then
      map[]
    else
      var last := entries[|entries| - 1];
      LowerMap(entries[..|entries| - 1])[Lower(last.key) := last.value]
  }

  /** A key of the lower-cased map that carries baggage. */
  predicate CarriesBaggage(p: TextMapPropagator, key: string) {
    p.prefixBaggage <= key && key != p.traceIDKey && key != p.spanIDKey && key != p.sampledKey
  }

  ghost function BaggageOf(p: TextMapPropagator, m: map<string, string>): (r: map<string, string>)
    ensures forall k :: k in r <==> p.prefixBaggage + k in m && CarriesBaggage(p, p.prefixBaggage + k)
    ensures forall k :: k in r ==> r[k] == m[p.prefixBaggage + k]
  {
    var keys := set key | key in m && CarriesBaggage(p, key) :: key[|p.prefixBaggage|..];
    assert forall key :: p.prefixBaggage <= key ==> p.prefixBaggage + key[|p.prefixBaggage|..] == key;
    assert forall k :: (p.prefixBaggage + k)[|p.prefixBaggage|..] == k;
    map k | k in keys :: m[p.prefixBaggage + k]
  }

  ghost predicate IdsParse(p: TextMapPropagator, m: map<string, string>) {
    (p.traceIDKey in m ==> p.parseTraceID(m[p.traceIDKey]).Some?) &&
    (p.spanIDKey in m ==> ParseUint(m[p.spanIDKey]).Some?)
  }

  ghost predicate AllFieldsIn(p: TextMapPropagator, m: map<string, string>) {
    p.traceIDKey in m && p.spanIDKey in m && p.sampledKey in m
  }

  ghost predicate NoFieldIn(p: TextMapPropagator, m: map<string, string>) {
    p.traceIDKey !in m && p.spanIDKey !in m && p.sampledKey !in m
  }

  /** What a carrier with these pairs, under lower-cased keys, means. */
  ghost function ExtractMap(p: TextMapPropagator, m: map<string, string>): ExtractResult {
    if NoFieldIn(p, m) then
      SpanContextNotFound
    else if AllFieldsIn(p, m) && IdsParse(p, m) then
      var ids := p.parseTraceID(m[p.traceIDKey]).value;
      Extracted(SpanContext(ids.upper, ids.lower, ParseUint(m[p.spanIDKey]).value, m[p.sampledKey], BaggageOf(p, m)))
    else
      SpanContextCorrupted
  }

  function Count(field: Option<string>): nat {
    if field.Some? then 1 else 0
  }

  function Lookup(m: map<string, string>, key: string): Option<string> {
    if key in m then Some(m[key]) else None
  }

  /** What the callback has captured once it saw these fields and this baggage. */
  function Assembled(
      p: TextMapPropagator,
      traceID: Option<string>,
      spanID: Option<string>,
      sampled: Option<string>,
      baggage: map<string, string>): Option<Captured>
  {
    var ids := if traceID.Some? then p.parseTraceID(traceID.value) else Some(Ids(0, 0));
    var id: Option<uint64> := if spanID.Some? then ParseUint(spanID.value) else Some(0);
    if ids == None || id == None then
      None
    else
      Some(Captured(Count(traceID) + Count(spanID) + Count(sampled), ids.value, id.value, sampled.GetOr(""), baggage))
  }

  /** What the callback has captured once it saw these pairs. */
  ghost function CapturedFrom(p: TextMapPropagator, m: map<string, string>): Option<Captured> {
    Assembled(p, Lookup(m, p.traceIDKey), Lookup(m, p.spanIDKey), Lookup(m, p.sampledKey), BaggageOf(p, m))
  }

  lemma SameMap(a: map<string, string>, b: map<string, string>)
    requires forall k :: k in a ==> k in b && a[k] == b[k]
    requires forall k :: k in b ==> k in a
    ensures a == b
  {
    assert a.Keys == b.Keys;
  }

  lemma BaggageOneMore(p: TextMapPropagator, m: map<string, string>, k: string, value: string)
    requires CarriesBaggage(p, p.prefixBaggage + k)
    ensures BaggageOf(p, m[p.prefixBaggage + k := value]) == BaggageOf(p, m)[k := value]
  {
    var more, less := BaggageOf(p, m[p.prefixBaggage + k := value]), BaggageOf(p, m)[k := value];
    forall k' | k' in more ensures k' in less && more[k'] == less[k'] {
      assert k' != k ==> (p.prefixBaggage + k')[|p.prefixBaggage|..] != (p.prefixBaggage + k)[|p.prefixBaggage|..];
    }
    forall k' | k' in less ensures k' in more {
      assert k' != k ==> p.prefixBaggage + k' in m;
    }
    SameMap(more, less);
  }

  lemma NoMoreBaggage(p: TextMapPropagator, m: map<string, string>, key: string, value: string)
    requires !CarriesBaggage(p, key)
    ensures BaggageOf(p, m[key := value]) == BaggageOf(p, m)
  {
    var more, less := BaggageOf(p, m[key := value]), BaggageOf(p, m);
    forall k | k in more ensures k in less && more[k] == less[k] {
      assert CarriesBaggage(p, p.prefixBaggage + k);
      assert p.prefixBaggage + k != key;
    }
    forall k | k in less ensures k in more {
      assert p.prefixBaggage + k in m;
    }
    SameMap(more, less);
  }

  lemma CaptureField(p: TextMapPropagator, t: Option<string>, s: Option<string>, f: Option<string>,
                     b: map<string, string>, e: Entry)
    requires DistinctKeys(p) && Assembled(p, t, s, f, b).Some?
    ensures
      Lower(e.key) == p.traceIDKey && t == None ==>
        Assembled(p, Some(e.value), s, f, b) == Visited(p, Assembled(p, t, s, f, b).value, e)
    ensures
      Lower(e.key) == p.spanIDKey && s == None ==>
        Assembled(p, t, Some(e.value), f, b) == Visited(p, Assembled(p, t, s, f, b).value, e)
    ensures
      Lower(e.key) == p.sampledKey && f == None ==>
        Assembled(p, t, s, Some(e.value), b) == Visited(p, Assembled(p, t, s, f, b).value, e)
  {
  }

  lemma CaptureOther(p: TextMapPropagator, t: Option<string>, s: Option<string>, f: Option<string>,
                     b: map<string, string>, e: Entry)
    requires Assembled(p, t, s, f, b).Some?
    requires Lower(e.key) != p.traceIDKey && Lower(e.key) != p.spanIDKey && Lower(e.key) != p.sampledKey
    ensures
      var key := Lower(e.key);
      var b' := if p.prefixBaggage <= key then b[key[|p.prefixBaggage|..] := e.value] else b;
      Assembled(p, t, s, f, b') == Visited(p, Assembled(p, t, s, f, b).value, e)
  {
  }

  /** The callback on one of the three fields. */
  lemma VisitField(p: TextMapPropagator, m: map<string, string>, e: Entry)
    requires DistinctKeys(p) && Lower(e.key) !in m && CapturedFrom(p, m).Some?
    requires Lower(e.key) == p.traceIDKey || Lower(e.key) == p.spanIDKey || Lower(e.key) == p.sampledKey
    ensures CapturedFrom(p, m[Lower(e.key) := e.value]) == Visited(p, CapturedFrom(p, m).value, e)
  {
    NoMoreBaggage(p, m, Lower(e.key), e.value);
    CaptureField(p, Lookup(m, p.traceIDKey), Lookup(m, p.spanIDKey), Lookup(m, p.sampledKey), BaggageOf(p, m), e);
  }

  /** The callback on anything else. */
  lemma VisitOther(p: TextMapPropagator, m: map<string, string>, e: Entry)
    requires CapturedFrom(p, m).Some?
    requires Lower(e.key) != p.traceIDKey && Lower(e.key) != p.spanIDKey && Lower(e.key) != p.sampledKey
    ensures CapturedFrom(p, m[Lower(e.key) := e.value]) == Visited(p, CapturedFrom(p, m).value, e)
  {
    var key := Lower(e.key);
    CaptureOther(p, Lookup(m, p.traceIDKey), Lookup(m, p.spanIDKey), Lookup(m, p.sampledKey), BaggageOf(p, m), e);
    if p.prefixBaggage <= key {
      var k := key[|p.prefixBaggage|..];
      assert key == p.prefixBaggage + k;
      BaggageOneMore(p, m, k, e.value);
    } else {
      NoMoreBaggage(p, m, key, e.value);
    }
  }

  lemma VisitOneMore(p: TextMapPropagator, m: map<string, string>, e: Entry)
    requires DistinctKeys(p) && Lower(e.key) !in m && CapturedFrom(p, m).Some?
    ensures CapturedFrom(p, m[Lower(e.key) := e.value]) == Visited(p, CapturedFrom(p, m).value, e)
  {
    if Lower(e.key) == p.traceIDKey || Lower(e.key) == p.spanIDKey || Lower(e.key) == p.sampledKey {
      VisitField(p, m, e);
    } else {
      VisitOther(p, m, e);
    }
  }

  lemma ErrorStays(p: TextMapPropagator, m: map<string, string>, key: string, value: string)
    requires key !in m && CapturedFrom(p, m) == None
    ensures CapturedFrom(p, m[key := value]) == None
  {
  }

  lemma CaptureOneMore(p: TextMapPropagator, m: map<string, string>, c: Option<Captured>, e: Entry)
    requires DistinctKeys(p) && Lower(e.key) !in m && c == CapturedFrom(p, m)
    ensures CapturedFrom(p, m[Lower(e.key) := e.value]) == if c == None then None else Visited(p, c.value, e)
  {
    if c == None {
      ErrorStays(p, m, Lower(e.key), e.value);
    } else {
      VisitOneMore(p, m, e);
    }
  }

  lemma NoBaggageInNothing(p: TextMapPropagator)
    ensures BaggageOf(p, map[]) == map[]
  {
    SameMap(BaggageOf(p, map[]), map[]);
  }

  lemma NoFieldsCaptured(p: TextMapPropagator, b: map<string, string>)
    ensures Assembled(p, None, None, None, b) == Some(NOTHING_CAPTURED.(decodedBaggage := b))
  {
  }

  lemma NothingToCapture(p: TextMapPropagator)
    ensures CapturedFrom(p, map[]) == Some(NOTHING_CAPTURED)
  {
    NoBaggageInNothing(p);
    NoFieldsCaptured(p, BaggageOf(p, map[]));
  }

  lemma LastKeyIsNew(entries: seq<Entry>)
    requires entries != [] && UniqueKeys(entries)
    ensures Lower(entries[|entries| - 1].key) !in LowerMap(entries[..|entries| - 1])
  {
  }

  lemma {:induction false} VisitAllCaptures(p: TextMapPropagator, entries: seq<Entry>)
    requires DistinctKeys(p) && UniqueKeys(entries)
    ensures VisitAll(p, entries) == CapturedFrom(p, LowerMap(entries))
    decreases |entries|
  {
    if entries == [] {
      NothingToCapture(p);
    } else {
      var front, last := entries[..|entries| - 1], entries[|entries| - 1];
      VisitAllCaptures(p, front);
      LastKeyIsNew(entries);
      CaptureOneMore(p, LowerMap(front), VisitAll(p, front), last);
    }
  }

  /**
   For carriers whose keys differ by more than case, the order of the visit does not matter, and the outcome is fully
   classified: not found when none of the three fields is there, a context when all three are and both ids parse,
   corrupted in every other case.
   */
  lemma ExtractIgnoresOrder(p: TextMapPropagator, entries: seq<Entry>)
    requires DistinctKeys(p) && UniqueKeys(entries)
    ensures ExtractFrom(p, entries) == ExtractMap(p, LowerMap(entries))
    ensures
      var m := LowerMap(entries);
      && (ExtractFrom(p, entries) == SpanContextNotFound <==> NoFieldIn(p, m))
      && (ExtractFrom(p, entries).Extracted? <==> AllFieldsIn(p, m) && IdsParse(p, m))
      && (ExtractFrom(p, entries) == SpanContextCorrupted <==>
            !NoFieldIn(p, m) && !(AllFieldsIn(p, m) && IdsParse(p, m)))
  {
    VisitAllCaptures(p, entries);
  }

  // ---------------------------------------------------------------------------------------------------------------
  // Extract when keys repeat

  predicate IsFieldEntry(p: TextMapPropagator, e: Entry) {
    var key := Lower(e.key);
    key == p.traceIDKey || key == p.spanIDKey || key == p.sampledKey
  }

  /** A trace id or span id that does not parse ends the visit. Nothing else does. */
  predicate EntryParses(p: TextMapPropagator, e: Entry) {
    var key := Lower(e.key);
    if key == p.traceIDKey then p.parseTraceID(e.value).Some?
    else key == p.spanIDKey ==> ParseUint(e.value).Some?
  }

  ghost predicate EveryEntryParses(p: TextMapPropagator, entries: seq<Entry>) {
    forall i :: 0 <= i < |entries| ==> EntryParses(p, entries[i])
  }

  /** How many entries are fields, repeated ones included. */
  function FieldCount(p: TextMapPropagator, entries: seq<Entry>): nat
    decreases |entries|
  {
    if entries == [] then
      0
    else
      FieldCount(p, entries[..|entries| - 1]) + if IsFieldEntry(p, entries[|entries| - 1]) then 1 else 0
  }

  lemma {:induction false} VisitAllCounts(p: TextMapPropagator, entries: seq<Entry>)
    ensures VisitAll(p, entries).Some? <==> EveryEntryParses(p, entries)
    ensures VisitAll(p, entries).Some? ==> VisitAll(p, entries).value.requiredFieldCount == FieldCount(p, entries)
    decreases |entries|
  {
    if entries != [] {
      var front, last := entries[..|entries| - 1], entries[|entries| - 1];
      VisitAllCounts(p, front);
      assert entries == front + [last];
    }
  }

  /**
   What `Extract` decides, for every list of entries, repeated keys included: it counts fields. A context takes three of
   them, whichever they are, and every id to parse; nothing is found when there is no field at all; anything else is
   corrupted.
   */
  lemma ExtractCountsFields(p: TextMapPropagator, entries: seq<Entry>)
    ensures
      var r := ExtractFrom(p, entries);
      && (r.Extracted? <==> EveryEntryParses(p, entries) && FieldCount(p, entries) >= TRACER_STATE_FIELD_COUNT)
      && (r == SpanContextNotFound <==> EveryEntryParses(p, entries) && FieldCount(p, entries) == 0)
      && (r == SpanContextCorrupted <==>
            !EveryEntryParses(p, entries) || 0 < FieldCount(p, entries) < TRACER_STATE_FIELD_COUNT)
      && (FieldCount(p, entries) == 0 ==> EveryEntryParses(p, entries))
  {
    VisitAllCounts(p, entries);
    if FieldCount(p, entries) == 0 {
      NoFieldsParse(p, entries);
    }
  }

  lemma {:induction false} NoFieldsParse(p: TextMapPropagator, entries: seq<Entry>)
    requires FieldCount(p, entries) == 0
    ensures EveryEntryParses(p, entries)
    decreases |entries|
  {
    if entries != [] {
      var front, last := entries[..|entries| - 1], entries[|entries| - 1];
      NoFieldsParse(p, front);
      assert entries == front + [last];
    }
  }

  /** Some entry has this key. */
  ghost predicate Shown(entries: seq<Entry>, key: string) {
    exists i :: 0 <= i < |entries| && Lower(entries[i].key) == key
  }

  ghost predicate AllFieldsShown(p: TextMapPropagator, entries: seq<Entry>) {
    Shown(entries, p.traceIDKey) && Shown(entries, p.spanIDKey) && Shown(entries, p.sampledKey)
  }

  function Seen(b: bool): nat {
    if b then 1 else 0
  }

  lemma ShownStep(front: seq<Entry>, last: Entry, key: string)
    ensures Shown(front + [last], key) <==> Shown(front, key) || Lower(last.key) == key
  {
    var entries := front + [last];
    if Shown(front, key) {
      var i :| 0 <= i < |front| && Lower(front[i].key) == key;
      assert entries[i] == front[i];
    }
    if Lower(last.key) == key {
      assert entries[|front|] == last;
    }
    if Shown(entries, key) && Lower(last.key) != key {
      var i :| 0 <= i < |entries| && Lower(entries[i].key) == key;
      assert front[i] == entries[i];
    }
  }

  /** Every field that is shown counts at least once. */
  lemma {:induction false} ShownFieldsCount(p: TextMapPropagator, entries: seq<Entry>)
    requires DistinctKeys(p)
    ensures
      FieldCount(p, entries) >=
      Seen(Shown(entries, p.traceIDKey)) + Seen(Shown(entries, p.spanIDKey)) + Seen(Shown(entries, p.sampledKey))
    decreases |entries|
  {
    if entries != [] {
      var front, last := entries[..|entries| - 1], entries[|entries| - 1];
      ShownFieldsCount(p, front);
      assert entries == front + [last];
      ShownStep(front, last, p.traceIDKey);
      ShownStep(front, last, p.spanIDKey);
      ShownStep(front, last, p.sampledKey);
    }
  }

  /**
   When "a context exactly if all three fields are there and every id parses" is true of `Extract`: exactly when either
   all three are there, or some id does not parse, or there are fewer than three fields with repetitions counted.
   */
  lemma AllFieldsDecideIff(p: TextMapPropagator, entries: seq<Entry>)
    requires DistinctKeys(p)
    ensures
      (ExtractFrom(p, entries).Extracted? <==> AllFieldsShown(p, entries) && EveryEntryParses(p, entries)) <==>
      || AllFieldsShown(p, entries)
      || !EveryEntryParses(p, entries)
      || FieldCount(p, entries) < TRACER_STATE_FIELD_COUNT
  {
    ExtractCountsFields(p, entries);
    ShownFieldsCount(p, entries);
  }

  /** The entries of a carrier as some reader sees them: in any order, with the keys in any case. */
  ghost predicate Shows(entries: seq<Entry>, carrier: map<string, string>) {
    UniqueKeys(entries) && CaseDistinct(carrier) && LowerMap(entries) == LowerKeys(carrier)
  }

  /** No two keys differ in case only. */
  ghost predicate DistinctButForCase(m: map<string, string>) {
    forall k, k' :: k in m && k' in m && SameButForCase(k, k') ==> k == k'
  }

  ghost predicate ShowsKey(entries: seq<Entry>, k: string, v: string) {
    exists i :: 0 <= i < |entries| && SameButForCase(entries[i].key, k) && entries[i].value == v
  }

  ghost predicate IsShownFor(carrier: map<string, string>, e: Entry) {
    exists k :: k in carrier && SameButForCase(e.key, k) && e.value == carrier[k]
  }

  /** The pairs of a carrier, each once, in any order, and with the letters of their keys in any case. */
  ghost predicate Visits(entries: seq<Entry>, carrier: map<string, string>) {
    && (forall k :: k in carrier ==> ShowsKey(entries, k, carrier[k]))
    && (forall i :: 0 <= i < |entries| ==> IsShownFor(carrier, entries[i]))
    && (forall i, j :: 0 <= i < j < |entries| ==> !SameButForCase(entries[i].key, entries[j].key))
  }

  lemma CaseDistinctIff(m: map<string, string>)
    ensures CaseDistinct(m) <==> DistinctButForCase(m)
  {
    hide Lower;
    hide SameButForCase;
    forall k, k' | k in m && k' in m ensures Lower(k) == Lower(k') <==> SameButForCase(k, k') {
      LowerIffSameButForCase(k, k');
    }
  }

  lemma UniqueKeysIff(entries: seq<Entry>)
    ensures
      UniqueKeys(entries) <==>
      forall i, j :: 0 <= i < j < |entries| ==> !SameButForCase(entries[i].key, entries[j].key)
  {
    hide Lower;
    hide SameButForCase;
    forall i, j | 0 <= i < j < |entries|
      ensures Lower(entries[i].key) == Lower(entries[j].key) <==> SameButForCase(entries[i].key, entries[j].key)
    {
      LowerIffSameButForCase(entries[i].key, entries[j].key);
    }
  }

  lemma {:induction false} LowerMapAt(entries: seq<Entry>, i: nat)
    requires UniqueKeys(entries) && i < |entries|
    ensures Lower(entries[i].key) in LowerMap(entries) && LowerMap(entries)[Lower(entries[i].key)] == entries[i].value
    decreases |entries|
  {
    hide Lower;
    if i < |entries| - 1 {
      LowerMapAt(entries[..|entries| - 1], i);
    }
  }

  lemma ShownIsLowered(entries: seq<Entry>, carrier: map<string, string>, i: nat)
    requires i < |entries| && IsShownFor(carrier, entries[i]) && CaseDistinct(carrier)
    ensures
      var x := Lower(entries[i].key);
      x in LowerKeys(carrier) && LowerKeys(carrier)[x] == entries[i].value
  {
    hide Lower;
    hide SameButForCase;
    var k :| k in carrier && SameButForCase(entries[i].key, k) && entries[i].value == carrier[k];
    LowerIffSameButForCase(entries[i].key, k);
  }

  lemma LoweredIsShown(entries: seq<Entry>, carrier: map<string, string>, k: string)
    requires k in carrier && ShowsKey(entries, k, carrier[k]) && UniqueKeys(entries)
    ensures Lower(k) in LowerMap(entries)
  {
    hide Lower;
    hide SameButForCase;
    var i :| 0 <= i < |entries| && SameButForCase(entries[i].key, k) && entries[i].value == carrier[k];
    LowerIffSameButForCase(entries[i].key, k);
    LowerMapAt(entries, i);
  }

  /** So a visit shows the carrier, whatever its order and the case of its keys. */
  lemma VisitShows(entries: seq<Entry>, carrier: map<string, string>)
    requires Visits(entries, carrier) && CaseDistinct(carrier)
    ensures Shows(entries, carrier)
  {
    hide Lower;
    hide SameButForCase;
    hide ShowsKey;
    hide IsShownFor;
    hide LowerKeys;
    UniqueKeysIff(entries);
    var shown, lowered := LowerMap(entries), LowerKeys(carrier);
    forall x | x in shown ensures x in lowered && shown[x] == lowered[x] {
      var i :| 0 <= i < |entries| && Lower(entries[i].key) == x;
      LowerMapAt(entries, i);
      ShownIsLowered(entries, carrier, i);
    }
    forall x | x in lowered ensures x in shown {
      var k := KeyBehind(carrier, x);
      LoweredIsShown(entries, carrier, k);
    }
    SameMap(shown, lowered);
  }

  /** The same entries with the letters of their keys in other cases. */
  ghost predicate Recased(entries: seq<Entry>, other: seq<Entry>) {
    && |entries| == |other|
    && forall i :: 0 <= i < |entries| ==>
         SameButForCase(entries[i].key, other[i].key) && entries[i].value == other[i].value
  }

  /** `Extract` does not see the case of keys, repeated ones included. */
  lemma {:induction false} ExtractIgnoresCase(p: TextMapPropagator, entries: seq<Entry>, other: seq<Entry>)
    requires Recased(entries, other)
    ensures VisitAll(p, entries) == VisitAll(p, other)
    ensures ExtractFrom(p, entries) == ExtractFrom(p, other)
    decreases |entries|
  {
    hide Lower;
    hide SameButForCase;
    if entries != [] {
      var n := |entries| - 1;
      ExtractIgnoresCase(p, entries[..n], other[..n]);
      LowerIffSameButForCase(entries[n].key, other[n].key);
    }
  }

  /** These are the baggage items, each under the spelling of its key that has no capitals. */
  ghost predicate WithoutCapitals(lowered: map<string, string>, baggage: map<string, string>) {
    && (forall b :: b in baggage ==> LoweredItem(lowered, b, baggage[b]))
    && (forall x :: x in lowered ==> IsLoweredKey(baggage, x))
  }

  ghost predicate LoweredItem(lowered: map<string, string>, b: string, v: string) {
    exists x :: x in lowered && SameButForCase(b, x) && HasNoCapitals(x) && lowered[x] == v
  }

  lemma LowersItem(baggage: map<string, string>, b: string)
    requires CaseDistinct(baggage) && b in baggage
    ensures LoweredItem(LowerKeys(baggage), b, baggage[b])
  {
    hide Lower;
    hide SameButForCase;
    hide HasNoCapitals;
    LowerIs(b);
    assert Lower(b) in LowerKeys(baggage) && LowerKeys(baggage)[Lower(b)] == baggage[b];
  }

  /** Some item has this key, but for case, and the key has no capitals. */
  ghost predicate IsLoweredKey(baggage: map<string, string>, x: string) {
    HasNoCapitals(x) && exists b :: b in baggage && SameButForCase(b, x)
  }

  lemma LowerKeysHaveNoCapitals(baggage: map<string, string>)
    requires CaseDistinct(baggage)
    ensures WithoutCapitals(LowerKeys(baggage), baggage)
  {
    hide Lower;
    hide LowerKeys;
    hide SameButForCase;
    hide HasNoCapitals;
    hide LoweredItem;
    hide IsLoweredKey;
    hide CaseDistinct;
    var lowered := LowerKeys(baggage);
    forall b | b in baggage ensures LoweredItem(lowered, b, baggage[b]) {
      LowersItem(baggage, b);
    }
    forall x | x in lowered ensures IsLoweredKey(baggage, x) {
      LoweredFrom(baggage, x);
    }
  }

  lemma LoweredFrom(baggage: map<string, string>, x: string)
    requires x in LowerKeys(baggage)
    ensures IsLoweredKey(baggage, x)
  {
    hide LowerKeys;
    var b := KeyBehind(baggage, x);
    LowerIs(b);
  }

  lemma KeyBehind(m: map<string, string>, x: string) returns (k: string)
    requires x in LowerKeys(m)
    ensures k in m && Lower(k) == x && LowerKeys(m)[x] == m[k]
  {
    k :| k in m && Lower(k) == x && LowerKeys(m)[x] == m[k];
  }

  lemma StillShowsKey(front: seq<Entry>, last: Entry, k: string, v: string)
    ensures ShowsKey(front, k, v) ==> ShowsKey(front + [last], k, v)
    ensures last == Entry(k, v) ==> ShowsKey(front + [last], k, v)
  {
    hide SameButForCase;
    var entries := front + [last];
    SameAsItself(k);
    assert entries[|front|] == last;
    if ShowsKey(front, k, v) {
      var i :| 0 <= i < |front| && SameButForCase(front[i].key, k) && front[i].value == v;
      assert entries[i] == front[i];
    }
  }

  lemma StillIsShownFor(m: map<string, string>, k: string, e: Entry)
    requires DistinctButForCase(m) && k in m && IsShownFor(m - {k}, e)
    ensures IsShownFor(m, e) && !SameButForCase(e.key, k)
  {
    hide SameButForCase;
    var x :| x in m - {k} && SameButForCase(e.key, x) && e.value == (m - {k})[x];
    assert x in m && m[x] == (m - {k})[x];
    Transitive(x, e.key, k);
  }

  lemma VisitsOneMore(front: seq<Entry>, m: map<string, string>, k: string)
    requires DistinctButForCase(m) && k in m && Visits(front, m - {k})
    ensures Visits(front + [Entry(k, m[k])], m)
  {
    hide SameButForCase;
    hide ShowsKey;
    var last := Entry(k, m[k]);
    forall x | x in m ensures ShowsKey(front + [last], x, m[x]) {
      StillShowsKey(front, last, x, m[x]);
      assert x != k ==> x in m - {k};
    }
    forall i | 0 <= i < |front| ensures IsShownFor(m, front[i]) && !SameButForCase(front[i].key, k) {
      StillIsShownFor(m, k, front[i]);
    }
    SameAsItself(k);
    assert IsShownFor(m, last);
    hide IsShownFor;
  }

  lemma SameAsItself(k: string)
    ensures SameButForCase(k, k)
  {
  }

  lemma Transitive(x: string, y: string, z: string)
    requires SameButForCase(y, x)
    ensures SameButForCase(y, z) ==> SameButForCase(x, z)
  {
    LowerIffSameButForCase(y, x);
    LowerIffSameButForCase(y, z);
    LowerIffSameButForCase(x, z);
  }

  /** Every carrier whose keys differ by more than case can be visited. */
  lemma {:induction false} EveryCarrierCanBeVisited(carrier: map<string, string>) returns (entries: seq<Entry>)
    requires DistinctButForCase(carrier)
    ensures Visits(entries, carrier)
    decreases |carrier|
  {
    hide SameButForCase;
    if carrier == map[] {
      entries := [];
    } else {
      var k :| k in carrier;
      var front := EveryCarrierCanBeVisited(carrier - {k});
      VisitsOneMore(front, carrier, k);
      entries := front + [Entry(k, carrier[k])];
    }
  }
}
