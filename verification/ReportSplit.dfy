/**
 Splitting a report into parts (collector_client.go), and choosing how many (the part sizing of `Flush`, tracer.go).

 `Slices` is the partition the splitting takes from the spans. `AsSent` is what the returned requests carry when they
 are sent: they share one proto request, so every one of them carries the last slice.
 */
module ReportSplit {
  import opened Arithmetic
  import opened ReportBuffers
  import opened Wrappers

  // ---------------------------------------------------------------------------------------------------------------
  // The partition

  /** `n / parts`, rounded up. */
  function PartSize(n: nat, parts: nat): (size: nat)
    requires parts > 0
    ensures n > 0 ==> size > 0
    ensures (size - 1) * parts < n <= size * parts || n == 0
  {
    PartSizeBounds(n, parts);
    if n % parts > 0 then n / parts + 1 else n / parts
  }

  lemma PartSizeBounds(n: nat, parts: nat)
    requires parts > 0
    ensures
      var size := if n % parts > 0 then n / parts + 1 else n / parts;
      (n > 0 ==> size > 0) && ((size - 1) * parts < n <= size * parts || n == 0)
  {
    var q, r := n / parts, n % parts;
    assert n == q * parts + r;
    assert (q + 1) * parts == q * parts + parts;
    assert (q - 1) * parts == q * parts - parts;
    if q == 0 {
      assert q * parts == 0;
    }
  }

  function Chunks<T>(s: seq<T>, size: nat): seq<seq<T>>
    requires size > 0
    decreases |s|
  {
    if s == [] then [] else if |s| <= size then [s] else [s[..size]] + Chunks(s[size..], size)
  }

  function Slices<T>(s: seq<T>, parts: int): (r: seq<seq<T>>)
    ensures |r| > 0
  {
    if s == [] || parts <= 1 then [s] else Chunks(s, PartSize(|s|, parts))
  }

  function Flatten<T>(ss: seq<seq<T>>): seq<T> {
    if ss == [] then [] else ss[0] + Flatten(ss[1..])
  }

  lemma {:induction false} ChunksFlatten<T>(s: seq<T>, size: nat)
    requires size > 0
    ensures Flatten(Chunks(s, size)) == s
    decreases |s|
  {
    if s == [] {
    } else if |s| <= size {
      assert Flatten([s]) == s + Flatten<T>([]);
    } else {
      ChunksFlatten(s[size..], size);
      assert Chunks(s, size)[1..] == Chunks(s[size..], size);
    }
  }

  /** Every chunk is full except the last, which is not empty. */
  lemma {:induction false} ChunkSizes<T>(s: seq<T>, size: nat)
    requires size > 0 && s != []
    ensures Chunks(s, size) != []
    ensures forall i :: 0 <= i < |Chunks(s, size)| - 1 ==> |Chunks(s, size)[i]| == size
    ensures 0 < |Last(Chunks(s, size))| <= size
    ensures |s| == (|Chunks(s, size)| - 1) * size + |Last(Chunks(s, size))|
    decreases |s|
  {
    if |s| <= size {
      assert 0 * size == 0;
    } else {
      ChunkSizes(s[size..], size);
      var rest := Chunks(s[size..], size);
      assert |rest| * size == (|rest| - 1) * size + size;
    }
  }

  function Last<T>(s: seq<T>): T
    requires s != []
  {
    s[|s| - 1]
  }

  /**
   What `SplitByParts` takes: slices that concatenate to the original spans, at most `parts` of them, all of the same
   size but for a shorter last one that is not empty.
   */
  lemma SlicesPartition<T>(s: seq<T>, parts: int)
    requires s != [] && parts > 1
    ensures Flatten(Slices(s, parts)) == s
    ensures |Slices(s, parts)| <= parts
    ensures forall i :: 0 <= i < |Slices(s, parts)| - 1 ==> |Slices(s, parts)[i]| == PartSize(|s|, parts)
    ensures 0 < |Last(Slices(s, parts))| <= PartSize(|s|, parts)
    ensures (PartSize(|s|, parts) - 1) * parts < |s| <= PartSize(|s|, parts) * parts
  {
    var size := PartSize(|s|, parts);
    ChunksFlatten(s, size);
    ChunkSizes(s, size);
    MulOrder(|Slices(s, parts)| - 1, parts, size);
  }

  // ---------------------------------------------------------------------------------------------------------------
  // Splitting as written

  class ProtoRequest {
    var spans: seq<RawSpan>

    constructor (spans: seq<RawSpan>)
      ensures this.spans == spans
    {
      this.spans := spans;
    }
  }

  /** The struct holds a pointer to the proto request, or the encoded body of an HTTP request. */
  datatype ReportRequest = ReportRequest(protoRequest: ProtoRequest?, httpRequest: Option<seq<RawSpan>>)

  method SplitByParts(rr: ReportRequest, parts: int) returns (rrs: seq<ReportRequest>)
    modifies if rr.protoRequest == null then {} else {rr.protoRequest}
    ensures forall r :: r in rrs ==> r == rr
    ensures rr.protoRequest == null ==> |rrs| == 1
    ensures rr.protoRequest != null ==>
      |rrs| == |Slices(old(rr.protoRequest.spans), parts)| &&
      rr.protoRequest.spans == Last(Slices(old(rr.protoRequest.spans), parts))
  {
    if rr.protoRequest == null || |rr.protoRequest.spans| == 0 || parts <= 1 {
      return [rr];
    }
    var spans := rr.protoRequest.spans;
    var maxSize := |spans| / parts;
    if |spans| % parts > 0 {
      maxSize := maxSize + 1;
    }
    ghost var all := Slices(spans, parts);
    assert maxSize == PartSize(|spans|, parts);
    rrs := [];
    while |spans| > 0
      invariant forall r :: r in rrs ==> r == rr
      invariant |rrs| + |Chunks(spans, maxSize)| == |all|
      invariant |rrs| > 0 || spans == old(rr.protoRequest.spans)
      invariant spans == [] ==> rr.protoRequest.spans == Last(all)
      invariant spans != [] ==> Last(Chunks(spans, maxSize)) == Last(all)
    {
      var s := maxSize;
      if |spans| < s {
        s := |spans|;
      }
      var r := rr;
      r.protoRequest.spans := spans[..s];
      ghost var before := spans;
      spans := spans[s..];
      assert before[..s] == before || s == maxSize;
      rrs := rrs + [r];
    }
  }

  /** What the requests carry when they are sent, one after the other. */
  ghost function Carried(rrs: seq<ReportRequest>): (r: seq<seq<RawSpan>>)
    reads set rr | rr in rrs && rr.protoRequest != null :: rr.protoRequest
    ensures |r| == |rrs|
  {
    seq(|rrs|, i requires 0 <= i < |rrs|
      reads set rr | rr in rrs && rr.protoRequest != null :: rr.protoRequest =>
      if rrs[i].protoRequest == null then rrs[i].httpRequest.GetOr([]) else rrs[i].protoRequest.spans)
  }

  /** Every returned part carries the last slice. */
  ghost function AsSent<T>(s: seq<T>, parts: int): (r: seq<seq<T>>)
    ensures |r| == |Slices(s, parts)|
  {
    seq(|Slices(s, parts)|, _ => Last(Slices(s, parts)))
  }

  /** Splitting a request and looking at what its parts carry afterwards. */
  method SplitAndLook(rr: ReportRequest, parts: int) returns (rrs: seq<ReportRequest>)
    requires rr.protoRequest != null
    modifies rr.protoRequest
    ensures forall r :: r in rrs ==> r == rr
    ensures Carried(rrs) == AsSent(old(rr.protoRequest.spans), parts)
  {
    rrs := SplitByParts(rr, parts);
    forall i | 0 <= i < |rrs| ensures Carried(rrs)[i] == rr.protoRequest.spans {
      assert rrs[i] in rrs;
    }
  }

  ghost predicate Distinct<T>(s: seq<T>) {
    forall i, j :: 0 <= i < j < |s| ==> s[i] != s[j]
  }

  ghost predicate Carries<T>(ss: seq<seq<T>>, x: T) {
    exists i :: 0 <= i < |ss| && x in ss[i]
  }

  lemma LastSliceIsSuffix<T>(s: seq<T>, parts: int)
    requires s != [] && parts > 1
    ensures
      var last := Last(Slices(s, parts));
      |last| <= |s| && s[|s| - |last|..] == last
    ensures |s| > 1 ==> |Last(Slices(s, parts))| < |s|
  {
    var size := PartSize(|s|, parts);
    ChunkSizes(s, size);
    LastChunkIsSuffix(s, size);
    if |s| > 1 {
      SplitsInEarnest(|s|, parts);
    }
  }

  lemma SplitsInEarnest(n: nat, parts: nat)
    requires n > 1 && parts > 1
    ensures PartSize(n, parts) < n
  {
    MulMonotone(2, parts, n - 1);
    assert (n - 1) * parts == parts * (n - 1);
    MulOrder(PartSize(n, parts) - 1, n - 1, parts);
  }

  lemma SuffixOfSuffix<T>(s: seq<T>, from: nat, length: nat)
    requires from + length <= |s|
    ensures s[from..][|s| - from - length..] == s[|s| - length..]
  {
  }

  lemma {:induction false} LastChunkIsSuffix<T>(s: seq<T>, size: nat)
    requires s != [] && size > 0
    ensures Chunks(s, size) != []
    ensures
      var last := Last(Chunks(s, size));
      |last| <= |s| && s[|s| - |last|..] == last
    decreases |s|
  {
    if |s| > size {
      LastChunkIsSuffix(s[size..], size);
      var rest := Chunks(s[size..], size);
      assert Last(Chunks(s, size)) == Last(rest);
      SuffixOfSuffix(s, size, |Last(rest)|);
    }
  }

  lemma NotSplitInEarnest<T>(s: seq<T>, parts: int)
    requires parts <= 1 || |s| <= 1
    ensures Slices(s, parts) == [s] && AsSent(s, parts) == [s] && Flatten(AsSent(s, parts)) == s
  {
    if parts > 1 && s != [] {
      assert PartSize(1, parts) >= 1;
    }
    assert Slices(s, parts) == [s];
    assert AsSent(s, parts) == [s];
    assert Flatten([s]) == s + Flatten<T>([]);
  }

  lemma SplitLosesTheFirst<T>(s: seq<T>, parts: int)
    requires Distinct(s) && parts > 1 && |s| > 1
    ensures s[0] !in Last(Slices(s, parts))
  {
    var last := Last(Slices(s, parts));
    LastSliceIsSuffix(s, parts);
    assert forall i :: 0 <= i < |last| ==> last[i] == s[|s| - |last| + i];
  }

  /**
   Which spans a split report carries: exactly those of the last slice. So all the spans are carried if and only if
   the report was not split in earnest, that is with at most one part or at most one span.
   */
  lemma SplitCarriesEverySpanIff<T>(s: seq<T>, parts: int)
    requires Distinct(s)
    ensures forall x :: Carries(AsSent(s, parts), x) <==> x in Last(Slices(s, parts))
    ensures (forall x :: x in s ==> Carries(AsSent(s, parts), x)) <==> parts <= 1 || |s| <= 1
    ensures Flatten(AsSent(s, parts)) == s <==> parts <= 1 || |s| <= 1
  {
    var sent, last := AsSent(s, parts), Last(Slices(s, parts));
    assert sent[0] == last;
    if parts <= 1 || |s| <= 1 {
      NotSplitInEarnest(s, parts);
    } else {
      SplitLosesTheFirst(s, parts);
      FlattenMembers(sent);
      assert s[0] in s && !Carries(sent, s[0]);
    }
  }

  lemma {:induction false} FlattenMembers<T>(ss: seq<seq<T>>)
    ensures forall x :: x in Flatten(ss) <==> Carries(ss, x)
  {
    if ss != [] {
      FlattenMembers(ss[1..]);
      forall x ensures x in Flatten(ss) <==> Carries(ss, x) {
        if x in Flatten(ss[1..]) {
          var i :| 0 <= i < |ss[1..]| && x in ss[1..][i];
          assert x in ss[i + 1];
        }
        if Carries(ss, x) && x !in ss[0] {
          var i :| 0 <= i < |ss| && x in ss[i];
          assert x in ss[1..][i - 1];
        }
      }
    }
  }

  /** A split that loses spans: two of them in two parts, of which both carry the second. */
  lemma SplitLosesTheFirstOfTwo(a: RawSpan, b: RawSpan)
    requires a != b
    ensures Slices([a, b], 2) == [[a], [b]] && AsSent([a, b], 2) == [[b], [b]]
  {
    assert PartSize(2, 2) == 1;
    assert [a, b][..1] == [a] && [a, b][1..] == [b];
    assert Chunks([a, b], 1) == [[a]] + Chunks([b], 1);
    assert Slices([a, b], 2) == [[a], [b]];
  }

  // ---------------------------------------------------------------------------------------------------------------
  // How many parts

  /** The larger of the two sampled span sizes. */
  function SampledSize(spans: seq<RawSpan>, draws: (nat, nat)): nat
    requires spans != []
  {
    if |spans| == 1 then
      spans[0].length
    else
      Max(spans[draws.0 % |spans|].length, spans[draws.1 % |spans|].length)
  }

  function Max(a: nat, b: nat): nat {
    if b > a then b else a
  }

  function PartsFor(byteSize: nat, limit: nat): nat
    requires limit > 0
  {
    if byteSize > limit then PartSize(byteSize, limit) else 1
  }

  lemma ScaleMax(a: nat, b: nat, n: nat)
    ensures Max(a, b) * n == Max(a * n, b * n)
  {
    if b > a {
      MulMonotone(a, b, n);
    } else {
      MulMonotone(b, a, n);
    }
  }

  /** The least number of messages that so many bytes need. */
  ghost predicate LeastParts(parts: nat, bytes: nat, limit: nat) {
    && parts >= 1 && bytes <= parts * limit
    && forall fewer: nat :: 1 <= fewer < parts ==> bytes > fewer * limit
  }

  lemma PartsForIsLeast(bytes: nat, limit: nat)
    requires limit > 0
    ensures LeastParts(PartsFor(bytes, limit), bytes, limit)
  {
    var parts := PartsFor(bytes, limit);
    assert 1 * limit == limit;
    forall fewer: nat | 1 <= fewer < parts ensures bytes > fewer * limit {
      MulMonotone(fewer, parts - 1, limit);
    }
  }

  /** The part sizing of `Flush`. `draws` are its two random numbers. */
  method ChooseParts(spans: seq<RawSpan>, limit: nat, draws: (nat, nat)) returns (parts: nat)
    requires limit > 0
    ensures spans == [] ==> parts == 1
    ensures spans != [] ==> parts == PartsFor(SampledSize(spans, draws) * |spans|, limit)
    ensures |spans| == 1 ==> LeastParts(parts, spans[0].length, limit)
    ensures |spans| > 1 ==>
      var one, two := spans[draws.0 % |spans|].length, spans[draws.1 % |spans|].length;
      LeastParts(parts, (if one >= two then one else two) * |spans|, limit)
  {
    parts := 1;
    var numOfRawSpans := |spans|;
    if numOfRawSpans > 0 {
      var heuristicByteSize := 0;
      if numOfRawSpans == 1 {
        heuristicByteSize := spans[0].length;
      } else {
        var pivots := [draws.0, draws.1];
        ghost var first, second := spans[draws.0 % |spans|].length, spans[draws.1 % |spans|].length;
        ScaleMax(first, second, |spans|);
        for i := 0 to 2
          invariant i == 0 ==> heuristicByteSize == 0
          invariant i == 1 ==> heuristicByteSize == first * |spans|
          invariant i == 2 ==> heuristicByteSize == Max(first * |spans|, second * |spans|)
        {
          var pivot := pivots[i] % numOfRawSpans;
          var h := spans[pivot].length * numOfRawSpans;
          if h > heuristicByteSize {
            heuristicByteSize := h;
          }
        }
      }
      assert heuristicByteSize == SampledSize(spans, draws) * |spans|;
      PartsForIsLeast(heuristicByteSize, limit);
      hide SampledSize;
      hide LeastParts;
      if heuristicByteSize > limit {
        parts := heuristicByteSize / limit;
        if heuristicByteSize % limit != 0 {
          parts := parts + 1;
        }
      }
    }
  }

  function TotalLength(spans: seq<RawSpan>): nat {
    if spans == [] then 0 else spans[0].length + TotalLength(spans[1..])
  }

  lemma {:induction false} TotalAtMost(spans: seq<RawSpan>, size: nat)
    requires forall span :: span in spans ==> span.length <= size
    ensures TotalLength(spans) <= |spans| * size
  {
    if spans != [] {
      TotalAtMost(spans[1..], size);
      assert |spans| * size == (|spans| - 1) * size + size;
    } else {
      assert 0 * size == 0;
    }
  }

  lemma {:induction false} SlicesHaveOnlyTheSpans<T>(s: seq<T>, size: nat, i: nat, x: T)
    requires size > 0 && i < |Chunks(s, size)| && x in Chunks(s, size)[i]
    ensures x in s
    decreases |s|
  {
    if |s| > size && i > 0 {
      SlicesHaveOnlyTheSpans(s[size..], size, i - 1, x);
    }
  }

  lemma OnePartIsEnough(byteSize: nat, limit: nat)
    requires limit > 0 && PartsFor(byteSize, limit) <= 1
    ensures byteSize <= limit
  {
    assert PartSize(byteSize, limit) * limit >= byteSize;
    assert PartSize(byteSize, limit) <= 1 ==> PartSize(byteSize, limit) * limit <= limit;
  }

  /** A part of ceil(n / ceil(size * n / limit)) spans of at most `size` each stays below `limit + size`. */
  lemma PartStaysSmall(n: nat, size: nat, limit: nat)
    requires n > 0 && limit > 0 && size * n > limit
    ensures PartSize(n, PartSize(size * n, limit)) * size < limit + size
  {
    var parts := PartSize(size * n, limit);
    var k := PartSize(n, parts);
    var d := k - 1;
    ProductBound(d, parts, n, size, limit);
    assert k * size == d * size + size;
  }

  /**
   If no span is larger than the larger of the two sampled ones, every slice of a split is estimated below the limit
   plus one such span, and a report that is not split is estimated within the limit.
   */
  lemma SlicesFitTheLimit(spans: seq<RawSpan>, limit: nat, draws: (nat, nat), i: nat)
    requires spans != [] && limit > 0
    requires forall span :: span in spans ==> span.length <= SampledSize(spans, draws)
    requires i < |Slices(spans, PartsFor(SampledSize(spans, draws) * |spans|, limit))|
    ensures
      var size := SampledSize(spans, draws);
      var parts := PartsFor(size * |spans|, limit);
      TotalLength(Slices(spans, parts)[i]) <= (if parts == 1 then limit else limit + size - 1)
  {
    var size, n := SampledSize(spans, draws), |spans|;
    var parts := PartsFor(size * n, limit);
    if parts <= 1 {
      TotalAtMost(spans, size);
      assert size * n == n * size;
      OnePartIsEnough(size * n, limit);
    } else {
      var slice := Slices(spans, parts)[i];
      SlicesPartition(spans, parts);
      forall span | span in slice ensures span.length <= size {
        SlicesHaveOnlyTheSpans(spans, PartSize(n, parts), i, span);
      }
      TotalAtMost(slice, size);
      PartStaysSmall(n, size, limit);
      MulMonotone(|slice|, PartSize(n, parts), size);
    }
  }
}
