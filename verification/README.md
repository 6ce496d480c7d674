# Verified model of the LightStep tracer

A Dafny model of the parts of the LightStep Go tracer that carry its guarantees: how finished spans are buffered,
flushed, lost and delivered while other goroutines record, disable and close the tracer; how a span keeps and trims its
logs; how span contexts travel through text carriers; how random sources are picked; and how system metrics are
measured and posted. `dafny verify dfyconfig.toml` checks all of it.

The model has the form of the source. What Go updates in place is a class (or a method over an array) whose contract
ties the new state to a function of the old state, and the theorems are about those functions. What interleaves is a
state machine (`TracerMachine`): every action is one region under the tracer's lock, or a step that touches nothing
shared, and the outcomes of the network, the clock and the random numbers are arbitrary.

| file | source | what it holds |
|---|---|---|
| `ReportBuffers.dfy` | `report_buffer.go` | the bounded span buffer and its counters, on a backing array |
| `TracerCore.dfy` | `tracer.go` | the tracer's state, each locked region, and a whole flush, in place |
| `TracerMachine.dfy` | `tracer.go` | all interleavings of record, flush, disable, close and the two loops |
| `TracerLedgers.dfy`, `TracerWindows.dfy`, `TracerDelivery.dfy` | `tracer.go` | what every run keeps of spans, counters, times and deliveries |
| `TracerLifecycle.dfy`, `TracerClosing.dfy`, `TracerDisabled.dfy` | `tracer.go` | how a tracer ends: connections, `Close` and `Disable` |
| `TracerTicks.dfy` | `tracer.go` | how regularly the report loop makes it report |
| `TracerAnswers.dfy` | `tracer.go` | what the collector's answers decide, and what a tick asks for |
| `TracerFlushRun.dfy` | `tracer.go` | an uninterrupted flush is a run of the machine |
| `TracerRuns.dfy` | `tracer.go` | runs that lead where one might not expect |
| `ReportSplit.dfy` | `collector_client.go`, `tracer.go` | splitting a report into parts, and how many parts |
| `SpanLogs.dfy`, `SpanHistories.dfy` | `span.go` | the capped log buffer, its rotation, and histories of a span |
| `SourcePool.dfy` | `lightstep/rand/pool.go` | rounding to a power of two and going round the sources |
| `Base16.dfy` | calls of Go's `strconv` in `propagation_*.go` | printing and parsing base 16, as recursive functions |
| `TextPropagation.dfy`, `Propagators.dfy`, `RoundTrips.dfy`, `PropagatorStack.dfy` | `propagation_*.go` | injecting and extracting span contexts |
| `MetricsRetry.dfy`, `MetricsReporter.dfy`, `MetricsLedger.dfy` | `internal/metrics/reporter.go`, `tracer.go` | posting with retries, and growth of counters |
| `Arithmetic.dfy`, `Bits.dfy`, `Clock.dfy`, `Multisets.dfy`, `Wrappers.dfy` | | powers of two, quotients, uint64 and its operators, times, multisets, options |

## What the code does that its comments do not say

The model follows the code. These are the places where that matters, each with the lemma that shows it and the lemma that
says exactly when it happens.

- `SplitByParts` copies the request struct but not the proto request it points to (`collector_client.go:59-60`), so all
  parts share one object that ends up with the last slice. A split flush sends the last slice once per part and no other
  span, and is counted as a success (`SplitFlushLosesASpan`). A flush carries all its spans exactly under the condition
  of `FlushCarriesEverySpanIff`, and the options that rule splitting out are those of `NeverSplitsIff`. Over HTTP the
  request holds no proto request, so it is never split.
- The comment of `SplitByParts` says that `parts=0` panics; the code returns the request unsplit for every `parts <= 1`.
- A flush whose reply is lost, or that fails in a later part, is restored as a whole although the collector may have
  taken some of it (`FailedFlushDeliversTwice`). As long as no flush that succeeds is split, delivery is at least once
  (`AtLeastOnceUnlessSplit`). With each span recorded once, it is exactly once if and only if no flush that succeeded was
  split and the collector took nothing from a flush that then failed (`ExactlyOnceIff`).
- `Disable` clears the buffer, but a flush in flight that fails to be sent afterwards merges its spans back into it, and
  no later flush sends them (`FailedFlushRefillsDisabledTracer`, `DisabledTracerIsSilent`). Nothing else refills it
  (`RefillsIff`).
- A report loop that ends because the tracer is disabled does not close `reportLoopClosedChannel`, so `Close` then only
  ends with its context and the connection stays open (`LoopMayEndDisabled`, `DisabledLoopStrandsClose`). In every other
  case a waiting `Close` can still get to the connection (`CloseGetsTheConnectionIff`).
- `closeSystemMetricsLoopChannel` is never made, so closing a tracer does not stop its metrics loop
  (`CloseDoesNotStopMetrics`); only a tick that finds the tracer disabled does (`MetricsLoopEndsIff`).
- `Extract` counts how many fields it saw, not which, so two spellings of one key stand in for a missing one
  (`RepeatedKeyStandsInForMissing`). What it decides for any list of entries is in `ExtractCountsFields`, and when the
  three fields alone decide it in `AllFieldsDecideIff`.
- B3 does not pad the low half of a 128-bit trace id, and reads only 15 of the 16 digits of the high half
  (`B3KeepsTraceIDIff`). The OpenZipkin B3 Propagation specification, section "TraceId", has 32 digits there, and even an
  id that is padded to 32 digits only comes through if its high half is zero (`PaddedIDsComeThroughIff`). B3 injects
  the baggage item "x-b3-sampled", or "1", and never the context's own sampled flag.
- Network readings are totals over all interfaces, subtracted as uint64. A total that goes down, as when an interface goes
  away, is reported as nearly 2^64 bytes (`FallingTotalIsDeliveredAsGrowth`). What is reported is the growth exactly when
  that never happens and no reading lacks a counter it had (`GrowthIsExactIff`). Growth measured over more than ten
  minutes is dropped without an error, and what was delivered is then the growth exactly when there was none to drop
  (`DeliveredIsGrowthIff`).
- The retry loop of `send` gives up with "too many retries" once it waited longer than the timeout, but the context that
  `Measure` gives the request ends after that same timeout (`internal/metrics/reporter.go:144`), so no call ever gets
  there (`NeverTooManyRetries`). A server that always asks for a retry ends in the context's error
  (`EndlessRetriesEndWithTheContext`), as `internal/metrics/reporter_test.go:106-127` expects.

## Model

| member | source | states |
|---|---|---|
| ReportBuffers.ReportBuffer.Append | report_buffer.go:76-82 | Go's append: the slice keeps its backing array as long as there is room and moves to a new one otherwise |
| ReportBuffers.ReportBuffer.AddSpan | report_buffer.go:76-82 | adds the span or counts it as dropped, and never replaces the backing array |
| ReportBuffers.ReportBuffer.MergeMetadata | report_buffer.go:88-98 | counters add up and the window becomes the hull of both, before any span is moved |
| ReportBuffers.ReportBuffer.MergeFrom | report_buffer.go:87-117 | does in place, on the same two backing arrays, what `Merged` says, and leaves the other buffer empty |
| ReportBuffers.MergeRestoresPrefix | report_buffer.go:87-117 | a merge keeps every newer span, restores exactly a prefix of the failed ones of length min(space, failed), and spans kept plus drops counted come out as they went in; error counts add up, the window spans both, and reported never exceeds dropped |
| ReportBuffers.ReportBuffer.Clear | report_buffer.go:66-74 | an empty buffer on the same storage |
| ReportBuffers.ReportBuffer.ReportCounts | report_buffer.go:119-129 | tells what was not told before, and nothing is told twice |
| TracerCore.TracerImpl.constructor | tracer.go:158-174 | a connected tracer with two empty buffers of disjoint storage, the current one's window starting now |
| TracerCore.TracerImpl.RecordSpan | tracer.go:286-301 | a disabled tracer, or a span whose sampled flag is "false", changes nothing; otherwise the span is added to the current buffer, or counted as dropped when that is full |
| TracerCore.TracerImpl.PreFlush | tracer.go:403-422 | swaps the two buffers, storage included, or refuses a disabled or closed tracer and changes nothing |
| TracerCore.TracerImpl.PostFlush | tracer.go:425-468 | clears what was sent or not translatable, merges back what was not sent, and reports the window of the flush, the spans sent and the drops not yet told of; the two backing arrays stay the ones the tracer was made with |
| TracerCore.TracerImpl.Disable | tracer.go:470-481 | only the first call counts: it clears the current buffer and leaves the one in flight alone |
| TracerCore.TracerImpl.SwapConnection | tracer.go:238-249 | the locked part of a reconnect hands out the connection it replaces |
| TracerCore.TracerImpl.TakeConnection | tracer.go:271-275 | the locked part of Close leaves no connection behind |
| TracerCore.TracerImpl.ShouldFlushLocked | tracer.go:497-504 | true exactly when the reporting period would end before the next tick, or more than half of the buffer is used |
| TracerCore.TracerImpl.FlushSingle | tracer.go:376-401 | no error exactly for a response without errors, a report failure exactly for one with errors, a transport failure exactly when there is no response; a disable command is obeyed even when the response holds errors |
| TracerCore.TracerImpl.SendEach | tracer.go:359-368 | parts are sent in order until one fails, and what they carried is what the shared request held |
| TracerCore.SendPartsOutcome | tracer.go:364-368 | for any replies: all parts are sent if and only if each is answered without an error, and otherwise the first that is not decides which error the flush has |
| TracerCore.TracerImpl.Flush | tracer.go:304-374 | a whole flush on the buffers in place: the state it ends in, and exactly what the requests it sent carried |
| TracerFlushRun.FlushAloneIsARun | tracer.go:304-374 | from any state, the flush method and the state machine agree: an uninterrupted flush is a run that ends in the same state, and a collector that keeps all it is sent receives exactly what the requests carried |
| TracerLedgers.BooksBalance | tracer.go:286-481 | in every run: the accepted spans are those shipped, dropped, discarded by Disable or a failed translation, buffered, and in flight; both drop ledgers and the encoder error ledger balance, with what was wiped as its own term; the status events tell of exactly the shipped spans |
| TracerLedgers.OneFatePerSpan | tracer.go:286-481 | every accepted span has exactly one of those fates, so none is in two successful flushes and none is lost silently |
| TracerAnswers.ShipmentsWereAnsweredWell | tracer.go:364-400 | in every run, each part of each flush that counts as sent was answered, and by a response without errors |
| TracerAnswers.BadAnswerRestores | tracer.go:364-456 | in every run, when some part of a flush got no response, or one with errors, its spans end up in the buffer again, behind the newer ones, or among the dropped, and nothing counts as sent |
| TracerAnswers.GoodAnswersShip | tracer.go:364-445 | in every run, when every part was answered by a response without errors, the flush counts as sent and leaves the buffer alone |
| TracerAnswers.TickAsksFor | tracer.go:497-528 | in every run, a tick asks for a flush exactly when the reporting period would end before the next tick or more than half of the buffer is used, and for a reconnect exactly when no flush is in flight and one is due |
| TracerAnswers.AcceptsIff | tracer.go:286-295 | what a run accepts: every span recorded while the tracer is not disabled whose sampled flag is not "false" |
| TracerLedgers.BuffersAlwaysFit | report_buffer.go:76-117 | in every run both buffers stay within the capacity they were made with, and 0 <= reported <= dropped |
| TracerLedgers.SuccessKeepsLedgers | tracer.go:434-445 | a successful flush moves spans and drop counts from the flushing buffer to what was shipped |
| TracerLedgers.TranslateFailureKeepsLedgers | tracer.go:447-465 | a failed translation moves spans and counters to what was discarded and wiped |
| TracerLedgers.RestoreKeepsLedgers | tracer.go:447-465 | a failed send leaves its spans in the current buffer or among the dropped, counted once |
| TracerLedgers.DisableKeepsBooks | tracer.go:470-481 | Disable moves spans and counters to what was discarded and wiped |
| TracerWindows.WindowsTileTime | tracer.go:403-468 | in every run the windows of the flushes that succeeded or did not translate tile time from the tracer's creation; the window of a flush in flight goes on where they end, and until Disable the current window does too |
| TracerDelivery.FlushCarriesEverySpanIff | tracer.go:323-372 | a flush carries all its spans to the collector exactly when it goes over HTTP, has at most one span, or is estimated to fit one message |
| TracerDelivery.OnePartCarriesAll | collector_client.go:40-44 | a report in one part carries all its spans |
| TracerDelivery.DeliveryBalances | tracer.go:347-374 | in every run, whatever is split and fails: the collector received what the shipped flushes carried, what it took from flushes that failed, and what it took of the flush in flight; each flush carries what splitting its spans leaves |
| TracerDelivery.AtLeastOnceUnlessSplit | tracer.go:304-374 | in every run whose successful flushes went in one part: received equals shipped plus taken from failed flushes plus taken of the flush in flight, so every shipped span was received |
| TracerDelivery.ExactlyOnceIff | tracer.go:347-372 | in every run that records each span once, with no flush in flight: the collector received exactly what was shipped, as often as it was shipped, if and only if every flush that succeeded went in one part and the collector took nothing from a flush that then failed |
| TracerDelivery.SmallSpansAreDelivered | tracer.go:323-345 | if no span is larger than L and a full buffer of such spans fits a message, no run splits a flush and every shipped span is received |
| TracerDelivery.NeverSplitsIff | tracer.go:323-345 | no run with spans of at most L splits a flush if and only if the transport is HTTP, or there is room for one span only, or a full buffer of such spans fits a message |
| TracerDelivery.HttpDeliversAtLeastOnce | collector_client.go:42-44 | over HTTP, in every run, flushes go in one part and every shipped span is received |
| TracerRuns.SplitFlushLosesASpan | collector_client.go:53-64 | with two spans of 100 bytes and messages of 150: a span is shipped by a flush that succeeds and never received |
| TracerRuns.FailedFlushDeliversTwice | tracer.go:364-372 | a run in which a span is received twice and shipped once, because the reply to the first attempt is lost |
| TracerRuns.FailedFlushRefillsDisabledTracer | tracer.go:453-477 | a run that ends with a span in the buffer of a disabled tracer |
| TracerDisabled.DisabledInFlightIsEmpty | tracer.go:470-478 | in every run, a disabled tracer with a flush in flight has an empty buffer |
| TracerDisabled.OutlivingFlushLeaves | tracer.go:434-456 | in every run, a flush that ends after Disable leaves all its spans in the buffer when it failed to be sent, and nothing when it succeeded or did not translate |
| TracerDisabled.RefillsIff | tracer.go:434-478 | in every run, an action puts spans into a disabled tracer's empty buffer if and only if it ends a flush that holds spans and failed to be sent |
| TracerLifecycle.AlwaysOrderly | tracer.go:238-283 | in every run: connection is nil exactly when Close took it, which is after the report loop exited through its close branch; the flushing lock has the owner it should; a stopped metrics loop means a disabled tracer |
| TracerLifecycle.ConnectionsAreClosedOnce | tracer.go:238-283 | in every run no connection is closed twice, none is lost, and a reconnect never closes a nil connection |
| TracerLifecycle.NilConnectionIsForGood | tracer.go:271-275 | once nil, the connection stays nil in every continuation and no flush passes preFlush |
| TracerLifecycle.DisabledLoopStrandsClose | tracer.go:519-520 | once the report loop ended for a disabled tracer, Close never gets to the connection, which stays open in every continuation |
| TracerClosing.LoopMayEndDisabled | tracer.go:506-520 | with any options that can happen: disable, tick, close |
| TracerClosing.CloseGetsTheConnectionIff | tracer.go:254-275 | in every run, a waiting Close has a continuation in which it takes the connection if and only if the report loop has not ended for a disabled tracer |
| TracerClosing.CloseFlushesFirst | tracer.go:263-275 | in every run in which Close takes the connection, its last flush ended or was refused before that |
| TracerLifecycle.CloseDoesNotStopMetrics | tracer.go:254-262 | in every run the channel on which the metrics loop waits for Close is nil, so if that loop has ended the tracer was disabled |
| TracerLifecycle.MetricsLoopEndsIff | tracer.go:560-569 | in every run an action ends the metrics loop if and only if it is a tick that finds the tracer disabled |
| TracerTicks.AttemptsAreRegular | tracer.go:497-533 | in every run whose ticks come at most one minimum period apart and whose wanted flushes are not kept waiting, attempts to report are never further apart than the reporting period |
| TracerLifecycle.DisabledTracerIsSilent | tracer.go:403-409 | once disabled and with no flush in flight, nothing is accepted, shipped, told or received in any continuation, and the buffer keeps what it has |
| ReportSplit.SplitByParts | collector_client.go:40-67 | every returned part is the same request, as many as there are slices, and the shared proto request ends up with the last slice |
| ReportSplit.SlicesPartition | collector_client.go:45-64 | the slices taken concatenate to the spans, are at most `parts`, and all have size ceil(n/parts) but for a shorter last one that is not empty |
| ReportSplit.SplitCarriesEverySpanIff | collector_client.go:53-64 | the parts carry exactly the spans of the last slice, so all spans if and only if there is at most one part or one span |
| ReportSplit.SplitLosesTheFirstOfTwo | collector_client.go:53-64 | two spans in two parts: both parts carry the second |
| ReportSplit.ChooseParts | tracer.go:323-345 | the loop over two sampled spans finds the least number of messages for all spans at the size of the larger of the two |
| ReportSplit.PartsForIsLeast | tracer.go:337-343 | rounding up finds the least number of messages that hold so many bytes |
| ReportSplit.SlicesFitTheLimit | tracer.go:323-345 | if no span is larger than the larger sampled one, S, each slice is estimated below limit + S, and within the limit when there is one part |
| SpanLogs.RotateLogBuffer | span.go:196-209 | for every buffer and position the three-index loop ends, stays in bounds, and leaves the window rotated in place |
| SpanLogs.SwapKeepsHeading | span.go:200-202 | one swap puts one more record in place and keeps what the remaining three parts will become |
| SpanLogs.MovesKeepHeading | span.go:203-207 | both ways of moving the other two indices keep what the remaining parts will become |
| SpanLogs.RotationPermutes | span.go:196-209 | the rotated buffer holds the same records as often |
| SpanLogs.Span.AppendLog | span.go:130-143 | appends below the limit, and overwrites the oldest recent log in place at it |
| SpanLogs.Span.LogFields | span.go:145-160 | appends a record of the current time, unless the span is finished or its logs are switched off |
| SpanLogs.Span.Log | span.go:175-188 | appends the record, with the current time if it has none, unless the span is finished or its logs are switched off |
| SpanLogs.Span.SetTag | span.go:106-119 | sets a tag, but not on a finished span |
| SpanLogs.Span.SetBaggageItem | span.go:276-286 | sets a baggage item, but not on a finished span |
| SpanLogs.Span.SetOperationName | span.go:94-104 | renames a span, but not a finished one |
| SpanLogs.Span.Straighten | span.go:234-254 | the log buffer in place: turned back into order, and over the oldest recent log the marker with its three fields, which counts one more than were dropped |
| SpanLogs.Span.FinishWithOptions | span.go:211-258 | takes the last logs in, straightens the buffer and records the span, the first time only |
| SpanHistories.RingTakesOneMore | span.go:137-142 | overwriting the next slot of the ring of a history gives the ring of the longer history |
| SpanHistories.RingTurnsBack | span.go:234-239 | rotating by the number of drops puts the kept logs back in the order they were given in |
| SpanHistories.RecordedOnceWithItsLogs | span.go:130-258 | for every limit and every sequence of calls: the span is recorded once if it was ever finished, with all its N logs when they fit the limit M, and otherwise with the first numOld, a marker with count N-M+1 and the time of log N-numNew, and the last numNew-1 |
| SpanHistories.FinishedIsFinal | span.go:215-219 | nothing called on a finished span changes it or records it again |
| SpanHistories.KeptAndCountedAddUp | span.go:241-253 | of more logs than the limit M: the first (M-1)/2, then a record with the three fields of the marker, then the last ones; the number read from the marker and the logs kept add up to those given |
| SpanHistories.TrimmedSpanIsRecorded | span.go:130-258 | for every sequence of calls that finishes a span given more logs than the limit: one record, in which the marker counts the given logs that are not in it |
| SourcePool.NextNearestPow2uint64 | lightstep/rand/pool.go:20-30 | the bit smearing on 64-bit words computes the rounding for every input, wrap-around included |
| SourcePool.SmearDoubles | lightstep/rand/pool.go:22-27 | one shift-and-or doubles the run of ones at the top of the number, or fills it |
| SourcePool.SixStepsFill | lightstep/rand/pool.go:22-27 | the six steps fill every number of up to 64 digits |
| SourcePool.RoundedIsLeast | lightstep/rand/pool.go:20-30 | for sizes from 1 to 2^63 the result is the least power of two that is at least the size; for all others it is 0 |
| SourcePool.RoundingLaws | lightstep/rand/pool.go:20-30 | rounding up to the least power of two leaves powers of two alone, less than doubles, and is monotone |
| SourcePool.Pool.constructor | lightstep/rand/pool.go:34-52 | one source for each seed of the sequence, as many as the rounded size |
| SourcePool.Pool.Pick | lightstep/rand/pool.go:55-59 | masking the wrapped counter stays in bounds and is the remainder of the counter by the size |
| SourcePool.PickGoesRound | lightstep/rand/pool.go:55-59 | the counter's wrap-around does not disturb the round |
| SourcePool.WindowHitsEachOnce | lightstep/rand/pool.go:55-59 | wherever the counter stands, the indices of as many picks in a row as there are sources hit each source exactly once |
| SourcePool.PicksAreFair | lightstep/rand/pool.go:55-59 | among the indices of any number of picks in a row, two sources occur as often but for one |
| SourcePool.Pool.PickInTurn | lightstep/rand/pool.go:55-59 | n calls of Pick in a row use exactly those indices: no source more than once more often than another, and a full round is the sources from behind the counter on and then those before |
| Base16.ParseUintMeans | propagation_text.go:80 | a string is accepted exactly when it is non-empty, all digits, and its value fits 64 bits, and then gives that value |
| Base16.FormatUintValue | propagation_lightstep.go:36-38 | prints digits of that value |
| Base16.FormatUintLength | propagation_lightstep.go:36-38 | what is printed has no leading zero: its length is the least in which the value fits |
| Base16.DigitCodes | propagation_text.go:80 | the digits are 0 to 9 and the letters a to f in both cases, with their values |
| Base16.FormatUintLetters | propagation_lightstep.go:36-38 | what is printed uses 0 to 9 and the lower-case letters a to f only |
| Base16.ParseOfFormat | propagation_text.go:80 | parsing what was printed gives the number back |
| TextPropagation.Inject | propagation_text.go:33-57 | writes exactly the three fields and the prefixed baggage, whatever order the baggage is visited in, and leaves other keys of the carrier alone |
| TextPropagation.Extract | propagation_text.go:59-114 | the callback loop with its counters and its early end computes `ExtractFrom` |
| TextPropagation.ExtractIgnoresOrder | propagation_text.go:67-113 | for keys that differ by more than case the visiting order does not matter: not found exactly when no field is there, a context exactly when all three are and both ids parse, corrupted otherwise |
| TextPropagation.ExtractCountsFields | propagation_text.go:72-105 | for every list of entries, repeated keys included: a context if and only if every id parses and at least three entries are fields, not found if and only if no entry is, corrupted in every other case |
| TextPropagation.AllFieldsDecideIff | propagation_text.go:100-105 | "a context exactly if all three fields are shown and every id parses" is true of a list of entries if and only if all three are shown, or some id does not parse, or fewer than three entries are fields |
| TextPropagation.LowerIffSameButForCase | propagation_text.go:73 | lower-casing makes two strings the same exactly when they differ, position by position, at most by an ASCII letter in its other case |
| TextPropagation.ExtractIgnoresCase | propagation_text.go:72-113 | putting letters of the keys into other cases never changes what is extracted, repeated keys included |
| TextPropagation.VisitShows | propagation_text.go:72-73 | a visit of all pairs, in any order and with the keys in any case, shows the reader the carrier with its keys in lower case |
| TextPropagation.EveryCarrierCanBeVisited | propagation_text.go:72 | every carrier whose keys differ by more than case can be visited |
| Propagators.B3TraceIDReadBack | propagation_b3.go:22-43 | what parsing a printed trace id gives, for every pair of halves |
| Propagators.B3KeepsTraceIDIff | propagation_b3.go:22-43 | a B3 trace id survives if and only if it has no high half |
| Propagators.LastDigitLost | propagation_b3.go:24-26 | reading 15 of 16 digits divides the high half by 16 |
| Propagators.B3ParsesLongIDs | propagation_b3.go:24-32 | any 32 characters are accepted if and only if the first 15 and the last 16 are digits, which then are the two halves |
| Propagators.SixteenthIsNotRead | propagation_b3.go:25-30 | the 16th of 32 characters makes no difference, whatever it is |
| Propagators.PaddedIDsComeThroughIff | propagation_b3.go:22-35 | an id padded to 32 digits is read with its high half divided by 16, so it comes through if and only if that half is zero |
| Propagators.TooManyDigits | propagation_b3.go:33-34 | 17 digits or more that do not start with 0 do not parse |
| Propagators.InjectInto | propagation_b3.go:45-68 | each propagator writes its own three fields and the baggage |
| Propagators.ExtractWith | propagation_lightstep.go:46-58 | each propagator reads with its own keys and its own parser |
| RoundTrips.LightStepRoundTrip | propagation_lightstep.go:26-58 | for the written pairs in any order, with their keys in any case: the same ids, the baggage with its keys without capitals, an empty sampled flag as "true"; the high half is not carried |
| RoundTrips.B3RoundTrip | propagation_b3.go:45-82 | for the written pairs in any order, with their keys in any case: which of the four things happens to a trace id; the span id and the baggage come back, and the sampled flag is the baggage item "x-b3-sampled" or "1" |
| RoundTrips.LightStepWrites | propagation_lightstep.go:26-43 | the pairs on the wire, key by key, and no others |
| RoundTrips.B3Writes | propagation_b3.go:45-68 | the pairs on the wire, key by key, and no others |
| RoundTrips.ReadersParse | propagation_b3.go:22-43 | which trace ids each of the two accepts, and as which halves |
| RoundTrips.ReadBack | propagation_text.go:67-113 | from any carrier that some propagators wrote a context to, each gets its own round trip and the others find nothing |
| RoundTrips.WrittenCarrierCanBeVisited | propagation_text.go:46-72 | every carrier that propagators wrote a context to can be visited, if its baggage keys differ by more than case |
| RoundTrips.AddingContains | propagation_text.go:46-55 | one more propagator injecting the same context never overwrites another's fields |
| RoundTrips.RepeatedKeyStandsInForMissing | propagation_text.go:100-105 | with keys that differ by case only, a context is extracted although the sampled flag is missing |
| PropagatorStacks.PropagatorStack.PushPropagator | propagation_stack.go:16-18 | the propagator comes after those already there |
| PropagatorStacks.PropagatorStack.Inject | propagation_stack.go:22-33 | all propagators write in turn; it fails only when there are none |
| PropagatorStacks.PropagatorStack.Extract | propagation_stack.go:37-52 | the context of the first propagator that succeeds; nothing exactly when all fail |
| PropagatorStacks.NothingIsOverwritten | propagation_stack.go:29-31 | after the stack injected, the carrier has the fields of each of its propagators, the baggage, and nothing else |
| PropagatorStacks.StackRoundTrip | propagation_stack.go:22-52 | from the written pairs in any order, with their keys in any case, the stack extracts the first propagator's own round trip, or the other's when the first reports its trace id as corrupted |
| PropagatorStacks.StackFallsBack | propagation_stack.go:22-52 | with the first propagator's three fields deleted it extracts the second's, whatever the order and case |
| MetricsRetry.Send | internal/metrics/reporter.go:201-240 | the retry loop ends for all replies and draws: it posts again only after 408, 429, 502, 503 and 504, is refused only with another status than those and 200, and waits this long |
| MetricsRetry.GoesOnIff | internal/metrics/reporter.go:217-240 | after any number of retries: it goes on exactly after one of those five statuses in time, and each way to end has its exact condition |
| MetricsRetry.SteadyDraws | internal/metrics/reporter.go:336-340 | when every draw is d, exactly (1000 + d)(2^k - 1) milliseconds are waited in k backoffs |
| MetricsRetry.WaitedBounds | internal/metrics/reporter.go:336-340 | after k backoffs between 1000(2^k-1) and 1999(2^k-1) milliseconds were waited |
| MetricsRetry.WaitingIsBounded | internal/metrics/reporter.go:217-239 | one more backoff only starts while 1000(2^k-1) is within the timeout T, and the total wait is below 3T + 2 seconds |
| MetricsRetry.SentIff | internal/metrics/reporter.go:224-233 | a request succeeds exactly when some reply is 200 and all before it ask for a retry in time |
| MetricsRetry.NeverTooManyRetries | internal/metrics/reporter.go:144-233 | under the deadline that Measure sets, for all replies and draws, a request is never given up on for too many retries |
| MetricsRetry.FirstFinalReplyDecides | internal/metrics/reporter.go:144-233 | under that deadline the first reply that does not ask for a retry decides: accepted, refused with its status, or an error |
| MetricsRetry.EndlessRetriesEndWithTheContext | internal/metrics/reporter.go:144-239 | a server that asks for a retry as long as it is asked makes the request end in the context's error, at the first request after more waiting than the timeout |
| MetricsRetry.WaitedFits | internal/metrics/reporter.go:231-238 | for every timeout of 64 bits, under the deadline: the waited milliseconds stay below 2^45, and wherever they are compared with the timeout their nanoseconds fit 64 bits |
| MetricsReporters.Points | internal/metrics/reporter.go:168-186 | in any order, exactly one point for each series of the reading |
| MetricsReporters.RequestSaysOfProcess | internal/metrics/reporter.go:168-175 | the points of a request for the process, from the fields of the two readings: growth of its times and collections, gauges as they are |
| MetricsReporters.RequestSaysOfCPU | internal/metrics/reporter.go:177-182 | for every CPU of the reading the growth of each of its four times, under the series of that time |
| MetricsReporters.RequestSaysOfNIC | internal/metrics/reporter.go:183-186 | for every network label the growth of the bytes received and of the bytes sent, each under its own series |
| MetricsReporters.RequestHasNoOthers | internal/metrics/reporter.go:168-186 | and there are no other points: seven, four for each CPU and two for each network label |
| MetricsReporters.MeasuredIff | internal/metrics/reporter.go:141-199 | a measurement succeeds exactly when it has its readings and its key and the request is accepted or covers more than ten minutes; what it then keeps and reports |
| MetricsReporters.Reporter.Snapshot | internal/metrics/reporter.go:147-161 | the first reading ever only becomes the baseline, and a second one is taken to report |
| MetricsReporters.Reporter.Post | internal/metrics/reporter.go:187-193 | a request that covers more than ten minutes is not posted, and that is no error |
| MetricsReporters.Reporter.Measure | internal/metrics/reporter.go:141-199 | the kept reading moves only when the request was delivered or withheld, and the request posted is the growth since the kept reading |
| MetricsReporters.SystemMetricsLoop | tracer.go:535-571 | the loop over any readings, replies and number of ticks: the kept reading, the interval count, and the accepted requests, which are in order those of the delivered reports |
| MetricsLedger.EveryTickIsAccounted | internal/metrics/reporter.go:187-198 | over every run the reports lead from the first reading to the kept one without gap or overlap, are withheld exactly when they cover more than ten minutes, and their intervals and the failures since add up to the number of measurements |
| MetricsLedger.CountersAreAccounted | internal/metrics/reporter.go:168-186 | over every run and for every counter, delivered plus withheld is its growth since the first reading, plus what was forgotten when a reading missed it, plus 2^64 for each time it went down |
| MetricsLedger.DeliveredIsGrowth | internal/metrics/reporter.go:168-198 | when nothing is withheld, missed or reset, what was delivered is exactly the growth, however many requests failed |
| MetricsLedger.DeliveredIsGrowthIff | internal/metrics/reporter.go:168-198 | for a 64-bit counter that no report overstates, what was delivered is exactly the growth if and only if every report that was withheld had nothing to say of it |
| MetricsLedger.PostedPointsAreAccounted | internal/metrics/reporter.go:168-198 | over every run and for every counter, that equation holds of the points themselves in the requests that were accepted |
| MetricsLedger.GrowthIsExactIff | internal/metrics/reporter.go:183-186 | over every run, delivered and withheld amounts of a 64-bit counter are exactly its growth if and only if no report has it go down or miss after it had counted something |
| MetricsLedger.FallingTotalIsDeliveredAsGrowth | internal/metrics/reporter.go:183-186 | for any two totals of which the second is lower, nearly 2^64 bytes are delivered |

## Left out

- `propagation_binary.go`, the gRPC, HTTP and custom transports, TLS, dialing and protobuf encoding: libraries that are
  not part of the repository. What comes back from them is an arbitrary reply.
- `proto_converter.go` and `proto_logencoder.go`, but for two facts: a report carries the buffer's drop count, and
  encoding may count errors on the flushing buffer before that. How fields are mapped and truncated is left out.
- TracerCore.TracerImpl.Flush: meta-event spans, the developer-mode flag and the `Recorder` callback are not modelled;
  meta-event spans would be further record actions.
- TracerTicks.AttemptsAreRegular: asks for a clock that starts after Go's zero time, and says nothing of a report loop
  that is kept waiting longer than a tick.
- TracerLedgers.BooksBalance: counts the drops that a report carries once per flush, although each part of a split report
  carries the same internal metrics. Spans are values, and their contents other than the estimated length and the
  sampled flag are an identity. Counters are unbounded integers, Go's have 64 bits.
- The report loop, `Close` and `reconnectClient` are actions of the state machine and not methods: they wait on channels
  and tickers. Nothing is claimed about progress, least of all that `Close` ends.
- TracerDelivery.FlushCarriesEverySpanIff: asks for distinct spans, since equal ones could stand in for each other.
- Data races: a goroutine reads `tracer.disabled` in the metrics loop without the lock. Every locked region is one step
  here, and time never goes back.
- SpanLogs.Span: tags and log fields hold text or numbers. `LogKV` and `LogEvent` only build a record and call the
  methods that are modelled; start options, timing and references of spans are left out.
- SourcePool.Pool.PickInTurn: stands for the order in which the atomic counter hands out turns, whoever calls `Pick`.
- SourcePool.Pool.Pick: the quality of the random numbers, and a pool asked for 0 or more than 2^63 sources, which has
  none and whose `Pick` panics.
- TextPropagation.Extract: lower-casing is that of ASCII letters. A carrier of the wrong type, which is an error before
  anything else happens, has no counterpart, and neither has the canonical spelling that Go gives to HTTP header keys
  beyond keys being shown in any case (they are case-insensitive by section 3.2 of RFC 7230).
- PropagatorStacks.PropagatorStack.Inject: propagators other than LightStep and B3; errors of single propagators, which
  the source ignores.
- MetricsReporters.Reporter.Measure: floating point numbers are reals, so rounding is not modelled; headers, labels and
  the contents of the idempotency key are left out.
- MetricsRetry.Send: takes any replies, so also those of a context that outlives the timeout. A context that ends during a
  wait is noticed by the next request, as a transport error.
- MetricsRetry.WaitedFits: says nothing of the nanoseconds of a single wait, which 64 bits always hold unless the timeout
  is more than 272 years.
- Option defaults, event types, the v0.14 wrapper, the OpenCensus exporter, examples and commands: configuration and
  thin wrappers.
