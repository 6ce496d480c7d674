/**
 Whole histories of a span: any sequence of calls on it, in any order, finishing included any number of times.

 The span is recorded at most once, with exactly the logs `FinishedLogs` names, and never changes after that.
 */
module SpanHistories {
  import opened Wrappers
  import opened SpanLogs
  import Arithmetic

  /** The logs a finished span holds, when `all` is every log it was given, in order. */
  ghost function FinishedLogs(maxLogs: nat, all: seq<LogRecord>): seq<LogRecord> {
    if maxLogs == 0 || |all| <= maxLogs then
      all
    else
      var numOld, numNew := NumOld(maxLogs), NumNew(maxLogs);
      all[..numOld]
      + [DropMarker(all[|all| - numNew].timestamp, |all| - maxLogs + 1)]
      + all[|all| - numNew + 1..]
  }

  /** The circular buffer after `all` was appended: the recent logs, turned by how far the writing has come. */
  ghost function Ring(maxLogs: nat, all: seq<LogRecord>): seq<LogRecord> {
    if maxLogs == 0 || |all| <= maxLogs then
      all
    else
      var numOld, numNew := NumOld(maxLogs), NumNew(maxLogs);
      RingAt(all, numOld, numNew, (|all| - maxLogs) % numNew)
  }

  ghost function RingAt<T>(all: seq<T>, numOld: nat, numNew: nat, p: nat): seq<T>
    requires p <= numNew && numOld + numNew <= |all|
  {
    all[..numOld] + all[|all| - p..] + all[|all| - numNew..|all| - p]
  }

  ghost function Dropped(maxLogs: nat, all: seq<LogRecord>): nat {
    if maxLogs == 0 || |all| <= maxLogs then 0 else |all| - maxLogs
  }

  lemma RingOfFull(maxLogs: nat, all: seq<LogRecord>)
    requires 0 < maxLogs <= |all|
    ensures
      Ring(maxLogs, all) ==
      RingAt(all, NumOld(maxLogs), NumNew(maxLogs), (|all| - maxLogs) % NumNew(maxLogs))
  {
    if |all| == maxLogs {
      Unturned(all, NumOld(maxLogs), NumNew(maxLogs));
    }
  }

  lemma Unturned<T>(all: seq<T>, numOld: nat, numNew: nat)
    requires numOld + numNew == |all|
    ensures RingAt(all, numOld, numNew, 0) == all
  {
    assert all[|all|..] == [];
    assert all == all[..numOld] + all[numOld..];
  }

  lemma RingAtTakesOneMore<T>(all: seq<T>, numOld: nat, numNew: nat, p: nat, x: T)
    requires p < numNew && numOld + numNew <= |all|
    ensures |RingAt(all, numOld, numNew, p)| == numOld + numNew
    ensures
      RingAt(all + [x], numOld, numNew, if p + 1 == numNew then 0 else p + 1) ==
      RingAt(all, numOld, numNew, p)[numOld + p := x]
  {
    var n, more := |all|, all + [x];
    assert more[..numOld] == all[..numOld];
    assert all[n - numNew..n - p] == [all[n - numNew]] + all[n + 1 - numNew..n - p];
    if p + 1 == numNew {
      assert more[n + 1 - numNew..n + 1] == all[n - p..] + [x];
    } else {
      assert more[n - p..] == all[n - p..] + [x];
      assert more[n + 1 - numNew..n - p] == all[n + 1 - numNew..n - p];
    }
  }

  /** Overwriting the oldest recent log of a full ring gives the ring of the longer history. */
  lemma RingTakesOneMore(maxLogs: nat, all: seq<LogRecord>, lr: LogRecord)
    requires 0 < maxLogs <= |all|
    ensures |Ring(maxLogs, all)| == maxLogs
    ensures
      var slot := NumOld(maxLogs) + (|all| - maxLogs) % NumNew(maxLogs);
      Ring(maxLogs, all + [lr]) == Ring(maxLogs, all)[slot := lr]
  {
    var numOld, numNew := NumOld(maxLogs), NumNew(maxLogs);
    var p := (|all| - maxLogs) % numNew;
    Arithmetic.NextRemainder(|all| - maxLogs, numNew);
    RingOfFull(maxLogs, all);
    RingAtTakesOneMore(all, numOld, numNew, p, lr);
  }

  /** Turning the ring puts the kept logs back in order. */
  lemma RingTurnsBack(maxLogs: nat, all: seq<LogRecord>)
    requires 0 < maxLogs < |all|
    ensures |Ring(maxLogs, all)| == maxLogs
    ensures
      WindowRotated(Ring(maxLogs, all), NumOld(maxLogs), maxLogs, (|all| - maxLogs) % NumNew(maxLogs)) ==
      all[..NumOld(maxLogs)] + all[|all| - NumNew(maxLogs)..]
  {
    RingOfFull(maxLogs, all);
    RingAtTurnsBack(all, NumOld(maxLogs), NumNew(maxLogs), (|all| - maxLogs) % NumNew(maxLogs));
  }

  lemma RingAtTurnsBack<T>(all: seq<T>, numOld: nat, numNew: nat, p: nat)
    requires p < numNew && numOld + numNew <= |all|
    ensures |RingAt(all, numOld, numNew, p)| == numOld + numNew
    ensures
      WindowRotated(RingAt(all, numOld, numNew, p), numOld, numOld + numNew, p) == all[..numOld] + all[|all| - numNew..]
  {
    var ring := RingAt(all, numOld, numNew, p);
    var recent := ring[numOld..numOld + numNew];
    assert recent == all[|all| - p..] + all[|all| - numNew..|all| - p];
    assert recent[p..] == all[|all| - numNew..|all| - p];
    assert recent[..p] == all[|all| - p..];
    assert ring[numOld + numNew..] == [];
    assert all[|all| - numNew..] == all[|all| - numNew..|all| - p] + all[|all| - p..];
  }

  /** The fields of a span that was given the logs `all` and not finished. */
  ghost predicate HoldsRing(opts: Options, s: SpanState, all: seq<LogRecord>) {
    s.logs == Ring(opts.maxLogs, all) && s.numDroppedLogs == Dropped(opts.maxLogs, all)
  }

  lemma AppendKeepsRing(opts: Options, s: SpanState, all: seq<LogRecord>, lr: LogRecord)
    requires ValidState(opts, s) && HoldsRing(opts, s, all)
    ensures HoldsRing(opts, Append(opts, s, lr), all + [lr])
  {
    if 0 < opts.maxLogs <= |all| {
      RingTakesOneMore(opts.maxLogs, all, lr);
    }
  }

  lemma {:induction false} AppendAllKeepsRing(opts: Options, s: SpanState, all: seq<LogRecord>, lrs: seq<LogRecord>)
    requires ValidState(opts, s) && HoldsRing(opts, s, all)
    ensures HoldsRing(opts, AppendAll(opts, s, lrs), all + lrs)
    ensures AppendAll(opts, s, lrs).finished == s.finished
    decreases |lrs|
  {
    if lrs == [] {
      assert all + lrs == all;
    } else {
      var front, last := lrs[..|lrs| - 1], lrs[|lrs| - 1];
      AppendAllKeepsRing(opts, s, all, front);
      AppendKeepsRing(opts, AppendAll(opts, s, front), all + front, last);
      assert all + front + [last] == all + lrs;
    }
  }

  /** The ring, straightened, is what the history says a finished span holds. */
  lemma StraightenedRing(opts: Options, s: SpanState, all: seq<LogRecord>)
    requires HoldsRing(opts, s, all) && ValidState(opts, s)
    ensures Straightened(s) == FinishedLogs(opts.maxLogs, all)
  {
    if 0 < opts.maxLogs < |all| {
      TurnedRing(opts, s, all);
      var numNew := NumNew(opts.maxLogs);
      assert all[|all| - numNew..] == [all[|all| - numNew]] + all[|all| - numNew + 1..];
    }
  }

  lemma TurnedRing(opts: Options, s: SpanState, all: seq<LogRecord>)
    requires HoldsRing(opts, s, all) && ValidState(opts, s) && 0 < opts.maxLogs < |all|
    ensures Turned(s) == all[..NumOld(opts.maxLogs)] + all[|all| - NumNew(opts.maxLogs)..]
  {
    RingTurnsBack(opts.maxLogs, all);
  }

  // ---------------------------------------------------------------------------------------------------------------
  // Histories

  /** Plays `ops` on a fresh span: the state it ends in, and every record it passed to the tracer. */
  ghost function Play(opts: Options, ops: seq<Op>): (r: (SpanState, seq<seq<LogRecord>>))
    ensures ValidState(opts, r.0)
  {
    if ops == [] then
      (FRESH_SPAN, [])
    else
      var before := Play(opts, ops[..|ops| - 1]);
      var after := Apply(opts, before.0, ops[|ops| - 1]);
      (after.0, before.1 + (if after.1.Some? then [after.1.value] else []))
  }

  ghost predicate EverFinished(ops: seq<Op>) {
    exists i :: 0 <= i < |ops| && ops[i].FinishOp?
  }

  /** Every log the span was given up to and including its first finish, as the options let it see them. */
  ghost function Given(opts: Options, ops: seq<Op>): seq<LogRecord> {
    if ops == [] then
      []
    else
      var before := Given(opts, ops[..|ops| - 1]);
      if EverFinished(ops[..|ops| - 1]) then
        before
      else
        match ops[|ops| - 1]
        case LogFieldsOp(fields, now) => if opts.dropSpanLogs then before else before + [LogRecord(now, fields)]
        case LogOp(record, now) =>
          if opts.dropSpanLogs then before
          else before + [LogRecord(if record.timestamp == 0 then now else record.timestamp, record.fields)]
        case FinishOp(extra) => before + extra
        case _ => before
  }

  ghost predicate HistoryHolds(opts: Options, ops: seq<Op>) {
    var (s, recorded) := Play(opts, ops);
    s.finished == EverFinished(ops) &&
    if EverFinished(ops) then
      recorded == [FinishedLogs(opts.maxLogs, Given(opts, ops))] && s.logs == recorded[0]
    else
      recorded == [] && HoldsRing(opts, s, Given(opts, ops))
  }

  lemma EverFinishedStep(ops: seq<Op>)
    requires ops != []
    ensures EverFinished(ops) == (EverFinished(ops[..|ops| - 1]) || ops[|ops| - 1].FinishOp?)
  {
    if EverFinished(ops[..|ops| - 1]) {
      var i :| 0 <= i < |ops| - 1 && ops[..|ops| - 1][i].FinishOp?;
      assert ops[i].FinishOp?;
    }
    if EverFinished(ops) && !ops[|ops| - 1].FinishOp? {
      var i :| 0 <= i < |ops| && ops[i].FinishOp?;
      assert ops[..|ops| - 1][i].FinishOp?;
    }
  }

  /** A call on an unfinished span, other than finishing it. */
  lemma OpenStep(opts: Options, s: SpanState, all: seq<LogRecord>, op: Op)
    requires ValidState(opts, s) && HoldsRing(opts, s, all) && !s.finished && !op.FinishOp?
    ensures
      var after := Apply(opts, s, op).0;
      !after.finished &&
      match op
      case LogFieldsOp(fields, now) =>
        HoldsRing(opts, after, if opts.dropSpanLogs then all else all + [LogRecord(now, fields)])
      case LogOp(record, now) =>
        HoldsRing(opts, after, if opts.dropSpanLogs then all else all + [Stamped(record, now)])
      case _ => HoldsRing(opts, after, all)
  {
    match op
    case LogFieldsOp(fields, now) => AppendKeepsRing(opts, s, all, LogRecord(now, fields));
    case LogOp(record, now) => AppendKeepsRing(opts, s, all, Stamped(record, now));
    case _ =>
  }

  lemma FinishStep(opts: Options, s: SpanState, all: seq<LogRecord>, extra: seq<LogRecord>)
    requires ValidState(opts, s) && HoldsRing(opts, s, all) && !s.finished
    ensures
      var (after, recorded) := Finish(opts, s, extra);
      after.finished && recorded == Some(FinishedLogs(opts.maxLogs, all + extra)) && after.logs == recorded.value
  {
    var open := s.(finished := true);
    AppendAllKeepsRing(opts, open, all, extra);
    StraightenedRing(opts, AppendAll(opts, open, extra), all + extra);
  }

  /**
   Whatever is called on a span, and whenever: it is recorded once if it was ever finished and not at all if it was
   not, and the record holds exactly the logs it was given before that, trimmed as `FinishedLogs` says.
   */
  lemma {:induction false} RecordedOnceWithItsLogs(opts: Options, ops: seq<Op>)
    ensures HistoryHolds(opts, ops)
  {
    if ops != [] {
      var front, op := ops[..|ops| - 1], ops[|ops| - 1];
      RecordedOnceWithItsLogs(opts, front);
      EverFinishedStep(ops);
      var s := Play(opts, front).0;
      if !EverFinished(front) {
        if op.FinishOp? {
          FinishStep(opts, s, Given(opts, front), op.extra);
        } else {
          OpenStep(opts, s, Given(opts, front), op);
        }
      }
    }
  }

  /** Nothing called on a finished span changes it or records it again. */
  lemma {:induction false} FinishedIsFinal(opts: Options, ops: seq<Op>, later: seq<Op>)
    requires EverFinished(ops)
    ensures Play(opts, ops + later) == Play(opts, ops)
    decreases |later|
  {
    if later == [] {
      assert ops + later == ops;
    } else {
      var front := later[..|later| - 1];
      assert (ops + later)[..|ops + later| - 1] == ops + front;
      FinishedIsFinal(opts, ops, front);
      RecordedOnceWithItsLogs(opts, ops);
      var (s, recorded) := Play(opts, ops);
      assert Apply(opts, s, later[|later| - 1]) == (s, None);
      assert recorded + [] == recorded;
    }
  }

  /**
   What a trimmed span holds, field by field: the first (M - 1) / 2 logs, a marker, and the last logs up to the limit
   M. The marker has the time of the last log it stands for, and the number in it and the logs that were kept add up to
   those that were given.
   */
  lemma KeptAndCountedAddUp(maxLogs: nat, all: seq<LogRecord>)
    requires 0 < maxLogs < |all|
    ensures
      var at, logs := (maxLogs - 1) / 2, FinishedLogs(maxLogs, all);
      && |logs| == maxLogs
      && logs[..at] == all[..at]
      && logs[at + 1..] == all[|all| - (maxLogs - at - 1)..]
      && logs[at].timestamp == all[|all| - (maxLogs - at)].timestamp
      && |logs[at].fields| == 3
      && logs[at].fields[0] == Str("event", "dropped Span logs")
      && logs[at].fields[2] == Str("component", "basictracer")
      && logs[at].fields[1].Int? && logs[at].fields[1].key == "dropped_log_count"
      && logs[at].fields[1].number + (|logs| - 1) == |all|
  {
    var numOld, numNew := NumOld(maxLogs), NumNew(maxLogs);
    var logs := FinishedLogs(maxLogs, all);
    assert numOld == (maxLogs - 1) / 2;
    assert logs[numOld] == DropMarker(all[|all| - numNew].timestamp, |all| - maxLogs + 1);
    assert logs == all[..numOld] + logs[numOld..numOld + 1] + all[|all| - numNew + 1..];
    assert logs[..numOld] == all[..numOld];
  }

  /** A span that was given no more logs than the limit keeps them all, as they are. */
  lemma FewLogsAreKept(maxLogs: nat, all: seq<LogRecord>)
    requires maxLogs == 0 || |all| <= maxLogs
    ensures FinishedLogs(maxLogs, all) == all
  {
  }

  /**
   The life of a span whose logs exceed the limit, read from what it passed to the tracer: it was recorded once, with
   the logs above.
   */
  lemma TrimmedSpanIsRecorded(opts: Options, ops: seq<Op>)
    requires EverFinished(ops) && 0 < opts.maxLogs < |Given(opts, ops)|
    ensures
      var all, recorded, at := Given(opts, ops), Play(opts, ops).1, (opts.maxLogs - 1) / 2;
      && |recorded| == 1 && |recorded[0]| == opts.maxLogs
      && recorded[0][..at] == all[..at]
      && recorded[0][at + 1..] == all[|all| - (opts.maxLogs - at - 1)..]
      && recorded[0][at].fields ==
         [Str("event", "dropped Span logs"), Int("dropped_log_count", |all| - (opts.maxLogs - 1)),
          Str("component", "basictracer")]
  {
    RecordedOnceWithItsLogs(opts, ops);
    KeptAndCountedAddUp(opts.maxLogs, Given(opts, ops));
  }
}
