/** The times that the traffic of a pass carries, and the store takes from it, are the clock readings of the pass. */
module Clocked {
  import opened Wrappers
  import opened Errors
  import opened Batch
  import opened Readest
  import opened State
  import opened SyncPass
  import opened Phases
  import opened Progress
  import opened StatusChannel
  import opened Settlement
  import opened Traffic

  /** The times at which an event was acknowledged, one for each item of an accepted bulk push, accepted or refused. */
  function AckTimes(e: Event): seq<int> {
    match e
    case Bulk(items, refused, times) => if refused.Ok? then times else []
    case Update(_, done, time) => if done.Ok? then [time] else []
    case _ => []
  }

  function AllTimes(trace: seq<Event>): seq<int> {
    if trace == [] then [] else AllTimes(trace[..|trace| - 1]) + AckTimes(trace[|trace| - 1])
  }

  lemma TimesSnoc(trace: seq<Event>, e: Event)
    ensures AllTimes(trace + [e]) == AllTimes(trace) + AckTimes(e)
  {
    assert (trace + [e])[..|trace|] == trace;
  }

  /** The calls of the match-check and the status phase bear the time of the pass, and an accepted bulk push one time
      for each item. */
  predicate Dated(e: Event, now: int) {
    match e
    case MatchCheck(_, _, time) => time == now
    case SetStatus(_, _, _, _, time) => time == now
    case Bulk(items, refused, times) => refused.Ok? ==> |times| == |items|
    case _ => true
  }

  /** The first reading is the time of the pass; each acknowledgement takes the next one. */
  ghost predicate InTime(w: SyncWorld, trace: seq<Event>) {
    && (forall e :: e in trace ==> Dated(e, w.clock(0)))
    && (forall i :: 0 <= i < |AllTimes(trace)| ==> AllTimes(trace)[i] == w.clock(i + 1))
  }

  /** And the pass has read the clock so often. */
  ghost predicate OnTime(w: SyncWorld, s: Pass) { InTime(w, s.trace) && s.ticks == |AllTimes(s.trace)| + 1 }

  lemma OnTimeSnoc(w: SyncWorld, s: Pass, e: Event, t: Pass)
    requires OnTime(w, s) && t.trace == s.trace + [e] && t.ticks == s.ticks + |AckTimes(e)| && Dated(e, w.clock(0))
    requires forall i :: 0 <= i < |AckTimes(e)| ==> AckTimes(e)[i] == w.clock(s.ticks + i)
    ensures OnTime(w, t)
  {
    TimesSnoc(s.trace, e);
  }

  lemma {:induction false} MatchPhaseOnTime(w: SyncWorld, cfg: Config, byHash: map<string, BookRow>, s: Pass,
                                            hashes: seq<string>)
    requires forall g :: g in hashes ==> g in byHash
    requires OnTime(w, s)
    ensures OnTime(w, MatchPhase(w, cfg, w.clock(0), byHash, s, hashes))
    decreases |hashes|
  {
    if hashes != [] && !s.fatal {
      var k := ChunkLength(|hashes|, cfg.matchBatchSize);
      var s1 := MatchChunk(w, w.clock(0), byHash, s, hashes[..k]);
      MatchChunkFrame(w, w.clock(0), byHash, s, hashes[..k]);
      OnTimeSnoc(w, s, MatchCheck(hashes[..k], w.matching(|s.trace|), w.clock(0)), s1);
      MatchPhaseOnTime(w, cfg, byHash, s1, hashes[k..]);
    }
  }

  lemma {:induction false} SinglesOnTime(w: SyncWorld, s: Pass, items: seq<PushItem>)
    requires OnTime(w, s)
    ensures OnTime(w, PushSingles(w, s, items))
    decreases items
  {
    if items != [] {
      var done := w.update(|s.trace|);
      SingleTraffic(w, s, items[0]);
      OnTimeSnoc(w, s, Update(items[0].ToSent(), done, if done.Ok? then w.clock(s.ticks) else 0),
                 PushSingle(w, s, items[0]));
      SinglesOnTime(w, PushSingle(w, s, items[0]), items[1..]);
    }
  }

  /** A bulk call, once its answer has been acted on. */
  lemma BulkOnTime(w: SyncWorld, s: Pass, chunk: seq<PushItem>, t: Pass)
    requires OnTime(w, s) && t.trace == Called(w, s, chunk).trace
    requires t.ticks == s.ticks + if w.bulk(|s.trace|).Ok? then |chunk| else 0
    ensures OnTime(w, t)
  {
    var refused := w.bulk(|s.trace|);
    var times := if refused.Ok? then Times(w, s.ticks, |chunk|) else [];
    OnTimeSnoc(w, s, Bulk(ToSents(chunk), refused, times), t);
  }

  lemma AcceptedTicks(w: SyncWorld, s: Pass, chunk: seq<PushItem>)
    requires !s.bulkUnsupported && w.bulk(|s.trace|).Ok?
    ensures PushChunk(w, s, chunk).ticks == s.ticks + |chunk|
  {
    AckItemsFrame(w, Called(w, s, chunk), chunk, w.bulk(|s.trace|).value);
  }

  lemma RefusedTicks(w: SyncWorld, s: Pass, chunk: seq<PushItem>)
    requires !s.bulkUnsupported && w.bulk(|s.trace|).Err? && !w.bulk(|s.trace|).error.UnsupportedEndpoint?
    ensures PushChunk(w, s, chunk).ticks == s.ticks
  {
  }

  lemma PushChunkOnTime(w: SyncWorld, s: Pass, chunk: seq<PushItem>)
    requires OnTime(w, s)
    ensures OnTime(w, PushChunk(w, s, chunk))
  {
    if s.bulkUnsupported {
      SinglesOnTime(w, s, chunk);
    } else if w.bulk(|s.trace|) == Err(UnsupportedEndpoint) {
      var s1 := Called(w, s, chunk).(bulkUnsupported := true);
      BulkOnTime(w, s, chunk, s1);
      SinglesOnTime(w, s1, chunk);
    } else {
      if w.bulk(|s.trace|).Ok? {
        AcceptedTicks(w, s, chunk);
      } else {
        RefusedTicks(w, s, chunk);
      }
      BulkTrace(w, s, chunk);
      BulkOnTime(w, s, chunk, PushChunk(w, s, chunk));
    }
  }

  lemma {:induction false} PushPhaseOnTime(w: SyncWorld, cfg: Config, s: Pass, items: seq<PushItem>)
    requires OnTime(w, s)
    ensures OnTime(w, PushPhase(w, cfg, s, items))
    decreases |items|
  {
    if items != [] && !s.fatal {
      var k := ChunkLength(|items|, cfg.progressBatchSize);
      PushChunkOnTime(w, s, items[..k]);
      PushPhaseOnTime(w, cfg, PushChunk(w, s, items[..k]), items[k..]);
    }
  }

  lemma {:induction false} StatusPhaseInTime(w: World, s: Pass, rows: seq<BookRow>)
    requires InTime(w.sync, s.trace)
    ensures InTime(w.sync, StatusPhase(w, w.sync.clock(0), s, rows).trace)
    decreases rows
  {
    if rows != [] && !s.fatal {
      var now := w.sync.clock(0);
      StatusRowCases(w, now, s, rows[0]);
      if Tracked(s, rows[0]) {
        var rec := s.data.matches[rows[0].hash];
        var act := StatusDecision(rec, rows[0].readingStatus);
        ActTraffic(w, now, s, rows[0], rec, act);
        if act.Send? {
          TimesSnoc(s.trace, StatusCall(w, now, s, rows[0], rec, act.token));
        }
      }
      StatusPhaseInTime(w, StatusRow(w, now, s, rows[0]), rows[1..]);
    }
  }

  lemma StartOnTime(w: SyncWorld, s: Pass, rows: seq<BookRow>)
    requires s.trace == [Pulled(rows)] && s.ticks == 1
    ensures OnTime(w, s)
  {
    TimesSnoc([], Pulled(rows));
    assert [] + [Pulled(rows)] == [Pulled(rows)];
  }

  lemma BeforeOnTime(w: World, cfg: Config, latch: bool, d: Data, rows: seq<BookRow>)
    ensures OnTime(w.sync, Before(w, cfg, latch, d, rows))
  {
    var c, s0, s1, s2 := Assembled(w, cfg, latch, d, rows);
    StartOnTime(w.sync, s0, rows);
    MatchPhaseOnTime(w.sync, cfg, RowByHash(c.toMatch), s0, Hashes(c.toMatch));
    PushPhaseOnTime(w.sync, cfg, s1, s1.toPush);
  }

  /** Every match-check and status call of a pass bears the clock reading the pass began with, and its acknowledged
      pushes, item by item in the order they went out, bear the readings after that, one each. */
  lemma TimesAreReadings(w: World, cfg: Config, latch: bool, d: Data, rows: seq<BookRow>)
    ensures InTime(w.sync, RunPass(w, cfg, latch, d, rows).trace)
  {
    BeforeOnTime(w, cfg, latch, d, rows);
    if cfg.syncStatus {
      StatusPhaseInTime(w, Before(w, cfg, latch, d, rows), rows);
    }
  }
}
