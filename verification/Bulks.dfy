/** The bulk pushes of a pass are the chunks of its queue, in the size the configuration gives, as long as the endpoint
    is there (internal/sync/engine.go:360-373, 568-594). */
module Bulks {
  import opened Wrappers
  import opened Errors
  import opened Batch
  import opened Readest
  import opened State
  import opened SyncPass
  import opened Phases
  import opened Progress
  import opened StatusChannel
  import opened Settlement
  import opened Traffic

  /** The items of the bulk calls, call by call. */
  function BulksIn(trace: seq<Event>): seq<seq<Sent>> {
    if trace == [] then []
    else
      var last := trace[|trace| - 1];
      BulksIn(trace[..|trace| - 1]) + if last.Bulk? then [last.items] else []
  }

  lemma BulksSnoc(trace: seq<Event>, e: Event)
    ensures BulksIn(trace + [e]) == BulksIn(trace) + if e.Bulk? then [e.items] else []
  {
    assert (trace + [e])[..|trace|] == trace;
  }

  function AllSents(chunks: seq<seq<PushItem>>): (r: seq<seq<Sent>>)
    ensures |r| == |chunks| && forall i :: 0 <= i < |r| ==> r[i] == ToSents(chunks[i])
  {
    if chunks == [] then [] else [ToSents(chunks[0])] + AllSents(chunks[1..])
  }

  lemma {:induction false} SinglesNoBulks(w: SyncWorld, s: Pass, items: seq<PushItem>)
    ensures BulksIn(PushSingles(w, s, items).trace) == BulksIn(s.trace)
    decreases items
  {
    if items != [] {
      var done := w.update(|s.trace|);
      SingleTraffic(w, s, items[0]);
      BulksSnoc(s.trace, Update(items[0].ToSent(), done, if done.Ok? then w.clock(s.ticks) else 0));
      SinglesNoBulks(w, PushSingle(w, s, items[0]), items[1..]);
    }
  }

  lemma CalledBulk(w: SyncWorld, s: Pass, chunk: seq<PushItem>)
    ensures BulksIn(Called(w, s, chunk).trace) == BulksIn(s.trace) + [ToSents(chunk)]
  {
    BulksSnoc(s.trace, Called(w, s, chunk).trace[|s.trace|]);
  }

  lemma PushChunkBulk(w: SyncWorld, s: Pass, chunk: seq<PushItem>)
    ensures BulksIn(PushChunk(w, s, chunk).trace) ==
            BulksIn(s.trace) + if s.bulkUnsupported then [] else [ToSents(chunk)]
  {
    if s.bulkUnsupported {
      SinglesNoBulks(w, s, chunk);
    } else {
      CalledBulk(w, s, chunk);
      if w.bulk(|s.trace|) == Err(UnsupportedEndpoint) {
        SinglesNoBulks(w, Called(w, s, chunk).(bulkUnsupported := true), chunk);
      } else {
        BulkTrace(w, s, chunk);
      }
    }
  }

  lemma OneMoreBulk(a: seq<seq<Sent>>, first: seq<PushItem>, rest: seq<seq<PushItem>>, n: nat)
    requires n <= |rest|
    ensures a + [ToSents(first)] + AllSents(rest[..n]) == a + AllSents(([first] + rest)[..n + 1])
  {
    assert ([first] + rest)[..n + 1] == [first] + rest[..n];
    assert ([first] + rest[..n])[1..] == rest[..n];
  }

  lemma {:induction false} PushPhaseBulks(w: SyncWorld, cfg: Config, s: Pass, items: seq<PushItem>) returns (n: nat)
    ensures var t, chunks := PushPhase(w, cfg, s, items), Chunks(items, cfg.progressBatchSize);
            && n <= |chunks| && BulksIn(t.trace) == BulksIn(s.trace) + AllSents(chunks[..n])
            && (s.bulkUnsupported ==> n == 0) && (!t.fatal && !t.bulkUnsupported ==> n == |chunks|)
    decreases |items|
  {
    n := 0;
    if items != [] && !s.fatal {
      var k := ChunkLength(|items|, cfg.progressBatchSize);
      var s1, rest := PushChunk(w, s, items[..k]), Chunks(items[k..], cfg.progressBatchSize);
      PushChunkBulk(w, s, items[..k]);
      PushChunkFrame(w, s, items[..k]);
      var more := PushPhaseBulks(w, cfg, s1, items[k..]);
      if !s.bulkUnsupported {
        OneMoreBulk(BulksIn(s.trace), items[..k], rest, more);
        n := 1 + more;
      }
    }
  }

  lemma {:induction false} MatchPhaseNoBulks(w: SyncWorld, cfg: Config, now: int, byHash: map<string, BookRow>, s: Pass,
                                             hashes: seq<string>)
    requires forall h :: h in hashes ==> h in byHash
    ensures BulksIn(MatchPhase(w, cfg, now, byHash, s, hashes).trace) == BulksIn(s.trace)
    decreases |hashes|
  {
    if hashes != [] && !s.fatal {
      var k := ChunkLength(|hashes|, cfg.matchBatchSize);
      MatchChunkFrame(w, now, byHash, s, hashes[..k]);
      BulksSnoc(s.trace, MatchCheck(hashes[..k], w.matching(|s.trace|), now));
      MatchPhaseNoBulks(w, cfg, now, byHash, MatchChunk(w, now, byHash, s, hashes[..k]), hashes[k..]);
    }
  }

  lemma {:induction false} StatusPhaseNoBulks(w: World, now: int, s: Pass, rows: seq<BookRow>)
    ensures BulksIn(StatusPhase(w, now, s, rows).trace) == BulksIn(s.trace)
    decreases rows
  {
    if rows != [] && !s.fatal {
      StatusRowCases(w, now, s, rows[0]);
      if Tracked(s, rows[0]) {
        var rec := s.data.matches[rows[0].hash];
        var act := StatusDecision(rec, rows[0].readingStatus);
        ActTraffic(w, now, s, rows[0], rec, act);
        if act.Send? {
          BulksSnoc(s.trace, StatusCall(w, now, s, rows[0], rec, act.token));
        }
      }
      StatusPhaseNoBulks(w, now, StatusRow(w, now, s, rows[0]), rows[1..]);
    }
  }

  /** The bulk calls of a pass are the first chunks of the queue: all of them, unless the pass gives up or learns that
      there is no such endpoint, and none if it knew that before. */
  lemma BulksAreChunks(w: World, cfg: Config, latch: bool, d: Data, rows: seq<BookRow>) returns (n: nat)
    ensures var t, chunks := RunPass(w, cfg, latch, d, rows),
                             Chunks(Queue(w, cfg, latch, d, rows), cfg.progressBatchSize);
            && n <= |chunks| && BulksIn(t.trace) == AllSents(chunks[..n])
            && (latch ==> n == 0) && (!CutShort(t.errs) && !t.bulkUnsupported ==> n == |chunks|)
  {
    var c, s0, s1, s2 := Assembled(w, cfg, latch, d, rows);
    var now := w.sync.clock(0);
    BulksSnoc([], Pulled(rows));
    assert [] + [Pulled(rows)] == [Pulled(rows)];
    MatchPhaseNoBulks(w.sync, cfg, now, RowByHash(c.toMatch), s0, Hashes(c.toMatch));
    MatchPhaseFrame(w.sync, cfg, now, RowByHash(c.toMatch), s0, Hashes(c.toMatch));
    n := PushPhaseBulks(w.sync, cfg, s1, s1.toPush);
    StatusPhaseNoBulks(w, now, s2, rows);
    StatusPhaseFrame(w, now, s2, rows);
    BeforeReached(w, cfg, latch, d, rows);
    if s2.fatal {
      FatalIsCutShort(latch, s2);
    }
  }
}
