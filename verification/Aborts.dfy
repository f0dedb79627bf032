/** What a pass that gives up leaves behind: everything before the fatal answer, and nothing of what that call was
    for. */
module Aborts {
  import opened Batch
  import opened Readest
  import opened State
  import opened SyncPass
  import opened Phases
  import opened StatusChannel
  import opened Settlement
  import opened Traffic
  import Progress

  /** The phase went as far as s, and then one more call was answered Unauthorized: it is on the record, and nothing
      else of the pass but its error list has moved. */
  ghost predicate GaveUp(s: Pass, t: Pass) {
    && !s.fatal && t.fatal && t.data == s.data && t.failed == s.failed && t.toPush == s.toPush
    && |t.trace| == |s.trace| + 1 && s.trace <= t.trace && Ends(t.trace[|s.trace|])
  }

  /** A chunk boundary: cutting the queue at k keeps the first chunk as it is. */
  lemma SameFirstChunk(n: nat, k: nat, size: int)
    requires 0 < n && ChunkLength(n, size) < n && ChunkLength(n, size) <= k <= n
    ensures ChunkLength(k, size) == ChunkLength(n, size)
  {
  }

  lemma MatchChunkGivesUp(w: SyncWorld, now: int, byHash: map<string, BookRow>, s: Pass, chunk: seq<string>)
    requires (forall h :: h in chunk ==> h in byHash) && !s.fatal && MatchChunk(w, now, byHash, s, chunk).fatal
    ensures GaveUp(s, MatchChunk(w, now, byHash, s, chunk))
  {
    MatchChunkFatal(w, now, byHash, s, chunk);
  }

  lemma TakenApart<T>(items: seq<T>, m: nat, more: nat)
    requires m + more <= |items|
    ensures items[..m + more][..m] == items[..m] && items[..m + more][m..] == items[m..][..more]
  {
  }

  ghost predicate Known(byHash: map<string, BookRow>, hashes: seq<string>) { forall h :: h in hashes ==> h in byHash }

  lemma KnownPart(byHash: map<string, BookRow>, hashes: seq<string>, m: nat)
    requires Known(byHash, hashes) && m <= |hashes|
    ensures Known(byHash, hashes[..m]) && Known(byHash, hashes[m..])
  {
  }

  /** The first chunk, then the rest. */
  lemma MatchFirst(w: SyncWorld, cfg: Config, now: int, byHash: map<string, BookRow>, s: Pass, hashes: seq<string>,
                   m: nat)
    requires Known(byHash, hashes) && !s.fatal && hashes != [] && m == ChunkLength(|hashes|, cfg.matchBatchSize)
    ensures Known(byHash, hashes[..m]) && Known(byHash, hashes[m..])
    ensures MatchPhase(w, cfg, now, byHash, s, hashes)
            == MatchPhase(w, cfg, now, byHash, MatchChunk(w, now, byHash, s, hashes[..m]), hashes[m..])
  {
    KnownPart(byHash, hashes, m);
  }

  /** The phase over a prefix that ends after the first chunk. */
  lemma MatchPrefix(w: SyncWorld, cfg: Config, now: int, byHash: map<string, BookRow>, s: Pass, hashes: seq<string>,
                    m: nat, more: nat)
    requires Known(byHash, hashes) && !s.fatal && hashes != [] && m == ChunkLength(|hashes|, cfg.matchBatchSize)
    requires m < |hashes| && m + more <= |hashes|
    ensures Known(byHash, hashes[..m + more]) && Known(byHash, hashes[..m]) && Known(byHash, hashes[m..][..more])
    ensures MatchPhase(w, cfg, now, byHash, s, hashes[..m + more])
            == MatchPhase(w, cfg, now, byHash, MatchChunk(w, now, byHash, s, hashes[..m]), hashes[m..][..more])
  {
    var front := hashes[..m + more];
    SameFirstChunk(|hashes|, m + more, cfg.matchBatchSize);
    KnownPart(byHash, hashes, m + more);
    MatchFirst(w, cfg, now, byHash, s, front, m);
    TakenApart(hashes, m, more);
  }

  lemma GivesUpLater(w: SyncWorld, cfg: Config, now: int, byHash: map<string, BookRow>, s: Pass, hashes: seq<string>,
                     m: nat, more: nat)
    requires Known(byHash, hashes) && !s.fatal && hashes != [] && m == ChunkLength(|hashes|, cfg.matchBatchSize)
    requires m < |hashes| && m + more <= |hashes| && Known(byHash, hashes[m..]) && Known(byHash, hashes[m..][..more])
    requires Known(byHash, hashes[..m]) && Known(byHash, hashes[..m + more])
    requires var s1 := MatchChunk(w, now, byHash, s, hashes[..m]);
             GaveUp(MatchPhase(w, cfg, now, byHash, s1, hashes[m..][..more]),
                    MatchPhase(w, cfg, now, byHash, s1, hashes[m..]))
    ensures GaveUp(MatchPhase(w, cfg, now, byHash, s, hashes[..m + more]), MatchPhase(w, cfg, now, byHash, s, hashes))
  {
    MatchFirst(w, cfg, now, byHash, s, hashes, m);
    MatchPrefix(w, cfg, now, byHash, s, hashes, m, more);
  }

  lemma GivesUpAtOnce(w: SyncWorld, cfg: Config, now: int, byHash: map<string, BookRow>, s: Pass, hashes: seq<string>,
                      m: nat)
    requires Known(byHash, hashes) && !s.fatal && hashes != [] && m == ChunkLength(|hashes|, cfg.matchBatchSize)
    requires Known(byHash, hashes[..m]) && MatchChunk(w, now, byHash, s, hashes[..m]).fatal
             && Known(byHash, hashes[..0])
    ensures GaveUp(MatchPhase(w, cfg, now, byHash, s, hashes[..0]), MatchPhase(w, cfg, now, byHash, s, hashes))
  {
    MatchFirst(w, cfg, now, byHash, s, hashes, m);
    MatchChunkGivesUp(w, now, byHash, s, hashes[..m]);
  }

  /** A match-check phase that gives up stands where the chunks before the fatal one left it. */
  lemma {:induction false} MatchPhaseGivesUp(w: SyncWorld, cfg: Config, now: int, byHash: map<string, BookRow>, s: Pass,
                                             hashes: seq<string>)
    returns (k: nat)
    requires Known(byHash, hashes) && !s.fatal && MatchPhase(w, cfg, now, byHash, s, hashes).fatal
    ensures k < |hashes| && Known(byHash, hashes[..k])
    ensures GaveUp(MatchPhase(w, cfg, now, byHash, s, hashes[..k]), MatchPhase(w, cfg, now, byHash, s, hashes))
    decreases |hashes|, 1
  {
    var m := ChunkLength(|hashes|, cfg.matchBatchSize);
    KnownPart(byHash, hashes, m);
    if MatchChunk(w, now, byHash, s, hashes[..m]).fatal {
      k := 0;
      KnownPart(byHash, hashes, 0);
      GivesUpAtOnce(w, cfg, now, byHash, s, hashes, m);
    } else {
      k := GivesUpInRest(w, cfg, now, byHash, s, hashes, m);
    }
  }

  lemma {:induction false} GivesUpInRest(w: SyncWorld, cfg: Config, now: int, byHash: map<string, BookRow>, s: Pass,
                                         hashes: seq<string>, m: nat)
    returns (k: nat)
    requires Known(byHash, hashes) && !s.fatal && MatchPhase(w, cfg, now, byHash, s, hashes).fatal && hashes != []
    requires m == ChunkLength(|hashes|, cfg.matchBatchSize) && Known(byHash, hashes[..m])
    requires !MatchChunk(w, now, byHash, s, hashes[..m]).fatal
    ensures k < |hashes| && Known(byHash, hashes[..k])
    ensures GaveUp(MatchPhase(w, cfg, now, byHash, s, hashes[..k]), MatchPhase(w, cfg, now, byHash, s, hashes))
    decreases |hashes|, 0
  {
    MatchFirst(w, cfg, now, byHash, s, hashes, m);
    var more := MatchPhaseGivesUp(w, cfg, now, byHash, MatchChunk(w, now, byHash, s, hashes[..m]), hashes[m..]);
    k := m + more;
    KnownPart(byHash, hashes, k);
    GivesUpLater(w, cfg, now, byHash, s, hashes, m, more);
  }

  lemma PushChunkGivesUp(w: SyncWorld, s: Pass, chunk: seq<PushItem>)
    requires !s.fatal && PushChunk(w, s, chunk).fatal
    ensures GaveUp(s, PushChunk(w, s, chunk))
  {
    if s.bulkUnsupported {
      Progress.PushSinglesFrame(w, s, chunk);
    } else if w.bulk(|s.trace|).Ok? {
      Progress.AckItemsFrame(w, Called(w, s, chunk), chunk, w.bulk(|s.trace|).value);
    } else {
      Progress.PushSinglesFrame(w, Called(w, s, chunk).(bulkUnsupported := true), chunk);
    }
  }

  lemma PushPrefix(w: SyncWorld, cfg: Config, s: Pass, items: seq<PushItem>, m: nat, more: nat)
    requires !s.fatal && items != [] && m == ChunkLength(|items|, cfg.progressBatchSize)
    requires m < |items| && m + more <= |items|
    ensures PushPhase(w, cfg, s, items[..m + more])
            == PushPhase(w, cfg, PushChunk(w, s, items[..m]), items[m..][..more])
  {
    SameFirstChunk(|items|, m + more, cfg.progressBatchSize);
    TakenApart(items, m, more);
  }

  lemma {:induction false} PushPhaseGivesUp(w: SyncWorld, cfg: Config, s: Pass, items: seq<PushItem>) returns (k: nat)
    requires !s.fatal && PushPhase(w, cfg, s, items).fatal
    ensures k < |items| && GaveUp(PushPhase(w, cfg, s, items[..k]), PushPhase(w, cfg, s, items))
    decreases |items|
  {
    var m := ChunkLength(|items|, cfg.progressBatchSize);
    var s1 := PushChunk(w, s, items[..m]);
    if s1.fatal {
      k := 0;
      PushChunkGivesUp(w, s, items[..m]);
    } else {
      var more := PushPhaseGivesUp(w, cfg, s1, items[m..]);
      k := m + more;
      PushPrefix(w, cfg, s, items, m, more);
    }
  }

  lemma StatusRowGivesUp(w: World, now: int, s: Pass, row: BookRow)
    requires !s.fatal && StatusRow(w, now, s, row).fatal
    ensures GaveUp(s, StatusRow(w, now, s, row))
  {
    StatusRowCases(w, now, s, row);
    var rec := s.data.matches[row.hash];
    ActGivesUp(w, now, s, row, rec, StatusDecision(rec, row.readingStatus));
  }

  lemma ActGivesUp(w: World, now: int, s: Pass, row: BookRow, rec: MatchRecord, act: StatusAct)
    requires !s.fatal && ActOnStatus(w, now, s, row, rec, act).fatal
    ensures GaveUp(s, ActOnStatus(w, now, s, row, rec, act))
  {
  }

  lemma {:induction false} StatusPhaseGivesUp(w: World, now: int, s: Pass, rows: seq<BookRow>) returns (k: nat)
    requires !s.fatal && StatusPhase(w, now, s, rows).fatal
    ensures k < |rows| && GaveUp(StatusPhase(w, now, s, rows[..k]), StatusPhase(w, now, s, rows))
    decreases rows
  {
    var s1 := StatusRow(w, now, s, rows[0]);
    if s1.fatal {
      k := 0;
      StatusRowGivesUp(w, now, s, rows[0]);
    } else {
      var more := StatusPhaseGivesUp(w, now, s1, rows[1..]);
      k := 1 + more;
      TakenApart(rows, 1, more);
      assert rows[..k][0] == rows[0];
    }
  }

  /** The pass up to some point of one of its phases, every call so far having been acted on. */
  ghost predicate Reaches(w: World, cfg: Config, latch: bool, d: Data, rows: seq<BookRow>, k: nat, s: Pass) {
    var now := w.sync.clock(0);
    var c := Classification(w, cfg, d, rows);
    var s0 := Started(c, latch, rows);
    var s1, s2 := AfterMatch(w.sync, cfg, c, s0), Before(w, cfg, latch, d, rows);
    || (k <= |Hashes(c.toMatch)| && s == MatchPhase(w.sync, cfg, now, RowByHash(c.toMatch), s0, Hashes(c.toMatch)[..k]))
    || (!s1.fatal && k <= |s1.toPush| && s == PushPhase(w.sync, cfg, s1, s1.toPush[..k]))
    || (!s2.fatal && cfg.syncStatus && k <= |rows| && s == StatusPhase(w, now, s2, rows[..k]))
  }

  /** A pass that gives up leaves the store as it was just before the fatal answer, but for the cursor: the effects of
      every chunk and row before it, and none of what that call was for or of anything after it. */
  lemma AbortedStore(w: World, cfg: Config, latch: bool, d: Data, rows: seq<BookRow>) returns (k: nat, s: Pass)
    requires RunPass(w, cfg, latch, d, rows).fatal
    ensures var t := RunPass(w, cfg, latch, d, rows);
            && Reaches(w, cfg, latch, d, rows, k, s) && !s.fatal
            && |t.trace| == |s.trace| + 1 && s.trace <= t.trace && Ends(t.trace[|s.trace|])
            && t.data == s.data.(watermarkMs := t.data.watermarkMs) && t.failed == s.failed
  {
    var c, s0, s1, s2 := Assembled(w, cfg, latch, d, rows);
    var now := w.sync.clock(0);
    if s1.fatal {
      k := MatchPhaseGivesUp(w.sync, cfg, now, RowByHash(c.toMatch), s0, Hashes(c.toMatch));
      s := MatchPhase(w.sync, cfg, now, RowByHash(c.toMatch), s0, Hashes(c.toMatch)[..k]);
      FatalStops(w, cfg, s2, rows);
    } else if s2.fatal {
      k := PushPhaseGivesUp(w.sync, cfg, s1, s1.toPush);
      s := PushPhase(w.sync, cfg, s1, s1.toPush[..k]);
      FatalStops(w, cfg, s2, rows);
    } else {
      k := StatusPhaseGivesUp(w, now, s2, rows);
      s := StatusPhase(w, now, s2, rows[..k]);
    }
  }

  lemma FatalStops(w: World, cfg: Config, s: Pass, rows: seq<BookRow>)
    requires s.fatal
    ensures AfterStatus(w, cfg, s, rows) == s
  {
  }
}
