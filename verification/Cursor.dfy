/** Where a pass leaves the pull cursor (internal/sync/engine.go:185-195, 307-309, 531-561, 596-598). */
module Cursor {
  import opened Wrappers
  import opened Batch
  import opened Readest
  import opened State
  import opened SyncPass
  import opened Projection
  import opened Phases
  import opened Progress
  import opened StatusChannel
  import opened Settlement
  import Traffic

  ghost predicate Under(v: int, marks: set<int>) { forall m :: m in marks ==> v < m }

  /** The retreat rule: never below the floor, and otherwise the greatest value under every failed watermark. */
  lemma RetreatRule(floor: int, maxWatermark: int, failed: seq<int>, v: int)
    ensures var c := ComputeWatermark(floor, maxWatermark, failed);
            && c >= floor
            && (failed == [] ==> c == Max(floor, maxWatermark))
            && (failed != [] ==> (v <= c <==> v <= floor || Under(v, set f | f in failed)))
  {
    if failed != [] {
      var m, marks := MinOf(failed), set f | f in failed;
      assert m in marks;
      if v < m {
        assert forall f :: f in marks ==> m <= f;
      }
    }
  }

  /******* The largest pulled watermark *******/

  function LatestOf(rows: seq<BookRow>): (m: int)
    ensures m >= 0
    ensures forall r :: r in rows && !r.IsDummy() ==> r.WatermarkMs() <= m
    ensures m == 0 || exists r :: r in rows && !r.IsDummy() && r.WatermarkMs() == m
  {
    if rows == [] then 0
    else if rows[0].IsDummy() then LatestOf(rows[1..])
    else Max(rows[0].WatermarkMs(), LatestOf(rows[1..]))
  }

  lemma {:induction false} ClassifyLatest(cfg: Config, now: int, c: Classified, rows: seq<BookRow>)
    requires c.maxWatermark >= 0
    ensures Classify(cfg, now, c, rows).maxWatermark == Max(c.maxWatermark, LatestOf(rows))
    decreases rows
  {
    if rows != [] {
      var c1 := ClassifyRow(cfg, now, c, rows[0]);
      assert c1.maxWatermark == if rows[0].IsDummy() then c.maxWatermark
                                else Max(c.maxWatermark, rows[0].WatermarkMs());
      ClassifyLatest(cfg, now, c1, rows[1..]);
    }
  }

  /******* Which rows count as failed *******/

  /** Hashes whose chunk was answered by an error that neither ends the pass nor triggers the fallback. */
  function FailedBy(e: Event): set<string> {
    match e
    case MatchCheck(hashes, found, _) =>
      if found.Err? && !found.error.Unauthorized? then (set h | h in hashes) else {}
    case Bulk(items, refused, _) =>
      if refused.Err? && !refused.error.Unauthorized? && !refused.error.UnsupportedEndpoint?
      then (set i | 0 <= i < |items| :: items[i].hash) else {}
    case _ => {}
  }

  ghost predicate FailedIn(trace: seq<Event>, h: string) {
    exists e :: e in trace && h in FailedBy(e)
  }

  /** The watermark of every real pulled row, by hash. */
  function Marks(rows: seq<BookRow>): map<string, int> {
    if rows == [] then map[]
    else if rows[0].IsDummy() then Marks(rows[1..])
    else Marks(rows[1..])[rows[0].hash := rows[0].WatermarkMs()]
  }

  lemma TailRow(rows: seq<BookRow>, r: BookRow)
    requires Distinct(Hashes(rows)) && r in rows && r != rows[0]
    ensures r in rows[1..] && rows[0].hash != r.hash && Distinct(Hashes(rows[1..]))
  {
    var i :| 0 <= i < |rows| && rows[i] == r;
    assert rows[1..][i - 1] == r;
    assert Hashes(rows)[0] != Hashes(rows)[i];
    assert Hashes(rows) == [rows[0].hash] + Hashes(rows[1..]);
    assert Hashes(rows)[1..] == Hashes(rows[1..]);
    DistinctTail(Hashes(rows));
  }

  lemma {:induction false} MarkOf(rows: seq<BookRow>, r: BookRow)
    requires Distinct(Hashes(rows)) && r in rows && !r.IsDummy()
    ensures r.hash in Marks(rows) && Marks(rows)[r.hash] == r.WatermarkMs()
  {
    if r != rows[0] {
      TailRow(rows, r);
      MarkOf(rows[1..], r);
    }
  }

  lemma {:induction false} MarkFrom(rows: seq<BookRow>, h: string) returns (r: BookRow)
    requires h in Marks(rows)
    ensures r in rows && !r.IsDummy() && r.hash == h && r.WatermarkMs() == Marks(rows)[h]
  {
    if !rows[0].IsDummy() && rows[0].hash == h {
      r := rows[0];
    } else {
      r := MarkFrom(rows[1..], h);
    }
  }

  /** A queued item carries the watermark of the row it came from. */
  ghost predicate Marked(marks: map<string, int>, items: seq<PushItem>) {
    forall p :: p in items ==> p.hash in marks && marks[p.hash] == p.wm
  }

  ghost predicate MarkedRows(marks: map<string, int>, some: seq<BookRow>) {
    forall r :: r in some ==> r.hash in marks && marks[r.hash] == r.WatermarkMs()
  }

  lemma {:induction false} ClassifyMarked(cfg: Config, now: int, c: Classified, rows: seq<BookRow>,
                                          marks: map<string, int>)
    requires Marked(marks, c.toPush) && MarkedRows(marks, c.toMatch)
    requires forall r :: r in rows && !r.IsDummy() ==> r.hash in marks && marks[r.hash] == r.WatermarkMs()
    ensures Marked(marks, Classify(cfg, now, c, rows).toPush) && MarkedRows(marks, Classify(cfg, now, c, rows).toMatch)
    decreases rows
  {
    if rows != [] {
      ClassifyMarked(cfg, now, ClassifyRow(cfg, now, c, rows[0]), rows[1..], marks);
    }
  }

  ghost predicate MarkedMap(marks: map<string, int>, byHash: map<string, BookRow>) {
    forall h :: h in byHash ==> h in marks && marks[h] == byHash[h].WatermarkMs()
  }

  lemma {:induction false} AddMatchesMarked(byHash: map<string, BookRow>, now: int, s: Pass, found: seq<Match>,
                                            marks: map<string, int>)
    requires Marked(marks, s.toPush) && MarkedMap(marks, byHash)
    ensures Marked(marks, AddMatches(byHash, now, s, found).toPush)
    decreases found
  {
    if found != [] {
      AddMatchesMarked(byHash, now, AddMatch(byHash, now, s, found[0]), found[1..], marks);
    }
  }

  /** The failed watermarks are exactly those of the hashes in failed chunks. */
  ghost predicate Accounted(marks: map<string, int>, s: Pass) {
    && (forall h :: FailedIn(s.trace, h) ==> h in marks && marks[h] in s.failed)
    && (forall f :: f in s.failed ==> HasFailed(marks, s.trace, f))
  }

  ghost predicate HasFailed(marks: map<string, int>, trace: seq<Event>, f: int) {
    exists h :: FailedIn(trace, h) && h in marks && marks[h] == f
  }

  lemma FailedSnoc(trace: seq<Event>, e: Event, h: string)
    ensures FailedIn(trace + [e], h) <==> FailedIn(trace, h) || h in FailedBy(e)
  {
    assert e in trace + [e];
    if FailedIn(trace, h) {
      var x :| x in trace && h in FailedBy(x);
      assert x in trace + [e];
    }
  }

  /** One event that fails the hashes whose watermarks are `more`. */
  lemma AccountedSnoc(marks: map<string, int>, s: Pass, e: Event, more: seq<int>, t: Pass)
    requires Accounted(marks, s) && t.trace == s.trace + [e] && t.failed == s.failed + more
    requires forall h :: h in FailedBy(e) ==> h in marks && marks[h] in more
    requires forall f :: f in more ==> exists h :: h in FailedBy(e) && h in marks && marks[h] == f
    ensures Accounted(marks, t)
  {
    forall h | FailedIn(t.trace, h) ensures h in marks && marks[h] in t.failed {
      FailedSnoc(s.trace, e, h);
    }
    forall f | f in t.failed ensures HasFailed(marks, t.trace, f) {
      if f in s.failed {
        var h :| FailedIn(s.trace, h) && h in marks && marks[h] == f;
        FailedSnoc(s.trace, e, h);
      } else {
        var h :| h in FailedBy(e) && h in marks && marks[h] == f;
        FailedSnoc(s.trace, e, h);
      }
    }
  }

  /** An event that fails nothing. */
  lemma AccountedQuiet(marks: map<string, int>, s: Pass, e: Event, t: Pass)
    requires Accounted(marks, s) && t.trace == s.trace + [e] && t.failed == s.failed && FailedBy(e) == {}
    ensures Accounted(marks, t)
  {
    AccountedSnoc(marks, s, e, [], t);
  }

  lemma {:induction false} ChunkWatermarks(byHash: map<string, BookRow>, chunk: seq<string>, marks: map<string, int>)
    requires MarkedMap(marks, byHash) && forall g :: g in chunk ==> g in byHash
    ensures forall f :: f in Watermarks(byHash, chunk) ==> exists h :: h in chunk && h in marks && marks[h] == f
    ensures forall h :: h in chunk ==> h in marks && marks[h] in Watermarks(byHash, chunk)
  {
    if chunk != [] {
      ChunkWatermarks(byHash, chunk[1..], marks);
      forall f | f in Watermarks(byHash, chunk) ensures exists h :: h in chunk && h in marks && marks[h] == f {
        if f == marks[chunk[0]] {
          assert chunk[0] in chunk;
        } else {
          assert f in Watermarks(byHash, chunk[1..]);
          var h :| h in chunk[1..] && h in marks && marks[h] == f;
          assert h in chunk;
        }
      }
    }
  }

  lemma MatchChunkAccounted(marks: map<string, int>, w: SyncWorld, now: int, byHash: map<string, BookRow>, s: Pass,
                            chunk: seq<string>)
    requires MarkedMap(marks, byHash) && forall g :: g in chunk ==> g in byHash
    requires Accounted(marks, s) && Marked(marks, s.toPush)
    ensures Accounted(marks, MatchChunk(w, now, byHash, s, chunk))
    ensures Marked(marks, MatchChunk(w, now, byHash, s, chunk).toPush)
  {
    var found := w.matching(|s.trace|);
    var e := MatchCheck(chunk, found, now);
    var t := MatchChunk(w, now, byHash, s, chunk);
    if found.Ok? {
      AddMatchesFrame(byHash, now, s.Log(e), found.value.matches);
      AddMatchesMarked(byHash, now, s.Log(e), found.value.matches, marks);
      AccountedQuiet(marks, s, e, t);
    } else if found.error.Unauthorized? {
      AccountedQuiet(marks, s, e, t);
    } else {
      ChunkWatermarks(byHash, chunk, marks);
      assert FailedBy(e) == set h | h in chunk;
      AccountedSnoc(marks, s, e, Watermarks(byHash, chunk), t);
    }
  }

  lemma {:induction false} MatchPhaseAccounted(marks: map<string, int>, w: SyncWorld, cfg: Config, now: int,
                                               byHash: map<string, BookRow>, s: Pass, hashes: seq<string>)
    requires MarkedMap(marks, byHash) && forall g :: g in hashes ==> g in byHash
    requires Accounted(marks, s) && Marked(marks, s.toPush)
    ensures Accounted(marks, MatchPhase(w, cfg, now, byHash, s, hashes))
    ensures Marked(marks, MatchPhase(w, cfg, now, byHash, s, hashes).toPush)
    decreases |hashes|
  {
    if hashes != [] && !s.fatal {
      var k := ChunkLength(|hashes|, cfg.matchBatchSize);
      MatchChunkAccounted(marks, w, now, byHash, s, hashes[..k]);
      MatchPhaseAccounted(marks, w, cfg, now, byHash, MatchChunk(w, now, byHash, s, hashes[..k]), hashes[k..]);
    }
  }

  lemma {:induction false} PushSinglesAccounted(marks: map<string, int>, w: SyncWorld, s: Pass, items: seq<PushItem>)
    requires Accounted(marks, s)
    ensures Accounted(marks, PushSingles(w, s, items))
    decreases items
  {
    if items != [] {
      var s1 := PushSingle(w, s, items[0]);
      PushSingleFrame(w, s, items[0]);
      AccountedQuiet(marks, s, s1.trace[|s.trace|], s1);
      PushSinglesAccounted(marks, w, s1, items[1..]);
    }
  }

  lemma {:induction false} MarkedWatermarks(marks: map<string, int>, items: seq<PushItem>)
    requires Marked(marks, items)
    ensures forall i :: 0 <= i < |items| ==> items[i].hash in marks && marks[items[i].hash] in ItemWatermarks(items)
    ensures forall f :: f in ItemWatermarks(items) ==>
              exists i :: 0 <= i < |items| && items[i].hash in marks && marks[items[i].hash] == f
  {
    if items != [] {
      MarkedWatermarks(marks, items[1..]);
      forall i | 0 <= i < |items| ensures items[i].hash in marks && marks[items[i].hash] in ItemWatermarks(items) {
        assert items[i] in items;
        if i > 0 {
          assert items[1..][i - 1] == items[i];
        }
      }
      forall f | f in ItemWatermarks(items)
        ensures exists i :: 0 <= i < |items| && items[i].hash in marks && marks[items[i].hash] == f
      {
        if f != items[0].wm {
          var i :| 0 <= i < |items[1..]| && items[1..][i].hash in marks && marks[items[1..][i].hash] == f;
          assert items[i + 1] == items[1..][i];
        }
      }
    }
  }

  lemma BulkFailure(marks: map<string, int>, items: seq<PushItem>, hs: set<string>)
    requires Marked(marks, items) && hs == set i | 0 <= i < |items| :: items[i].hash
    ensures forall h :: h in hs ==> h in marks && marks[h] in ItemWatermarks(items)
    ensures forall f :: f in ItemWatermarks(items) ==> exists h :: h in hs && h in marks && marks[h] == f
  {
    MarkedWatermarks(marks, items);
    forall f | f in ItemWatermarks(items) ensures exists h :: h in hs && h in marks && marks[h] == f {
      var i :| 0 <= i < |items| && items[i].hash in marks && marks[items[i].hash] == f;
      assert items[i].hash in hs;
    }
  }

  lemma PushChunkAccounted(marks: map<string, int>, w: SyncWorld, s: Pass, chunk: seq<PushItem>)
    requires Accounted(marks, s) && Marked(marks, chunk)
    ensures Accounted(marks, PushChunk(w, s, chunk))
  {
    if s.bulkUnsupported {
      PushSinglesAccounted(marks, w, s, chunk);
    } else {
      var refused := w.bulk(|s.trace|);
      var s1 := Traffic.Called(w, s, chunk);
      var e := s1.trace[|s.trace|];
      var t := PushChunk(w, s, chunk);
      if refused.Ok? {
        AckItemsFrame(w, s1, chunk, refused.value);
        AccountedQuiet(marks, s, e, t);
      } else if refused.error.UnsupportedEndpoint? {
        AccountedQuiet(marks, s, e, s1.(bulkUnsupported := true));
        PushSinglesAccounted(marks, w, s1.(bulkUnsupported := true), chunk);
      } else if refused.error.Unauthorized? {
        AccountedQuiet(marks, s, e, t);
      } else {
        assert FailedBy(e) == set i | 0 <= i < |chunk| :: chunk[i].hash;
        BulkFailure(marks, chunk, FailedBy(e));
        AccountedSnoc(marks, s, e, ItemWatermarks(chunk), t);
      }
    }
  }

  lemma {:induction false} PushPhaseAccounted(marks: map<string, int>, w: SyncWorld, cfg: Config, s: Pass,
                                              items: seq<PushItem>)
    requires Accounted(marks, s) && Marked(marks, items)
    ensures Accounted(marks, PushPhase(w, cfg, s, items))
    decreases |items|
  {
    if items != [] && !s.fatal {
      var k := ChunkLength(|items|, cfg.progressBatchSize);
      PushChunkAccounted(marks, w, s, items[..k]);
      PushPhaseAccounted(marks, w, cfg, PushChunk(w, s, items[..k]), items[k..]);
    }
  }

  lemma {:induction false} StatusPhaseAccounted(marks: map<string, int>, w: World, now: int, s: Pass,
                                                rows: seq<BookRow>)
    requires Accounted(marks, s)
    ensures Accounted(marks, StatusPhase(w, now, s, rows))
    decreases rows
  {
    if rows != [] && !s.fatal {
      var s1 := StatusRow(w, now, s, rows[0]);
      var es := Traffic.StatusRowTraffic(w, now, s, rows[0]);
      StatusRowFrame(w, now, s, rows[0]);
      if es == [] {
        assert s.trace + es == s.trace;
      } else {
        assert es == [es[0]];
        AccountedQuiet(marks, s, es[0], s1);
      }
      StatusPhaseAccounted(marks, w, now, s1, rows[1..]);
    }
  }

  lemma PassAccounted(w: World, cfg: Config, latch: bool, d: Data, rows: seq<BookRow>)
    requires Distinct(Hashes(rows))
    ensures Accounted(Marks(rows), RunPass(w, cfg, latch, d, rows))
  {
    var c, s0, s1, s2 := Assembled(w, cfg, latch, d, rows);
    var marks := Marks(rows);
    QueuesMarked(w, cfg, d, rows);
    MatchPhaseAccounted(marks, w.sync, cfg, w.sync.clock(0), RowByHash(c.toMatch), s0, Hashes(c.toMatch));
    PushPhaseAccounted(marks, w.sync, cfg, s1, s1.toPush);
    StatusPhaseAccounted(marks, w, w.sync.clock(0), s2, rows);
    CursorAccounted(marks, AfterStatus(w, cfg, s2, rows), RunPass(w, cfg, latch, d, rows));
  }

  lemma QueuesMarked(w: World, cfg: Config, d: Data, rows: seq<BookRow>)
    requires Distinct(Hashes(rows))
    ensures var c := Classification(w, cfg, d, rows);
            Marked(Marks(rows), c.toPush) && MarkedMap(Marks(rows), RowByHash(c.toMatch))
  {
    var marks := Marks(rows);
    forall r | r in rows && !r.IsDummy() ensures r.hash in marks && marks[r.hash] == r.WatermarkMs() {
      MarkOf(rows, r);
    }
    ClassifyMarked(cfg, w.sync.clock(0), Classified(d, 0, [], []), rows, marks);
    IndexMarked(marks, Classification(w, cfg, d, rows).toMatch);
  }

  lemma {:induction false} IndexMarked(marks: map<string, int>, rows: seq<BookRow>)
    requires MarkedRows(marks, rows)
    ensures MarkedMap(marks, RowByHash(rows))
  {
    if rows != [] {
      IndexMarked(marks, rows[1..]);
    }
  }

  lemma CursorAccounted(marks: map<string, int>, s: Pass, t: Pass)
    requires Accounted(marks, s) && t == s.(data := t.data)
    ensures Accounted(marks, t)
  {
  }

  lemma {:induction false} ClassifyKeepsCursor(cfg: Config, now: int, c: Classified, rows: seq<BookRow>)
    ensures Classify(cfg, now, c, rows).data.watermarkMs == c.data.watermarkMs
    ensures Classify(cfg, now, c, rows).data.token == c.data.token
    ensures Classify(cfg, now, c, rows).data.deviceId == c.data.deviceId
    decreases rows
  {
    if rows != [] {
      ClassifyKeepsCursor(cfg, now, ClassifyRow(cfg, now, c, rows[0]), rows[1..]);
    }
  }

  /** The cursor a pass ends with, in terms of the failed watermarks. */
  lemma PassCursor(w: World, cfg: Config, latch: bool, d: Data, rows: seq<BookRow>)
    ensures var t := RunPass(w, cfg, latch, d, rows);
            && t.data.watermarkMs == ComputeWatermark(d.watermarkMs, LatestOf(rows), t.failed)
            && t.data.token == d.token && t.data.deviceId == d.deviceId
  {
    var c, s0, s1, s2 := Assembled(w, cfg, latch, d, rows);
    StatusPhaseFrame(w, w.sync.clock(0), s2, rows);
    ClassifyLatest(cfg, w.sync.clock(0), Classified(d, 0, [], []), rows);
    ClassifyKeepsCursor(cfg, w.sync.clock(0), Classified(d, 0, [], []), rows);
  }

  /** The watermarks of the pulled rows whose chunk failed. */
  ghost function FailedMarks(rows: seq<BookRow>, trace: seq<Event>): set<int> {
    set h | h in Marks(rows) && FailedIn(trace, h) :: Marks(rows)[h]
  }

  /** Exact cursor. It never moves back. Without a failed row it ends at the largest pulled watermark or where it was.
      Otherwise, the pulled rows lying above the old cursor, it is the greatest value below every failed row. */
  lemma ExactCursor(w: World, cfg: Config, latch: bool, d: Data, rows: seq<BookRow>, v: int)
    requires Distinct(Hashes(rows))
    requires forall r :: r in rows && !r.IsDummy() ==> r.WatermarkMs() > d.watermarkMs
    ensures var t := RunPass(w, cfg, latch, d, rows);
            var failed := FailedMarks(rows, t.trace);
            && t.data.watermarkMs >= d.watermarkMs
            && (failed == {} ==> t.data.watermarkMs == Max(d.watermarkMs, LatestOf(rows)))
            && (failed != {} ==> (v <= t.data.watermarkMs <==> Under(v, failed)))
  {
    var t := RunPass(w, cfg, latch, d, rows);
    PassCursor(w, cfg, latch, d, rows);
    PassAccounted(w, cfg, latch, d, rows);
    RetreatRule(d.watermarkMs, LatestOf(rows), t.failed, v);
    FailedMarksMatch(Marks(rows), rows, t);
    forall m | m in FailedMarks(rows, t.trace) ensures m > d.watermarkMs {
      var h :| h in Marks(rows) && Marks(rows)[h] == m;
      var r := MarkFrom(rows, h);
    }
  }

  lemma FailedMarksMatch(marks: map<string, int>, rows: seq<BookRow>, t: Pass)
    requires marks == Marks(rows) && Accounted(marks, t)
    ensures FailedMarks(rows, t.trace) == set f | f in t.failed
    ensures t.failed == [] <==> FailedMarks(rows, t.trace) == {}
  {
    forall f | f in t.failed ensures f in FailedMarks(rows, t.trace) {
      assert HasFailed(marks, t.trace, f);
    }
    if t.failed != [] {
      assert t.failed[0] in FailedMarks(rows, t.trace);
    }
  }
}
