/** What one pass does to every pulled row, and what it leaves of every other hash. */
module Settlement {
  import opened Wrappers
  import opened Errors
  import opened Readest
  import opened State
  import opened SyncPass
  import opened Projection
  import opened Phases
  import opened Progress

  /** The state of the pass when the status phase begins. */
  function Before(w: World, cfg: Config, latch: bool, d: Data, rows: seq<BookRow>): Pass {
    BeforeStatus(w.sync, cfg, Classification(w, cfg, d, rows), latch, rows)
  }

  /** Nothing of the pass is a store or queue matter of hash h before the status phase. */
  ghost predicate Quiet(h: string, x: Slot, s: Pass) {
    s.data.At(h) == x && !Answered(s.trace, h) && !Found(s.trace, h)
  }

  /** The row was owed an answer and did not get one: its chunk failed, or the pass gave up, or its update failed. */
  ghost predicate Missed(r: BookRow, s: Pass) {
    r.WatermarkMs() in s.failed || CutShort(s.errs) || UpdateFailed(s.errs)
  }

  /** Every way a pulled row can stand when the status phase begins, by the verdict on it. */
  ghost predicate Stands(w: SyncWorld, cfg: Config, d: Data, r: BookRow, s: Pass) {
    var now := w.clock(0);
    var h := r.hash;
    match VerdictOf(cfg, now, d, r)
    case Forget => Quiet(h, Slot(None, None), s)
    case Leave => Quiet(h, d.At(h), s)
    case Push(p) => PushDone(w, h, p.pct, s) || (Quiet(h, d.At(h), s) && Missed(r, s))
    case Resolve =>
      || (s.data.At(h) == Slot(None, Some(now)) && Answered(s.trace, h))
      || (Quiet(h, d.At(h), s) && Missed(r, s))
      || (Found(s.trace, h) && StandsFound(w, r, s))
  }

  /** A row resolved in this pass: some copy of its push was answered, or the record is as the match made it. */
  ghost predicate StandsFound(w: SyncWorld, r: BookRow, s: Pass) {
    || (r.Percentage().Some? && PushDone(w, r.hash, r.Percentage().value, s))
    || (NewSlot(s.data.At(r.hash)) && !Answered(s.trace, r.hash) && (r.Percentage().Some? ==> Missed(r, s)))
  }

  /** The states of a pass between its phases. */
  lemma Assembled(w: World, cfg: Config, latch: bool, d: Data, rows: seq<BookRow>)
    returns (c: Classified, s0: Pass, s1: Pass, s2: Pass)
    ensures c == Classification(w, cfg, d, rows)
    ensures s0 == Started(c, latch, rows)
    ensures s1 == AfterMatch(w.sync, cfg, c, s0)
    ensures s2 == AfterPush(w.sync, cfg, s1) == Before(w, cfg, latch, d, rows)
    ensures Grows(s1, s2) && Grows(s0, s1) && (s1.fatal ==> s2 == s1)
    ensures forall h :: !Answered(s0.trace, h) && !Found(s0.trace, h)
  {
    c := Classification(w, cfg, d, rows);
    s0 := Started(c, latch, rows);
    s1 := AfterMatch(w.sync, cfg, c, s0);
    s2 := AfterPush(w.sync, cfg, s1);
    MatchPhaseFrame(w.sync, cfg, w.sync.clock(0), RowByHash(c.toMatch), s0, Hashes(c.toMatch));
    PushPhaseFrame(w.sync, cfg, s1, s1.toPush);
  }

  /** A hash that the classification neither queues nor checks stays as classification left it. */
  lemma Unqueued(w: World, cfg: Config, c: Classified, s0: Pass, h: string)
    requires !s0.fatal && s0.toPush == c.toPush && s0.data == c.data
    requires ItemsFor(c.toPush, h) == [] && h !in Hashes(c.toMatch)
    requires Honest(AfterPush(w.sync, cfg, AfterMatch(w.sync, cfg, c, s0)).trace)
    requires !Answered(s0.trace, h) && !Found(s0.trace, h)
    ensures Quiet(h, c.data.At(h), AfterPush(w.sync, cfg, AfterMatch(w.sync, cfg, c, s0)))
  {
    var s1 := AfterMatch(w.sync, cfg, c, s0);
    PushPhaseFrame(w.sync, cfg, s1, s1.toPush);
    HonestPrefix(s1.trace, AfterPush(w.sync, cfg, s1).trace);
    MatchPhaseForeign(w.sync, cfg, w.sync.clock(0), RowByHash(c.toMatch), s0, Hashes(c.toMatch), h);
    PushPhaseForeign(w.sync, cfg, s1, s1.toPush, h);
  }

  /** A hash that was not pulled is untouched up to the status phase, and by it. */
  lemma NotPulled(w: World, cfg: Config, latch: bool, d: Data, rows: seq<BookRow>, h: string)
    requires AllForeign(rows, h) && Honest(Before(w, cfg, latch, d, rows).trace)
    ensures Quiet(h, d.At(h), Before(w, cfg, latch, d, rows))
  {
    var c, s0, s1, s2 := Assembled(w, cfg, latch, d, rows);
    ClassifyForeign(cfg, w.sync.clock(0), Classified(d, 0, [], []), rows, h);
    assert h !in multiset(Hashes(c.toMatch));
    Unqueued(w, cfg, c, s0, h);
  }

  /** The pushes of a row whose copies wait in the queue when the progress phase begins. */
  lemma PushStands(w: World, cfg: Config, s1: Pass, r: BookRow, pct: int)
    requires ItemsFor(s1.toPush, r.hash) != [] && Alike(s1.toPush, r.hash, pct, r.WatermarkMs())
    requires !Answered(s1.trace, r.hash)
    requires s1.fatal ==> CutShort(s1.errs)
    ensures var s2 := AfterPush(w.sync, cfg, s1);
            || PushDone(w.sync, r.hash, pct, s2)
            || (s2.data.At(r.hash) == s1.data.At(r.hash) && !Answered(s2.trace, r.hash) && Missed(r, s2))
    ensures Found(AfterPush(w.sync, cfg, s1).trace, r.hash) <==> Found(s1.trace, r.hash)
  {
    PushKeepsFound(w.sync, cfg, s1, s1.toPush, r.hash);
    if !s1.fatal {
      PushPhaseHit(w.sync, cfg, s1, s1.toPush, r.hash, pct, r.WatermarkMs());
    }
  }

  lemma {:induction false} PushSinglesKeepFound(w: SyncWorld, s: Pass, items: seq<PushItem>, h: string)
    ensures Found(PushSingles(w, s, items).trace, h) <==> Found(s.trace, h)
    decreases items
  {
    if items != [] {
      var s1 := PushSingle(w, s, items[0]);
      HeardSnoc(s.trace, s1.trace[|s.trace|], h);
      PushSinglesKeepFound(w, s1, items[1..], h);
    }
  }

  lemma {:induction false} PushKeepsFound(w: SyncWorld, cfg: Config, s: Pass, items: seq<PushItem>, h: string)
    ensures Found(PushPhase(w, cfg, s, items).trace, h) <==> Found(s.trace, h)
    decreases |items|
  {
    if items != [] && !s.fatal {
      var k := Batch.ChunkLength(|items|, cfg.progressBatchSize);
      var chunk := items[..k];
      if s.bulkUnsupported {
        PushSinglesKeepFound(w, s, chunk, h);
      } else {
        var refused := w.bulk(|s.trace|);
        var times := if refused.Ok? then Times(w, s.ticks, |chunk|) else [];
        var s1 := s.Log(Bulk(ToSents(chunk), refused, times));
        BulkAnswers(s, chunk, refused, times, h);
        if refused.Ok? {
          AckItemsFrame(w, s1, chunk, refused.value);
        } else {
          PushSinglesKeepFound(w, s1.(bulkUnsupported := true), chunk, h);
        }
      }
      PushKeepsFound(w, cfg, PushChunk(w, s, chunk), items[k..], h);
    }
  }

  lemma {:induction false} MatchPhaseFatal(w: SyncWorld, cfg: Config, now: int, byHash: map<string, BookRow>,
                                           s: Pass, hashes: seq<string>)
    requires forall g :: g in hashes ==> g in byHash
    requires !s.fatal
    ensures var t := MatchPhase(w, cfg, now, byHash, s, hashes);
            t.fatal ==> Failure(MatchCheckOp, Unauthorized) in t.errs
    decreases |hashes|
  {
    if hashes != [] {
      var k := Batch.ChunkLength(|hashes|, cfg.matchBatchSize);
      MatchChunkFatal(w, now, byHash, s, hashes[..k]);
      if !MatchChunk(w, now, byHash, s, hashes[..k]).fatal {
        MatchPhaseFatal(w, cfg, now, byHash, MatchChunk(w, now, byHash, s, hashes[..k]), hashes[k..]);
      }
    }
  }

  /** Each pulled row stands as its verdict and the answers say. */
  lemma RowStands(w: World, cfg: Config, latch: bool, d: Data, rows: seq<BookRow>, r: BookRow)
    requires Distinct(Hashes(rows)) && r in rows && !r.IsDummy()
    requires Honest(Before(w, cfg, latch, d, rows).trace)
    ensures Stands(w.sync, cfg, d, r, Before(w, cfg, latch, d, rows))
  {
    var c, s0, s1, s2 := Assembled(w, cfg, latch, d, rows);
    var now := w.sync.clock(0);
    var h := r.hash;
    HonestPrefix(s1.trace, s2.trace);
    MatchPhaseFatal(w.sync, cfg, now, RowByHash(c.toMatch), s0, Hashes(c.toMatch));
    ClassifyHit(cfg, now, Classified(d, 0, [], []), rows, r);
    match VerdictOf(cfg, now, d, r)
    case Push(p) =>
      assert h !in multiset(Hashes(c.toMatch));
      QueuedStands(w, cfg, c, s0, d, r, p);
    case Resolve =>
      ResolveStands(w, cfg, c, s0, d, r);
    case _ =>
      assert h !in multiset(Hashes(c.toMatch));
      Unqueued(w, cfg, c, s0, h);
  }

  lemma QueuedStands(w: World, cfg: Config, c: Classified, s0: Pass, d: Data, r: BookRow, p: PushItem)
    requires !s0.fatal && s0.toPush == c.toPush && s0.data == c.data
    requires ItemsFor(c.toPush, r.hash) == [p] && p.wm == r.WatermarkMs() && r.hash !in Hashes(c.toMatch)
    requires c.data.At(r.hash) == d.At(r.hash) && !Answered(s0.trace, r.hash) && !Found(s0.trace, r.hash)
    requires Honest(AfterPush(w.sync, cfg, AfterMatch(w.sync, cfg, c, s0)).trace)
    ensures var s := AfterPush(w.sync, cfg, AfterMatch(w.sync, cfg, c, s0));
            PushDone(w.sync, r.hash, p.pct, s) || (Quiet(r.hash, d.At(r.hash), s) && Missed(r, s))
  {
    var now := w.sync.clock(0);
    var s1 := AfterMatch(w.sync, cfg, c, s0);
    PushPhaseFrame(w.sync, cfg, s1, s1.toPush);
    HonestPrefix(s1.trace, AfterPush(w.sync, cfg, s1).trace);
    MatchPhaseFatal(w.sync, cfg, now, RowByHash(c.toMatch), s0, Hashes(c.toMatch));
    MatchPhaseForeign(w.sync, cfg, now, RowByHash(c.toMatch), s0, Hashes(c.toMatch), r.hash);
    PushStands(w, cfg, s1, r, p.pct);
  }

  lemma ResolveStands(w: World, cfg: Config, c: Classified, s0: Pass, d: Data, r: BookRow)
    requires !s0.fatal && s0.toPush == c.toPush && s0.data == c.data
    requires Classed(cfg, w.sync.clock(0), d, r, c) && VerdictOf(cfg, w.sync.clock(0), d, r).Resolve?
    requires !Answered(s0.trace, r.hash) && !Found(s0.trace, r.hash)
    requires Honest(AfterPush(w.sync, cfg, AfterMatch(w.sync, cfg, c, s0)).trace)
    ensures Stands(w.sync, cfg, d, r, AfterPush(w.sync, cfg, AfterMatch(w.sync, cfg, c, s0)))
  {
    var now := w.sync.clock(0);
    var h := r.hash;
    var s1 := AfterMatch(w.sync, cfg, c, s0);
    var s2 := AfterPush(w.sync, cfg, s1);
    PushPhaseFrame(w.sync, cfg, s1, s1.toPush);
    HonestPrefix(s1.trace, s2.trace);
    RowByHashOnce(c.toMatch, r);
    MatchPhaseHit(w.sync, cfg, now, RowByHash(c.toMatch), s0, Hashes(c.toMatch), r);
    MatchPhaseFatal(w.sync, cfg, now, RowByHash(c.toMatch), s0, Hashes(c.toMatch));
    if CheckedMatched(now, r, s0, s1) {
      FoundStands(w, cfg, s0, s1, r);
    } else {
      PushPhaseForeign(w.sync, cfg, s1, s1.toPush, h);
      if CheckMissed(r, s0, s1) {
        assert Quiet(h, d.At(h), s2) && Missed(r, s2);
      }
    }
  }

  lemma FoundStands(w: World, cfg: Config, s0: Pass, s1: Pass, r: BookRow)
    requires CheckedMatched(w.sync.clock(0), r, s0, s1)
    requires ItemsFor(s0.toPush, r.hash) == [] && !Answered(s0.trace, r.hash)
    requires s1.fatal ==> CutShort(s1.errs)
    ensures var s2 := AfterPush(w.sync, cfg, s1); Found(s2.trace, r.hash) && StandsFound(w.sync, r, s2)
  {
    var now := w.sync.clock(0);
    var ms :| ms != [] && ItemsFor(s1.toPush, r.hash) == ItemsFor(s0.toPush, r.hash) + Copies(r.hash, r, now, ms);
    assert ItemsFor(s1.toPush, r.hash) == Copies(r.hash, r, now, ms);
    if r.Percentage().Some? {
      PushStands(w, cfg, s1, r, r.Percentage().value);
    } else {
      PushPhaseForeign(w.sync, cfg, s1, s1.toPush, r.hash);
    }
  }
}
