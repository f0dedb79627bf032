/** The progress phase seen from one hash: bulk acknowledgements, refusals and the per-item fallback. */
module Progress {
  import opened Wrappers
  import opened Errors
  import opened Batch
  import opened State
  import opened SyncPass
  import opened Projection
  import opened Phases

  /** Some UpdateProgress call of the pass failed. */
  ghost predicate UpdateFailed(errs: seq<Failure>) {
    exists f :: f in errs && f.op == UpdateProgressOp
  }

  /** The slot of a hash whose push was accepted, or refused as unknown. */
  ghost predicate DoneSlot(w: SyncWorld, x: Slot, pct: int) {
    if x.rec.Some? then x.rec.value.lastPushedPct == pct && Ticked(w, x.rec.value.lastPushedAt)
    else x.unmatched.Some? && Ticked(w, x.unmatched.value)
  }

  ghost predicate Ticked(w: SyncWorld, time: int) { exists tick :: w.clock(tick) == time }

  /** All queued copies of a hash push one percentage for one row. */
  ghost predicate Alike(items: seq<PushItem>, h: string, pct: int, wm: int) {
    forall p :: p in ItemsFor(items, h) ==> p.pct == pct && p.wm == wm
  }

  /** The two ways the progress phase can leave a hash, however often it is queued: some copy got its answer, or
      none. */
  ghost predicate PushDone(w: SyncWorld, h: string, pct: int, s: Pass) {
    Answered(s.trace, h) && DoneSlot(w, s.data.At(h), pct)
  }

  ghost predicate PushMissed(h: string, wm: int, owed: bool, a: Pass, b: Pass) {
    && Untouched(h, a, b)
    && (owed ==> wm in b.failed || UpdateFailed(b.errs) || (b.fatal && Failure(BulkProgressOp, Unauthorized) in b.errs))
  }

  ghost predicate PushOutcome(w: SyncWorld, h: string, pct: int, wm: int, owed: bool, a: Pass, b: Pass) {
    PushDone(w, h, pct, b) || PushMissed(h, wm, owed, a, b)
  }

  lemma MissedLater(h: string, wm: int, owed: bool, a: Pass, b: Pass, c: Pass)
    requires PushMissed(h, wm, owed, a, b) && Untouched(h, b, c) && Grows(b, c) && (b.fatal ==> c.fatal)
    ensures PushMissed(h, wm, owed, a, c)
  {
    if UpdateFailed(b.errs) {
      var f :| f in b.errs && f.op == UpdateProgressOp;
      assert f in c.errs;
    }
  }

  lemma OutcomeThen(w: SyncWorld, h: string, pct: int, wm: int, first: bool, second: bool, a: Pass, b: Pass, c: Pass)
    requires PushOutcome(w, h, pct, wm, first, a, b) && PushOutcome(w, h, pct, wm, second, b, c)
    requires Grows(b, c) && (b.fatal ==> c.fatal)
    ensures PushOutcome(w, h, pct, wm, first || second, a, c)
  {
    if !PushDone(w, h, pct, b) && !PushDone(w, h, pct, c) {
      MissedLater(h, wm, first, a, b, c);
    }
  }

  lemma AlikeSplit(a: seq<PushItem>, b: seq<PushItem>, h: string, pct: int, wm: int)
    requires Alike(a + b, h, pct, wm)
    ensures Alike(a, h, pct, wm) && Alike(b, h, pct, wm)
    ensures ItemsFor(a + b, h) != [] <==> ItemsFor(a, h) != [] || ItemsFor(b, h) != []
  {
    ItemsForAppend(a, b, h);
    forall p | p in ItemsFor(a, h) || p in ItemsFor(b, h) ensures p.pct == pct && p.wm == wm {
      assert p in ItemsFor(a + b, h);
    }
  }

  /******* Acknowledged items *******/

  lemma {:induction false} AckItemsFrame(w: SyncWorld, s: Pass, items: seq<PushItem>, refused: seq<string>)
    ensures var t := AckItems(w, s, items, refused);
            t == s.(data := s.data.(matches := t.data.matches, unmatched := t.data.unmatched),
                    ticks := s.ticks + |items|)
    decreases items
  {
    if items != [] {
      AckItemsFrame(w, AckItem(w, s, items[0], refused), items[1..], refused);
    }
  }

  lemma {:induction false} AckItemsForeign(w: SyncWorld, s: Pass, items: seq<PushItem>, refused: seq<string>, h: string)
    requires ItemsFor(items, h) == []
    ensures AckItems(w, s, items, refused).data.At(h) == s.data.At(h)
    decreases items
  {
    if items != [] {
      AckItemsForeign(w, AckItem(w, s, items[0], refused), items[1..], refused, h);
    }
  }

  lemma AckItemDone(w: SyncWorld, s: Pass, p: PushItem, refused: seq<string>)
    ensures DoneSlot(w, AckItem(w, s, p, refused).data.At(p.hash), p.pct)
  {
    assert Ticked(w, w.clock(s.ticks));
  }

  lemma {:induction false} AckItemsDone(w: SyncWorld, s: Pass, items: seq<PushItem>, refused: seq<string>, h: string,
                                        pct: int, wm: int)
    requires ItemsFor(items, h) != [] && Alike(items, h, pct, wm)
    ensures DoneSlot(w, AckItems(w, s, items, refused).data.At(h), pct)
    decreases items
  {
    var s1 := AckItem(w, s, items[0], refused);
    assert items == [items[0]] + items[1..];
    AlikeSplit([items[0]], items[1..], h, pct, wm);
    if ItemsFor(items[1..], h) != [] {
      AckItemsDone(w, s1, items[1..], refused, h, pct, wm);
    } else {
      assert items[0] in ItemsFor(items, h);
      AckItemDone(w, s, items[0], refused);
      AckItemsForeign(w, s1, items[1..], refused, h);
    }
  }

  /******* The per-item fallback *******/

  lemma PushSingleFrame(w: SyncWorld, s: Pass, p: PushItem)
    ensures Grows(s, PushSingle(w, s, p))
    ensures PushSingle(w, s, p).toPush == s.toPush
    ensures PushSingle(w, s, p).fatal == s.fatal && PushSingle(w, s, p).failed == s.failed
    ensures PushSingle(w, s, p).bulkUnsupported == s.bulkUnsupported
  {
  }

  lemma {:induction false} PushSinglesFrame(w: SyncWorld, s: Pass, items: seq<PushItem>)
    ensures Grows(s, PushSingles(w, s, items))
    ensures PushSingles(w, s, items).toPush == s.toPush
    ensures PushSingles(w, s, items).fatal == s.fatal && PushSingles(w, s, items).failed == s.failed
    ensures PushSingles(w, s, items).bulkUnsupported == s.bulkUnsupported
    decreases items
  {
    if items != [] {
      var s1 := PushSingle(w, s, items[0]);
      PushSingleFrame(w, s, items[0]);
      PushSinglesFrame(w, s1, items[1..]);
      GrowsTransitive(s, s1, PushSingles(w, s1, items[1..]));
    }
  }

  lemma PushSingleForeign(w: SyncWorld, s: Pass, p: PushItem, h: string)
    requires p.hash != h
    ensures Untouched(h, s, PushSingle(w, s, p))
  {
    var t := PushSingle(w, s, p);
    HeardSnoc(s.trace, t.trace[|s.trace|], h);
  }

  lemma {:induction false} PushSinglesForeign(w: SyncWorld, s: Pass, items: seq<PushItem>, h: string)
    requires ItemsFor(items, h) == []
    ensures Untouched(h, s, PushSingles(w, s, items))
    decreases items
  {
    if items != [] {
      PushSingleForeign(w, s, items[0], h);
      PushSinglesForeign(w, PushSingle(w, s, items[0]), items[1..], h);
    }
  }

  lemma PushSingleHit(w: SyncWorld, s: Pass, p: PushItem)
    ensures PushOutcome(w, p.hash, p.pct, p.wm, true, s, PushSingle(w, s, p))
  {
    var t := PushSingle(w, s, p);
    var done := w.update(|s.trace|);
    HeardSnoc(s.trace, t.trace[|s.trace|], p.hash);
    if done.Ok? {
      assert Ticked(w, w.clock(s.ticks));
      assert PushDone(w, p.hash, p.pct, t);
    } else {
      assert t.errs[|s.errs|] == Failure(UpdateProgressOp, done.error);
      assert UpdateFailed(t.errs);
    }
  }

  lemma {:induction false} PushSinglesHit(w: SyncWorld, s: Pass, items: seq<PushItem>, h: string, pct: int, wm: int)
    requires Alike(items, h, pct, wm)
    ensures PushOutcome(w, h, pct, wm, ItemsFor(items, h) != [], s, PushSingles(w, s, items))
    decreases items
  {
    if items != [] {
      var s1 := PushSingle(w, s, items[0]);
      var t := PushSingles(w, s1, items[1..]);
      assert items == [items[0]] + items[1..];
      AlikeSplit([items[0]], items[1..], h, pct, wm);
      if items[0].hash == h {
        assert items[0] in ItemsFor(items, h);
        PushSingleHit(w, s, items[0]);
      } else {
        PushSingleForeign(w, s, items[0], h);
      }
      PushSinglesHit(w, s1, items[1..], h, pct, wm);
      PushSinglesFrame(w, s1, items[1..]);
      PushSingleFrame(w, s, items[0]);
      OutcomeThen(w, h, pct, wm, items[0].hash == h, ItemsFor(items[1..], h) != [], s, s1, t);
    }
  }

  /******* Chunks *******/

  lemma PushChunkFrame(w: SyncWorld, s: Pass, chunk: seq<PushItem>)
    ensures Grows(s, PushChunk(w, s, chunk))
    ensures PushChunk(w, s, chunk).toPush == s.toPush
    ensures s.fatal ==> PushChunk(w, s, chunk).fatal
    ensures !s.fatal && PushChunk(w, s, chunk).fatal ==>
              Failure(BulkProgressOp, Unauthorized) in PushChunk(w, s, chunk).errs
  {
    if s.bulkUnsupported {
      PushSinglesFrame(w, s, chunk);
    } else {
      var refused := w.bulk(|s.trace|);
      var s1 := s.Log(Bulk(ToSents(chunk), refused, if refused.Ok? then Times(w, s.ticks, |chunk|) else []));
      if refused.Ok? {
        AckItemsFrame(w, s1, chunk, refused.value);
      } else if refused.error.UnsupportedEndpoint? {
        PushSinglesFrame(w, s1.(bulkUnsupported := true), chunk);
        GrowsTransitive(s, s1.(bulkUnsupported := true), PushChunk(w, s, chunk));
      }
    }
  }

  ghost predicate Lists(items: seq<PushItem>, h: string) { exists p :: p in items && p.hash == h }

  lemma {:induction false} ListedItems(items: seq<PushItem>, h: string)
    ensures ItemsFor(items, h) != [] <==> Lists(items, h)
  {
    if items != [] {
      ListedItems(items[1..], h);
      if Lists(items, h) && items[0].hash != h {
        var p :| p in items && p.hash == h;
        assert p in items[1..];
      }
    }
  }

  lemma SentOf(items: seq<PushItem>, h: string)
    ensures ItemsFor(items, h) != [] <==> exists i :: 0 <= i < |items| && ToSents(items)[i].hash == h
  {
    ListedItems(items, h);
    if Lists(items, h) {
      var p :| p in items && p.hash == h;
      var i :| 0 <= i < |items| && items[i] == p;
      assert ToSents(items)[i].hash == h;
    }
  }

  lemma BulkAnswers(s: Pass, items: seq<PushItem>, refused: Result<seq<string>, BookOrbitError>, times: seq<int>,
                    h: string)
    ensures Answered(s.Log(Bulk(ToSents(items), refused, times)).trace, h) <==>
            Answered(s.trace, h) || (refused.Ok? && ItemsFor(items, h) != [])
    ensures Found(s.Log(Bulk(ToSents(items), refused, times)).trace, h) <==> Found(s.trace, h)
  {
    HeardSnoc(s.trace, Bulk(ToSents(items), refused, times), h);
    SentOf(items, h);
  }

  lemma PushChunkForeign(w: SyncWorld, s: Pass, chunk: seq<PushItem>, h: string)
    requires ItemsFor(chunk, h) == []
    ensures Untouched(h, s, PushChunk(w, s, chunk))
  {
    if s.bulkUnsupported {
      PushSinglesForeign(w, s, chunk, h);
    } else {
      var refused := w.bulk(|s.trace|);
      var times := if refused.Ok? then Times(w, s.ticks, |chunk|) else [];
      var s1 := s.Log(Bulk(ToSents(chunk), refused, times));
      BulkAnswers(s, chunk, refused, times, h);
      if refused.Ok? {
        AckItemsFrame(w, s1, chunk, refused.value);
        AckItemsForeign(w, s1, chunk, refused.value, h);
      } else if refused.error.UnsupportedEndpoint? {
        PushSinglesForeign(w, s1.(bulkUnsupported := true), chunk, h);
      }
    }
  }

  lemma {:induction false} ItemWatermarksOf(items: seq<PushItem>, p: PushItem)
    requires p in ItemsFor(items, p.hash)
    ensures p.wm in ItemWatermarks(items)
  {
    if items[0] != p {
      ItemWatermarksOf(items[1..], p);
    }
  }

  lemma PushChunkHit(w: SyncWorld, s: Pass, chunk: seq<PushItem>, h: string, pct: int, wm: int)
    requires ItemsFor(chunk, h) != [] && Alike(chunk, h, pct, wm)
    ensures PushOutcome(w, h, pct, wm, true, s, PushChunk(w, s, chunk))
  {
    var t := PushChunk(w, s, chunk);
    if s.bulkUnsupported {
      PushSinglesHit(w, s, chunk, h, pct, wm);
    } else {
      var refused := w.bulk(|s.trace|);
      var times := if refused.Ok? then Times(w, s.ticks, |chunk|) else [];
      var s1 := s.Log(Bulk(ToSents(chunk), refused, times));
      BulkAnswers(s, chunk, refused, times, h);
      if refused.Ok? {
        AckItemsFrame(w, s1, chunk, refused.value);
        AckItemsDone(w, s1, chunk, refused.value, h, pct, wm);
      } else if refused.error.UnsupportedEndpoint? {
        var s2 := s1.(bulkUnsupported := true);
        PushSinglesFrame(w, s2, chunk);
        PushSinglesHit(w, s2, chunk, h, pct, wm);
        OutcomeThen(w, h, pct, wm, false, true, s, s2, t);
      } else if !refused.error.Unauthorized? {
        var p := ItemsFor(chunk, h)[0];
        ItemWatermarksOf(chunk, p);
      }
    }
  }

  /******* The phase *******/

  lemma {:induction false} PushPhaseFrame(w: SyncWorld, cfg: Config, s: Pass, items: seq<PushItem>)
    ensures Grows(s, PushPhase(w, cfg, s, items))
    ensures PushPhase(w, cfg, s, items).toPush == s.toPush
    ensures s.fatal ==> PushPhase(w, cfg, s, items).fatal
    decreases |items|
  {
    if items != [] && !s.fatal {
      var k := ChunkLength(|items|, cfg.progressBatchSize);
      var s1 := PushChunk(w, s, items[..k]);
      PushChunkFrame(w, s, items[..k]);
      PushPhaseFrame(w, cfg, s1, items[k..]);
      GrowsTransitive(s, s1, PushPhase(w, cfg, s1, items[k..]));
    }
  }

  lemma {:induction false} PushPhaseForeign(w: SyncWorld, cfg: Config, s: Pass, items: seq<PushItem>, h: string)
    requires ItemsFor(items, h) == []
    ensures Untouched(h, s, PushPhase(w, cfg, s, items))
    decreases |items|
  {
    if items != [] && !s.fatal {
      var k := ChunkLength(|items|, cfg.progressBatchSize);
      assert items == items[..k] + items[k..];
      ItemsForAppend(items[..k], items[k..], h);
      PushChunkForeign(w, s, items[..k], h);
      PushPhaseForeign(w, cfg, PushChunk(w, s, items[..k]), items[k..], h);
    }
  }

  lemma PushChunkAny(w: SyncWorld, s: Pass, chunk: seq<PushItem>, h: string, pct: int, wm: int)
    requires Alike(chunk, h, pct, wm)
    ensures PushOutcome(w, h, pct, wm, ItemsFor(chunk, h) != [], s, PushChunk(w, s, chunk))
  {
    if ItemsFor(chunk, h) != [] {
      PushChunkHit(w, s, chunk, h, pct, wm);
    } else {
      PushChunkForeign(w, s, chunk, h);
    }
  }

  lemma {:induction false} PushPhaseHit(w: SyncWorld, cfg: Config, s: Pass, items: seq<PushItem>, h: string, pct: int,
                                        wm: int)
    requires !s.fatal && Alike(items, h, pct, wm)
    ensures PushOutcome(w, h, pct, wm, ItemsFor(items, h) != [], s, PushPhase(w, cfg, s, items))
    decreases |items|
  {
    if items != [] {
      var t := PushPhase(w, cfg, s, items);
      var k := ChunkLength(|items|, cfg.progressBatchSize);
      var chunk, rest := items[..k], items[k..];
      var s1 := PushChunk(w, s, chunk);
      assert items == chunk + rest;
      AlikeSplit(chunk, rest, h, pct, wm);
      PushChunkFrame(w, s, chunk);
      PushChunkAny(w, s, chunk, h, pct, wm);
      PushPhaseFrame(w, cfg, s1, rest);
      if s1.fatal {
        assert PushMissed(h, wm, ItemsFor(rest, h) != [], s1, t);
      } else {
        PushPhaseHit(w, cfg, s1, rest, h, pct, wm);
      }
      OutcomeThen(w, h, pct, wm, ItemsFor(chunk, h) != [], ItemsFor(rest, h) != [], s, s1, t);
    }
  }
}
