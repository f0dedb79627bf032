/** A deleted book is forgotten and never spoken of, and only a deleted one is; the placeholder row means nothing. */
module Deletions {
  import opened Wrappers
  import opened Errors
  import opened Batch
  import opened Readest
  import opened Rows
  import opened State
  import opened SyncPass
  import opened Projection
  import opened Phases
  import opened StatusChannel
  import opened Settlement
  import opened Traffic
  import opened NoLostUpdate
  import opened History
  import opened Bookkeeping
  import opened Consequences

  /** The event is a call about the hash. */
  predicate Names(e: Event, h: string) {
    match e
    case Pulled(_) => false
    case MatchCheck(hashes, _, _) => h in hashes
    case Bulk(items, _, _) => exists i :: 0 <= i < |items| && items[i].hash == h
    case Update(item, _, _) => item.hash == h
    case SetStatus(hash, _, _, _, _) => hash == h
  }

  ghost predicate Silent(trace: seq<Event>, h: string) { forall e :: e in trace ==> !Names(e, h) }

  lemma SilentSnoc(trace: seq<Event>, e: Event, h: string)
    requires Silent(trace, h) && !Names(e, h)
    ensures Silent(trace + [e], h)
  {
  }

  /******* The progress phase speaks of what is queued *******/

  lemma NotAmongItems(items: seq<PushItem>, h: string)
    requires ItemsFor(items, h) == []
    ensures forall i :: 0 <= i < |items| ==> items[i].hash != h
  {
    forall i | 0 <= i < |items| ensures items[i].hash != h {
      NotThere(items, h, i);
    }
  }

  lemma {:induction false} NotThere(items: seq<PushItem>, h: string, i: nat)
    requires ItemsFor(items, h) == [] && i < |items|
    ensures items[i].hash != h
  {
    if i > 0 {
      NotThere(items[1..], h, i - 1);
    }
  }

  lemma {:induction false} SinglesSilent(w: SyncWorld, s: Pass, items: seq<PushItem>, h: string)
    requires ItemsFor(items, h) == [] && Silent(s.trace, h)
    ensures Silent(PushSingles(w, s, items).trace, h)
    decreases items
  {
    if items != [] {
      var done := w.update(|s.trace|);
      SingleTraffic(w, s, items[0]);
      SilentSnoc(s.trace, Update(items[0].ToSent(), done, if done.Ok? then w.clock(s.ticks) else 0), h);
      SinglesSilent(w, PushSingle(w, s, items[0]), items[1..], h);
    }
  }

  lemma PushChunkSilent(w: SyncWorld, s: Pass, chunk: seq<PushItem>, h: string)
    requires ItemsFor(chunk, h) == [] && Silent(s.trace, h)
    ensures Silent(PushChunk(w, s, chunk).trace, h)
  {
    if s.bulkUnsupported {
      SinglesSilent(w, s, chunk, h);
    } else {
      var s1 := Called(w, s, chunk);
      NotAmongItems(chunk, h);
      SilentSnoc(s.trace, s1.trace[|s.trace|], h);
      if w.bulk(|s.trace|) == Err(UnsupportedEndpoint) {
        SinglesSilent(w, s1.(bulkUnsupported := true), chunk, h);
      } else {
        BulkTrace(w, s, chunk);
      }
    }
  }

  lemma {:induction false} PushPhaseSilent(w: SyncWorld, cfg: Config, s: Pass, items: seq<PushItem>, h: string)
    requires ItemsFor(items, h) == [] && Silent(s.trace, h)
    ensures Silent(PushPhase(w, cfg, s, items).trace, h)
    decreases |items|
  {
    if items != [] && !s.fatal {
      var k := ChunkLength(|items|, cfg.progressBatchSize);
      assert items == items[..k] + items[k..];
      ItemsForAppend(items[..k], items[k..], h);
      PushChunkSilent(w, s, items[..k], h);
      PushPhaseSilent(w, cfg, PushChunk(w, s, items[..k]), items[k..], h);
    }
  }

  /******* The status phase passes over deleted rows *******/

  ghost predicate AllDeleted(rows: seq<BookRow>, h: string) {
    forall q :: q in rows && q.hash == h ==> q.IsDummy() || q.IsDeleted()
  }

  lemma StatusRowSilent(w: World, now: int, s: Pass, row: BookRow, h: string)
    requires Silent(s.trace, h) && (row.hash == h ==> row.IsDummy() || row.IsDeleted())
    ensures Silent(StatusRow(w, now, s, row).trace, h) && StatusRow(w, now, s, row).data.At(h) == s.data.At(h)
  {
    StatusRowCases(w, now, s, row);
    StatusRowKeeps(w, now, s, row, h);
    if Tracked(s, row) {
      var rec := s.data.matches[row.hash];
      var act := StatusDecision(rec, row.readingStatus);
      ActTraffic(w, now, s, row, rec, act);
      if act.Send? {
        SilentSnoc(s.trace, StatusCall(w, now, s, row, rec, act.token), h);
      }
    }
  }

  lemma {:induction false} StatusPhaseSilent(w: World, now: int, s: Pass, rows: seq<BookRow>, h: string)
    requires Silent(s.trace, h) && AllDeleted(rows, h)
    ensures Silent(StatusPhase(w, now, s, rows).trace, h)
    ensures StatusPhase(w, now, s, rows).data.At(h) == s.data.At(h)
    decreases rows
  {
    if rows != [] && !s.fatal {
      StatusRowSilent(w, now, s, rows[0], h);
      StatusPhaseSilent(w, now, StatusRow(w, now, s, rows[0]), rows[1..], h);
    }
  }

  /******* The pass *******/

  lemma UnaskedIsSilent(w: World, cfg: Config, latch: bool, d: Data, rows: seq<BookRow>, s: Pass, h: string)
    requires Reached(latch, s, 1) && s.trace <= RunPass(w, cfg, latch, d, rows).trace
    requires h !in Hashes(Classification(w, cfg, d, rows).toMatch)
    ensures Silent(s.trace, h)
  {
    forall e | e in s.trace ensures !Names(e, h) {
      var i :| 0 <= i < |s.trace| && s.trace[i] == e;
      assert Phase(s.trace[i]) <= Phase(s.trace[|s.trace| - 1]);
      if e.MatchCheck? && h in e.hashes {
        assert RunPass(w, cfg, latch, d, rows).trace[i] == e;
        assert Asked(RunPass(w, cfg, latch, d, rows).trace, h);
        AskedWasQueued(w, cfg, latch, d, rows, h);
      }
    }
  }

  lemma UnqueuedIsSilent(w: World, cfg: Config, latch: bool, d: Data, rows: seq<BookRow>, h: string)
    requires Honest(RunPass(w, cfg, latch, d, rows).trace)
    requires var c := Classification(w, cfg, d, rows); ItemsFor(c.toPush, h) == [] && h !in Hashes(c.toMatch)
    ensures Silent(Before(w, cfg, latch, d, rows).trace, h)
  {
    var c, s0, s1, s2 := Assembled(w, cfg, latch, d, rows);
    var now := w.sync.clock(0);
    StatusPhaseFrame(w, now, s2, rows);
    StartReached(latch, s0, rows);
    MatchPhaseReached(latch, w.sync, cfg, now, RowByHash(c.toMatch), s0, Hashes(c.toMatch));
    HonestPrefix(s1.trace, RunPass(w, cfg, latch, d, rows).trace);
    UnaskedIsSilent(w, cfg, latch, d, rows, s1, h);
    MatchPhaseForeign(w.sync, cfg, now, RowByHash(c.toMatch), s0, Hashes(c.toMatch), h);
    PushPhaseSilent(w.sync, cfg, s1, s1.toPush, h);
  }

  /** After a pass that pulled a deletion of it, a book is in neither map, and the pass has made no call about it: no
      match-check, no push and no status. */
  lemma DeletedIsForgotten(w: World, cfg: Config, latch: bool, d: Data, rows: seq<BookRow>, r: BookRow)
    requires Distinct(Hashes(rows)) && r in rows && !Placeholder(r.hash) && Tombstone(r)
    requires HonestPass(w, cfg, latch, d, rows)
    ensures var t := RunPass(w, cfg, latch, d, rows);
            && r.hash !in t.data.matches && r.hash !in t.data.unmatched
            && Silent(t.trace, r.hash)
  {
    var h, s2, now := r.hash, Before(w, cfg, latch, d, rows), w.sync.clock(0);
    DeletedIsTombstone(r);
    DummyIsPlaceholder(r);
    StatusPhaseFrame(w, now, s2, rows);
    HonestPrefix(s2.trace, RunPass(w, cfg, latch, d, rows).trace);
    RowStands(w, cfg, latch, d, rows, r);
    ClassifyHit(cfg, now, Classified(d, 0, [], []), rows, r);
    assert h !in multiset(Hashes(Classification(w, cfg, d, rows).toMatch));
    UnqueuedIsSilent(w, cfg, latch, d, rows, h);
    forall q | q in rows && q.hash == h ensures q.IsDummy() || q.IsDeleted() {
      OneRowPerHash(rows, r, q);
    }
    StatusPhaseSilent(w, now, s2, rows, h);
    CursorAside(w, cfg, latch, d, rows, h);
    assert RunPass(w, cfg, latch, d, rows).data.At(h) == Slot(None, None);
  }

  /** Classification erases a hash if its row is a deletion, and otherwise leaves it as it was: a row whose deletion
      column is empty, or reads "null", deletes nothing. */
  lemma ErasedExactly(w: World, cfg: Config, d: Data, rows: seq<BookRow>, r: BookRow)
    requires Distinct(Hashes(rows)) && r in rows && !Placeholder(r.hash)
    ensures Classification(w, cfg, d, rows).data.At(r.hash) == if Tombstone(r) then Slot(None, None) else d.At(r.hash)
  {
    DeletedIsTombstone(r);
    DummyIsPlaceholder(r);
    ClassifyOwn(w, cfg, d, rows, r);
  }

  lemma {:induction false} SilentReplay(x: Slot, trace: seq<Event>, h: string)
    requires Silent(trace, h) && Honest(trace) && trace != [] && forall i :: 0 < i < |trace| ==> !trace[i].Pulled?
    ensures Replay(x, trace, h) == Observe(trace[0], h, x)
  {
    var front, e := trace[..|trace| - 1], trace[|trace| - 1];
    assert e in trace && HonestEvent(e);
    if front == [] {
      assert Replay(x, front, h) == x;
    } else {
      HonestPrefix(front, trace);
      SilentReplay(x, front, h);
      SilentEvent(e, h, Replay(x, front, h));
    }
  }

  lemma SilentEvent(e: Event, h: string, x: Slot)
    requires !Names(e, h) && HonestEvent(e) && !e.Pulled?
    ensures Observe(e, h, x) == x
  {
    match e
    case MatchCheck(hashes, found, _) =>
      if found.Ok? {
        MatchForNamed(found.value.matches, h);
      }
    case Bulk(items, refused, times) =>
      if refused.Ok? {
        OtherItems(items, refused.value, times, h, x);
      }
    case _ =>
  }

  lemma {:induction false} OtherItems(items: seq<Sent>, refused: seq<string>, times: seq<int>, h: string, x: Slot)
    requires forall i :: 0 <= i < |items| ==> items[i].hash != h
    ensures ObserveItems(items, refused, times, h, x) == x
    decreases items
  {
    if items != [] && times != [] {
      OtherItems(items[1..], refused, times[1..], h, x);
    }
  }

  /** A hash that a pass makes no call about is erased if the pass pulled a deletion of it, and otherwise keeps its
      record, but for what the status phase may note, and its cooldown. */
  lemma UnnamedKeptExactly(w: World, cfg: Config, latch: bool, d: Data, rows: seq<BookRow>, h: string)
    requires Distinct(Hashes(rows)) && HonestPass(w, cfg, latch, d, rows)
    requires Silent(RunPass(w, cfg, latch, d, rows).trace, h)
    ensures CoreSlot(RunPass(w, cfg, latch, d, rows).data.At(h)) ==
            if exists r :: r in rows && !r.IsDummy() && Tombstone(r) && r.hash == h then Slot(None, None)
            else CoreSlot(d.At(h))
  {
    var t := RunPass(w, cfg, latch, d, rows);
    PassReached(w, cfg, latch, d, rows);
    StartsWithPull(w, cfg, latch, d, rows);
    forall i | 0 < i < |t.trace| ensures !t.trace[i].Pulled? {
      assert Phase(t.trace[i]) > 0;
    }
    SilentReplay(CoreSlot(d.At(h)), t.trace, h);
    SilentMatches(t.trace, h);
    MatchedOnceIsConsistent(w, cfg, latch, d, rows, h);
    StoreIsReplay(w, cfg, latch, d, rows, h);
  }

  lemma StartsWithPull(w: World, cfg: Config, latch: bool, d: Data, rows: seq<BookRow>)
    ensures var t := RunPass(w, cfg, latch, d, rows).trace; t != [] && t[0] == Pulled(rows)
  {
    var c, s0, s1, s2 := Assembled(w, cfg, latch, d, rows);
    StatusPhaseFrame(w, w.sync.clock(0), s2, rows);
    assert s0.trace == [Pulled(rows)] && s0.trace <= s2.trace;
    assert s2.trace <= RunPass(w, cfg, latch, d, rows).trace;
  }

  lemma {:induction false} SilentMatches(trace: seq<Event>, h: string)
    requires Silent(trace, h) && Honest(trace)
    ensures MatchesIn(trace, h) == []
  {
    if trace != [] {
      var front, e := trace[..|trace| - 1], trace[|trace| - 1];
      assert e in trace && HonestEvent(e);
      HonestPrefix(front, trace);
      SilentMatches(front, h);
      if e.MatchCheck? && e.found.Ok? {
        MatchForNamed(e.found.value.matches, h);
      }
    }
  }

  /******* The placeholder *******/

  lemma {:induction false} ClassifyWithout(cfg: Config, now: int, c: Classified, a: seq<BookRow>, r: BookRow,
                                           b: seq<BookRow>)
    requires r.IsDummy()
    ensures Classify(cfg, now, c, a + [r] + b) == Classify(cfg, now, c, a + b)
    decreases a
  {
    if a == [] {
      assert [] + [r] + b == [r] + b && [] + b == b && ([r] + b)[1..] == b;
    } else {
      assert (a + [r] + b)[1..] == a[1..] + [r] + b && (a + b)[1..] == a[1..] + b;
      ClassifyWithout(cfg, now, ClassifyRow(cfg, now, c, a[0]), a[1..], r, b);
    }
  }

  lemma {:induction false} StatusWithout(w: World, now: int, s: Pass, a: seq<BookRow>, r: BookRow, b: seq<BookRow>)
    requires r.IsDummy()
    ensures StatusPhase(w, now, s, a + [r] + b) == StatusPhase(w, now, s, a + b)
    decreases a
  {
    if a == [] {
      assert [] + [r] + b == [r] + b && [] + b == b && ([r] + b)[1..] == b;
    } else if !s.fatal {
      assert (a + [r] + b)[1..] == a[1..] + [r] + b && (a + b)[1..] == a[1..] + b;
      StatusWithout(w, now, StatusRow(w, now, s, a[0]), a[1..], r, b);
    }
  }

  /** A row whose hash is thirty-two zeros might as well not be there, whatever its columns say: neither the
      classification, with its cursor, nor the status phase sees it. */
  lemma PlaceholderIsIgnored(w: World, cfg: Config, d: Data, s: Pass, a: seq<BookRow>, r: BookRow, b: seq<BookRow>)
    requires Placeholder(r.hash)
    ensures Classification(w, cfg, d, a + [r] + b) == Classification(w, cfg, d, a + b)
    ensures AfterStatus(w, cfg, s, a + [r] + b) == AfterStatus(w, cfg, s, a + b)
  {
    DummyIsPlaceholder(r);
    ClassifyWithout(cfg, w.sync.clock(0), Classified(d, 0, [], []), a, r, b);
    StatusWithout(w, w.sync.clock(0), s, a, r, b);
  }
}
