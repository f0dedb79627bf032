/** Resolution, requests, the fallback latch over whole runs, and status calls that fail. */
module Consequences {
  import opened Batch
  import opened Readest
  import opened State
  import opened SyncPass
  import opened Projection
  import opened Phases
  import opened StatusChannel
  import opened Settlement
  import opened Traffic
  import opened Runs

  /******* Resolution *******/

  /** After a successful match-check chunk, whatever the answer lists, repeats or omits, and even if it names hashes
      nobody asked about, every hash of the chunk is in exactly one of the two maps. */
  lemma ResolutionIsTotal(w: SyncWorld, now: int, byHash: map<string, BookRow>, s: Pass, chunk: seq<string>, h: string)
    requires forall g :: g in chunk ==> g in byHash
    requires h in chunk && w.matching(|s.trace|).Ok?
    ensures var d := MatchChunk(w, now, byHash, s, chunk).data;
            && (h in d.matches <==> h !in d.unmatched)
            && (h in d.matches <==> !LeavesUnmatched(chunk, w.matching(|s.trace|).value, h))
            && (h in d.unmatched ==> d.unmatched[h] == now)
            && (h in d.matches ==>
                  var m := MatchFor(w.matching(|s.trace|).value.matches, h).value;
                  d.matches[h] == MatchRecord(m.bookFileId, m.bookId, 0, 0, "", 0, "", 0))
  {
    var found := w.matching(|s.trace|);
    FoundSlot(byHash, now, s.Log(MatchCheck(chunk, found, now)), chunk, found.value, h);
  }

  /******* Requests *******/

  ghost predicate Asked(trace: seq<Event>, h: string) {
    exists e :: e in trace && e.MatchCheck? && h in e.hashes
  }

  lemma {:induction false} AskedInRequests(trace: seq<Event>, h: string)
    requires Asked(trace, h)
    ensures exists c :: c in Requests(trace) && h in c
  {
    var front, last := trace[..|trace| - 1], trace[|trace| - 1];
    var e :| e in trace && e.MatchCheck? && h in e.hashes;
    if e == last {
      assert e.hashes in Requests(trace);
    } else {
      var i :| 0 <= i < |trace| && trace[i] == e;
      assert front[i] == e;
      AskedInRequests(front, h);
      var c :| c in Requests(front) && h in c;
      assert c in Requests(trace);
    }
  }

  lemma {:induction false} ChunkMembers(items: seq<string>, size: int, c: seq<string>, h: string)
    requires c in Chunks(items, size) && h in c
    ensures h in items
    decreases |items|
  {
    var k := ChunkLength(|items|, size);
    if c != items[..k] {
      ChunkMembers(items[k..], size, c, h);
    }
  }

  /** Only hashes that classification queued for it are ever match-checked. */
  lemma AskedWasQueued(w: World, cfg: Config, latch: bool, d: Data, rows: seq<BookRow>, h: string)
    requires Asked(RunPass(w, cfg, latch, d, rows).trace, h)
    ensures h in Hashes(Classification(w, cfg, d, rows).toMatch)
  {
    var asked, sent := DispatchConserved(w, cfg, latch, d, rows);
    var hashes := Hashes(Classification(w, cfg, d, rows).toMatch);
    AskedInRequests(RunPass(w, cfg, latch, d, rows).trace, h);
    var c :| c in Requests(RunPass(w, cfg, latch, d, rows).trace) && h in c;
    assert c in Chunks(hashes, cfg.matchBatchSize);
    ChunkMembers(hashes, cfg.matchBatchSize, c, h);
  }

  function Continue(cfg: Config, sys: System, acts: seq<Action>): System {
    if acts == [] then sys else Step(cfg, Continue(cfg, sys, acts[..|acts| - 1]), acts[|acts| - 1])
  }

  ghost predicate LegalFrom(cfg: Config, sys: System, acts: seq<Action>) {
    acts == [] || (LegalFrom(cfg, sys, acts[..|acts| - 1])
                   && Legal(cfg, Continue(cfg, sys, acts[..|acts| - 1]), acts[|acts| - 1]))
  }

  /******* The fallback latch over runs *******/

  lemma {:induction false} LatchStays(cfg: Config, sys: System, acts: seq<Action>)
    requires sys.bulkUnsupported && forall a :: a in acts ==> !a.Crash?
    ensures Continue(cfg, sys, acts).bulkUnsupported
  {
    if acts != [] {
      var front, a := acts[..|acts| - 1], acts[|acts| - 1];
      LatchStays(cfg, sys, front);
      if a.Sync? {
        var before := Continue(cfg, sys, front);
        FallbackLatch(a.w, cfg, before.bulkUnsupported, before.mem.data.(token := a.token), a.rows);
      }
    }
  }

  /** Once a bulk call has been answered UnsupportedEndpoint, no later pass of the same process makes a bulk call. */
  lemma NoBulkEverAfter(cfg: Config, sys: System, first: Action, acts: seq<Action>, later: Action)
    requires first.Sync? && later.Sync? && forall a :: a in acts ==> !a.Crash?
    requires exists e :: e in PassOf(cfg, sys, first).trace && Unsupported(e)
    ensures forall e :: e in PassOf(cfg, Continue(cfg, Step(cfg, sys, first), acts), later).trace ==> !e.Bulk?
  {
    FallbackLatch(first.w, cfg, sys.bulkUnsupported, sys.mem.data.(token := first.token), first.rows);
    LatchStays(cfg, Step(cfg, sys, first), acts);
    var before := Continue(cfg, Step(cfg, sys, first), acts);
    FallbackLatch(later.w, cfg, before.bulkUnsupported, before.mem.data.(token := later.token), later.rows);
  }

  /******* Status calls *******/

  ghost predicate StatusCalled(trace: seq<Event>, h: string) {
    exists e :: e in trace && e.SetStatus? && e.hash == h
  }

  lemma StatusRowCalls(w: World, now: int, s: Pass, row: BookRow, h: string)
    ensures StatusCalled(StatusRow(w, now, s, row).trace, h) && !StatusCalled(s.trace, h) ==>
              row.hash == h && !row.IsDeleted() && MapReadingStatus(row.readingStatus).Some?
    ensures StatusCalled(s.trace, h) ==> StatusCalled(StatusRow(w, now, s, row).trace, h)
  {
    StatusRowCases(w, now, s, row);
    if Tracked(s, row) {
      var rec := s.data.matches[row.hash];
      var act := StatusDecision(rec, row.readingStatus);
      ActTraffic(w, now, s, row, rec, act);
      if act.Send? {
        CalledSnoc(s.trace, StatusCall(w, now, s, row, rec, act.token), h);
      }
    }
  }

  lemma CalledSnoc(trace: seq<Event>, e: Event, h: string)
    ensures StatusCalled(trace + [e], h) <==> StatusCalled(trace, h) || (e.SetStatus? && e.hash == h)
  {
    assert e in trace + [e];
    if StatusCalled(trace, h) {
      var x :| x in trace && x.SetStatus? && x.hash == h;
      assert x in trace + [e];
    }
  }

  /******* A failed status push changes nothing *******/

  predicate StatusRefused(e: Event, h: string) {
    e.SetStatus? && e.hash == h && e.done.Err? && !e.done.error.BookGone?
  }

  ghost predicate RefusedIn(trace: seq<Event>, h: string) {
    exists e :: e in trace && StatusRefused(e, h)
  }

  lemma RefusedSnoc(trace: seq<Event>, e: Event, h: string)
    ensures RefusedIn(trace + [e], h) <==> RefusedIn(trace, h) || StatusRefused(e, h)
  {
    assert e in trace + [e];
    if RefusedIn(trace, h) {
      var x :| x in trace && StatusRefused(x, h);
      assert x in trace + [e];
    }
  }

  lemma RefusedRow(w: World, now: int, s: Pass, row: BookRow, h: string)
    requires !RefusedIn(s.trace, h)
    ensures var t := StatusRow(w, now, s, row);
            RefusedIn(t.trace, h) ==> row.hash == h && t.data == s.data
  {
    var es := StatusRowTraffic(w, now, s, row);
    if es == [] {
      assert s.trace + es == s.trace;
    } else {
      assert es == [es[0]];
      RefusedSnoc(s.trace, es[0], h);
    }
  }

  lemma RefusedStays(w: World, now: int, s: Pass, row: BookRow, h: string)
    requires row.hash != h
    ensures RefusedIn(StatusRow(w, now, s, row).trace, h) <==> RefusedIn(s.trace, h)
  {
    var es := StatusRowTraffic(w, now, s, row);
    if es == [] {
      assert s.trace + es == s.trace;
    } else {
      assert es == [es[0]];
      RefusedSnoc(s.trace, es[0], h);
    }
  }

  lemma {:induction false} RefusedElsewhere(w: World, now: int, s: Pass, rows: seq<BookRow>, h: string)
    requires h !in Hashes(rows)
    ensures RefusedIn(StatusPhase(w, now, s, rows).trace, h) <==> RefusedIn(s.trace, h)
    decreases rows
  {
    if rows != [] && !s.fatal {
      assert Hashes(rows) == [rows[0].hash] + Hashes(rows[1..]);
      RefusedStays(w, now, s, rows[0], h);
      RefusedElsewhere(w, now, StatusRow(w, now, s, rows[0]), rows[1..], h);
    }
  }

  lemma {:induction false} RefusedPhase(w: World, now: int, s: Pass, rows: seq<BookRow>, h: string)
    requires Distinct(Hashes(rows)) && !RefusedIn(s.trace, h) && RefusedIn(StatusPhase(w, now, s, rows).trace, h)
    ensures StatusPhase(w, now, s, rows).data.At(h) == s.data.At(h)
    decreases rows
  {
    if rows != [] && !s.fatal {
      var s1 := StatusRow(w, now, s, rows[0]);
      assert Hashes(rows) == [rows[0].hash] + Hashes(rows[1..]);
      DistinctTail(Hashes(rows));
      if rows[0].hash == h {
        assert h !in Hashes(rows[1..]) by {
          forall i | 0 <= i < |rows[1..]| ensures Hashes(rows[1..])[i] != h {
            assert Hashes(rows)[i + 1] != Hashes(rows)[0];
          }
        }
        RefusedElsewhere(w, now, s1, rows[1..], h);
        RefusedRow(w, now, s, rows[0], h);
        StatusPhaseKeeps(w, now, s1, rows[1..], h);
      } else {
        RefusedStays(w, now, s, rows[0], h);
        StatusRowKeeps(w, now, s, rows[0], h);
        RefusedPhase(w, now, s1, rows[1..], h);
      }
    }
  }

  /** A status push that was answered by an error other than "gone" leaves every field of the record as it was. */
  lemma FailedStatusChangesNothing(w: World, cfg: Config, latch: bool, d: Data, rows: seq<BookRow>, h: string)
    requires Distinct(Hashes(rows)) && RefusedIn(RunPass(w, cfg, latch, d, rows).trace, h)
    ensures RunPass(w, cfg, latch, d, rows).data.At(h) == Before(w, cfg, latch, d, rows).data.At(h)
  {
    var s2 := Before(w, cfg, latch, d, rows);
    BeforeReached(w, cfg, latch, d, rows);
    NoStatusYet(latch, s2);
    assert !RefusedIn(s2.trace, h);
    RefusedPhase(w, w.sync.clock(0), s2, rows, h);
    assert RunPass(w, cfg, latch, d, rows).data.At(h) == AfterStatus(w, cfg, s2, rows).data.At(h);
  }
}
