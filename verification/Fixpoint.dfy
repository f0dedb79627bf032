/** A pass that returns no error is a fixpoint, and the status channel never disturbs progress. */
module Fixpoint {
  import opened Wrappers
  import opened Readest
  import opened State
  import opened SyncPass
  import opened Projection
  import opened Phases
  import opened StatusChannel
  import opened Settlement
  import opened Traffic
  import opened NoLostUpdate
  import opened Cursor
  import opened History
  import opened Bookkeeping

  /******* Rows that a pass has nothing to do for *******/

  /** The status step neither calls nor records anything for a matched row. */
  predicate StatusDone(rec: MatchRecord, status: string) {
    match MapReadingStatus(status)
    case Some(token) => token == rec.lastPushedStatus && rec.lastSeenStatus == status
    case None => KnownStatus(status) ==> rec.lastSeenStatus == status
  }

  ghost predicate Idle(cfg: Config, now: int, d: Data, r: BookRow) {
    r.IsDummy() ||
    (&& (if r.IsDeleted() then d.At(r.hash) == NO_SLOT else VerdictOf(cfg, now, d, r).Leave?)
     && (cfg.syncStatus && !r.IsDeleted() && r.hash in d.matches ==> StatusDone(d.matches[r.hash], r.readingStatus)))
  }

  ghost predicate AllIdle(cfg: Config, now: int, d: Data, rows: seq<BookRow>) {
    forall r :: r in rows ==> Idle(cfg, now, d, r)
  }

  lemma {:induction false} ClassifyIdle(cfg: Config, now: int, c: Classified, rows: seq<BookRow>)
    requires AllIdle(cfg, now, c.data, rows)
    ensures Classify(cfg, now, c, rows) == c.(maxWatermark := Classify(cfg, now, c, rows).maxWatermark)
    decreases rows
  {
    if rows != [] {
      var r, c1 := rows[0], ClassifyRow(cfg, now, c, rows[0]);
      assert Idle(cfg, now, c.data, r);
      if !r.IsDummy() && r.IsDeleted() {
        assert c.data.matches - {r.hash} == c.data.matches && c.data.unmatched - {r.hash} == c.data.unmatched;
      }
      assert c1.data == c.data;
      ClassifyIdle(cfg, now, c1, rows[1..]);
    }
  }

  lemma {:induction false} StatusIdle(w: World, cfg: Config, now: int, s: Pass, rows: seq<BookRow>)
    requires AllIdle(cfg, now, s.data, rows) && cfg.syncStatus
    ensures StatusPhase(w, now, s, rows) == s
    decreases rows
  {
    if rows != [] && !s.fatal {
      assert Idle(cfg, now, s.data, rows[0]);
      assert StatusRow(w, now, s, rows[0]) == s;
      StatusIdle(w, cfg, now, s, rows[1..]);
    }
  }

  /** A pass over idle rows makes no call and changes at most the cursor. */
  lemma IdlePass(w: World, cfg: Config, latch: bool, d: Data, rows: seq<BookRow>)
    requires AllIdle(cfg, w.sync.clock(0), d, rows)
    ensures var t := RunPass(w, cfg, latch, d, rows);
            && t.trace == [Pulled(rows)] && t.errs == [] && t.failed == [] && t.bulkUnsupported == latch
            && t.data == d.(watermarkMs := Max(LatestOf(rows), d.watermarkMs))
  {
    var c := Classification(w, cfg, d, rows);
    var s0 := Started(c, latch, rows);
    ClassifyIdle(cfg, w.sync.clock(0), Classified(d, 0, [], []), rows);
    ClassifyLatest(cfg, w.sync.clock(0), Classified(d, 0, [], []), rows);
    assert Before(w, cfg, latch, d, rows) == s0;
    if cfg.syncStatus {
      StatusIdle(w, cfg, w.sync.clock(0), s0, rows);
    }
  }

  /******* After a pass without errors every row is idle *******/

  lemma {:induction false} ErrorPresent(trace: seq<Event>, e: Event)
    requires e in trace && ErrorOf(e) != []
    ensures ErrorsOf(trace) != []
  {
    if e != trace[|trace| - 1] {
      var i :| 0 <= i < |trace| && trace[i] == e;
      assert trace[..|trace| - 1][i] == e;
      ErrorPresent(trace[..|trace| - 1], e);
    }
  }

  lemma FailureIsError(trace: seq<Event>, h: string)
    requires FailedIn(trace, h)
    ensures ErrorsOf(trace) != []
  {
    var e :| e in trace && h in FailedBy(e);
    ErrorPresent(trace, e);
  }

  /** No returned error means no failed chunk either. */
  lemma CleanHasNoFailures(w: World, cfg: Config, latch: bool, d: Data, rows: seq<BookRow>)
    requires Distinct(Hashes(rows)) && RunPass(w, cfg, latch, d, rows).errs == []
    ensures RunPass(w, cfg, latch, d, rows).failed == []
  {
    var t := RunPass(w, cfg, latch, d, rows);
    AbortDiscipline(w, cfg, latch, d, rows);
    if t.failed != [] {
      PassAccounted(w, cfg, latch, d, rows);
      assert HasFailed(Marks(rows), t.trace, t.failed[0]);
      var h :| FailedIn(t.trace, h);
      FailureIsError(t.trace, h);
    }
  }

  lemma StatusRowDone(w: World, now: int, s: Pass, r: BookRow)
    requires !r.IsDummy() && !r.IsDeleted() && StatusRow(w, now, s, r).errs == s.errs
    ensures var t := StatusRow(w, now, s, r);
            && (r.hash in t.data.matches ==> StatusDone(t.data.matches[r.hash], r.readingStatus))
            && t.fatal == s.fatal
  {
    StatusRowCases(w, now, s, r);
    if Tracked(s, r) {
      ActDone(w, now, s, r, StatusDecision(s.data.matches[r.hash], r.readingStatus));
    }
  }

  lemma ActDone(w: World, now: int, s: Pass, r: BookRow, act: StatusAct)
    requires Tracked(s, r) && act == StatusDecision(s.data.matches[r.hash], r.readingStatus)
    requires ActOnStatus(w, now, s, r, s.data.matches[r.hash], act).errs == s.errs
    ensures var t := ActOnStatus(w, now, s, r, s.data.matches[r.hash], act);
            && (r.hash in t.data.matches ==> StatusDone(t.data.matches[r.hash], r.readingStatus))
            && t.fatal == s.fatal
  {
  }

  /** Without errors the status phase has handled every live matched row. */
  lemma {:induction false} StatusPhaseDone(w: World, now: int, s: Pass, rows: seq<BookRow>, r: BookRow)
    requires Distinct(Hashes(rows)) && r in rows && !r.IsDummy() && !r.IsDeleted()
    requires !s.fatal && StatusPhase(w, now, s, rows).errs == s.errs
    ensures var t := StatusPhase(w, now, s, rows);
            r.hash in t.data.matches ==> StatusDone(t.data.matches[r.hash], r.readingStatus)
    decreases rows
  {
    var s1 := StatusRow(w, now, s, rows[0]);
    var t := StatusPhase(w, now, s, rows);
    StatusRowFrame(w, now, s, rows[0]);
    StatusPhaseFrame(w, now, s1, rows[1..]);
    assert s1.errs == s.errs;
    assert Hashes(rows) == [rows[0].hash] + Hashes(rows[1..]);
    DistinctTail(Hashes(rows));
    if rows[0] == r {
      StatusRowDone(w, now, s, r);
      assert r.hash !in Hashes(rows[1..]) by {
        forall i | 0 <= i < |rows[1..]| ensures Hashes(rows[1..])[i] != r.hash {
          assert Hashes(rows)[i + 1] != Hashes(rows)[0];
        }
      }
      StatusPhaseKeeps(w, now, s1, rows[1..], r.hash);
      assert t.data.At(r.hash) == s1.data.At(r.hash);
    } else {
      StatusNotFatal(w, now, s, rows[0]);
      StatusPhaseDone(w, now, s1, rows[1..], r);
    }
  }

  lemma StatusNotFatal(w: World, now: int, s: Pass, row: BookRow)
    requires StatusRow(w, now, s, row).errs == s.errs
    ensures StatusRow(w, now, s, row).fatal == s.fatal
  {
  }

  lemma CleanStatus(w: World, cfg: Config, latch: bool, d: Data, rows: seq<BookRow>, r: BookRow)
    requires Distinct(Hashes(rows)) && r in rows && !r.IsDummy() && !r.IsDeleted() && cfg.syncStatus
    requires RunPass(w, cfg, latch, d, rows).errs == []
    ensures var t := RunPass(w, cfg, latch, d, rows);
            r.hash in t.data.matches ==> StatusDone(t.data.matches[r.hash], r.readingStatus)
  {
    var s2 := Before(w, cfg, latch, d, rows);
    StatusPhaseFrame(w, w.sync.clock(0), s2, rows);
    BeforeReached(w, cfg, latch, d, rows);
    if s2.fatal {
      FatalIsCutShort(latch, s2);
    }
    StatusPhaseDone(w, w.sync.clock(0), s2, rows, r);
  }

  lemma NothingMissed(r: BookRow, a: Pass, b: Pass)
    requires Grows(a, b) && b.errs == [] && b.failed == []
    ensures !Missed(r, a)
  {
    assert a.errs == [] && a.failed == [];
  }

  /** How a pulled row stands before and after the status phase of a pass without errors. */
  lemma CleanStands(w: World, cfg: Config, latch: bool, d: Data, rows: seq<BookRow>, r: BookRow)
    requires Distinct(Hashes(rows)) && r in rows && !r.IsDummy()
    requires HonestPass(w, cfg, latch, d, rows) && RunPass(w, cfg, latch, d, rows).errs == []
    ensures var s, t := Before(w, cfg, latch, d, rows), RunPass(w, cfg, latch, d, rows);
            && Stands(w.sync, cfg, d, r, s) && !Missed(r, s)
            && StatusKeeps(s.data.At(r.hash), t.data.At(r.hash), w.sync.clock(0))
  {
    var s2 := Before(w, cfg, latch, d, rows);
    StatusPhaseFrame(w, w.sync.clock(0), s2, rows);
    HonestPrefix(s2.trace, RunPass(w, cfg, latch, d, rows).trace);
    RowStands(w, cfg, latch, d, rows, r);
    CleanHasNoFailures(w, cfg, latch, d, rows);
    NothingMissed(r, s2, AfterStatus(w, cfg, s2, rows));
    StatusPhaseKeeps(w, w.sync.clock(0), s2, rows, r.hash);
    CursorAside(w, cfg, latch, d, rows, r.hash);
  }

  /** A row that a clean pass leaves in neither map needs nothing from either channel. */
  lemma CleanUntracked(w: World, cfg: Config, latch: bool, d: Data, rows: seq<BookRow>, r: BookRow)
    requires Distinct(Hashes(rows)) && r in rows && !r.IsDummy() && !r.IsDeleted()
    requires HonestPass(w, cfg, latch, d, rows) && RunPass(w, cfg, latch, d, rows).errs == []
    requires RunPass(w, cfg, latch, d, rows).data.At(r.hash) == NO_SLOT
    ensures r.Percentage().None? && (cfg.syncStatus ==> MapReadingStatus(r.readingStatus).None?)
  {
    CleanStands(w, cfg, latch, d, rows, r);
    UntrackedVerdict(w.sync, cfg, d, r, Before(w, cfg, latch, d, rows));
  }

  lemma UntrackedVerdict(w: SyncWorld, cfg: Config, d: Data, r: BookRow, s: Pass)
    requires Stands(w, cfg, d, r, s) && !Missed(r, s) && !r.IsDeleted() && s.data.At(r.hash) == NO_SLOT
    ensures r.Percentage().None? && (cfg.syncStatus ==> MapReadingStatus(r.readingStatus).None?)
  {
    match VerdictOf(cfg, w.clock(0), d, r)
    case Leave => assert d.At(r.hash) == NO_SLOT;
    case _ =>
  }

  /** Every entry of the unmatched set is still inside its cooldown. */
  ghost predicate AllCooling(cfg: Config, now: int, d: Data) {
    forall h :: h in d.unmatched ==> now - d.unmatched[h] < cfg.cooldownSeconds
  }

  /** Without a missed answer, a record left for a live row is within tolerance of the row. */
  lemma StandsUnchanged(w: SyncWorld, cfg: Config, d: Data, r: BookRow, s: Pass)
    requires Stands(w, cfg, d, r, s) && !Missed(r, s) && TicksNonZero(w)
    requires !r.IsDeleted() && r.Percentage().Some? && r.hash in s.data.matches
    ensures Unchanged(s.data.matches[r.hash], r.Percentage().value)
  {
    if VerdictOf(cfg, w.clock(0), d, r).Leave? {
      assert s.data.At(r.hash) == d.At(r.hash);
    }
  }

  lemma CleanUnchanged(w: World, cfg: Config, latch: bool, d: Data, rows: seq<BookRow>, r: BookRow)
    requires Distinct(Hashes(rows)) && r in rows && !r.IsDummy() && !r.IsDeleted() && r.Percentage().Some?
    requires HonestPass(w, cfg, latch, d, rows) && TicksNonZero(w.sync) && RunPass(w, cfg, latch, d, rows).errs == []
    ensures var t := RunPass(w, cfg, latch, d, rows);
            r.hash in t.data.matches ==> Unchanged(t.data.matches[r.hash], r.Percentage().value)
  {
    CleanStands(w, cfg, latch, d, rows, r);
    if r.hash in RunPass(w, cfg, latch, d, rows).data.matches {
      StandsUnchanged(w.sync, cfg, d, r, Before(w, cfg, latch, d, rows));
    }
  }

  lemma CleanLeavesIdle(w: World, cfg: Config, latch: bool, d: Data, rows: seq<BookRow>, now: int, r: BookRow)
    requires Distinct(Hashes(rows)) && r in rows
    requires HonestPass(w, cfg, latch, d, rows) && TicksNonZero(w.sync)
    requires RunPass(w, cfg, latch, d, rows).errs == [] && AllCooling(cfg, now, RunPass(w, cfg, latch, d, rows).data)
    ensures Idle(cfg, now, RunPass(w, cfg, latch, d, rows).data, r)
  {
    var t := RunPass(w, cfg, latch, d, rows);
    if !r.IsDummy() {
      if r.IsDeleted() {
        CleanHasNoFailures(w, cfg, latch, d, rows);
        SettledExactly(w, cfg, latch, d, rows, r);
      } else if r.hash in t.data.matches {
        if r.Percentage().Some? {
          CleanUnchanged(w, cfg, latch, d, rows, r);
        }
        if cfg.syncStatus {
          CleanStatus(w, cfg, latch, d, rows, r);
        }
      } else if r.hash !in t.data.unmatched {
        CleanUntracked(w, cfg, latch, d, rows, r);
      }
    }
  }

  /** Fixpoint: when a pass returned no error, a second pass over the same rows, while every unmatched entry is inside
      its cooldown, makes no BookOrbit call and changes nothing, whatever the servers would have answered. */
  lemma CleanPassIsFixpoint(w: World, cfg: Config, latch: bool, d: Data, rows: seq<BookRow>, again: World, latch': bool)
    requires Distinct(Hashes(rows)) && HonestPass(w, cfg, latch, d, rows) && TicksNonZero(w.sync)
    requires RunPass(w, cfg, latch, d, rows).errs == []
    requires AllCooling(cfg, again.sync.clock(0), RunPass(w, cfg, latch, d, rows).data)
    ensures var first := RunPass(w, cfg, latch, d, rows);
            var second := RunPass(again, cfg, latch', first.data, rows);
            second.trace == [Pulled(rows)] && second.data == first.data && second.errs == []
  {
    var first := RunPass(w, cfg, latch, d, rows);
    forall r | r in rows ensures Idle(cfg, again.sync.clock(0), first.data, r) {
      CleanLeavesIdle(w, cfg, latch, d, rows, again.sync.clock(0), r);
    }
    IdlePass(again, cfg, latch', first.data, rows);
    CleanHasNoFailures(w, cfg, latch, d, rows);
    PassCursor(w, cfg, latch, d, rows);
    assert first.data.(watermarkMs := Max(LatestOf(rows), first.data.watermarkMs)) == first.data;
  }

  /******* Two runs that differ in the status answers only *******/

  /** Passes that agree on everything but the status answers make the same calls up to the status phase, end at the
      same cursor with the same latch, and agree on the progress of every hash that both keep. */
  lemma StatusNeverDisturbsProgress(a: World, b: World, cfg: Config, latch: bool, d: Data, rows: seq<BookRow>,
                                    h: string)
    requires a.sync == b.sync
    ensures var s, t := RunPass(a, cfg, latch, d, rows), RunPass(b, cfg, latch, d, rows);
            var common := Before(a, cfg, latch, d, rows).trace;
            && s.data.watermarkMs == t.data.watermarkMs && s.failed == t.failed
            && s.bulkUnsupported == t.bulkUnsupported
            && common <= s.trace && common <= t.trace
            && (forall e :: e in common ==> !e.SetStatus?)
            && (forall i :: |common| <= i < |s.trace| ==> s.trace[i].SetStatus?)
            && (forall i :: |common| <= i < |t.trace| ==> t.trace[i].SetStatus?)
            && (h in s.data.matches && h in t.data.matches ==> SameProgress(s.data.matches[h], t.data.matches[h]))
  {
    var before := Before(a, cfg, latch, d, rows);
    assert before == Before(b, cfg, latch, d, rows);
    BeforeReached(a, cfg, latch, d, rows);
    NoStatusYet(latch, before);
    OneStatusRun(a, cfg, latch, d, rows, h);
    OneStatusRun(b, cfg, latch, d, rows, h);
    PassCursor(a, cfg, latch, d, rows);
    PassCursor(b, cfg, latch, d, rows);
  }

  lemma OneStatusRun(w: World, cfg: Config, latch: bool, d: Data, rows: seq<BookRow>, h: string)
    ensures var before, t := Before(w, cfg, latch, d, rows), RunPass(w, cfg, latch, d, rows);
            && t.failed == before.failed && t.bulkUnsupported == before.bulkUnsupported
            && before.trace <= t.trace
            && (forall i :: |before.trace| <= i < |t.trace| ==> t.trace[i].SetStatus?)
            && (h in t.data.matches ==>
                  h in before.data.matches && SameProgress(before.data.matches[h], t.data.matches[h]))
  {
    var before := Before(w, cfg, latch, d, rows);
    var after := AfterStatus(w, cfg, before, rows);
    StatusPhaseFrame(w, w.sync.clock(0), before, rows);
    StatusPhaseKeeps(w, w.sync.clock(0), before, rows, h);
    StatusPhaseOnly(w, w.sync.clock(0), before, rows);
    assert StatusKeeps(before.data.At(h), after.data.At(h), w.sync.clock(0));
  }
}
