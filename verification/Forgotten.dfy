/** Exactly when a pass forgets a reading status: leaves it unpushed with the cursor past its row, so that no later pull
    brings it back to be tried again (internal/sync/engine.go:480-486). */
module Forgotten {
  import opened Wrappers
  import opened Errors
  import opened Readest
  import opened Token
  import opened State
  import opened SyncPass
  import opened Projection
  import opened StatusChannel
  import opened Settlement
  import opened Traffic
  import opened Cursor
  import opened Bookkeeping
  import opened Runs
  import opened Sending

  /** A live row whose status is to be pushed as the token. */
  predicate Decided(r: BookRow, token: string) { Live(r) && Means(r.readingStatus, token) }

  /** The record of the hash does not remember the token as pushed. */
  predicate Unpushed(d: Data, h: string, token: string) {
    h in d.matches && d.matches[h].lastPushedStatus != token
  }

  /** A status answer that settles the matter: the push was accepted, or the book is gone. */
  predicate Settles(e: Event, h: string) {
    e.SetStatus? && e.hash == h && (e.done.Ok? || e.done == Err(BookGone))
  }

  ghost predicate SettledIn(trace: seq<Event>, h: string) { exists e :: e in trace && Settles(e, h) }

  lemma SettledSnoc(trace: seq<Event>, e: Event, h: string)
    ensures SettledIn(trace + [e], h) <==> SettledIn(trace, h) || Settles(e, h)
  {
    assert e in trace + [e];
    if SettledIn(trace, h) {
      var x :| x in trace && Settles(x, h);
      assert x in trace + [e];
    }
  }

  /******* One pass *******/

  lemma MeansDecides(rec: MatchRecord, status: string, token: string)
    requires Means(status, token)
    ensures StatusDecision(rec, status) == if rec.lastPushedStatus == token then Note else Send(token)
  {
  }

  lemma ActForgets(w: World, now: int, s: Pass, r: BookRow, token: string)
    requires Tracked(s, r) && !SettledIn(s.trace, r.hash)
    ensures var t := ActOnStatus(w, now, s, r, s.data.matches[r.hash], Send(token));
            s.data.matches[r.hash].lastPushedStatus != token ==>
              (Unpushed(t.data, r.hash, token) <==> !SettledIn(t.trace, r.hash))
  {
    var rec := s.data.matches[r.hash];
    ActTraffic(w, now, s, r, rec, Send(token));
    SettledSnoc(s.trace, StatusCall(w, now, s, r, rec, token), r.hash);
  }

  lemma RowForgets(w: World, now: int, s: Pass, r: BookRow, token: string)
    requires Decided(r, token) && !SettledIn(s.trace, r.hash)
    ensures var t := StatusRow(w, now, s, r);
            Unpushed(t.data, r.hash, token) <==> Unpushed(s.data, r.hash, token) && !SettledIn(t.trace, r.hash)
  {
    StatusRowCases(w, now, s, r);
    if Tracked(s, r) {
      var rec := s.data.matches[r.hash];
      MeansDecides(rec, r.readingStatus, token);
      if rec.lastPushedStatus != token {
        ActForgets(w, now, s, r, token);
      }
    }
  }

  lemma OtherRowSettles(w: World, now: int, s: Pass, row: BookRow, h: string)
    requires row.hash != h
    ensures SettledIn(StatusRow(w, now, s, row).trace, h) <==> SettledIn(s.trace, h)
  {
    StatusRowCases(w, now, s, row);
    if Tracked(s, row) {
      var rec := s.data.matches[row.hash];
      var act := StatusDecision(rec, row.readingStatus);
      ActTraffic(w, now, s, row, rec, act);
      if act.Send? {
        SettledSnoc(s.trace, StatusCall(w, now, s, row, rec, act.token), h);
      }
    }
  }

  lemma {:induction false} OtherRowsSettle(w: World, now: int, s: Pass, rows: seq<BookRow>, h: string)
    requires h !in Hashes(rows)
    ensures SettledIn(StatusPhase(w, now, s, rows).trace, h) <==> SettledIn(s.trace, h)
    decreases rows
  {
    if rows != [] && !s.fatal {
      assert Hashes(rows) == [rows[0].hash] + Hashes(rows[1..]);
      OtherRowSettles(w, now, s, rows[0], h);
      OtherRowsSettle(w, now, StatusRow(w, now, s, rows[0]), rows[1..], h);
    }
  }

  lemma SlotUnpushed(a: Data, b: Data, h: string, token: string)
    requires a.At(h) == b.At(h)
    ensures Unpushed(a, h, token) <==> Unpushed(b, h, token)
  {
  }

  lemma HeadOnly(rows: seq<BookRow>)
    requires Distinct(Hashes(rows)) && rows != []
    ensures rows[0].hash !in Hashes(rows[1..]) && Distinct(Hashes(rows[1..]))
  {
    assert Hashes(rows) == [rows[0].hash] + Hashes(rows[1..]);
    forall i | 0 <= i < |rows[1..]| ensures Hashes(rows[1..])[i] != rows[0].hash {
      assert Hashes(rows)[i + 1] != Hashes(rows)[0];
    }
    assert Hashes(rows)[1..] == Hashes(rows[1..]);
    DistinctTail(Hashes(rows));
  }

  lemma {:induction false} PhaseForgets(w: World, now: int, s: Pass, rows: seq<BookRow>, r: BookRow, token: string)
    requires Distinct(Hashes(rows)) && r in rows && Decided(r, token)
             && !SettledIn(s.trace, r.hash)
    ensures var t := StatusPhase(w, now, s, rows);
            Unpushed(t.data, r.hash, token) <==> Unpushed(s.data, r.hash, token) && !SettledIn(t.trace, r.hash)
    decreases rows
  {
    if !s.fatal {
      var s1, t := StatusRow(w, now, s, rows[0]), StatusPhase(w, now, s, rows);
      HeadOnly(rows);
      if rows[0] == r {
        RowForgets(w, now, s, r, token);
        OtherRowsSettle(w, now, s1, rows[1..], r.hash);
        StatusPhaseKeeps(w, now, s1, rows[1..], r.hash);
        SlotUnpushed(t.data, s1.data, r.hash, token);
      } else {
        TailRow(rows, r);
        OtherRowSettles(w, now, s, rows[0], r.hash);
        StatusRowKeeps(w, now, s, rows[0], r.hash);
        SlotUnpushed(s1.data, s.data, r.hash, token);
        PhaseForgets(w, now, s1, rows[1..], r, token);
      }
    }
  }

  /** After a pass a decisive status of a live pulled row is unpushed exactly when it was before the status phase, and
      no status answer for the hash was an acceptance or said that the book is gone. */
  lemma UnpushedExactly(w: World, cfg: Config, latch: bool, d: Data, rows: seq<BookRow>, r: BookRow, token: string)
    requires Distinct(Hashes(rows)) && r in rows && Decided(r, token)
    ensures var s, t := Before(w, cfg, latch, d, rows), RunPass(w, cfg, latch, d, rows);
            Unpushed(t.data, r.hash, token) <==> Unpushed(s.data, r.hash, token) && !SettledIn(t.trace, r.hash)
  {
    var s := Before(w, cfg, latch, d, rows);
    BeforeReached(w, cfg, latch, d, rows);
    NoStatusYet(latch, s);
    if cfg.syncStatus {
      PhaseForgets(w, w.sync.clock(0), s, rows, r, token);
    }
    CursorAside(w, cfg, latch, d, rows, r.hash);
    SlotUnpushed(RunPass(w, cfg, latch, d, rows).data, AfterStatus(w, cfg, s, rows).data, r.hash, token);
  }

  /** What forgetting is: a matched record without the token, no answer that settles the matter, and no failed chunk
      that holds the cursor back for the row. */
  ghost predicate Forgets(before: Data, rows: seq<BookRow>, trace: seq<Event>, r: BookRow, token: string) {
    Unpushed(before, r.hash, token) && !SettledIn(trace, r.hash) && Under(r.WatermarkMs(), FailedMarks(rows, trace))
  }

  /** A decisive status of a live pulled row is unpushed and behind the cursor after the pass exactly when it is
      forgotten in that sense: any other failed status push is tried again with the next pull. */
  lemma ForgottenExactly(w: World, cfg: Config, latch: bool, d: Data, rows: seq<BookRow>, r: BookRow, token: string)
    requires Distinct(Hashes(rows)) && r in rows && Decided(r, token)
    requires forall q :: q in rows && !q.IsDummy() ==> q.WatermarkMs() > d.watermarkMs
    ensures var t := RunPass(w, cfg, latch, d, rows);
            Unpushed(t.data, r.hash, token) && r.WatermarkMs() <= t.data.watermarkMs <==>
              Forgets(Before(w, cfg, latch, d, rows).data, rows, t.trace, r, token)
  {
    UnpushedExactly(w, cfg, latch, d, rows, r, token);
    ExactCursor(w, cfg, latch, d, rows, r.WatermarkMs());
  }

  /******* Over runs *******/

  /** Every live, matched, decisive row at or below the cursor has its token pushed. */
  ghost predicate StatusKept(lib: map<string, BookRow>, d: Data) {
    forall h, token :: h in lib && Decided(lib[h], token) && lib[h].WatermarkMs() <= d.watermarkMs ==>
      !Unpushed(d, h, token)
  }

  ghost predicate ForgetsNone(cfg: Config, sys: System, a: Action)
    requires a.Sync?
  {
    var before := Before(a.w, cfg, sys.bulkUnsupported, sys.mem.data.(token := a.token), a.rows).data;
    forall r, token :: r in a.rows && Decided(r, token) ==>
      !Forgets(before, a.rows, PassOf(cfg, sys, a).trace, r, token)
  }

  lemma OldStatusKept(cfg: Config, sys: System, a: Action, h: string, token: string)
    requires a.Sync? && Sound(sys) && Legal(cfg, sys, a) && StatusKept(sys.lib, sys.mem.data)
    requires h in sys.lib && Decided(sys.lib[h], token) && sys.lib[h].WatermarkMs() <= sys.mem.data.watermarkMs
    ensures !Unpushed(PassOf(cfg, sys, a).data, h, token)
  {
    NotInPull(sys.lib, sys.mem.data.watermarkMs, a.rows, h);
    UnpulledKept(a.w, cfg, sys.bulkUnsupported, sys.mem.data.(token := a.token), a.rows, h);
    SlotUnpushed(PassOf(cfg, sys, a).data, sys.mem.data, h, token);
  }

  /** A pass over a store that keeps all statuses goes on doing so exactly when it forgets none of the rows it
      pulled. */
  lemma PassForgetsExactly(cfg: Config, sys: System, a: Action)
    requires a.Sync? && Sound(sys) && Legal(cfg, sys, a) && StatusKept(sys.lib, sys.mem.data)
    ensures StatusKept(sys.lib, PassOf(cfg, sys, a).data) <==> ForgetsNone(cfg, sys, a)
  {
    var t, d := PassOf(cfg, sys, a), sys.mem.data.(token := a.token);
    var before := Before(a.w, cfg, sys.bulkUnsupported, d, a.rows).data;
    forall r, token | r in a.rows && Decided(r, token)
      ensures Unpushed(t.data, r.hash, token) && r.WatermarkMs() <= t.data.watermarkMs <==>
              Forgets(before, a.rows, t.trace, r, token)
    {
      ForgottenExactly(a.w, cfg, sys.bulkUnsupported, d, a.rows, r, token);
    }
    forall h, token | h in sys.lib && Decided(sys.lib[h], token) && sys.lib[h].WatermarkMs() <= sys.mem.data.watermarkMs
      ensures !Unpushed(t.data, h, token)
    {
      OldStatusKept(cfg, sys, a, h, token);
    }
  }

  ghost predicate BothKept(sys: System) { StatusKept(sys.lib, sys.mem.data) && StatusKept(sys.lib, sys.file.data) }

  /** At every moment of the run, in memory and in the file. */
  ghost predicate KeptThroughout(cfg: Config, acts: seq<Action>) {
    (acts == [] || KeptThroughout(cfg, acts[..|acts| - 1])) && BothKept(Run(cfg, acts))
  }

  ghost predicate NoneForgotten(cfg: Config, acts: seq<Action>) {
    acts == [] ||
    (&& NoneForgotten(cfg, acts[..|acts| - 1])
     && (acts[|acts| - 1].Sync? ==> ForgetsNone(cfg, Run(cfg, acts[..|acts| - 1]), acts[|acts| - 1])))
  }

  lemma TokenKeepsStatus(lib: map<string, BookRow>, d: Data, credential: Token)
    requires StatusKept(lib, d)
    ensures StatusKept(lib, d.(token := credential))
  {
    forall h, token | h in lib && Decided(lib[h], token) && lib[h].WatermarkMs() <= d.watermarkMs
      ensures !Unpushed(d.(token := credential), h, token)
    {
      SlotUnpushed(d, d.(token := credential), h, token);
    }
  }

  lemma StepKept(cfg: Config, sys: System, a: Action)
    requires Sound(sys) && Legal(cfg, sys, a) && BothKept(sys)
    ensures BothKept(Step(cfg, sys, a)) <==> (a.Sync? ==> ForgetsNone(cfg, sys, a))
  {
    match a
    case Change(row) =>
    case FailedPull(token, written) =>
      TokenKeepsStatus(sys.lib, sys.mem.data, token);
      TokenKeepsStatus(sys.lib, sys.mem.data, if written.Some? then written.value else token);
    case Sync(w, rows, token, written, saved) =>
      PassForgetsExactly(cfg, sys, a);
      TokenKeepsStatus(sys.lib, sys.mem.data, if written.Some? then written.value else token);
    case Crash =>
  }

  /** No reading status is forgotten: over every legal run every live, matched, decisive row at or below a cursor has
      its token pushed, at every moment, in memory and in the file, if and only if no pass of the run forgot one. */
  lemma {:induction false} RunForgetsExactly(cfg: Config, acts: seq<Action>)
    requires LegalRun(cfg, acts)
    ensures KeptThroughout(cfg, acts) <==> NoneForgotten(cfg, acts)
  {
    if acts != [] {
      var front, a := acts[..|acts| - 1], acts[|acts| - 1];
      RunForgetsExactly(cfg, front);
      if KeptThroughout(cfg, front) {
        RunSound(cfg, front);
        StepKept(cfg, Run(cfg, front), a);
      }
    }
  }
}
