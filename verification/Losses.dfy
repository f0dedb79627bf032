/** Exactly which rows a pass loses: leaves unsettled with the cursor past them, so that no later pull returns them. */
module Losses {
  import opened Readest
  import opened State
  import opened SyncPass
  import opened Projection
  import opened NoLostUpdate
  import opened Cursor
  import opened Runs

  /** The row was owed an answer, got none, its book is not gone, and it lies below every row whose chunk failed: no
      failure holds the cursor back for it. Only the store before the pass, the rows and the answers are consulted. */
  ghost predicate Lost(cfg: Config, now: int, d: Data, rows: seq<BookRow>, trace: seq<Event>, r: BookRow) {
    && Unanswered(cfg, now, d, r, trace) && !Gone(trace, r.hash)
    && Under(r.WatermarkMs(), FailedMarks(rows, trace))
  }

  /** A pulled row is unsettled and behind the cursor after the pass exactly when it is lost in that sense. An unsettled
      row whose own chunk failed is not: the cursor stays below it and it is pulled again. */
  lemma LostExactly(w: World, cfg: Config, latch: bool, d: Data, rows: seq<BookRow>, r: BookRow)
    requires Distinct(Hashes(rows)) && r in rows && !r.IsDummy()
    requires forall q :: q in rows && !q.IsDummy() ==> q.WatermarkMs() > d.watermarkMs
    requires HonestPass(w, cfg, latch, d, rows) && TicksNonZero(w.sync)
    ensures var t := RunPass(w, cfg, latch, d, rows);
            !Settled(t.data, r) && r.WatermarkMs() <= t.data.watermarkMs <==>
                Lost(cfg, w.sync.clock(0), d, rows, t.trace, r)
  {
    SettledExactly(w, cfg, latch, d, rows, r);
    ExactCursor(w, cfg, latch, d, rows, r.WatermarkMs());
  }

  ghost predicate LosesNone(cfg: Config, sys: System, a: Action)
    requires a.Sync?
  {
    forall r :: r in a.rows && !r.IsDummy() ==>
      !Lost(cfg, a.w.sync.clock(0), sys.mem.data.(token := a.token), a.rows, PassOf(cfg, sys, a).trace, r)
  }

  /** A pass over a store that has lost nothing keeps it so exactly when it loses none of the rows it pulled. */
  lemma PassLosesExactly(cfg: Config, sys: System, a: Action)
    requires a.Sync? && Sound(sys) && Legal(cfg, sys, a) && NothingLost(sys.lib, sys.mem.data)
    ensures NothingLost(sys.lib, PassOf(cfg, sys, a).data) <==> LosesNone(cfg, sys, a)
  {
    var t, d := PassOf(cfg, sys, a), sys.mem.data.(token := a.token);
    forall r | r in a.rows && !r.IsDummy()
      ensures !Settled(t.data, r) && r.WatermarkMs() <= t.data.watermarkMs <==>
              Lost(cfg, a.w.sync.clock(0), d, a.rows, t.trace, r)
    {
      LostExactly(a.w, cfg, sys.bulkUnsupported, d, a.rows, r);
    }
    forall h | h in sys.lib && !sys.lib[h].IsDummy() && sys.lib[h].WatermarkMs() <= sys.mem.data.watermarkMs
      ensures Settled(t.data, sys.lib[h])
    {
      OldRowKept(cfg, sys, a, h);
    }
  }

  lemma OldRowKept(cfg: Config, sys: System, a: Action, h: string)
    requires a.Sync? && Sound(sys) && Legal(cfg, sys, a) && NothingLost(sys.lib, sys.mem.data)
    requires h in sys.lib && !sys.lib[h].IsDummy() && sys.lib[h].WatermarkMs() <= sys.mem.data.watermarkMs
    ensures Settled(PassOf(cfg, sys, a).data, sys.lib[h])
  {
    NotInPull(sys.lib, sys.mem.data.watermarkMs, a.rows, h);
    UnpulledKept(a.w, cfg, sys.bulkUnsupported, sys.mem.data.(token := a.token), a.rows, h);
    SlotDecides(PassOf(cfg, sys, a).data, sys.mem.data, sys.lib[h]);
  }

  /** No pass of the run lost a row. */
  ghost predicate NoRowLost(cfg: Config, acts: seq<Action>) {
    acts == [] ||
    (&& NoRowLost(cfg, acts[..|acts| - 1])
     && (acts[|acts| - 1].Sync? ==> LosesNone(cfg, Run(cfg, acts[..|acts| - 1]), acts[|acts| - 1])))
  }

  /** At every moment of the run every server row at or below a cursor, in memory or in the file, is settled. */
  ghost predicate SafeThroughout(cfg: Config, acts: seq<Action>) {
    (acts == [] || SafeThroughout(cfg, acts[..|acts| - 1])) && Safe(Run(cfg, acts))
  }

  /** The no-lost-update theorem with its exact hypothesis: a legal run is lossless at every moment if and only if no
      pass of it lost a row. */
  lemma {:induction false} RunLosesExactly(cfg: Config, acts: seq<Action>)
    requires LegalRun(cfg, acts)
    ensures SafeThroughout(cfg, acts) <==> NoRowLost(cfg, acts)
  {
    if acts == [] {
      InitialSound();
    } else {
      var front, a := acts[..|acts| - 1], acts[|acts| - 1];
      RunLosesExactly(cfg, front);
      if SafeThroughout(cfg, front) {
        LastStep(cfg, front, a);
      }
    }
  }

  lemma LastStep(cfg: Config, front: seq<Action>, a: Action)
    requires Safe(Run(cfg, front)) && Legal(cfg, Run(cfg, front), a)
    ensures Safe(Step(cfg, Run(cfg, front), a)) <==> (a.Sync? ==> LosesNone(cfg, Run(cfg, front), a))
  {
    var sys := Run(cfg, front);
    if a.Sync? {
      PassLosesExactly(cfg, sys, a);
      if LosesNone(cfg, sys, a) {
        StepSafe(cfg, sys, a);
      }
    } else {
      StepSafe(cfg, sys, a);
    }
  }
}
