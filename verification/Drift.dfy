/** A skipped poll never moves the baseline it was compared with, so skips cannot add up. */
module Drift {
  import opened Time
  import opened Readest
  import opened State
  import opened SyncPass
  import opened Projection
  import opened Phases
  import opened StatusChannel
  import opened Settlement
  import opened NoLostUpdate
  import opened Runs
  import opened Consequences

  /** The row's percentage is within tolerance of what was last pushed, so the pass queues nothing for it. */
  predicate Skips(d: Data, r: BookRow) {
    && !r.IsDummy() && !r.IsDeleted() && r.Percentage().Some?
    && r.hash in d.matches && Unchanged(d.matches[r.hash], r.Percentage().value)
  }

  /** Units of 1e-5: the tolerance of 0.001 and half a unit of rounding. */
  predicate NearRatio(pct: int, p: Readest.Progress)
    requires p.total > 0.0 && p.cur >= 0.0
  {
    -100.5 <= pct as real - Ratio(p.cur, p.total) * 100000.0 <= 100.5
  }

  lemma SkipIsNear(d: Data, r: BookRow)
    requires Skips(d, r)
    ensures r.progress.value.total > 0.0 && r.progress.value.cur >= 0.0
    ensures NearRatio(d.matches[r.hash].lastPushedPct, r.progress.value)
  {
    PercentIsNearest(r.progress.value.cur, r.progress.value.total);
  }

  /** A pass that skips a row, or does not see it, leaves the progress of its record as it was. */
  lemma SkipKeepsBaseline(w: World, cfg: Config, latch: bool, d: Data, rows: seq<BookRow>, h: string)
    requires Distinct(Hashes(rows)) && HonestPass(w, cfg, latch, d, rows)
    requires h in d.matches && h != DUMMY_HASH
    requires forall r :: r in rows && r.hash == h ==> Skips(d, r)
    ensures var t := RunPass(w, cfg, latch, d, rows).data;
            h in t.matches ==> SameProgress(d.matches[h], t.matches[h])
  {
    var s2 := Before(w, cfg, latch, d, rows);
    var s3 := AfterStatus(w, cfg, s2, rows);
    var now := w.sync.clock(0);
    StatusPhaseFrame(w, now, s2, rows);
    HonestPrefix(s2.trace, s3.trace);
    if AllForeign(rows, h) {
      NotPulled(w, cfg, latch, d, rows, h);
    } else {
      var r :| r in rows && !Foreign(r, h);
      assert VerdictOf(cfg, now, d, r).Leave?;
      RowStands(w, cfg, latch, d, rows, r);
    }
    StatusPhaseKeeps(w, now, s2, rows, h);
    assert StatusKeeps(d.At(h), s3.data.At(h), now);
  }

  /** The steps of a run during which every pull of h, if any, is skipped. */
  ghost predicate Idling(sys: System, a: Action, h: string) {
    match a
    case Sync(_, rows, _, _, _) => forall r :: r in rows && r.hash == h && h in sys.mem.data.matches ==>
        Skips(sys.mem.data, r)
    case Crash => false
    case _ => true
  }

  ghost predicate IdlingFrom(cfg: Config, sys: System, acts: seq<Action>, h: string) {
    acts == [] || (&& IdlingFrom(cfg, sys, acts[..|acts| - 1], h)
                   && h in Continue(cfg, sys, acts[..|acts| - 1]).mem.data.matches
                   && Idling(Continue(cfg, sys, acts[..|acts| - 1]), acts[|acts| - 1], h))
  }

  /** Any number of skipped polls later, the baseline is still the one the first of them was compared with. */
  lemma {:induction false} SkipsKeepBaseline(cfg: Config, sys: System, acts: seq<Action>, h: string)
    requires LegalFrom(cfg, sys, acts) && IdlingFrom(cfg, sys, acts, h) && h != DUMMY_HASH
    requires h in sys.mem.data.matches
    ensures var last := Continue(cfg, sys, acts).mem.data.matches;
            h in last ==> SameProgress(sys.mem.data.matches[h], last[h])
  {
    if acts != [] {
      var front, a := acts[..|acts| - 1], acts[|acts| - 1];
      SkipsKeepBaseline(cfg, sys, front, h);
      SkipStep(cfg, Continue(cfg, sys, front), a, h);
    }
  }

  lemma SkipStep(cfg: Config, sys: System, a: Action, h: string)
    requires Legal(cfg, sys, a) && Idling(sys, a, h) && h in sys.mem.data.matches && h != DUMMY_HASH
    ensures var next := Step(cfg, sys, a).mem.data.matches;
            h in next ==> SameProgress(sys.mem.data.matches[h], next[h])
  {
    if a.Sync? {
      var d := sys.mem.data.(token := a.token);
      forall r | r in a.rows && r.hash == h ensures Skips(d, r) {
        assert Skips(sys.mem.data, r);
      }
      SkipKeepsBaseline(a.w, cfg, sys.bulkUnsupported, d, a.rows, h);
    }
  }

  /** No drift: after any number of consecutive skipped polls, the percentage that was pushed before the first of them
      is still within 0.001 + 0.000005 of the exact ratio of the row that is skipped next. */
  lemma NoDrift(cfg: Config, sys: System, acts: seq<Action>, r: BookRow)
    requires LegalFrom(cfg, sys, acts) && IdlingFrom(cfg, sys, acts, r.hash)
    requires r.hash in sys.mem.data.matches && Skips(Continue(cfg, sys, acts).mem.data, r)
    ensures r.progress.value.total > 0.0 && r.progress.value.cur >= 0.0
    ensures NearRatio(sys.mem.data.matches[r.hash].lastPushedPct, r.progress.value)
    ensures sys.mem.data.matches[r.hash].lastPushedAt != 0
  {
    SkipsKeepBaseline(cfg, sys, acts, r.hash);
    SkipIsNear(Continue(cfg, sys, acts).mem.data, r);
  }
}
