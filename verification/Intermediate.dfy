/** The store in the middle of a pass: whatever setter was called last, nothing is lost in it. */
module Intermediate {
  import opened Readest
  import opened State
  import opened SyncPass
  import opened Projection
  import opened Phases
  import opened NoLostUpdate
  import opened Runs
  import opened Consequences
  import opened Stores

  lemma AskedIsPulled(w: World, cfg: Config, latch: bool, d: Data, rows: seq<BookRow>, h: string)
    requires Asked(RunPass(w, cfg, latch, d, rows).trace, h)
    ensures h in Hashes(rows)
  {
    AskedWasQueued(w, cfg, latch, d, rows, h);
    ToMatchGrows(cfg, w.sync.clock(0), Classified(d, 0, [], []), rows);
    QueuedIsPulled(Classification(w, cfg, d, rows).toMatch, rows, h);
  }

  lemma QueuedIsPulled(some: seq<BookRow>, rows: seq<BookRow>, h: string)
    requires h in Hashes(some) && forall r :: r in some ==> r in rows
    ensures h in Hashes(rows)
  {
    var i :| 0 <= i < |some| && Hashes(some)[i] == h;
    RowHash(rows, some[i]);
  }

  lemma RowHash(rows: seq<BookRow>, r: BookRow)
    requires r in rows
    ensures r.hash in Hashes(rows)
  {
    var i :| 0 <= i < |rows| && rows[i] == r;
    assert Hashes(rows)[i] == r.hash;
  }

  /** What a pass may touch are the hashes it pulled: an answer names only what it was asked about. */
  lemma TouchedIsPulled(w: World, cfg: Config, latch: bool, d: Data, rows: seq<BookRow>, h: string)
    requires HonestPass(w, cfg, latch, d, rows) && h in Touched(rows, RunPass(w, cfg, latch, d, rows).trace)
    ensures h in Hashes(rows)
  {
    var trace := RunPass(w, cfg, latch, d, rows).trace;
    if h in (set r | r in rows :: r.hash) {
      var r :| r in rows && r.hash == h;
      RowHash(rows, r);
    } else {
      var e :| e in trace && e.MatchCheck? && e.found.Ok?
               && (h in e.found.value.unmatched || exists m :: m in e.found.value.matches && m.hash == h);
      assert HonestEvent(e);
      assert Asked(trace, h);
      AskedIsPulled(w, cfg, latch, d, rows, h);
    }
  }

  /** Only rows above the cursor are being worked on, and the cursor moves last: at every step inside a pass, even one
      that goes wrong later, every server row at or below the stored cursor is settled. */
  lemma NothingLostMidPass(cfg: Config, sys: System, a: Action, x: Data)
    requires a.Sync? && Sound(sys) && Legal(cfg, sys, a) && NothingLost(sys.lib, sys.mem.data)
    requires Agrees(x, sys.mem.data, Touched(a.rows, PassOf(cfg, sys, a).trace))
    ensures NothingLost(sys.lib, x)
  {
    forall h | h in sys.lib && !sys.lib[h].IsDummy() && sys.lib[h].WatermarkMs() <= x.watermarkMs
      ensures Settled(x, sys.lib[h])
    {
      if h in Touched(a.rows, PassOf(cfg, sys, a).trace) {
        TouchedIsPulled(a.w, cfg, sys.bulkUnsupported, sys.mem.data.(token := a.token), a.rows, h);
        NotInPull(sys.lib, sys.mem.data.watermarkMs, a.rows, h);
        NotAmong(a.rows, h);
        assert false;
      }
      SlotDecides(x, sys.mem.data, sys.lib[h]);
    }
  }
}
