/** Exactly when a hash ends up in both maps: resolved, and waiting out a cooldown. */
module Sides {
  import opened Readest
  import opened State
  import opened SyncPass
  import opened Projection
  import opened StatusChannel
  import opened Settlement
  import opened NoLostUpdate
  import opened History
  import opened Fates
  import opened Bookkeeping
  import opened Runs

  /** The last answered copy of the hash was acknowledged, and an earlier one was refused. */
  predicate RefusedThenAcked(fs: seq<Fate>) {
    fs != [] &&
    match fs[|fs| - 1]
    case Missed => RefusedThenAcked(fs[..|fs| - 1])
    case Refused(_) => false
    case Acked(_, _) => !NoRefusal(fs[..|fs| - 1])
  }

  lemma {:induction false} FoldSides(y: Slot, mine: seq<PushItem>, fs: seq<Fate>)
    requires |fs| <= |mine| && y.unmatched.None?
    ensures var z := StoreFold(y, mine, fs);
            (z.unmatched.None? <==> NoRefusal(fs)) && (OneSided(z) <==> !RefusedThenAcked(fs))
  {
    if fs != [] {
      FoldSides(y, mine, fs[..|fs| - 1]);
      RefusalSnoc(fs);
    }
  }

  lemma {:induction false} ReplayKeepsOneSided(x: Slot, events: seq<Event>, h: string)
    requires OneSided(x)
    ensures OneSided(Replay(x, events, h))
  {
    if events != [] {
      var e, y := events[|events| - 1], Replay(x, events[..|events| - 1], h);
      ReplayKeepsOneSided(x, events[..|events| - 1], h);
      if e.Bulk? && e.refused.Ok? {
        ObserveItemsOneSided(e.items, e.refused.value, e.times, h, y);
      }
    }
  }

  /** Up to the status phase. */
  lemma BeforeSides(w: World, cfg: Config, latch: bool, d: Data, rows: seq<BookRow>, h: string)
    requires Distinct(Hashes(rows)) && HonestPass(w, cfg, latch, d, rows) && OneSided(d.At(h))
    ensures OneSided(Before(w, cfg, latch, d, rows).data.At(h)) <==>
              !RefusedThenAcked(FatesIn(RunPass(w, cfg, latch, d, rows).trace, h))
  {
    var s1, fs := PushPart(w, cfg, latch, d, rows, h);
    var y, mine := s1.data.At(h), ItemsFor(s1.toPush, h);
    ReplayKeepsOneSided(CoreSlot(d.At(h)), s1.trace, h);
    assert OneSided(y);
    if mine != [] {
      FoldSides(y, mine, fs);
    }
  }

  /** What the status phase does to it: a gone answer leaves one side, nothing else changes sides. */
  lemma StatusSides(x: Slot, y: Slot, now: int)
    requires StatusKeeps(x, y, now)
    ensures OneSided(y) <==> OneSided(x) || (x.rec.Some? && y.rec.None?)
  {
  }

  /** After a pass a hash that was in at most one map is in both exactly when one copy of its push was refused, a
      later one, the last to be answered, was acknowledged, and its book was not then gone. Only answers are
      consulted. */
  lemma BothSidesExactly(w: World, cfg: Config, latch: bool, d: Data, rows: seq<BookRow>, h: string)
    requires Distinct(Hashes(rows)) && HonestPass(w, cfg, latch, d, rows) && OneSided(d.At(h))
    ensures var t := RunPass(w, cfg, latch, d, rows);
            !OneSided(t.data.At(h)) <==> RefusedThenAcked(FatesIn(t.trace, h)) && !Gone(t.trace, h)
  {
    var s2 := Before(w, cfg, latch, d, rows);
    BeforeSides(w, cfg, latch, d, rows, h);
    BeforeIsQuiet(w, cfg, latch, d, rows, h);
    CursorAside(w, cfg, latch, d, rows, h);
    if cfg.syncStatus {
      StatusPhaseKeeps(w, w.sync.clock(0), s2, rows, h);
      StatusPhaseGone(w, w.sync.clock(0), s2, rows, h);
      StatusSides(s2.data.At(h), RunPass(w, cfg, latch, d, rows).data.At(h), w.sync.clock(0));
    }
  }

  /******* Over runs *******/

  ghost predicate BothOneSided(sys: System, h: string) {
    OneSided(sys.mem.data.At(h)) && OneSided(sys.file.data.At(h))
  }

  /** At every moment of the run the hash is in at most one of the two maps, in memory and in the file. */
  ghost predicate OneSidedThroughout(cfg: Config, acts: seq<Action>, h: string) {
    (acts == [] || OneSidedThroughout(cfg, acts[..|acts| - 1], h)) && BothOneSided(Run(cfg, acts), h)
  }

  /** No pass of the run had one copy of the hash refused and a later one acknowledged last, the book not being gone. */
  ghost predicate NeverRefusedThenAcked(cfg: Config, acts: seq<Action>, h: string) {
    acts == [] ||
    (&& NeverRefusedThenAcked(cfg, acts[..|acts| - 1], h)
     && (acts[|acts| - 1].Sync? ==>
           var t := PassOf(cfg, Run(cfg, acts[..|acts| - 1]), acts[|acts| - 1]).trace;
           !RefusedThenAcked(FatesIn(t, h)) || Gone(t, h)))
  }

  lemma StepSides(cfg: Config, sys: System, a: Action, h: string)
    requires Legal(cfg, sys, a) && BothOneSided(sys, h)
    ensures BothOneSided(Step(cfg, sys, a), h) <==>
              (a.Sync? ==> var t := PassOf(cfg, sys, a).trace; !RefusedThenAcked(FatesIn(t, h)) || Gone(t, h))
  {
    if a.Sync? {
      BothSidesExactly(a.w, cfg, sys.bulkUnsupported, sys.mem.data.(token := a.token), a.rows, h);
    }
  }

  /** Over runs: the hash is in at most one map at every moment exactly when no pass did that to it. */
  lemma {:induction false} RunSidesExactly(cfg: Config, acts: seq<Action>, h: string)
    requires LegalRun(cfg, acts)
    ensures OneSidedThroughout(cfg, acts, h) <==> NeverRefusedThenAcked(cfg, acts, h)
  {
    if acts != [] {
      var front, a := acts[..|acts| - 1], acts[|acts| - 1];
      RunSidesExactly(cfg, front, h);
      if OneSidedThroughout(cfg, front, h) {
        StepSides(cfg, Run(cfg, front), a, h);
      }
    }
  }
}
