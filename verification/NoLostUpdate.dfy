/** One pass loses no update except in three named ways, and exactly then. */
module NoLostUpdate {
  import opened Wrappers
  import opened Errors
  import opened Readest
  import opened Rows
  import opened State
  import opened SyncPass
  import opened Projection
  import opened Phases
  import opened Progress
  import opened StatusChannel
  import opened Settlement
  import opened Traffic

  /** The store agrees with a server row: a deleted book is tracked nowhere; a live book with a usable percentage is
      waiting out a cooldown, or its last pushed percentage is within tolerance. */
  predicate Settled(d: Data, r: BookRow) {
    if Tombstone(r) then r.hash !in d.matches && r.hash !in d.unmatched
    else
      r.Percentage().Some? ==>
        r.hash in d.unmatched || (r.hash in d.matches && Unchanged(d.matches[r.hash], r.Percentage().value))
  }

  /** The server said, in a status answer, that the book is gone. */
  ghost predicate Gone(trace: seq<Event>, h: string) {
    exists e :: e in trace && e.SetStatus? && e.hash == h && e.done == Err(BookGone)
  }

  /** The row was owed an answer by this pass and no answer settled it. Everything here is known from the store
      before the pass, the row, and the answers. */
  ghost predicate Unanswered(cfg: Config, now: int, d: Data, r: BookRow, trace: seq<Event>) {
    && !Tombstone(r) && r.Percentage().Some? && !Answered(trace, r.hash)
    && match VerdictOf(cfg, now, d, r)
       case Push(_) => r.hash !in d.unmatched
       case Resolve => r.hash !in d.unmatched || Found(trace, r.hash)
       case _ => false
  }

  ghost predicate TicksNonZero(w: SyncWorld) { forall n :: w.clock(n) != 0 }

  /** Before the status phase a row is settled exactly when it is not left unanswered. */
  lemma SettledBefore(w: SyncWorld, cfg: Config, d: Data, r: BookRow, s: Pass)
    requires Stands(w, cfg, d, r, s) && TicksNonZero(w)
    ensures Settled(s.data, r) <==> !Unanswered(cfg, w.clock(0), d, r, s.trace)
    ensures Unanswered(cfg, w.clock(0), d, r, s.trace) ==> Missed(r, s)
  {
    match VerdictOf(cfg, w.clock(0), d, r)
    case Push(p) => PushSettles(w, d, r, p, s);
    case Resolve => ResolveSettles(w, cfg, d, r, s);
    case _ => assert s.data.At(r.hash) == (if r.IsDeleted() then Slot(None, None) else d.At(r.hash));
  }

  lemma SlotDecides(a: Data, b: Data, r: BookRow)
    requires a.At(r.hash) == b.At(r.hash)
    ensures Settled(a, r) <==> Settled(b, r)
  {
  }

  lemma DoneSettles(w: SyncWorld, r: BookRow, s: Pass)
    requires !r.IsDeleted() && r.Percentage().Some? && PushDone(w, r.hash, r.Percentage().value, s) && TicksNonZero(w)
    ensures Settled(s.data, r)
  {
  }

  lemma PushSettles(w: SyncWorld, d: Data, r: BookRow, p: PushItem, s: Pass)
    requires !r.IsDeleted() && r.hash in d.matches && TicksNonZero(w)
    requires r.Percentage().Some? && !Unchanged(d.matches[r.hash], r.Percentage().value)
    requires p == ItemFor(r.hash, r, d.matches[r.hash], r.Percentage().value, w.clock(0))
    requires PushDone(w, r.hash, p.pct, s) || (Quiet(r.hash, d.At(r.hash), s) && Missed(r, s))
    ensures Settled(s.data, r) <==> Answered(s.trace, r.hash) || r.hash in d.unmatched
    ensures Answered(s.trace, r.hash) || Missed(r, s)
  {
    if PushDone(w, r.hash, p.pct, s) {
      DoneSettles(w, r, s);
    } else {
      SlotDecides(s.data, d, r);
    }
  }

  lemma ResolveSettles(w: SyncWorld, cfg: Config, d: Data, r: BookRow, s: Pass)
    requires Stands(w, cfg, d, r, s) && VerdictOf(cfg, w.clock(0), d, r).Resolve? && TicksNonZero(w)
    ensures Settled(s.data, r) <==> !Unanswered(cfg, w.clock(0), d, r, s.trace)
    ensures Unanswered(cfg, w.clock(0), d, r, s.trace) ==> Missed(r, s)
  {
    if s.data.At(r.hash) == Slot(None, Some(w.clock(0))) && Answered(s.trace, r.hash) {
    } else if Quiet(r.hash, d.At(r.hash), s) && Missed(r, s) {
      SlotDecides(s.data, d, r);
    } else if r.Percentage().Some? {
      if PushDone(w, r.hash, r.Percentage().value, s) {
        DoneSettles(w, r, s);
      }
    }
  }

  /******* The status phase cannot unsettle a row *******/

  lemma GoneSnoc(trace: seq<Event>, e: Event, h: string)
    ensures Gone(trace + [e], h) <==> Gone(trace, h) || (e.SetStatus? && e.hash == h && e.done == Err(BookGone))
  {
    assert e in trace + [e];
    if Gone(trace, h) {
      var x :| x in trace && x.SetStatus? && x.hash == h && x.done == Err(BookGone);
      assert x in trace + [e];
    }
  }

  lemma StatusRowGone(w: World, now: int, s: Pass, row: BookRow, h: string)
    ensures var t := StatusRow(w, now, s, row);
            && (Gone(t.trace, h) <==> Gone(s.trace, h) || (t.data.At(h).rec.None? && s.data.At(h).rec.Some?))
  {
    StatusRowCases(w, now, s, row);
    if Tracked(s, row) {
      ActGone(w, now, s, row, StatusDecision(s.data.matches[row.hash], row.readingStatus), h);
    }
  }

  lemma ActGone(w: World, now: int, s: Pass, row: BookRow, act: StatusAct, h: string)
    requires Tracked(s, row)
    ensures var t := ActOnStatus(w, now, s, row, s.data.matches[row.hash], act);
            && (Gone(t.trace, h) <==> Gone(s.trace, h) || (t.data.At(h).rec.None? && s.data.At(h).rec.Some?))
  {
    var rec := s.data.matches[row.hash];
    ActTraffic(w, now, s, row, rec, act);
    if act.Send? {
      GoneSnoc(s.trace, StatusCall(w, now, s, row, rec, act.token), h);
    }
  }

  /** A gone answer is the only way the status phase takes a record away, and it puts the hash in cooldown. */
  lemma {:induction false} StatusPhaseGone(w: World, now: int, s: Pass, rows: seq<BookRow>, h: string)
    ensures var t := StatusPhase(w, now, s, rows);
            && (Gone(t.trace, h) <==> Gone(s.trace, h) || (t.data.At(h).rec.None? && s.data.At(h).rec.Some?))
    decreases rows
  {
    if rows != [] && !s.fatal {
      StatusRowGone(w, now, s, rows[0], h);
      StatusRowKeeps(w, now, s, rows[0], h);
      StatusPhaseGone(w, now, StatusRow(w, now, s, rows[0]), rows[1..], h);
      StatusPhaseKeeps(w, now, StatusRow(w, now, s, rows[0]), rows[1..], h);
    }
  }

  lemma NothingGoneYet(latch: bool, s: Pass, h: string)
    requires Reached(latch, s, 2)
    ensures !Gone(s.trace, h)
  {
    NoStatusYet(latch, s);
  }

  lemma StatusSettles(a: Data, b: Data, r: BookRow, now: int)
    requires StatusKeeps(a.At(r.hash), b.At(r.hash), now)
    requires r.IsDeleted() ==> a.At(r.hash).rec.None?
    ensures a.At(r.hash).rec.Some? && b.At(r.hash).rec.None? ==> Settled(b, r)
    ensures !(a.At(r.hash).rec.Some? && b.At(r.hash).rec.None?) ==> (Settled(b, r) <==> Settled(a, r))
  {
  }

  /******* The theorem *******/

  ghost predicate HonestPass(w: World, cfg: Config, latch: bool, d: Data, rows: seq<BookRow>) {
    Honest(RunPass(w, cfg, latch, d, rows).trace)
  }

  /** After a pass a pulled row is unsettled exactly when it was owed an answer, none settled it, and no status answer
      dropped the book; and then its chunk failed, an Unauthorized answer cut the pass short, or an UpdateProgress
      failed. */
  lemma SettledExactly(w: World, cfg: Config, latch: bool, d: Data, rows: seq<BookRow>, r: BookRow)
    requires Distinct(Hashes(rows)) && r in rows && !r.IsDummy()
    requires HonestPass(w, cfg, latch, d, rows) && TicksNonZero(w.sync)
    ensures var t := RunPass(w, cfg, latch, d, rows);
            && (!Settled(t.data, r) <==> Unanswered(cfg, w.sync.clock(0), d, r, t.trace) && !Gone(t.trace, r.hash))
            && (!Settled(t.data, r) ==> Missed(r, t))
  {
    var s2 := Before(w, cfg, latch, d, rows);
    var s3 := AfterStatus(w, cfg, s2, rows);
    var now := w.sync.clock(0);
    StatusPhaseFrame(w, now, s2, rows);
    HonestPrefix(s2.trace, s3.trace);
    RowStands(w, cfg, latch, d, rows, r);
    SettledBefore(w.sync, cfg, d, r, s2);
    BeforeReached(w, cfg, latch, d, rows);
    NothingGoneYet(latch, s2, r.hash);
    StatusPhaseKeeps(w, now, s2, rows, r.hash);
    StatusPhaseGone(w, now, s2, rows, r.hash);
    StatusSettles(s2.data, s3.data, r, now);
    SlotDecides(RunPass(w, cfg, latch, d, rows).data, s3.data, r);
    MissedGrows(r, s2, s3);
  }

  lemma MissedGrows(r: BookRow, a: Pass, b: Pass)
    requires Grows(a, b)
    ensures Missed(r, a) ==> Missed(r, b)
  {
    if Missed(r, a) && UpdateFailed(a.errs) {
      var f :| f in a.errs && f.op == UpdateProgressOp;
      assert f in b.errs;
    }
  }
}
