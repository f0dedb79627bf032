/** A hash recorded as unmatched is left alone until its cooldown is over, from the answer that recorded it on. */
module Cooldown {
  import opened Wrappers
  import opened Readest
  import opened State
  import opened SyncPass
  import opened Projection
  import opened Phases
  import opened Progress
  import opened StatusChannel
  import opened Settlement
  import opened NoLostUpdate
  import opened History
  import opened Bookkeeping
  import opened Runs
  import opened Consequences

  /******* The recording event *******/

  /** The time at which an event puts a hash in cooldown, if it does: a match-check answer that lists or omits it, a
      bulk answer that refuses it, or a gone book. */
  ghost function Note(e: Event, h: string): Option<int> { Observe(e, h, NO_SLOT).unmatched }

  /** An event that takes a hash out of its cooldown: a match, or a deletion row. */
  ghost predicate Takes(e: Event, h: string) { Observe(e, h, Slot(None, Some(0))).unmatched.None? }

  /** When the traffic of a pass last recorded the hash, if nothing took it out again. */
  ghost function RecordedAt(trace: seq<Event>, h: string): Option<int> {
    if trace == [] then None
    else
      var e := trace[|trace| - 1];
      if Note(e, h).Some? then Note(e, h)
      else if Takes(e, h) then None
      else RecordedAt(trace[..|trace| - 1], h)
  }

  lemma {:induction false} ItemsNote(items: seq<Sent>, refused: seq<string>, times: seq<int>, h: string, x: Slot)
    ensures var note := ObserveItems(items, refused, times, h, NO_SLOT).unmatched;
            ObserveItems(items, refused, times, h, x).unmatched == if note.Some? then note else x.unmatched
    decreases items
  {
    if items != [] && times != [] {
      var x1 := ObserveItem(items[0], refused, times[0], h, x);
      ItemsNote(items[1..], refused, times[1..], h, x1);
      ItemsNote(items[1..], refused, times[1..], h, ObserveItem(items[0], refused, times[0], h, NO_SLOT));
    }
  }

  lemma EventNote(e: Event, h: string, x: Slot)
    ensures Observe(e, h, x).unmatched ==
            if Note(e, h).Some? then Note(e, h) else if Takes(e, h) then None else x.unmatched
  {
    if e.Bulk? && e.refused.Ok? {
      ItemsNote(e.items, e.refused.value, e.times, h, x);
      ItemsNote(e.items, e.refused.value, e.times, h, Slot(None, Some(0)));
    }
  }

  lemma {:induction false} RecordedIsReplayed(trace: seq<Event>, h: string, x: Slot)
    requires RecordedAt(trace, h).Some?
    ensures Replay(x, trace, h).unmatched == RecordedAt(trace, h)
  {
    var front, e := trace[..|trace| - 1], trace[|trace| - 1];
    EventNote(e, h, Replay(x, front, h));
    if Note(e, h).None? {
      RecordedIsReplayed(front, h, x);
    }
  }

  /** What a pass recorded is in the store after it. */
  lemma RecordedIsStored(w: World, cfg: Config, latch: bool, d: Data, rows: seq<BookRow>, h: string)
    requires Distinct(Hashes(rows)) && HonestPass(w, cfg, latch, d, rows)
    requires RecordedAt(RunPass(w, cfg, latch, d, rows).trace, h).Some?
    ensures RunPass(w, cfg, latch, d, rows).data.At(h).unmatched == RecordedAt(RunPass(w, cfg, latch, d, rows).trace, h)
  {
    StoreIsReplay(w, cfg, latch, d, rows, h);
    RecordedIsReplayed(RunPass(w, cfg, latch, d, rows).trace, h, CoreSlot(d.At(h)));
  }

  /******* One pass *******/

  /** The hash has a record, or it was recorded as unmatched at t or later. */
  predicate Cool(d: Data, h: string, t: int) {
    h in d.matches || (h in d.unmatched && d.unmatched[h] >= t)
  }

  /** A pass whose captured time is before t + cooldown, whose clock does not read times before t, and that brings no
      deletion row for the hash. */
  ghost predicate Within(cfg: Config, w: SyncWorld, rows: seq<BookRow>, h: string, t: int) {
    && w.clock(0) < t + cfg.cooldownSeconds && (forall n :: w.clock(n) >= t) && !Deletes(rows, h)
  }

  lemma CoolBefore(w: World, cfg: Config, latch: bool, d: Data, rows: seq<BookRow>, h: string, t: int)
    requires Distinct(Hashes(rows)) && Honest(Before(w, cfg, latch, d, rows).trace)
    requires Cool(d, h, t) && Within(cfg, w.sync, rows, h, t)
    ensures Cool(Before(w, cfg, latch, d, rows).data, h, t)
    ensures h !in Hashes(Classification(w, cfg, d, rows).toMatch)
  {
    var c, now := Classification(w, cfg, d, rows), w.sync.clock(0);
    if AllForeign(rows, h) {
      ClassifyForeign(cfg, now, Classified(d, 0, [], []), rows, h);
      NotPulled(w, cfg, latch, d, rows, h);
      CoolSlot(Before(w, cfg, latch, d, rows).data, d, h, t);
    } else {
      var r :| r in rows && !Foreign(r, h);
      CoolVerdict(cfg, w.sync, d, rows, r, t);
      ClassifyHit(cfg, now, Classified(d, 0, [], []), rows, r);
      RowStands(w, cfg, latch, d, rows, r);
      CoolStands(w.sync, cfg, d, r, Before(w, cfg, latch, d, rows), t);
    }
    assert h !in multiset(Hashes(c.toMatch));
  }

  lemma CoolVerdict(cfg: Config, w: SyncWorld, d: Data, rows: seq<BookRow>, r: BookRow, t: int)
    requires r in rows && !r.IsDummy() && Cool(d, r.hash, t) && Within(cfg, w, rows, r.hash, t)
    ensures VerdictOf(cfg, w.clock(0), d, r).Push? || VerdictOf(cfg, w.clock(0), d, r).Leave?
  {
  }

  lemma CoolStands(w: SyncWorld, cfg: Config, d: Data, r: BookRow, s: Pass, t: int)
    requires Stands(w, cfg, d, r, s) && Cool(d, r.hash, t) && forall n :: w.clock(n) >= t
    requires VerdictOf(cfg, w.clock(0), d, r).Push? || VerdictOf(cfg, w.clock(0), d, r).Leave?
    ensures Cool(s.data, r.hash, t)
  {
    var v := VerdictOf(cfg, w.clock(0), d, r);
    if v.Push? && PushDone(w, r.hash, v.item.pct, s) {
      if s.data.At(r.hash).rec.None? {
        var tick :| w.clock(tick) == s.data.At(r.hash).unmatched.value;
      }
    } else {
      CoolSlot(s.data, d, r.hash, t);
    }
  }

  /** One pass while a hash cools down: no request names it, and it goes on cooling down. */
  lemma CoolingPass(w: World, cfg: Config, latch: bool, d: Data, rows: seq<BookRow>, h: string, t: int)
    requires Distinct(Hashes(rows)) && HonestPass(w, cfg, latch, d, rows)
    requires Cool(d, h, t) && Within(cfg, w.sync, rows, h, t)
    ensures !Asked(RunPass(w, cfg, latch, d, rows).trace, h)
    ensures Cool(RunPass(w, cfg, latch, d, rows).data, h, t)
  {
    var s2 := Before(w, cfg, latch, d, rows);
    var s3 := AfterStatus(w, cfg, s2, rows);
    var now := w.sync.clock(0);
    StatusPhaseFrame(w, now, s2, rows);
    HonestPrefix(s2.trace, s3.trace);
    CoolBefore(w, cfg, latch, d, rows, h, t);
    if Asked(RunPass(w, cfg, latch, d, rows).trace, h) {
      AskedWasQueued(w, cfg, latch, d, rows, h);
    }
    StatusPhaseKeeps(w, now, s2, rows, h);
    assert StatusKeeps(s2.data.At(h), s3.data.At(h), now);
    CursorAside(w, cfg, latch, d, rows, h);
    CoolSlot(RunPass(w, cfg, latch, d, rows).data, s3.data, h, t);
  }

  lemma CoolSlot(a: Data, b: Data, h: string, t: int)
    requires a.At(h) == b.At(h)
    ensures Cool(a, h, t) <==> Cool(b, h, t)
  {
  }

  /******* Over runs *******/

  /** The steps of a run while the cooldown of a hash, begun at time t, lasts. */
  ghost predicate DuringCooldown(cfg: Config, a: Action, h: string, t: int) {
    a.Sync? ==> Within(cfg, a.w.sync, a.rows, h, t)
  }

  ghost predicate AllDuring(cfg: Config, acts: seq<Action>, h: string, t: int) {
    forall a :: a in acts ==> DuringCooldown(cfg, a, h, t)
  }

  /** Memory cools, and so does the file if a crash may bring it back. */
  ghost predicate CoolSystem(sys: System, h: string, t: int, crashes: bool) {
    Cool(sys.mem.data, h, t) && (crashes ==> Cool(sys.file.data, h, t))
  }

  lemma CoolingStep(cfg: Config, sys: System, a: Action, h: string, t: int, crashes: bool)
    requires Legal(cfg, sys, a) && CoolSystem(sys, h, t, crashes) && DuringCooldown(cfg, a, h, t)
             && (a.Crash? ==> crashes)
    ensures CoolSystem(Step(cfg, sys, a), h, t, crashes)
    ensures a.Sync? ==> !Asked(PassOf(cfg, sys, a).trace, h)
  {
    if a.Sync? {
      CoolingPass(a.w, cfg, sys.bulkUnsupported, sys.mem.data.(token := a.token), a.rows, h, t);
    }
  }

  /** Through any number of passes, failed pulls, changes and crashes inside the window no pass asks about the hash. */
  lemma {:induction false} CooldownHolds(cfg: Config, sys: System, acts: seq<Action>, h: string, t: int, crashes: bool)
    requires LegalFrom(cfg, sys, acts) && CoolSystem(sys, h, t, crashes) && AllDuring(cfg, acts, h, t)
    requires crashes || forall a :: a in acts ==> !a.Crash?
    ensures CoolSystem(Continue(cfg, sys, acts), h, t, crashes)
    ensures acts != [] && acts[|acts| - 1].Sync? ==>
              !Asked(PassOf(cfg, Continue(cfg, sys, acts[..|acts| - 1]), acts[|acts| - 1]).trace, h)
  {
    if acts != [] {
      var front, a := acts[..|acts| - 1], acts[|acts| - 1];
      CooldownHolds(cfg, sys, front, h, t, crashes);
      assert DuringCooldown(cfg, a, h, t);
      CoolingStep(cfg, Continue(cfg, sys, front), a, h, t, crashes);
    }
  }

  /** The cooldown from the answer that started it: when a pass recorded a hash unmatched at time t, by a match-check,
      a bulk answer or a gone book, no later pass asks about it before t + cooldown, unless a deletion row comes. A
      pass that was not saved holds for as long as no crash undoes it. */
  lemma CooldownFromRecording(cfg: Config, sys: System, first: Action, acts: seq<Action>, h: string, t: int)
    requires first.Sync? && Legal(cfg, sys, first) && RecordedAt(PassOf(cfg, sys, first).trace, h) == Some(t)
    requires LegalFrom(cfg, Step(cfg, sys, first), acts) && AllDuring(cfg, acts, h, t)
    requires first.saved || forall a :: a in acts ==> !a.Crash?
    ensures acts != [] && acts[|acts| - 1].Sync? ==>
              !Asked(PassOf(cfg, Continue(cfg, Step(cfg, sys, first), acts[..|acts| - 1]), acts[|acts| - 1]).trace, h)
  {
    RecordedIsStored(first.w, cfg, sys.bulkUnsupported, sys.mem.data.(token := first.token), first.rows, h);
    CooldownHolds(cfg, Step(cfg, sys, first), acts, h, t, first.saved);
  }
}
