/** One pass keeps its books: the store is the replay of the acknowledged traffic, exactly when the answers about each
    hash speak with one voice. */
module Bookkeeping {
  import opened Wrappers
  import opened Errors
  import opened Readest
  import opened State
  import opened SyncPass
  import opened Projection
  import opened Phases
  import opened StatusChannel
  import opened Settlement
  import opened Traffic
  import opened NoLostUpdate
  import opened History
  import opened Fates

  /** The answers of a pass about a hash agree on what book it is; only answers are consulted. */
  ghost predicate Consistent(trace: seq<Event>, h: string) {
    OneVoice(MatchesIn(trace, h), FatesIn(trace, h))
  }

  /******* Stretches of traffic that say nothing *******/

  lemma {:induction false} NoFates(trace: seq<Event>, h: string)
    requires forall e :: e in trace ==> !IsPush(e)
    ensures FatesIn(trace, h) == []
  {
    if trace != [] {
      NoFates(trace[..|trace| - 1], h);
      assert trace[|trace| - 1] in trace;
    }
  }

  lemma {:induction false} StatusesSayNothing(a: seq<Event>, b: seq<Event>, h: string)
    requires a <= b && forall i :: |a| <= i < |b| ==> b[i].SetStatus?
    ensures FatesIn(b, h) == FatesIn(a, h) && MatchesIn(b, h) == MatchesIn(a, h)
    decreases |b|
  {
    if a != b {
      StatusesSayNothing(a, b[..|b| - 1], h);
      assert b[|b| - 1].SetStatus?;
    }
  }

  lemma PushesNeedNoReason(h: string, x: Slot, a: Pass, b: Pass)
    requires AllJustified(h, x, a.trace) && AddsPushes(a, b)
    ensures AllJustified(h, x, b.trace)
  {
    forall i | 0 <= i < |b.trace| ensures Justified(b.trace[i], h, Replay(x, b.trace[..i], h)) {
      if i < |a.trace| {
        assert b.trace[..i] == a.trace[..i] && b.trace[i] == a.trace[i];
      } else {
        assert IsPush(b.trace[i]);
      }
    }
  }

  lemma EarlyTrace(latch: bool, s: Pass)
    requires Reached(latch, s, 1)
    ensures forall e :: e in s.trace ==> !IsPush(e)
  {
    forall e | e in s.trace ensures !IsPush(e) {
      var i :| 0 <= i < |s.trace| && s.trace[i] == e;
      assert Phase(s.trace[i]) <= Phase(s.trace[|s.trace| - 1]);
    }
  }

  /******* Up to the status phase *******/

  /** Store and reference of a hash: the cooldown always agrees, and the records agree exactly when `same` holds. */
  ghost predicate Paired(y: Slot, x: Slot, same: bool) {
    y.unmatched == x.unmatched && (y == x <==> same) && (y != x ==> Apart(y, x))
  }

  lemma QueuePaired(h: string, ms: seq<Match>, y: Slot, mine: seq<PushItem>, fs: seq<Fate>)
    requires Queued(h, ms, y, mine) && |fs| <= |mine| && SamePcts(mine, fs)
    ensures Paired(CoreSlot(StoreFold(y, mine, fs)), ReplayFold(CoreSlot(y), fs), OneVoice(ms, fs))
  {
    if mine == [] {
      assert fs == [];
    } else if ms == [] {
      assert mine == [mine[0]];
      OneItemAgrees(y, mine[0], fs);
    } else {
      CopiesAgree(ms, mine, fs);
    }
  }

  lemma BeforePaired(w: World, cfg: Config, latch: bool, d: Data, rows: seq<BookRow>, h: string)
    requires Distinct(Hashes(rows)) && Honest(Before(w, cfg, latch, d, rows).trace)
    ensures var s := Before(w, cfg, latch, d, rows);
            var x := CoreSlot(d.At(h));
            && Paired(CoreSlot(s.data.At(h)), Replay(x, s.trace, h), Consistent(s.trace, h))
            && AllJustified(h, x, s.trace)
  {
    var c, s0, s1, s2 := Assembled(w, cfg, latch, d, rows);
    var x := CoreSlot(d.At(h));
    HonestPrefix(s1.trace, s2.trace);
    StartFollows(w, cfg, latch, d, rows, h);
    MatchPhaseFollows(w.sync, cfg, w.sync.clock(0), RowByHash(c.toMatch), s0, Hashes(c.toMatch), h, x);
    StartReached(latch, s0, rows);
    MatchPhaseReached(latch, w.sync, cfg, w.sync.clock(0), RowByHash(c.toMatch), s0, Hashes(c.toMatch));
    EarlyTrace(latch, s1);
    NoFates(s1.trace, h);
    PushesPaired(w.sync, cfg, s1, h, x);
    PushPhaseAddsPushes(w.sync, cfg, s1, s1.toPush);
    PushesNeedNoReason(h, x, s1, s2);
  }

  lemma PushesPaired(w: SyncWorld, cfg: Config, s: Pass, h: string, x: Slot)
    requires Tracks(h, x, s.trace, s.data) && QueuedIn(h, s) && FatesIn(s.trace, h) == []
    ensures var t := AfterPush(w, cfg, s);
            Paired(CoreSlot(t.data.At(h)), Replay(x, t.trace, h), Consistent(t.trace, h))
  {
    var fs := PushPhaseMet(w, cfg, s, s.toPush, h, x);
    QueuePaired(h, MatchesIn(s.trace, h), s.data.At(h), ItemsFor(s.toPush, h), fs);
    assert [] + fs == fs;
  }

  /******* The status phase *******/

  /** One status answer, seen from the store's record and from the reference. */
  lemma StatusPaired(e: Event, h: string, y: Slot, x: Slot, same: bool)
    requires e.SetStatus? && e.hash == h && y.rec.Some? && Paired(y, x, same)
    ensures Paired(Observe(e, h, y), Observe(e, h, x), same || e.done == Err(BookGone))
  {
  }

  lemma SentPaired(w: World, now: int, s: Pass, row: BookRow, h: string, x: Slot, same: bool, e: Event, t: Pass)
    requires row.hash == h && Tracked(s, row) && e.SetStatus? && e.hash == h && t.trace == s.trace + [e]
    requires CoreSlot(t.data.At(h)) == Observe(e, h, CoreSlot(s.data.At(h)))
    requires Paired(CoreSlot(s.data.At(h)), Replay(x, s.trace, h), same || Gone(s.trace, h))
    ensures Paired(CoreSlot(t.data.At(h)), Replay(x, t.trace, h), same || Gone(t.trace, h))
  {
    ReplaySnoc(x, s.trace, e, h);
    GoneSnoc(s.trace, e, h);
    StatusPaired(e, h, CoreSlot(s.data.At(h)), Replay(x, s.trace, h), same || Gone(s.trace, h));
  }

  lemma OtherPaired(s: Pass, h: string, x: Slot, same: bool, e: Event, t: Pass)
    requires e.SetStatus? && e.hash != h && t.trace == s.trace + [e] && t.data.At(h) == s.data.At(h)
    requires Paired(CoreSlot(s.data.At(h)), Replay(x, s.trace, h), same || Gone(s.trace, h))
    ensures Paired(CoreSlot(t.data.At(h)), Replay(x, t.trace, h), same || Gone(t.trace, h))
  {
    ReplaySnoc(x, s.trace, e, h);
    GoneSnoc(s.trace, e, h);
  }

  lemma StatusRowPaired(w: World, now: int, s: Pass, row: BookRow, h: string, x: Slot, same: bool)
    requires Paired(CoreSlot(s.data.At(h)), Replay(x, s.trace, h), same || Gone(s.trace, h))
    ensures var t := StatusRow(w, now, s, row);
            Paired(CoreSlot(t.data.At(h)), Replay(x, t.trace, h), same || Gone(t.trace, h))
  {
    StatusRowCases(w, now, s, row);
    if Tracked(s, row) {
      var rec := s.data.matches[row.hash];
      var act := StatusDecision(rec, row.readingStatus);
      ActTraffic(w, now, s, row, rec, act);
      if act.Send? {
        var e := StatusCall(w, now, s, row, rec, act.token);
        StatusCallObserved(w, now, s, row, act, h);
        if row.hash == h {
          SentPaired(w, now, s, row, h, x, same, e, StatusRow(w, now, s, row));
        } else {
          StatusRowKeeps(w, now, s, row, h);
          OtherPaired(s, h, x, same, e, StatusRow(w, now, s, row));
        }
      } else {
        SilentStatus(w, now, s, row, act, h);
      }
    }
  }

  lemma {:induction false} StatusPhasePaired(w: World, now: int, s: Pass, rows: seq<BookRow>, h: string, x: Slot,
                                             same: bool)
    requires Paired(CoreSlot(s.data.At(h)), Replay(x, s.trace, h), same || Gone(s.trace, h))
    ensures var t := StatusPhase(w, now, s, rows);
            Paired(CoreSlot(t.data.At(h)), Replay(x, t.trace, h), same || Gone(t.trace, h))
    decreases rows
  {
    if rows != [] && !s.fatal {
      StatusRowPaired(w, now, s, rows[0], h, x, same);
      StatusPhasePaired(w, now, StatusRow(w, now, s, rows[0]), rows[1..], h, x, same);
    }
  }

  /******* The whole pass *******/

  /** Moving the cursor touches neither map. */
  lemma CursorAside(w: World, cfg: Config, latch: bool, d: Data, rows: seq<BookRow>, h: string)
    ensures var t, s := RunPass(w, cfg, latch, d, rows), AfterStatus(w, cfg, Before(w, cfg, latch, d, rows), rows);
            t.data.At(h) == s.data.At(h) && t.trace == s.trace
  {
  }

  lemma BeforeIsQuiet(w: World, cfg: Config, latch: bool, d: Data, rows: seq<BookRow>, h: string)
    requires HonestPass(w, cfg, latch, d, rows)
    ensures var s, t := Before(w, cfg, latch, d, rows), RunPass(w, cfg, latch, d, rows);
            && Honest(s.trace) && !Gone(s.trace, h) && (Consistent(s.trace, h) <==> Consistent(t.trace, h))
  {
    var s := Before(w, cfg, latch, d, rows);
    StatusPhaseFrame(w, w.sync.clock(0), s, rows);
    HonestPrefix(s.trace, RunPass(w, cfg, latch, d, rows).trace);
    BeforeReached(w, cfg, latch, d, rows);
    NothingGoneYet(latch, s, h);
    StatusPhaseOnly(w, w.sync.clock(0), s, rows);
    StatusesSayNothing(s.trace, RunPass(w, cfg, latch, d, rows).trace, h);
  }

  /** After any pass, whatever failed in it, what the store says about a hash is the replay of the pass's traffic over
      what it said before, if and only if the answers about the hash were consistent or BookOrbit then said the book
      is gone. The cooldown is the replay in any case. */
  lemma StoreIsReplay(w: World, cfg: Config, latch: bool, d: Data, rows: seq<BookRow>, h: string)
    requires Distinct(Hashes(rows)) && HonestPass(w, cfg, latch, d, rows)
    ensures var t := RunPass(w, cfg, latch, d, rows);
            var reference := Replay(CoreSlot(d.At(h)), t.trace, h);
            && (CoreSlot(t.data.At(h)) == reference <==> Consistent(t.trace, h) || Gone(t.trace, h))
            && t.data.At(h).unmatched == reference.unmatched
  {
    var s := Before(w, cfg, latch, d, rows);
    BeforeIsQuiet(w, cfg, latch, d, rows, h);
    BeforePaired(w, cfg, latch, d, rows, h);
    CursorAside(w, cfg, latch, d, rows, h);
    if cfg.syncStatus {
      StatusPhasePaired(w, w.sync.clock(0), s, rows, h, CoreSlot(d.At(h)), Consistent(s.trace, h));
    }
  }

  /** And when they were consistent, every match-check and status call of the pass about it was justified when made. */
  lemma CallsAreJustified(w: World, cfg: Config, latch: bool, d: Data, rows: seq<BookRow>, h: string)
    requires Distinct(Hashes(rows)) && HonestPass(w, cfg, latch, d, rows)
    requires Consistent(RunPass(w, cfg, latch, d, rows).trace, h)
    ensures var t := RunPass(w, cfg, latch, d, rows); Follows(h, CoreSlot(d.At(h)), t.trace, t.data)
  {
    var s := Before(w, cfg, latch, d, rows);
    BeforeIsQuiet(w, cfg, latch, d, rows, h);
    BeforePaired(w, cfg, latch, d, rows, h);
    CursorAside(w, cfg, latch, d, rows, h);
    StatusPhaseFollows(w, w.sync.clock(0), s, rows, h, CoreSlot(d.At(h)));
  }

  /******* A hash that is matched once *******/

  lemma FewFates(w: World, cfg: Config, latch: bool, d: Data, rows: seq<BookRow>, h: string)
    requires Distinct(Hashes(rows)) && HonestPass(w, cfg, latch, d, rows)
    ensures var t := RunPass(w, cfg, latch, d, rows).trace;
            |FatesIn(t, h)| <= if MatchesIn(t, h) == [] then 1 else |MatchesIn(t, h)|
  {
    var s1, fs := PushPart(w, cfg, latch, d, rows, h);
  }

  /** The state when the progress phase begins, and the fates of the copies of h from there on. */
  lemma PushPart(w: World, cfg: Config, latch: bool, d: Data, rows: seq<BookRow>, h: string)
    returns (s1: Pass, fs: seq<Fate>)
    requires Distinct(Hashes(rows)) && HonestPass(w, cfg, latch, d, rows)
    ensures var s2, t := Before(w, cfg, latch, d, rows), RunPass(w, cfg, latch, d, rows);
            && s2 == AfterPush(w.sync, cfg, s1)
            && s1 == AtPush(w, cfg, latch, d, rows) && QueuedIn(h, s1)
            && Follows(h, CoreSlot(d.At(h)), s1.trace, s1.data)
            && (forall e :: e in s1.trace ==> !IsPush(e))
            && Met(h, CoreSlot(d.At(h)), s1, ItemsFor(s1.toPush, h), fs, s2)
            && FatesIn(t.trace, h) == fs && MatchesIn(t.trace, h) == MatchesIn(s1.trace, h)
  {
    var c, s0, s2;
    c, s0, s1, s2 := Assembled(w, cfg, latch, d, rows);
    var x := CoreSlot(d.At(h));
    BeforeIsQuiet(w, cfg, latch, d, rows, h);
    HonestPrefix(s1.trace, s2.trace);
    StartFollows(w, cfg, latch, d, rows, h);
    MatchPhaseFollows(w.sync, cfg, w.sync.clock(0), RowByHash(c.toMatch), s0, Hashes(c.toMatch), h, x);
    StartReached(latch, s0, rows);
    MatchPhaseReached(latch, w.sync, cfg, w.sync.clock(0), RowByHash(c.toMatch), s0, Hashes(c.toMatch));
    EarlyTrace(latch, s1);
    NoFates(s1.trace, h);
    fs := PushPhaseMet(w.sync, cfg, s1, s1.toPush, h, x);
    assert [] + fs == fs;
    StatusPhaseOnly(w, w.sync.clock(0), s2, rows);
    StatusesSayNothing(s2.trace, RunPass(w, cfg, latch, d, rows).trace, h);
  }

  /** Only what does not depend on the pushes. */
  lemma PushStart(w: World, cfg: Config, latch: bool, d: Data, rows: seq<BookRow>, h: string) returns (s1: Pass)
    requires Distinct(Hashes(rows)) && HonestPass(w, cfg, latch, d, rows)
    ensures Before(w, cfg, latch, d, rows) == AfterPush(w.sync, cfg, s1)
    ensures s1 == AtPush(w, cfg, latch, d, rows) && QueuedIn(h, s1) && Follows(h, CoreSlot(d.At(h)), s1.trace, s1.data)
    ensures forall e :: e in s1.trace ==> !IsPush(e)
  {
    var fs;
    s1, fs := PushPart(w, cfg, latch, d, rows, h);
  }

  /** The pass when the progress phase begins. */
  function AtPush(w: World, cfg: Config, latch: bool, d: Data, rows: seq<BookRow>): Pass {
    var c := Classification(w, cfg, d, rows);
    AfterMatch(w.sync, cfg, c, Started(c, latch, rows))
  }

  /** A hash that no answer matches twice is consistent, whatever becomes of its push. */
  lemma MatchedOnceIsConsistent(w: World, cfg: Config, latch: bool, d: Data, rows: seq<BookRow>, h: string)
    requires Distinct(Hashes(rows)) && HonestPass(w, cfg, latch, d, rows)
    requires |MatchesIn(RunPass(w, cfg, latch, d, rows).trace, h)| <= 1
    ensures Consistent(RunPass(w, cfg, latch, d, rows).trace, h)
  {
    var t := RunPass(w, cfg, latch, d, rows).trace;
    FewFates(w, cfg, latch, d, rows, h);
    OneCopyOneVoice(MatchesIn(t, h), FatesIn(t, h));
  }

  lemma OneCopyOneVoice(ms: seq<Match>, fs: seq<Fate>)
    requires |ms| <= 1 && |fs| <= 1
    ensures OneVoice(ms, fs)
  {
    if fs != [] {
      assert fs[..0] == [];
    }
  }

  /******* The queue *******/

  /** The queued items of a hash all carry the record in the store exactly when every entry that matched it names one
      book. An item that was not matched in this pass is alone. */
  ghost predicate CarriedExactly(y: Slot, mine: seq<PushItem>, ms: seq<Match>) {
    && (|mine| <= 1 || |mine| == |ms|)
    && (forall p :: p in mine ==> y.rec.Some? && !Unchanged(p.rec, p.pct))
    && ((forall p :: p in mine ==> y.rec == Some(p.rec)) <==>
        mine == [] || forall m :: m in ms ==> SameBook(m, ms[|ms| - 1]))
  }

  /** That is how the queue stands when the progress phase begins; only the answers decide. */
  lemma QueueCarriesTheStore(w: World, cfg: Config, latch: bool, d: Data, rows: seq<BookRow>, h: string)
    requires Distinct(Hashes(rows)) && HonestPass(w, cfg, latch, d, rows)
    ensures var s := AtPush(w, cfg, latch, d, rows);
            CarriedExactly(s.data.At(h), ItemsFor(s.toPush, h), MatchesIn(RunPass(w, cfg, latch, d, rows).trace, h))
  {
    var s, fs := PushPart(w, cfg, latch, d, rows, h);
    QueueCarries(h, MatchesIn(s.trace, h), s.data.At(h), ItemsFor(s.toPush, h));
  }

  lemma QueueCarries(h: string, ms: seq<Match>, y: Slot, mine: seq<PushItem>)
    requires Queued(h, ms, y, mine)
    ensures CarriedExactly(y, mine, ms)
  {
    if mine != [] && ms != [] {
      if forall p :: p in mine ==> y.rec == Some(p.rec) {
        forall m | m in ms ensures SameBook(m, ms[|ms| - 1]) {
          var i :| 0 <= i < |ms| && ms[i] == m;
          assert mine[i] in mine;
        }
      }
      if forall m :: m in ms ==> SameBook(m, ms[|ms| - 1]) {
        forall p | p in mine ensures y.rec == Some(p.rec) {
          var i :| 0 <= i < |mine| && mine[i] == p;
          assert ms[i] in ms;
        }
      }
    }
  }

  /******* Pushes *******/

  /** A push is justified when the reference has a record of the hash and its percentage has moved. */
  ghost predicate PushJustified(e: Event, h: string, x: Slot) {
    match e
    case Bulk(items, _, _) => forall i :: 0 <= i < |items| && items[i].hash == h ==> Ready(x, items[i].pct)
    case Update(item, _, _) => item.hash == h ==> Ready(x, item.pct)
    case _ => true
  }

  predicate Ready(x: Slot, pct: int) { x.rec.Some? && !Unchanged(x.rec.value, pct) }

  ghost predicate Pushes(e: Event, h: string) {
    match e
    case Bulk(items, _, _) => exists i :: 0 <= i < |items| && items[i].hash == h
    case Update(item, _, _) => item.hash == h
    case _ => false
  }

  ghost predicate NonZero(times: seq<int>) { forall i :: 0 <= i < |times| ==> times[i] != 0 }

  /** A push event whose items of hash h all carry one percentage, answered at times other than zero. */
  ghost predicate PushOf(e: Event, h: string, pct: int) {
    match e
    case Bulk(items, refused, times) =>
      && (forall i :: 0 <= i < |items| && items[i].hash == h ==> items[i].pct == pct)
      && (refused.Ok? ==> |times| == |items| && NonZero(times))
    case Update(item, done, time) => (item.hash == h ==> item.pct == pct) && (done.Ok? ==> time != 0)
    case _ => false
  }

  /** An acknowledged push changes nothing any more. */
  lemma {:induction false} ItemsReady(items: seq<Sent>, refused: seq<string>, times: seq<int>, h: string, x: Slot,
                                      pct: int)
    requires |times| == |items| && NonZero(times)
    requires forall i :: 0 <= i < |items| && items[i].hash == h ==> items[i].pct == pct
    ensures Ready(ObserveItems(items, refused, times, h, x), pct) <==>
              Ready(x, pct) && forall i :: 0 <= i < |items| ==> items[i].hash != h
    decreases items
  {
    if items != [] {
      var x1 := ObserveItem(items[0], refused, times[0], h, x);
      assert forall i :: 0 <= i < |items[1..]| ==> items[1..][i] == items[i + 1];
      ItemsReady(items[1..], refused, times[1..], h, x1, pct);
    }
  }

  lemma EventReady(e: Event, h: string, x: Slot, pct: int)
    requires PushOf(e, h, pct)
    ensures Ready(Observe(e, h, x), pct) <==> Ready(x, pct) && !Answers(e, h)
    ensures PushJustified(e, h, x) <==> (Pushes(e, h) ==> Ready(x, pct))
  {
    if e.Bulk? && e.refused.Ok? {
      ItemsReady(e.items, e.refused.value, e.times, h, x, pct);
    }
  }

  ghost predicate NoAnswer(es: seq<Event>, h: string) { forall e :: e in es && IsPush(e) ==> !Answers(e, h) }

  lemma {:induction false} StretchReady(es: seq<Event>, h: string, x: Slot, pct: int)
    requires Ready(x, pct) && forall e :: e in es ==> PushOf(e, h, pct)
    ensures Ready(Replay(x, es, h), pct) <==> NoAnswer(es, h)
  {
    if es != [] {
      var front, last := es[..|es| - 1], es[|es| - 1];
      assert last in es;
      StretchReady(front, h, x, pct);
      EventReady(last, h, Replay(x, front, h), pct);
      assert es == front + [last];
    }
  }

  /** No push of the hash follows one that was answered. */
  ghost predicate AnswersLast(es: seq<Event>, h: string) {
    forall j :: 0 <= j < |es| && Pushes(es[j], h) ==> NoAnswer(es[..j], h)
  }

  ghost predicate PushesJustified(es: seq<Event>, h: string, x: Slot) {
    forall j :: 0 <= j < |es| ==> PushJustified(es[j], h, Replay(x, es[..j], h))
  }

  /** Pushes are justified when made exactly when none follows an answer to the same hash. */
  lemma StretchJustified(es: seq<Event>, h: string, x: Slot, pct: int)
    requires Ready(x, pct) && forall e :: e in es ==> PushOf(e, h, pct)
    ensures PushesJustified(es, h, x) <==> AnswersLast(es, h)
  {
    forall j | 0 <= j < |es|
      ensures PushJustified(es[j], h, Replay(x, es[..j], h)) <==> (Pushes(es[j], h) ==> NoAnswer(es[..j], h))
    {
      assert es[j] in es;
      StretchReady(es[..j], h, x, pct);
      EventReady(es[j], h, Replay(x, es[..j], h), pct);
    }
  }

  lemma {:induction false} SentPcts(items: seq<PushItem>, h: string, pct: int)
    requires forall p :: p in ItemsFor(items, h) ==> p.pct == pct
    ensures forall i :: 0 <= i < |items| && ToSents(items)[i].hash == h ==> ToSents(items)[i].pct == pct
  {
    forall i | 0 <= i < |items| && items[i].hash == h ensures items[i].pct == pct {
      ListedAt(items, i);
    }
  }

  lemma {:induction false} ListedAt(items: seq<PushItem>, i: nat)
    requires i < |items|
    ensures items[i] in ItemsFor(items, items[i].hash)
  {
    if i > 0 {
      ListedAt(items[1..], i - 1);
    }
  }

  ghost predicate AddsPushesOf(a: Pass, b: Pass, h: string, pct: int) {
    a.trace <= b.trace && forall i :: |a.trace| <= i < |b.trace| ==> PushOf(b.trace[i], h, pct)
  }

  lemma {:induction false} SinglesPushOf(w: SyncWorld, s: Pass, items: seq<PushItem>, h: string, pct: int)
    requires TicksNonZero(w) && forall p :: p in ItemsFor(items, h) ==> p.pct == pct
    ensures AddsPushesOf(s, PushSingles(w, s, items), h, pct)
    decreases items
  {
    if items != [] {
      SingleTraffic(w, s, items[0]);
      SinglesPushOf(w, PushSingle(w, s, items[0]), items[1..], h, pct);
      if items[0].hash == h {
        assert items[0] in ItemsFor(items, h);
      }
    }
  }

  lemma BulkPushOf(w: SyncWorld, s: Pass, chunk: seq<PushItem>, h: string, pct: int)
    requires TicksNonZero(w) && forall p :: p in ItemsFor(chunk, h) ==> p.pct == pct
    ensures PushOf(Called(w, s, chunk).trace[|s.trace|], h, pct)
  {
    SentPcts(chunk, h, pct);
  }

  lemma ChunkPushOf(w: SyncWorld, s: Pass, chunk: seq<PushItem>, h: string, pct: int)
    requires TicksNonZero(w) && forall p :: p in ItemsFor(chunk, h) ==> p.pct == pct
    ensures AddsPushesOf(s, PushChunk(w, s, chunk), h, pct)
  {
    if s.bulkUnsupported {
      SinglesPushOf(w, s, chunk, h, pct);
    } else {
      BulkPushOf(w, s, chunk, h, pct);
      if w.bulk(|s.trace|) == Err(UnsupportedEndpoint) {
        SinglesPushOf(w, Called(w, s, chunk).(bulkUnsupported := true), chunk, h, pct);
      } else {
        BulkTrace(w, s, chunk);
      }
    }
  }

  lemma {:induction false} PhasePushOf(w: SyncWorld, cfg: Config, s: Pass, items: seq<PushItem>, h: string, pct: int)
    requires TicksNonZero(w) && forall p :: p in ItemsFor(items, h) ==> p.pct == pct
    ensures AddsPushesOf(s, PushPhase(w, cfg, s, items), h, pct)
    decreases |items|
  {
    if items != [] && !s.fatal {
      var k := Batch.ChunkLength(|items|, cfg.progressBatchSize);
      assert items == items[..k] + items[k..];
      ItemsForAppend(items[..k], items[k..], h);
      ChunkPushOf(w, s, items[..k], h, pct);
      PhasePushOf(w, cfg, PushChunk(w, s, items[..k]), items[k..], h, pct);
    }
  }

  /** Before and after a stretch of pushes there is none. */
  lemma InsideStretch(a: seq<Event>, es: seq<Event>, c: seq<Event>, h: string, x: Slot, j: nat)
    requires (forall e :: e in a ==> !IsPush(e)) && j < |es|
    ensures (a + es + c)[|a| + j] == es[j]
    ensures Replay(x, (a + es + c)[..|a| + j], h) == Replay(Replay(x, a, h), es[..j], h)
    ensures NoAnswer((a + es + c)[..|a| + j], h) <==> NoAnswer(es[..j], h)
  {
    assert (a + es + c)[..|a| + j] == a + es[..j];
    ReplayAppend(x, a, es[..j], h);
  }

  lemma OutsideStretch(a: seq<Event>, es: seq<Event>, c: seq<Event>, j: nat)
    requires (forall e :: e in a ==> !IsPush(e)) && forall e :: e in c ==> !IsPush(e)
    requires j < |a + es + c| && !(|a| <= j < |a + es|)
    ensures !IsPush((a + es + c)[j])
  {
    if j < |a| {
      assert (a + es + c)[j] in a;
    } else {
      assert (a + es + c)[j] in c;
    }
  }

  lemma AroundPushes(a: seq<Event>, es: seq<Event>, c: seq<Event>, h: string, x: Slot)
    requires (forall e :: e in a ==> !IsPush(e)) && forall e :: e in c ==> !IsPush(e)
    ensures PushesJustified(a + es + c, h, x) <==> PushesJustified(es, h, Replay(x, a, h))
    ensures AnswersLast(a + es + c, h) <==> AnswersLast(es, h)
  {
    var t := a + es + c;
    forall j | 0 <= j < |es|
      ensures PushJustified(t[|a| + j], h, Replay(x, t[..|a| + j], h)) <==>
                PushJustified(es[j], h, Replay(Replay(x, a, h), es[..j], h))
      ensures (Pushes(t[|a| + j], h) ==> NoAnswer(t[..|a| + j], h)) <==> (Pushes(es[j], h) ==> NoAnswer(es[..j], h))
    {
      InsideStretch(a, es, c, h, x, j);
    }
    forall j | 0 <= j < |t| && !(|a| <= j < |a + es|)
      ensures PushJustified(t[j], h, Replay(x, t[..j], h)) && !Pushes(t[j], h)
    {
      OutsideStretch(a, es, c, j);
    }
    if PushesJustified(es, h, Replay(x, a, h)) {
      forall j | 0 <= j < |t| ensures PushJustified(t[j], h, Replay(x, t[..j], h)) {
        if |a| <= j < |a + es| {
          var k := j - |a|;
          assert PushJustified(es[k], h, Replay(Replay(x, a, h), es[..k], h));
        }
      }
    }
    if AnswersLast(es, h) {
      forall j | 0 <= j < |t| && Pushes(t[j], h) ensures NoAnswer(t[..j], h) {
        if |a| <= j < |a + es| {
          var k := j - |a|;
          assert Pushes(es[k], h) ==> NoAnswer(es[..k], h);
        }
      }
    }
  }

  /** When every push of a hash was justified at its moment: exactly when none followed an answer to it. */
  lemma PushesJustifiedExactly(w: World, cfg: Config, latch: bool, d: Data, rows: seq<BookRow>, h: string)
    requires Distinct(Hashes(rows)) && HonestPass(w, cfg, latch, d, rows) && TicksNonZero(w.sync)
    ensures var t := RunPass(w, cfg, latch, d, rows).trace;
            PushesJustified(t, h, CoreSlot(d.At(h))) <==> AnswersLast(t, h)
  {
    var t, x := RunPass(w, cfg, latch, d, rows).trace, CoreSlot(d.At(h));
    var s1 := PushStart(w, cfg, latch, d, rows, h);
    var s2 := Before(w, cfg, latch, d, rows);
    PushPhaseAddsPushes(w.sync, cfg, s1, s1.toPush);
    var es := s2.trace[|s1.trace|..];
    var c := StatusStretch(w, cfg, latch, d, rows);
    assert s2.trace == s1.trace + es;
    AroundPushes(s1.trace, es, c, h, x);
    StretchDecides(w.sync, cfg, s1, s2, h, x, es);
  }

  lemma StatusStretch(w: World, cfg: Config, latch: bool, d: Data, rows: seq<BookRow>) returns (c: seq<Event>)
    ensures RunPass(w, cfg, latch, d, rows).trace == Before(w, cfg, latch, d, rows).trace + c
    ensures forall e :: e in c ==> !IsPush(e)
  {
    var s, t := Before(w, cfg, latch, d, rows).trace, RunPass(w, cfg, latch, d, rows).trace;
    StatusPhaseOnly(w, w.sync.clock(0), Before(w, cfg, latch, d, rows), rows);
    c := t[|s|..];
    forall e | e in c ensures !IsPush(e) {
      var i :| 0 <= i < |c| && c[i] == e;
      assert t[|s| + i].SetStatus?;
    }
  }

  lemma QueuedReady(h: string, ms: seq<Match>, y: Slot, mine: seq<PushItem>)
    requires Queued(h, ms, y, mine) && mine != []
    ensures Ready(CoreSlot(y), mine[0].pct)
    ensures forall p :: p in mine ==> p.pct == mine[0].pct
  {
  }

  lemma StretchDecides(w: SyncWorld, cfg: Config, s1: Pass, s2: Pass, h: string, x: Slot, es: seq<Event>)
    requires TicksNonZero(w) && QueuedIn(h, s1) && Tracks(h, x, s1.trace, s1.data)
    requires s2 == AfterPush(w, cfg, s1) && s1.trace <= s2.trace && es == s2.trace[|s1.trace|..]
    ensures PushesJustified(es, h, Replay(x, s1.trace, h)) <==> AnswersLast(es, h)
  {
    var mine := ItemsFor(s1.toPush, h);
    if mine == [] {
      StretchOf(w, cfg, s1, s2, h, 0, es);
      StretchOf(w, cfg, s1, s2, h, 1, es);
      NobodyPushes(es, h);
    } else {
      QueuedReady(h, MatchesIn(s1.trace, h), s1.data.At(h), mine);
      StretchOf(w, cfg, s1, s2, h, mine[0].pct, es);
      StretchJustified(es, h, Replay(x, s1.trace, h), mine[0].pct);
    }
  }

  lemma StretchOf(w: SyncWorld, cfg: Config, s1: Pass, s2: Pass, h: string, pct: int, es: seq<Event>)
    requires TicksNonZero(w) && forall p :: p in ItemsFor(s1.toPush, h) ==> p.pct == pct
    requires s2 == AfterPush(w, cfg, s1) && s1.trace <= s2.trace && es == s2.trace[|s1.trace|..]
    ensures forall e :: e in es ==> PushOf(e, h, pct)
  {
    PhasePushOf(w, cfg, s1, s1.toPush, h, pct);
    forall e | e in es ensures PushOf(e, h, pct) {
      var i :| 0 <= i < |es| && es[i] == e;
      assert PushOf(s2.trace[|s1.trace| + i], h, pct);
    }
  }

  lemma NobodyPushes(es: seq<Event>, h: string)
    requires forall e :: e in es ==> PushOf(e, h, 0) && PushOf(e, h, 1)
    ensures forall e :: e in es ==> !Pushes(e, h)
    ensures AnswersLast(es, h)
    ensures forall x :: PushesJustified(es, h, x)
  {
    forall e | e in es ensures !Pushes(e, h) {
      assert PushOf(e, h, 0) && PushOf(e, h, 1);
    }
    forall j | 0 <= j < |es| ensures !Pushes(es[j], h) {
      assert es[j] in es;
    }
  }
}
