/** The three ways the engine moves its cursor past a row it has not settled, and what a server that lists a hash
    twice can do. Each is a family of passes, followed by one concrete member. */
module Counterexamples {
  import opened Wrappers
  import opened Errors
  import opened Readest
  import opened State
  import opened SyncPass
  import opened Phases
  import opened NoLostUpdate
  import opened History
  import opened Settlement
  import opened Traffic
  import opened Bookkeeping
  import opened Runs
  import opened Fixpoint
  import Time

  /** A live pulled row above the cursor that has a percentage to push. */
  predicate Owed(d: Data, r: BookRow) {
    !r.IsDummy() && !r.IsDeleted() && r.Percentage().Some? && r.WatermarkMs() > d.watermarkMs >= 0
  }

  lemma OneRow(w: World, cfg: Config, d: Data, r: BookRow)
    requires !r.IsDummy()
    ensures Classification(w, cfg, d, [r]) == ClassifyRow(cfg, w.sync.clock(0), Classified(d, 0, [], []), r)
  {
    var c := ClassifyRow(cfg, w.sync.clock(0), Classified(d, 0, [], []), r);
    assert [r][1..] == [];
    assert Classify(cfg, w.sync.clock(0), c, [r][1..]) == c;
  }

  lemma OneRequest(w: World, cfg: Config, c: Classified, latch: bool, r: BookRow)
    requires c.toMatch == [r]
    ensures var s0 := Started(c, latch, [r]);
            var s := MatchChunk(w.sync, w.sync.clock(0), map[r.hash := r], s0, [r.hash]);
            AfterMatch(w.sync, cfg, c, s0) == s
  {
    var s0 := Started(c, latch, [r]);
    assert RowByHash([r]) == map[r.hash := r];
    assert Hashes([r]) == [r.hash];
    assert [r.hash][..1] == [r.hash] && [r.hash][1..] == [];
    assert AfterMatch(w.sync, cfg, c, s0) ==
           MatchPhase(w.sync, cfg, w.sync.clock(0), map[r.hash := r], s0, [r.hash]);
  }

  lemma OnePush(w: World, cfg: Config, s: Pass, p: PushItem)
    requires s.toPush == [p] && !s.fatal
    ensures AfterPush(w.sync, cfg, s) == PushChunk(w.sync, s, [p])
  {
    assert [p][..1] == [p] && [p][1..] == [];
    var t := PushChunk(w.sync, s, [p]);
    assert PushPhase(w.sync, cfg, t, [p][1..]) == t;
  }

  /** An Unauthorized match-check answer ends the pass with the cursor past a row that is in neither map
      (internal/sync/engine.go:303-306, 355-357). */
  lemma UnauthorizedCheckLosesRow(w: World, cfg: Config, latch: bool, d: Data, r: BookRow)
    requires Owed(d, r) && d.At(r.hash) == NO_SLOT
    requires w.sync.matching(1) == Err(Unauthorized)
    ensures var t := RunPass(w, cfg, latch, d, [r]);
            t.data.watermarkMs == r.WatermarkMs() && !Settled(t.data, r)
  {
    OneRow(w, cfg, d, r);
    var c := Classification(w, cfg, d, [r]);
    assert VerdictOf(cfg, w.sync.clock(0), d, r).Resolve?;
    assert c.toMatch == [r] && c.toPush == [];
    OneRequest(w, cfg, c, latch, r);
    var s1 := AfterMatch(w.sync, cfg, c, Started(c, latch, [r]));
    assert s1.fatal && s1.data == d;
    assert AfterStatus(w, cfg, s1, [r]) == s1;
  }

  /** The same for the bulk push of a row whose percentage has moved (internal/sync/engine.go:370-372, 583-585). */
  lemma UnauthorizedBulkLosesRow(w: World, cfg: Config, d: Data, r: BookRow)
    requires Owed(d, r) && r.hash !in d.unmatched
    requires r.hash in d.matches && !Unchanged(d.matches[r.hash], r.Percentage().value)
    requires w.sync.bulk(1) == Err(Unauthorized)
    ensures var t := RunPass(w, cfg, false, d, [r]);
            t.data.watermarkMs == r.WatermarkMs() && !Settled(t.data, r)
  {
    OneRow(w, cfg, d, r);
    var c := Classification(w, cfg, d, [r]);
    var p := ItemFor(r.hash, r, d.matches[r.hash], r.Percentage().value, w.sync.clock(0));
    assert VerdictOf(cfg, w.sync.clock(0), d, r) == Push(p);
    assert c.toMatch == [] && c.toPush == [p];
    var s0 := Started(c, false, [r]);
    assert AfterMatch(w.sync, cfg, c, s0) == s0;
    OnePush(w, cfg, s0, p);
    var s2 := AfterPush(w.sync, cfg, s0);
    assert s2.fatal && s2.data == d;
    assert AfterStatus(w, cfg, s2, [r]) == s2;
  }

  /** A failed UpdateProgress is reported but not counted as failed (internal/sync/engine.go:634-637). */
  lemma FailedUpdateLosesRow(w: World, cfg: Config, d: Data, r: BookRow)
    requires Owed(d, r) && r.hash !in d.unmatched && !cfg.syncStatus
    requires r.hash in d.matches && !Unchanged(d.matches[r.hash], r.Percentage().value)
    requires w.sync.update(1).Err?
    ensures var t := RunPass(w, cfg, true, d, [r]);
            t.data.watermarkMs == r.WatermarkMs() && !Settled(t.data, r) && t.errs != []
  {
    OneRow(w, cfg, d, r);
    var c := Classification(w, cfg, d, [r]);
    var p := ItemFor(r.hash, r, d.matches[r.hash], r.Percentage().value, w.sync.clock(0));
    assert VerdictOf(cfg, w.sync.clock(0), d, r) == Push(p);
    assert c.toMatch == [] && c.toPush == [p];
    var s0 := Started(c, true, [r]);
    assert AfterMatch(w.sync, cfg, c, s0) == s0;
    OnePush(w, cfg, s0, p);
    assert PushSingles(w.sync, s0, [p]) == PushSingle(w.sync, s0, p);
    assert AfterPush(w.sync, cfg, s0).data == d;
  }

  /** A failed status push moves the cursor on, so the next pull, above the new cursor, does not bring the row back
      and the next pass makes no call for it (internal/sync/engine.go:480-486). */
  lemma FailedStatusIsForgotten(w: World, again: World, cfg: Config, d: Data, r: BookRow)
    requires !r.IsDummy() && !r.IsDeleted() && r.progress.None? && r.WatermarkMs() > d.watermarkMs >= 0
    requires r.readingStatus == "finished" && cfg.syncStatus
    requires r.hash in d.matches && d.matches[r.hash].lastPushedStatus == ""
    requires w.status(1) == Err(Server)
    ensures var t := RunPass(w, cfg, false, d, [r]);
            && t.errs == [Failure(SetReadStatusOp, Server)]
            && t.data == d.(watermarkMs := r.WatermarkMs())
            && PullAnswer(map[r.hash := r], t.data.watermarkMs, [])
            && RunPass(again, cfg, false, t.data, []).trace == [Pulled([])]
            && RunPass(again, cfg, false, t.data, []).data.matches[r.hash].lastPushedStatus == ""
  {
    OneRow(w, cfg, d, r);
    var c := Classification(w, cfg, d, [r]);
    var s0 := Started(c, false, [r]);
    assert VerdictOf(cfg, w.sync.clock(0), d, r).Leave?;
    assert AfterPush(w.sync, cfg, AfterMatch(w.sync, cfg, c, s0)) == s0;
    var s3 := StatusRow(w, w.sync.clock(0), s0, r);
    assert [r][1..] == [];
    assert StatusPhase(w, w.sync.clock(0), s3, [r][1..]) == s3;
    assert AfterStatus(w, cfg, s0, [r]) == s3;
    assert s3.data == d;
    IdlePass(again, cfg, false, RunPass(w, cfg, false, d, [r]).data, []);
  }

  /** An answer that lists a hash both as matched and as unmatched, and a bulk push that is then acknowledged, leave
      the hash in both maps. */
  lemma DoubleListedStaysInBoth(w: World, cfg: Config, d: Data, r: BookRow, m: Match)
    requires Owed(d, r) && d.At(r.hash) == NO_SLOT && !cfg.syncStatus && m.hash == r.hash
    requires w.sync.matching(1) == Ok(MatchResponse([m], [r.hash]))
    requires w.sync.bulk(2) == Ok([])
    ensures var t := RunPass(w, cfg, false, d, [r]);
            r.hash in t.data.matches && r.hash in t.data.unmatched && t.errs == []
  {
    OneRow(w, cfg, d, r);
    var now := w.sync.clock(0);
    var c := Classification(w, cfg, d, [r]);
    assert VerdictOf(cfg, now, d, r).Resolve?;
    assert c.toMatch == [r] && c.toPush == [];
    OneRequest(w, cfg, c, false, r);
    var s0 := Started(c, false, [r]);
    var s1 := AfterMatch(w.sync, cfg, c, s0);
    DoubleListed(w.sync, now, s0, r, m);
    var p := ItemFor(r.hash, r, NewRecord(m.bookFileId, m.bookId), r.Percentage().value, now);
    OnePush(w, cfg, s1, p);
    var s2 := PushChunk(w.sync, s1, [p]);
    assert [p][1..] == [];
    var called := s1.Log(Bulk(ToSents([p]), Ok([]), Times(w.sync, s1.ticks, 1)));
    assert s2 == AckItems(w.sync, called, [p], []) == AckItem(w.sync, called, p, []);
  }

  lemma DoubleListed(w: SyncWorld, now: int, s: Pass, r: BookRow, m: Match)
    requires m.hash == r.hash && r.Percentage().Some? && s.toPush == [] && |s.trace| == 1 && !s.fatal
    requires w.matching(1) == Ok(MatchResponse([m], [r.hash]))
    ensures var p := ItemFor(r.hash, r, NewRecord(m.bookFileId, m.bookId), r.Percentage().value, now);
            var t := MatchChunk(w, now, map[r.hash := r], s, [r.hash]);
            && t == s.(trace := t.trace, toPush := [p], data := t.data) && |t.trace| == 2
            && r.hash in t.data.unmatched
  {
    var found := MatchResponse([m], [r.hash]);
    var byHash := map[r.hash := r];
    var s1 := s.Log(MatchCheck([r.hash], Ok(found), now));
    assert [m][1..] == [];
    assert AddMatches(byHash, now, s1, [m]) == AddMatch(byHash, now, s1, m);
    FoundSlot(byHash, now, s1, [r.hash], found, r.hash);
  }

  /******* A hash that one answer matches twice *******/

  function CopyOf(r: BookRow, m: Match, now: int): PushItem
    requires r.Percentage().Some?
  {
    ItemFor(r.hash, r, NewRecord(m.bookFileId, m.bookId), r.Percentage().value, now)
  }

  /** The answer lists one hash in two library books; the engine queues a push for each. */
  ghost predicate MatchedTwice(w: SyncWorld, r: BookRow, m: Match, n: Match) {
    m.hash == r.hash && n.hash == r.hash && w.matching(1) == Ok(MatchResponse([m, n], []))
  }

  lemma TwoMatches(byHash: map<string, BookRow>, now: int, s: Pass, m: Match, n: Match)
    ensures AddMatches(byHash, now, s, [m, n]) == AddMatch(byHash, now, AddMatch(byHash, now, s, m), n)
  {
    var s1 := AddMatch(byHash, now, s, m);
    assert [m, n][1..] == [n] && [n][1..] == [];
    assert AddMatches(byHash, now, AddMatch(byHash, now, s1, n), []) == AddMatch(byHash, now, s1, n);
    assert AddMatches(byHash, now, s1, [n]) == AddMatch(byHash, now, s1, n);
  }

  lemma LaterMatch(m: Match, n: Match)
    ensures MatchFor([m, n], n.hash) == Some(n)
  {
    assert [m, n][1..] == [n] && [n][1..] == [];
    assert MatchFor([n], n.hash) == Some(n);
  }

  lemma BothQueued(w: SyncWorld, now: int, s: Pass, r: BookRow, m: Match, n: Match)
    requires MatchedTwice(w, r, m, n) && r.Percentage().Some? && s.toPush == [] && |s.trace| == 1
    ensures var t := MatchChunk(w, now, map[r.hash := r], s, [r.hash]);
            && t.trace == s.trace + [MatchCheck([r.hash], w.matching(1), now)]
            && t == s.(trace := t.trace, toPush := [CopyOf(r, m, now), CopyOf(r, n, now)], data := t.data)
            && t.data.At(r.hash) == Slot(Some(NewRecord(n.bookFileId, n.bookId)), None)
  {
    var found := MatchResponse([m, n], []);
    var byHash := map[r.hash := r];
    var s1 := s.Log(MatchCheck([r.hash], Ok(found), now));
    TwoMatches(byHash, now, s1, m, n);
    LaterMatch(m, n);
    FoundSlot(byHash, now, s1, [r.hash], found, r.hash);
  }

  lemma TwoPushes(w: World, cfg: Config, s: Pass, p: PushItem, q: PushItem)
    requires s.toPush == [p, q] && !s.fatal && cfg.progressBatchSize == 1 && !PushChunk(w.sync, s, [p]).fatal
    ensures AfterPush(w.sync, cfg, s) == PushChunk(w.sync, PushChunk(w.sync, s, [p]), [q])
  {
    var t := PushChunk(w.sync, s, [p]);
    assert [p, q][..1] == [p] && [p, q][1..] == [q] && [q][..1] == [q] && [q][1..] == [];
    assert PushPhase(w.sync, cfg, PushChunk(w.sync, t, [q]), []) == PushChunk(w.sync, t, [q]);
    assert PushPhase(w.sync, cfg, t, [q]) == PushChunk(w.sync, t, [q]);
  }

  /** A bulk call for one item that is answered. */
  lemma OneAnswer(w: SyncWorld, s: Pass, p: PushItem, refused: seq<string>)
    requires !s.bulkUnsupported && w.bulk(|s.trace|) == Ok(refused)
    ensures var t := PushChunk(w, s, [p]);
            && t == s.(data := t.data, trace := Called(w, s, [p]).trace, ticks := s.ticks + 1)
            && |t.trace| == |s.trace| + 1
            && t.data.At(p.hash) == if p.hash in refused then Slot(None, Some(w.clock(s.ticks)))
                                    else Slot(Some(Pushed(p.rec, p.pct, w.clock(s.ticks))), s.data.At(p.hash).unmatched)
  {
    var s1 := Called(w, s, [p]);
    assert [p][1..] == [];
    assert AckItems(w, s1, [p], refused) == AckItem(w, s1, p, refused);
  }

  lemma OneFailure(w: SyncWorld, s: Pass, p: PushItem)
    requires !s.bulkUnsupported && w.bulk(|s.trace|) == Err(Server)
    ensures PushChunk(w, s, [p]).data == s.data && PushChunk(w, s, [p]).trace == Called(w, s, [p]).trace
  {
  }

  /** The pass before its pushes. */
  lemma TwiceQueued(w: World, cfg: Config, d: Data, r: BookRow, m: Match, n: Match) returns (s: Pass)
    requires Owed(d, r) && d.At(r.hash) == NO_SLOT && MatchedTwice(w.sync, r, m, n)
    ensures var now := w.sync.clock(0);
            && s == AtPush(w, cfg, false, d, [r]) && Before(w, cfg, false, d, [r]) == AfterPush(w.sync, cfg, s)
            && s.trace == [Pulled([r]), MatchCheck([r.hash], w.sync.matching(1), now)]
            && s.toPush == [CopyOf(r, m, now), CopyOf(r, n, now)] && !s.fatal && !s.bulkUnsupported && s.errs == []
            && s.data.At(r.hash) == Slot(Some(NewRecord(n.bookFileId, n.bookId)), None)
  {
    OneRow(w, cfg, d, r);
    var c := Classification(w, cfg, d, [r]);
    assert VerdictOf(cfg, w.sync.clock(0), d, r).Resolve?;
    assert c.toMatch == [r] && c.toPush == [];
    OneRequest(w, cfg, c, false, r);
    BothQueued(w.sync, w.sync.clock(0), Started(c, false, [r]), r, m, n);
    s := AfterMatch(w.sync, cfg, c, Started(c, false, [r]));
  }

  /** One file in two library books: the first queued push carries a record that is not the stored one; it is
      acknowledged, the push of the second fails, and the store names the first book although the match-check listed
      the second last. The replay of the traffic names the second. */
  lemma MatchedTwiceParts(w: World, cfg: Config, d: Data, r: BookRow, m: Match, n: Match)
    requires Owed(d, r) && d.At(r.hash) == NO_SLOT && MatchedTwice(w.sync, r, m, n) && m.bookId != n.bookId
    requires cfg.progressBatchSize == 1 && !cfg.syncStatus
    requires w.sync.bulk(2) == Ok([]) && w.sync.bulk(3) == Err(Server)
    ensures var s := AtPush(w, cfg, false, d, [r]);
            |s.toPush| == 2 && s.toPush[0].hash == r.hash && s.data.At(r.hash).rec.Some?
              && s.toPush[0].rec != s.data.At(r.hash).rec.value
    ensures var t := RunPass(w, cfg, false, d, [r]);
            && t.data.At(r.hash).rec.Some? && t.data.At(r.hash).rec.value.bookId == m.bookId
            && Replay(NO_SLOT, t.trace, r.hash).rec.Some?
            && Replay(NO_SLOT, t.trace, r.hash).rec.value.bookId == n.bookId
  {
    var now := w.sync.clock(0);
    var s := TwiceQueued(w, cfg, d, r, m, n);
    var p, q := CopyOf(r, m, now), CopyOf(r, n, now);
    OneAnswer(w.sync, s, p, []);
    var s1 := PushChunk(w.sync, s, [p]);
    TwoPushes(w, cfg, s, p, q);
    OneFailure(w.sync, s1, q);
    CursorAside(w, cfg, false, d, [r], r.hash);
    MatchedAtStart(s.trace, r, m, n, now);
    CalledKeepsBook(w.sync, s, p, r.hash);
    CalledKeepsBook(w.sync, s1, q, r.hash);
  }

  lemma CalledKeepsBook(w: SyncWorld, s: Pass, p: PushItem, h: string)
    requires w.bulk(|s.trace|).Ok? ==> w.bulk(|s.trace|).value == []
    requires Replay(NO_SLOT, s.trace, h).rec.Some?
    ensures var x := Replay(NO_SLOT, Called(w, s, [p]).trace, h).rec;
            x.Some? && x.value.bookId == Replay(NO_SLOT, s.trace, h).rec.value.bookId
  {
    PushKeepsBook(s.trace, Called(w, s, [p]).trace[|s.trace|], h);
  }

  lemma MatchedAtStart(trace: seq<Event>, r: BookRow, m: Match, n: Match, now: int)
    requires trace == [Pulled([r]), MatchCheck([r.hash], Ok(MatchResponse([m, n], [])), now)]
             && m.hash == n.hash == r.hash
    requires !r.IsDeleted()
    ensures Replay(NO_SLOT, trace, r.hash) == Slot(Some(NewRecord(n.bookFileId, n.bookId)), None)
  {
    var e := trace[1];
    assert trace == [trace[0]] + [e];
    ReplaySnoc(NO_SLOT, [trace[0]], e, r.hash);
    AnsweredTwice(e, m, n, r.hash, Replay(NO_SLOT, [trace[0]], r.hash));
  }

  lemma AnsweredTwice(e: Event, m: Match, n: Match, h: string, x: Slot)
    requires e.MatchCheck? && e.found == Ok(MatchResponse([m, n], [])) && n.hash == h
    ensures Observe(e, h, x) == Slot(Some(NewRecord(n.bookFileId, n.bookId)), None)
  {
    LaterMatch(m, n);
  }

  /** A push, answered without a refusal or failed, leaves the book of the replayed record alone. */
  lemma PushKeepsBook(trace: seq<Event>, e: Event, h: string)
    requires e.Bulk? && (e.refused.Ok? ==> e.refused.value == [])
    requires Replay(NO_SLOT, trace, h).rec.Some?
    ensures var x := Replay(NO_SLOT, trace + [e], h).rec;
            x.Some? && x.value.bookId == Replay(NO_SLOT, trace, h).rec.value.bookId
  {
    ReplaySnoc(NO_SLOT, trace, e, h);
    if e.refused.Ok? {
      ItemsKeepBook(e.items, e.times, h, Replay(NO_SLOT, trace, h));
    }
  }

  lemma {:induction false} ItemsKeepBook(items: seq<Sent>, times: seq<int>, h: string, x: Slot)
    requires x.rec.Some?
    ensures var y := ObserveItems(items, [], times, h, x).rec; y.Some? && y.value.bookId == x.rec.value.bookId
    decreases items
  {
    if items != [] && times != [] {
      ItemsKeepBook(items[1..], times[1..], h, ObserveItem(items[0], [], times[0], h, x));
    }
  }

  /** The first push is refused and the second acknowledged: the hash stays in both maps. */
  lemma MatchedTwiceStaysInBoth(w: World, cfg: Config, d: Data, r: BookRow, m: Match, n: Match)
    requires Owed(d, r) && d.At(r.hash) == NO_SLOT && MatchedTwice(w.sync, r, m, n)
    requires cfg.progressBatchSize == 1 && !cfg.syncStatus
    requires w.sync.bulk(2) == Ok([r.hash]) && w.sync.bulk(3) == Ok([])
    ensures var t := RunPass(w, cfg, false, d, [r]);
            r.hash in t.data.matches && r.hash in t.data.unmatched && t.errs == []
  {
    var now := w.sync.clock(0);
    var s := TwiceQueued(w, cfg, d, r, m, n);
    var p, q := CopyOf(r, m, now), CopyOf(r, n, now);
    OneAnswer(w.sync, s, p, [r.hash]);
    var s1 := PushChunk(w.sync, s, [p]);
    OneAnswer(w.sync, s1, q, []);
    TwoPushes(w, cfg, s, p, q);
    CursorAside(w, cfg, false, d, [r], r.hash);
  }

  /******* One concrete member of each family *******/

  const CFG := Config(10, 10, 3600, false)
  const ROW := BookRow("a", Some(Progress(1.0, 2.0)), At(5000), Empty, At(5000), "")
  const TRACKED := NEW_DATA.SetMatch("a", NewRecord(1, 2))

  function Answering(check: Result<MatchResponse, BookOrbitError>, bulk: Result<seq<string>, BookOrbitError>,
                     update: Result<(), BookOrbitError>): World
  {
    World(SyncWorld(_ => check, _ => bulk, _ => update, _ => 1), _ => Ok(()))
  }

  lemma RowIsOwed()
    ensures ROW.WatermarkMs() == 5000 && ROW.Percentage() == Some(50000)
    ensures Owed(NEW_DATA, ROW) && Owed(TRACKED, ROW)
  {
    WatermarkIsLatest(ROW);
    assert Time.Ratio(1.0, 2.0) == 0.5;
    assert |ROW.hash| != |DUMMY_HASH|;
  }

  /** One book read halfway, one answer each, and the cursor stands at 5000 with the book unsettled. */
  lemma ConcreteLosses()
    ensures var t := RunPass(Answering(Err(Unauthorized), Ok([]), Ok(())), CFG, false, NEW_DATA, [ROW]);
            t.data.watermarkMs == 5000 && !Settled(t.data, ROW)
    ensures var t := RunPass(Answering(Err(Server), Err(Unauthorized), Ok(())), CFG, false, TRACKED, [ROW]);
            t.data.watermarkMs == 5000 && !Settled(t.data, ROW)
    ensures var t := RunPass(Answering(Err(Server), Ok([]), Err(Network)), CFG, true, TRACKED, [ROW]);
            t.data.watermarkMs == 5000 && !Settled(t.data, ROW)
  {
    RowIsOwed();
    UnauthorizedCheckLosesRow(Answering(Err(Unauthorized), Ok([]), Ok(())), CFG, false, NEW_DATA, ROW);
    UnauthorizedBulkLosesRow(Answering(Err(Server), Err(Unauthorized), Ok(())), CFG, TRACKED, ROW);
    FailedUpdateLosesRow(Answering(Err(Server), Ok([]), Err(Network)), CFG, TRACKED, ROW);
  }

  const ONE_BY_ONE := Config(10, 1, 3600, false)

  /** The match-check lists the book twice; the second and the third call are the two pushes. */
  function Twice(second: Result<seq<string>, BookOrbitError>, third: Result<seq<string>, BookOrbitError>): World {
    World(SyncWorld(_ => Ok(MatchResponse([Match("a", 11, 1), Match("a", 22, 2)], [])),
                    n => if n == 2 then second else third, _ => Ok(()), _ => 1), _ => Ok(()))
  }

  lemma ConcreteTwice()
    ensures var t := RunPass(Twice(Ok([]), Err(Server)), ONE_BY_ONE, false, NEW_DATA, [ROW]);
            t.data.At("a").rec.Some? && t.data.At("a").rec.value.bookId == 1
    ensures var t := RunPass(Twice(Ok(["a"]), Ok([])), ONE_BY_ONE, false, NEW_DATA, [ROW]);
            "a" in t.data.matches && "a" in t.data.unmatched
  {
    RowIsOwed();
    MatchedTwiceParts(Twice(Ok([]), Err(Server)), ONE_BY_ONE, NEW_DATA, ROW, Match("a", 11, 1), Match("a", 22, 2));
    MatchedTwiceStaysInBoth(Twice(Ok(["a"]), Ok([])), ONE_BY_ONE, NEW_DATA, ROW, Match("a", 11, 1), Match("a", 22, 2));
  }
}
