/** What goes out: every call of a pass says what a pulled row says, and is made exactly when it is due. */
module Sending {
  import opened Wrappers
  import opened Batch
  import opened Readest
  import opened Rows
  import opened State
  import opened SyncPass
  import opened Projection
  import opened Phases
  import opened StatusChannel
  import opened Settlement
  import opened Traffic
  import opened NoLostUpdate
  import opened Consequences

  predicate Live(r: BookRow) { !r.IsDummy() && !Tombstone(r) }

  /******* Every push is the percentage and time of a pulled row *******/

  predicate Tells(now: int, r: BookRow, s: Sent) {
    Live(r) && r.hash == s.hash && Shows(r, s.pct) && Dates(r.updatedAt, now, s.ts)
  }

  lemma ItemTells(now: int, r: BookRow, rec: MatchRecord, pct: int)
    requires Live(r) && r.Percentage() == Some(pct)
    ensures Tells(now, r, ItemFor(r.hash, r, rec, pct, now).ToSent())
  {
    PercentageIsShown(r, pct);
    UpdatedIsDated(r, now);
  }

  ghost predicate FromRow(now: int, rows: seq<BookRow>, s: Sent) { exists r :: r in rows && Tells(now, r, s) }

  ghost predicate AllFrom(now: int, rows: seq<BookRow>, items: seq<PushItem>) {
    forall p :: p in items ==> FromRow(now, rows, p.ToSent())
  }

  ghost predicate LiveIn(rows: seq<BookRow>, some: seq<BookRow>) { forall r :: r in some ==> r in rows && Live(r) }

  lemma ClassifyRowFrom(cfg: Config, now: int, c: Classified, r: BookRow, rows: seq<BookRow>)
    requires r in rows && AllFrom(now, rows, c.toPush) && LiveIn(rows, c.toMatch)
    ensures var n := ClassifyRow(cfg, now, c, r); AllFrom(now, rows, n.toPush) && LiveIn(rows, n.toMatch)
  {
    var v := VerdictOf(cfg, now, c.data, r);
    if !r.IsDummy() && v.Push? {
      ItemTells(now, r, c.data.matches[r.hash], r.Percentage().value);
      assert Tells(now, r, v.item.ToSent());
    }
  }

  lemma {:induction false} ClassifyFrom(cfg: Config, now: int, c: Classified, part: seq<BookRow>, rows: seq<BookRow>)
    requires (forall r :: r in part ==> r in rows) && AllFrom(now, rows, c.toPush) && LiveIn(rows, c.toMatch)
    ensures var n := Classify(cfg, now, c, part); AllFrom(now, rows, n.toPush) && LiveIn(rows, n.toMatch)
    decreases part
  {
    if part != [] {
      ClassifyRowFrom(cfg, now, c, part[0], rows);
      ClassifyFrom(cfg, now, ClassifyRow(cfg, now, c, part[0]), part[1..], rows);
    }
  }

  ghost predicate MapFrom(rows: seq<BookRow>, byHash: map<string, BookRow>) {
    forall h :: h in byHash ==> byHash[h] in rows && Live(byHash[h]) && byHash[h].hash == h
  }

  lemma AddMatchFrom(byHash: map<string, BookRow>, now: int, s: Pass, m: Match, rows: seq<BookRow>)
    requires MapFrom(rows, byHash) && AllFrom(now, rows, s.toPush)
    ensures AllFrom(now, rows, AddMatch(byHash, now, s, m).toPush)
  {
    if m.hash in byHash && byHash[m.hash].Percentage().Some? {
      var r := byHash[m.hash];
      ItemTells(now, r, NewRecord(m.bookFileId, m.bookId), r.Percentage().value);
      assert FromRow(now, rows, ItemFor(m.hash, r, NewRecord(m.bookFileId, m.bookId), r.Percentage().value,
                                        now).ToSent());
    }
  }

  lemma {:induction false} AddMatchesFrom(byHash: map<string, BookRow>, now: int, s: Pass, found: seq<Match>,
                                          rows: seq<BookRow>)
    requires MapFrom(rows, byHash) && AllFrom(now, rows, s.toPush)
    ensures AllFrom(now, rows, AddMatches(byHash, now, s, found).toPush)
    decreases found
  {
    if found != [] {
      AddMatchFrom(byHash, now, s, found[0], rows);
      AddMatchesFrom(byHash, now, AddMatch(byHash, now, s, found[0]), found[1..], rows);
    }
  }

  lemma {:induction false} MatchPhaseFrom(w: SyncWorld, cfg: Config, now: int, byHash: map<string, BookRow>, s: Pass,
                                          hashes: seq<string>, rows: seq<BookRow>)
    requires forall h :: h in hashes ==> h in byHash
    requires MapFrom(rows, byHash) && AllFrom(now, rows, s.toPush)
    ensures AllFrom(now, rows, MatchPhase(w, cfg, now, byHash, s, hashes).toPush)
    decreases |hashes|
  {
    if hashes != [] && !s.fatal {
      var k := ChunkLength(|hashes|, cfg.matchBatchSize);
      var found := w.matching(|s.trace|);
      if found.Ok? {
        AddMatchesFrom(byHash, now, s.Log(MatchCheck(hashes[..k], found, now)), found.value.matches, rows);
      }
      MatchPhaseFrom(w, cfg, now, byHash, MatchChunk(w, now, byHash, s, hashes[..k]), hashes[k..], rows);
    }
  }

  lemma QueueFrom(w: World, cfg: Config, latch: bool, d: Data, rows: seq<BookRow>)
    ensures AllFrom(w.sync.clock(0), rows, Queue(w, cfg, latch, d, rows))
  {
    var c := Classification(w, cfg, d, rows);
    var now := w.sync.clock(0);
    ClassifyFrom(cfg, now, Classified(d, 0, [], []), rows, rows);
    MatchPhaseFrom(w.sync, cfg, now, RowByHash(c.toMatch), Started(c, latch, rows), Hashes(c.toMatch), rows);
  }

  /** Every progress push of a pass carries the hash, the percentage and the update time of one live pulled row. */
  lemma EveryPushIsARow(w: World, cfg: Config, latch: bool, d: Data, rows: seq<BookRow>, s: Sent)
    requires s in AttemptsIn(RunPass(w, cfg, latch, d, rows).trace)
    ensures FromRow(w.sync.clock(0), rows, s)
  {
    var queue := Queue(w, cfg, latch, d, rows);
    var asked, sent := DispatchConserved(w, cfg, latch, d, rows);
    QueueFrom(w, cfg, latch, d, rows);
    var i :| 0 <= i < sent && ToSents(queue[..sent])[i] == s;
    assert queue[i].ToSent() == s && queue[i] in queue;
  }

  /******* A matched row is pushed exactly when it has moved *******/

  function SentFor(sents: seq<Sent>, h: string): seq<Sent> {
    if sents == [] then []
    else (if sents[0].hash == h then [sents[0]] else []) + SentFor(sents[1..], h)
  }

  lemma {:induction false} SentForItems(items: seq<PushItem>, h: string)
    ensures SentFor(ToSents(items), h) == ToSents(ItemsFor(items, h))
  {
    if items != [] {
      SentForItems(items[1..], h);
      assert ToSents(items) == [items[0].ToSent()] + ToSents(items[1..]);
      ToSentsAppend([items[0]], ItemsFor(items[1..], h));
      assert ToSents([items[0]]) == [items[0].ToSent()];
    }
  }

  lemma NotQueuedForCheck(w: World, cfg: Config, d: Data, rows: seq<BookRow>, r: BookRow)
    requires Distinct(Hashes(rows)) && r in rows && !r.IsDummy() && r.hash in d.matches
    ensures var c, v := Classification(w, cfg, d, rows), VerdictOf(cfg, w.sync.clock(0), d, r);
            r.hash !in Hashes(c.toMatch) && ItemsFor(c.toPush, r.hash) == if v.Push? then [v.item] else []
  {
    ClassifyHit(cfg, w.sync.clock(0), Classified(d, 0, [], []), rows, r);
    assert r.hash !in multiset(Hashes(Classification(w, cfg, d, rows).toMatch));
  }

  /** The queued items of a row that was matched before the pass. */
  lemma MatchedRowQueued(w: World, cfg: Config, latch: bool, d: Data, rows: seq<BookRow>, r: BookRow)
    requires Distinct(Hashes(rows)) && r in rows && !r.IsDummy() && r.hash in d.matches
    requires HonestPass(w, cfg, latch, d, rows)
    ensures var v := VerdictOf(cfg, w.sync.clock(0), d, r);
            ItemsFor(Queue(w, cfg, latch, d, rows), r.hash) == if v.Push? then [v.item] else []
  {
    var c, s0, s1, s2 := Assembled(w, cfg, latch, d, rows);
    var now := w.sync.clock(0);
    StatusPhaseFrame(w, now, s2, rows);
    HonestPrefix(s2.trace, RunPass(w, cfg, latch, d, rows).trace);
    HonestPrefix(s1.trace, s2.trace);
    NotQueuedForCheck(w, cfg, d, rows, r);
    MatchPhaseForeign(w.sync, cfg, now, RowByHash(c.toMatch), s0, Hashes(c.toMatch), r.hash);
  }

  /** The row shows a percentage that was never pushed, or that is more than 0.001 away from the one that was. */
  ghost predicate Moved(rec: MatchRecord, r: BookRow) {
    exists pct :: Shows(r, pct) && (rec.lastPushedAt == 0 || pct - rec.lastPushedPct > 100
                                    || rec.lastPushedPct - pct > 100)
  }

  lemma MovedExactly(cfg: Config, now: int, d: Data, r: BookRow)
    requires r.hash in d.matches
    ensures VerdictOf(cfg, now, d, r).Push? <==> !Tombstone(r) && Moved(d.matches[r.hash], r)
    ensures VerdictOf(cfg, now, d, r).Push? ==>
              r.Percentage().Some?
              && VerdictOf(cfg, now, d, r).item == ItemFor(r.hash, r, d.matches[r.hash], r.Percentage().value, now)
  {
    forall pct | Shows(r, pct) ensures r.Percentage() == Some(pct) {
      PercentageIsShown(r, pct);
    }
    if r.Percentage().Some? {
      PercentageIsShown(r, r.Percentage().value);
    }
  }

  /** In a pass that does not give up, the pushes of a matched book are: its percentage and update time, once, if it is
      live, has a percentage and that has moved beyond the tolerance or was never pushed; and otherwise none. */
  lemma MatchedRowPushedExactly(w: World, cfg: Config, latch: bool, d: Data, rows: seq<BookRow>, r: BookRow)
    requires Distinct(Hashes(rows)) && r in rows && !r.IsDummy() && r.hash in d.matches
    requires HonestPass(w, cfg, latch, d, rows) && !CutShort(RunPass(w, cfg, latch, d, rows).errs)
    ensures var sents := SentFor(AttemptsIn(RunPass(w, cfg, latch, d, rows).trace), r.hash);
            && |sents| == (if !Tombstone(r) && Moved(d.matches[r.hash], r) then 1 else 0)
            && (forall s :: s in sents ==> Tells(w.sync.clock(0), r, s))
  {
    var queue := Queue(w, cfg, latch, d, rows);
    var asked, sent := DispatchConserved(w, cfg, latch, d, rows);
    assert queue[..sent] == queue;
    MatchedRowQueued(w, cfg, latch, d, rows, r);
    SentForItems(queue, r.hash);
    MovedExactly(cfg, w.sync.clock(0), d, r);
    var v := VerdictOf(cfg, w.sync.clock(0), d, r);
    if v.Push? {
      ItemTells(w.sync.clock(0), r, d.matches[r.hash], r.Percentage().value);
      assert ToSents([v.item]) == [v.item.ToSent()];
    }
  }

  /******* A row is asked about exactly when it is unresolved and due *******/

  lemma {:induction false} InSomeChunk(items: seq<string>, size: int, h: string)
    requires h in items
    ensures exists c :: c in Chunks(items, size) && h in c
    decreases |items|
  {
    var k := ChunkLength(|items|, size);
    assert items == items[..k] + items[k..];
    if h in items[..k] {
      assert items[..k] in Chunks(items, size);
    } else {
      InSomeChunk(items[k..], size, h);
      var c :| c in Chunks(items[k..], size) && h in c;
      assert c in Chunks(items, size);
    }
  }

  lemma {:induction false} RequestWasMade(trace: seq<Event>, c: seq<string>, h: string)
    requires c in Requests(trace) && h in c
    ensures Asked(trace, h)
  {
    var front, last := trace[..|trace| - 1], trace[|trace| - 1];
    if c in Requests(front) {
      RequestWasMade(front, c, h);
      var e :| e in front && e.MatchCheck? && h in e.hashes;
      assert e in trace;
    } else {
      assert last in trace;
    }
  }

  /** What makes a row worth a match-check. */
  ghost predicate Due(cfg: Config, now: int, d: Data, r: BookRow) {
    && !Tombstone(r) && r.hash !in d.matches
    && !(r.hash in d.unmatched && now - d.unmatched[r.hash] < cfg.cooldownSeconds)
    && ((exists pct :: Shows(r, pct)) || (cfg.syncStatus
                                          && (r.readingStatus == "finished" || r.readingStatus == "abandoned")))
  }

  lemma DueIsResolve(cfg: Config, now: int, d: Data, r: BookRow)
    ensures Due(cfg, now, d, r) <==> VerdictOf(cfg, now, d, r).Resolve?
  {
    PercentageExists(r);
  }

  /** In a pass that does not give up, BookOrbit is asked about a pulled row's hash exactly when the row is live, its
      hash is neither resolved nor cooling down, and it has a percentage or, with status sync on, a decisive
      status. */
  lemma AskedExactly(w: World, cfg: Config, latch: bool, d: Data, rows: seq<BookRow>, r: BookRow)
    requires Distinct(Hashes(rows)) && r in rows && !r.IsDummy()
    requires !CutShort(RunPass(w, cfg, latch, d, rows).errs)
    ensures Asked(RunPass(w, cfg, latch, d, rows).trace, r.hash) <==> Due(cfg, w.sync.clock(0), d, r)
  {
    var t := RunPass(w, cfg, latch, d, rows);
    var c := Classification(w, cfg, d, rows);
    ClassifyHit(cfg, w.sync.clock(0), Classified(d, 0, [], []), rows, r);
    DueIsResolve(cfg, w.sync.clock(0), d, r);
    assert VerdictOf(cfg, w.sync.clock(0), d, r).Resolve? <==> r.hash in multiset(Hashes(c.toMatch));
    if Asked(t.trace, r.hash) {
      AskedWasQueued(w, cfg, latch, d, rows, r.hash);
    }
    if r.hash in Hashes(c.toMatch) {
      QueuedIsAsked(w, cfg, latch, d, rows, r.hash);
    }
  }

  lemma QueuedIsAsked(w: World, cfg: Config, latch: bool, d: Data, rows: seq<BookRow>, h: string)
    requires !CutShort(RunPass(w, cfg, latch, d, rows).errs) && h in Hashes(Classification(w, cfg, d, rows).toMatch)
    ensures Asked(RunPass(w, cfg, latch, d, rows).trace, h)
  {
    var hashes := Hashes(Classification(w, cfg, d, rows).toMatch);
    var asked, sent := DispatchConserved(w, cfg, latch, d, rows);
    InSomeChunk(hashes, cfg.matchBatchSize, h);
    var c :| c in Chunks(hashes, cfg.matchBatchSize) && h in c;
    RequestWasMade(RunPass(w, cfg, latch, d, rows).trace, c, h);
  }

  /******* A status goes out exactly when it is decisive and new *******/

  predicate Means(status: string, token: string) {
    (status == "finished" && token == "read") || (status == "abandoned" && token == "abandoned")
  }

  ghost predicate SaysRow(rows: seq<BookRow>, e: Event) {
    e.SetStatus? ==> exists r :: r in rows && Live(r) && r.hash == e.hash && Means(r.readingStatus, e.token)
  }

  lemma StatusRowSays(w: World, now: int, s: Pass, row: BookRow, rows: seq<BookRow>)
    requires row in rows && forall e :: e in s.trace ==> SaysRow(rows, e)
    ensures forall e :: e in StatusRow(w, now, s, row).trace ==> SaysRow(rows, e)
  {
    StatusRowCases(w, now, s, row);
    if Tracked(s, row) {
      var rec := s.data.matches[row.hash];
      var act := StatusDecision(rec, row.readingStatus);
      ActTraffic(w, now, s, row, rec, act);
      if act.Send? {
        SendMeans(rec, row.readingStatus, act.token);
        assert SaysRow(rows, StatusCall(w, now, s, row, rec, act.token));
      }
    }
  }

  lemma SendMeans(rec: MatchRecord, status: string, token: string)
    requires StatusDecision(rec, status) == Send(token)
    ensures Means(status, token) && token != rec.lastPushedStatus
  {
  }

  lemma {:induction false} StatusPhaseSays(w: World, now: int, s: Pass, part: seq<BookRow>, rows: seq<BookRow>)
    requires (forall r :: r in part ==> r in rows) && forall e :: e in s.trace ==> SaysRow(rows, e)
    ensures forall e :: e in StatusPhase(w, now, s, part).trace ==> SaysRow(rows, e)
    decreases part
  {
    if part != [] && !s.fatal {
      StatusRowSays(w, now, s, part[0], rows);
      StatusPhaseSays(w, now, StatusRow(w, now, s, part[0]), part[1..], rows);
    }
  }

  /** Every status call of a pass carries the hash and the meaning of the status of one live pulled row: finished goes
      out as read, abandoned as abandoned, and nothing else goes out. */
  lemma EveryStatusIsARow(w: World, cfg: Config, latch: bool, d: Data, rows: seq<BookRow>, e: Event)
    requires e in RunPass(w, cfg, latch, d, rows).trace && e.SetStatus?
    ensures cfg.syncStatus && SaysRow(rows, e)
  {
    var s2 := Before(w, cfg, latch, d, rows);
    BeforeReached(w, cfg, latch, d, rows);
    NoStatusYet(latch, s2);
    StatusPhaseSays(w, w.sync.clock(0), s2, rows, rows);
  }

  lemma {:induction false} CalledElsewhere(w: World, now: int, s: Pass, rows: seq<BookRow>, h: string)
    requires h !in Hashes(rows)
    ensures StatusCalled(StatusPhase(w, now, s, rows).trace, h) <==> StatusCalled(s.trace, h)
    decreases rows
  {
    if rows != [] && !s.fatal {
      assert Hashes(rows) == [rows[0].hash] + Hashes(rows[1..]);
      StatusRowCalls(w, now, s, rows[0], h);
      CalledElsewhere(w, now, StatusRow(w, now, s, rows[0]), rows[1..], h);
    }
  }

  lemma StatusRowExactly(w: World, now: int, s: Pass, r: BookRow)
    requires Live(r) && !StatusCalled(s.trace, r.hash)
    ensures StatusCalled(StatusRow(w, now, s, r).trace, r.hash) <==>
              r.hash in s.data.matches && StatusDecision(s.data.matches[r.hash], r.readingStatus).Send?
  {
    StatusRowCases(w, now, s, r);
    if Tracked(s, r) {
      var rec := s.data.matches[r.hash];
      var act := StatusDecision(rec, r.readingStatus);
      ActTraffic(w, now, s, r, rec, act);
      if act.Send? {
        CalledSnoc(s.trace, StatusCall(w, now, s, r, rec, act.token), r.hash);
      }
    }
  }

  lemma {:induction false} StatusPhaseExactly(w: World, now: int, s: Pass, rows: seq<BookRow>, r: BookRow)
    requires Distinct(Hashes(rows)) && r in rows && Live(r) && !StatusCalled(s.trace, r.hash)
    requires !StatusPhase(w, now, s, rows).fatal
    ensures StatusCalled(StatusPhase(w, now, s, rows).trace, r.hash) <==>
              r.hash in s.data.matches && StatusDecision(s.data.matches[r.hash], r.readingStatus).Send?
    decreases rows
  {
    var s1 := StatusRow(w, now, s, rows[0]);
    assert Hashes(rows) == [rows[0].hash] + Hashes(rows[1..]);
    DistinctTail(Hashes(rows));
    if rows[0] == r {
      assert r.hash !in Hashes(rows[1..]) by {
        forall i | 0 <= i < |rows[1..]| ensures Hashes(rows[1..])[i] != r.hash {
          assert Hashes(rows)[i + 1] != Hashes(rows)[0];
        }
      }
      StatusRowExactly(w, now, s, r);
      CalledElsewhere(w, now, s1, rows[1..], r.hash);
    } else {
      var i :| 0 <= i < |rows| && rows[i] == r;
      assert Hashes(rows)[i] == r.hash && rows[1..][i - 1] == r;
      StatusRowCalls(w, now, s, rows[0], r.hash);
      StatusRowKeeps(w, now, s, rows[0], r.hash);
      assert s1.data.At(r.hash) == s.data.At(r.hash);
      StatusPhaseExactly(w, now, s1, rows[1..], r);
    }
  }

  /** In a pass that does not give up and with status sync on, a live pulled row causes a status call exactly when its
      hash is matched by then, its status is decisive, and its token differs from the last one pushed. */
  lemma StatusCalledExactly(w: World, cfg: Config, latch: bool, d: Data, rows: seq<BookRow>, r: BookRow)
    requires Distinct(Hashes(rows)) && r in rows && Live(r) && cfg.syncStatus
    requires !RunPass(w, cfg, latch, d, rows).fatal
    ensures var s := Before(w, cfg, latch, d, rows).data;
            StatusCalled(RunPass(w, cfg, latch, d, rows).trace, r.hash) <==>
              r.hash in s.matches
              && exists token :: Means(r.readingStatus, token) && token != s.matches[r.hash].lastPushedStatus
  {
    var s2 := Before(w, cfg, latch, d, rows);
    BeforeReached(w, cfg, latch, d, rows);
    NoStatusYet(latch, s2);
    assert !StatusCalled(s2.trace, r.hash);
    StatusPhaseExactly(w, w.sync.clock(0), s2, rows, r);
    if r.hash in s2.data.matches {
      DecisiveAndNew(s2.data.matches[r.hash], r.readingStatus);
    }
  }

  lemma DecisiveAndNew(rec: MatchRecord, status: string)
    ensures StatusDecision(rec, status).Send? <==> exists token :: Means(status, token) && token != rec.lastPushedStatus
  {
    if StatusDecision(rec, status).Send? {
      SendMeans(rec, status, StatusDecision(rec, status).token);
    }
  }

  /******* What was seen *******/

  /** The seen side of a surviving record is what it was, or the reported status, if it is one the bridge knows, and the
      time of the pass. */
  predicate SeenKept(a: Slot, b: Slot, status: string, now: int) {
    a.rec.Some? && b.rec.Some? ==>
      var before, after := a.rec.value, b.rec.value;
      || (after.lastSeenStatus == before.lastSeenStatus && after.lastSeenStatusAt == before.lastSeenStatusAt)
      || (&& after.lastSeenStatus == status && after.lastSeenStatusAt == now
          && (KnownStatus(status) || status == "finished" || status == "abandoned"))
  }

  lemma ActSeen(w: World, now: int, s: Pass, r: BookRow, act: StatusAct)
    requires Tracked(s, r)
    requires act.Ignore? || KnownStatus(r.readingStatus) || r.readingStatus == "finished"
             || r.readingStatus == "abandoned"
    ensures SeenKept(s.data.At(r.hash), ActOnStatus(w, now, s, r, s.data.matches[r.hash], act).data.At(r.hash),
                     r.readingStatus, now)
  {
  }

  lemma DecisionKnows(rec: MatchRecord, status: string)
    ensures StatusDecision(rec, status).Ignore? || KnownStatus(status) || status == "finished" || status == "abandoned"
  {
  }

  lemma StatusRowSeen(w: World, now: int, s: Pass, r: BookRow)
    ensures SeenKept(s.data.At(r.hash), StatusRow(w, now, s, r).data.At(r.hash), r.readingStatus, now)
  {
    StatusRowCases(w, now, s, r);
    if Tracked(s, r) {
      DecisionKnows(s.data.matches[r.hash], r.readingStatus);
      ActSeen(w, now, s, r, StatusDecision(s.data.matches[r.hash], r.readingStatus));
    }
  }

  lemma {:induction false} StatusPhaseSeen(w: World, now: int, s: Pass, rows: seq<BookRow>, r: BookRow)
    requires Distinct(Hashes(rows)) && r in rows
    ensures SeenKept(s.data.At(r.hash), StatusPhase(w, now, s, rows).data.At(r.hash), r.readingStatus, now)
    decreases rows
  {
    if !s.fatal {
      var s1 := StatusRow(w, now, s, rows[0]);
      assert Hashes(rows) == [rows[0].hash] + Hashes(rows[1..]);
      DistinctTail(Hashes(rows));
      if rows[0] == r {
        assert r.hash !in Hashes(rows[1..]) by {
          forall i | 0 <= i < |rows[1..]| ensures Hashes(rows[1..])[i] != r.hash {
            assert Hashes(rows)[i + 1] != Hashes(rows)[0];
          }
        }
        StatusRowSeen(w, now, s, r);
        StatusPhaseKeeps(w, now, s1, rows[1..], r.hash);
      } else {
        var i :| 0 <= i < |rows| && rows[i] == r;
        assert Hashes(rows)[i] == r.hash && rows[1..][i - 1] == r;
        StatusRowKeeps(w, now, s, rows[0], r.hash);
        assert s1.data.At(r.hash) == s.data.At(r.hash);
        StatusPhaseSeen(w, now, s1, rows[1..], r);
      }
    }
  }

  /** The status phase notes what a pulled row reported and nothing else; an unrecognised value is never noted. */
  lemma SeenIsReported(w: World, cfg: Config, latch: bool, d: Data, rows: seq<BookRow>, r: BookRow)
    requires Distinct(Hashes(rows)) && r in rows
    ensures SeenKept(Before(w, cfg, latch, d, rows).data.At(r.hash), RunPass(w, cfg, latch, d, rows).data.At(r.hash),
                     r.readingStatus, w.sync.clock(0))
  {
    var s2 := Before(w, cfg, latch, d, rows);
    StatusPhaseSeen(w, w.sync.clock(0), s2, rows, r);
    assert RunPass(w, cfg, latch, d, rows).data.At(r.hash) == AfterStatus(w, cfg, s2, rows).data.At(r.hash);
  }
}
