/** A crash makes the bridge push a status that BookOrbit has already acknowledged: one legal run in which it happens
    to a record that was in the state file all along. */
module StatusRepeats {
  import opened Wrappers
  import opened Errors
  import opened Readest
  import opened Token
  import opened State
  import opened SyncPass
  import opened Phases
  import opened Runs
  import opened StatusRuns
  import opened Repeats
  import opened Counterexamples

  /** A live finished row without a percentage, above the cursor. */
  predicate JustFinished(d: Data, r: BookRow) {
    !r.IsDummy() && !r.IsDeleted() && r.progress.None? && r.readingStatus == "finished"
      && r.WatermarkMs() > d.watermarkMs >= 0
  }

  lemma OneStatus(w: World, cfg: Config, s: Pass, r: BookRow, rec: MatchRecord)
    requires !r.IsDummy() && !r.IsDeleted() && r.readingStatus == "finished" && cfg.syncStatus && !s.fatal
    requires r.hash in s.data.matches && rec == s.data.matches[r.hash] && rec.lastPushedStatus == ""
    ensures AfterStatus(w, cfg, s, [r]) == ActOnStatus(w, w.sync.clock(0), s, r, rec, Send("read"))
  {
    var s1 := ActOnStatus(w, w.sync.clock(0), s, r, rec, Send("read"));
    assert StatusDecision(rec, r.readingStatus) == Send("read");
    assert StatusRow(w, w.sync.clock(0), s, r) == s1;
    assert [r][1..] == [];
    assert StatusPhase(w, w.sync.clock(0), s1, [r][1..]) == s1;
  }

  /** The pass before its status phase, when a book without a percentage is resolved. */
  lemma ResolvedBefore(w: World, cfg: Config, d: Data, r: BookRow, m: Match) returns (s: Pass)
    requires JustFinished(d, r) && d.At(r.hash) == Slot(None, None) && cfg.syncStatus && m.hash == r.hash
    requires w.sync.matching(1) == Ok(MatchResponse([m], []))
    ensures var c := Classification(w, cfg, d, [r]);
            s == BeforeStatus(w.sync, cfg, c, false, [r]) && c.maxWatermark == r.WatermarkMs()
    ensures && s.trace == [Pulled([r])] + [MatchCheck([r.hash], w.sync.matching(1), w.sync.clock(0))]
            && s.data.At(r.hash) == Slot(Some(NewRecord(m.bookFileId, m.bookId)), None)
            && s.data.watermarkMs == d.watermarkMs && s.failed == [] && !s.bulkUnsupported && !s.fatal
  {
    OneRow(w, cfg, d, r);
    var c := Classification(w, cfg, d, [r]);
    assert VerdictOf(cfg, w.sync.clock(0), d, r).Resolve?;
    assert c.toMatch == [r] && c.toPush == [];
    OneRequest(w, cfg, c, false, r);
    var s0 := Started(c, false, [r]);
    s := AfterMatch(w.sync, cfg, c, s0);
    OneMatch(w.sync, w.sync.clock(0), s0, r, m);
    assert AfterPush(w.sync, cfg, s) == s;
  }

  /** The book is resolved and its status push fails: the record stays, without a token. */
  lemma ResolvedPass(w: World, cfg: Config, d: Data, r: BookRow, m: Match)
    requires JustFinished(d, r) && d.At(r.hash) == Slot(None, None) && cfg.syncStatus && m.hash == r.hash
    requires w.sync.matching(1) == Ok(MatchResponse([m], [])) && w.status(2) == Err(Server)
    ensures var t := RunPass(w, cfg, false, d, [r]);
            && t.trace == [Pulled([r])] + [MatchCheck([r.hash], w.sync.matching(1), w.sync.clock(0))]
                          + [SetStatus(r.hash, m.bookId, "read", Err(Server), w.sync.clock(0))]
            && t.data.At(r.hash) == Slot(Some(NewRecord(m.bookFileId, m.bookId)), None)
            && t.data.watermarkMs == r.WatermarkMs() && !t.bulkUnsupported
  {
    var s := ResolvedBefore(w, cfg, d, r, m);
    var rec := NewRecord(m.bookFileId, m.bookId);
    OneStatus(w, cfg, s, r, rec);
    FailedStatus(w, w.sync.clock(0), s, r, rec);
    var t := ActOnStatus(w, w.sync.clock(0), s, r, rec, Send("read"));
    assert RunPass(w, cfg, false, d, [r]) == t.(data := t.data.(watermarkMs := r.WatermarkMs()));
  }

  lemma FailedStatus(w: World, now: int, s: Pass, r: BookRow, rec: MatchRecord)
    requires w.status(|s.trace|) == Err(Server)
    ensures var t := ActOnStatus(w, now, s, r, rec, Send("read"));
            && t.trace == s.trace + [SetStatus(r.hash, rec.bookId, "read", Err(Server), now)]
            && t.data == s.data && t.failed == s.failed && t.bulkUnsupported == s.bulkUnsupported
  {
  }

  lemma OneMatch(w: SyncWorld, now: int, s: Pass, r: BookRow, m: Match)
    requires m.hash == r.hash && r.progress.None? && |s.trace| == 1 && w.matching(1) == Ok(MatchResponse([m], []))
    ensures var t := MatchChunk(w, now, map[r.hash := r], s, [r.hash]);
            && t.trace == s.trace + [MatchCheck([r.hash], w.matching(1), now)]
            && t == s.(trace := t.trace, data := t.data)
            && t.data.At(r.hash) == Slot(Some(NewRecord(m.bookFileId, m.bookId)), None)
            && t.data.watermarkMs == s.data.watermarkMs
  {
    var byHash := map[r.hash := r];
    var s1 := s.Log(MatchCheck([r.hash], w.matching(1), now));
    assert [m][1..] == [];
    assert AddMatches(byHash, now, s1, [m]) == AddMatch(byHash, now, s1, m);
    FoundSlot(byHash, now, s1, [r.hash], MatchResponse([m], []), r.hash);
    MatchChunkFrame(w, now, byHash, s, [r.hash]);
  }

  /** The next change of the book is pushed and acknowledged. */
  lemma AcknowledgedPass(w: World, cfg: Config, d: Data, r: BookRow, rec: MatchRecord)
    requires JustFinished(d, r) && d.At(r.hash) == Slot(Some(rec), None) && rec.lastPushedStatus == "" && cfg.syncStatus
    requires w.status(1) == Ok(())
    ensures RunPass(w, cfg, false, d, [r]).trace ==
            [Pulled([r]), SetStatus(r.hash, rec.bookId, "read", Ok(()), w.sync.clock(0))]
  {
    OneRow(w, cfg, d, r);
    var c := Classification(w, cfg, d, [r]);
    var s0 := Started(c, false, [r]);
    assert VerdictOf(cfg, w.sync.clock(0), d, r).Leave?;
    assert AfterPush(w.sync, cfg, AfterMatch(w.sync, cfg, c, s0)) == s0;
    OneStatus(w, cfg, s0, r, rec);
  }

  /******* The run *******/

  const STATUS_ON := Config(10, 10, 3600, true)
  const FINISHED := BookRow("a", None, At(5000), Empty, At(5000), "finished")
  const TOUCHED := BookRow("a", None, At(6000), Empty, At(6000), "finished")
  const BOOK := Match("a", 11, 1)

  function StatusWorld(done: Result<(), BookOrbitError>): World {
    World(SyncWorld(_ => Ok(MatchResponse([BOOK], [])), _ => Ok([]), _ => Ok(()), _ => 1), _ => done)
  }

  function FirstPass(): Action { Sync(StatusWorld(Err(Server)), [FINISHED], ZERO_TOKEN, None, true) }

  function PushPass(): Action { Sync(StatusWorld(Ok(())), [TOUCHED], ZERO_TOKEN, None, false) }

  lemma RowsOk()
    ensures FINISHED.WatermarkMs() == 5000 && TOUCHED.WatermarkMs() == 6000
    ensures JustFinished(NEW_DATA, FINISHED) && !TOUCHED.IsDummy() && !TOUCHED.IsDeleted()
  {
    WatermarkIsLatest(FINISHED);
    WatermarkIsLatest(TOUCHED);
    assert |FINISHED.hash| != |DUMMY_HASH|;
  }

  lemma LegalSnoc(cfg: Config, acts: seq<Action>, a: Action)
    requires LegalRun(cfg, acts) && Legal(cfg, Run(cfg, acts), a)
    ensures LegalRun(cfg, acts + [a]) && Run(cfg, acts + [a]) == Step(cfg, Run(cfg, acts), a)
  {
    assert (acts + [a])[..|acts|] == acts;
  }

  lemma PullsOne(lib: map<string, BookRow>, since: int, r: BookRow)
    requires lib == map[r.hash := r] && r.WatermarkMs() > since
    ensures PullAnswer(lib, since, [r])
  {
    assert Hashes([r]) == [r.hash];
  }

  lemma FirstPassLegal(sys: System)
    requires sys.lib == map["a" := FINISHED] && sys.mem.data == NEW_DATA && !sys.bulkUnsupported
    ensures Legal(STATUS_ON, sys, FirstPass())
    ensures var t := PassOf(STATUS_ON, sys, FirstPass());
            && t.data.At("a") == Slot(Some(NewRecord(11, 1)), None) && t.data.watermarkMs == 5000 && !t.bulkUnsupported
  {
    RowsOk();
    var w := StatusWorld(Err(Server));
    ResolvedPass(w, STATUS_ON, NEW_DATA, FINISHED, BOOK);
    PullsOne(sys.lib, 0, FINISHED);
    var trace := PassOf(STATUS_ON, sys, FirstPass()).trace;
    assert OwnChunk(["a"], MatchResponse([BOOK], []));
    forall e | e in trace ensures HonestEvent(e) {
    }
  }

  /** Memory and file agree, and hold the record of the one book in the library. */
  ghost predicate Holding(sys: System, r: BookRow, rec: MatchRecord, cursor: int) {
    && sys.mem == sys.file && !sys.bulkUnsupported && sys.lib == map[r.hash := r]
    && sys.mem.data.At(r.hash) == Slot(Some(rec), None) && sys.mem.data.watermarkMs == cursor
  }

  ghost predicate Prepared(sys: System) { Holding(sys, TOUCHED, NewRecord(11, 1), 5000) }

  lemma SavedStep(cfg: Config, sys: System, a: Action)
    requires a.Sync? && a.saved
    ensures var next, t := Step(cfg, sys, a), PassOf(cfg, sys, a);
            && next.mem == next.file && next.mem.data == t.data && next.bulkUnsupported == t.bulkUnsupported
            && next.lib == sys.lib && next.high == sys.high
  {
  }

  lemma ChangeStep(cfg: Config, sys: System, row: BookRow)
    requires row.WatermarkMs() > sys.high
    ensures Legal(cfg, sys, Change(row))
    ensures Step(cfg, sys, Change(row)) == sys.(lib := sys.lib[row.hash := row], high := row.WatermarkMs())
  {
  }

  lemma ChangeHolds(cfg: Config, sys: System, r: BookRow, rec: MatchRecord)
    requires sys.mem == sys.file && !sys.bulkUnsupported && sys.lib.Keys == {r.hash} && r.WatermarkMs() > sys.high
    requires sys.mem.data.At(r.hash) == Slot(Some(rec), None)
    ensures Legal(cfg, sys, Change(r)) && Holding(Step(cfg, sys, Change(r)), r, rec, sys.mem.data.watermarkMs)
  {
    ChangeStep(cfg, sys, r);
    assert sys.lib[r.hash := r] == map[r.hash := r];
  }

  lemma SavedThenChanged(cfg: Config, sys: System, a: Action, r: BookRow, rec: MatchRecord)
    requires a.Sync? && a.saved && sys.lib.Keys == {r.hash} && r.WatermarkMs() > sys.high
    requires var t := PassOf(cfg, sys, a); t.data.At(r.hash) == Slot(Some(rec), None) && !t.bulkUnsupported
    ensures var next := Step(cfg, sys, a);
            && Legal(cfg, next, Change(r))
            && Holding(Step(cfg, next, Change(r)), r, rec, PassOf(cfg, sys, a).data.watermarkMs)
  {
    SavedStep(cfg, sys, a);
    ChangeHolds(cfg, Step(cfg, sys, a), r, rec);
  }

  lemma BecomesPrepared(sys: System)
    requires sys.lib == map["a" := FINISHED] && sys.mem.data == NEW_DATA && !sys.bulkUnsupported && sys.high == 5000
    ensures var next := Step(STATUS_ON, sys, FirstPass());
            Legal(STATUS_ON, next, Change(TOUCHED)) && Prepared(Step(STATUS_ON, next, Change(TOUCHED)))
  {
    RowsOk();
    FirstPassLegal(sys);
    SavedThenChanged(STATUS_ON, sys, FirstPass(), TOUCHED, NewRecord(11, 1));
  }

  /** The state before the push, reached from the beginning. */
  lemma Reachable() returns (acts: seq<Action>)
    ensures LegalRun(STATUS_ON, acts) && Prepared(Run(STATUS_ON, acts))
  {
    RowsOk();
    LegalSnoc(STATUS_ON, [], Change(FINISHED));
    var first := [] + [Change(FINISHED)];
    var sys := Run(STATUS_ON, first);
    FirstPassLegal(sys);
    BecomesPrepared(sys);
    LegalSnoc(STATUS_ON, first, FirstPass());
    LegalSnoc(STATUS_ON, first + [FirstPass()], Change(TOUCHED));
    acts := first + [FirstPass()] + [Change(TOUCHED)];
  }

  /** The situation of the exact condition: the push is the last acknowledged one of the book, and it is forgotten. */
  lemma PushIsForgotten(sys: System)
    requires Prepared(sys) && LogOk(sys)
    ensures var crashed := Step(STATUS_ON, Step(STATUS_ON, sys, PushPass()), Crash);
            Again(crashed, PushPass(), TOUCHED, |sys.log| + 1) && |sys.log| + 1 !in crashed.mem.at
  {
    RowsOk();
    PushPassLegal(sys);
    var crashed := Step(STATUS_ON, Step(STATUS_ON, sys, PushPass()), Crash);
    AckIsLast(sys.log, PassOf(STATUS_ON, sys, PushPass()).trace);
    assert crashed.mem == sys.mem;
    assert TOUCHED in PushPass().rows;
  }

  lemma AckIsLast(log: seq<Event>, trace: seq<Event>)
    requires trace == [Pulled([TOUCHED]), SetStatus("a", 1, "read", Ok(()), 1)]
    ensures LastAck(log + trace, "a", |log| + 1) && (log + trace)[|log| + 1].token == "read"
  {
  }

  /** The counterexample to "no acknowledged status is pushed twice in a row": the push is acknowledged, the pass's save
      fails, the process stops, and the restarted bridge pushes the same token for the same book again, although the
      record was in the file before, during and after. */
  lemma CrashRepeatsStatus() returns (acts: seq<Action>)
    ensures LegalRun(STATUS_ON, acts + [PushPass()] + [Crash] + [PushPass()])
    ensures PushedTwice(Run(STATUS_ON, acts + [PushPass()] + [Crash] + [PushPass()]).log)
    ensures Prepared(Run(STATUS_ON, acts))
    ensures Again(Run(STATUS_ON, acts + [PushPass()] + [Crash]), PushPass(), TOUCHED, |Run(STATUS_ON, acts).log| + 1)
    ensures Run(STATUS_ON, acts + [PushPass()]).file == Run(STATUS_ON, acts + [PushPass()] + [Crash]).file
            == Run(STATUS_ON, acts).file
  {
    acts := Reachable();
    var sys := Run(STATUS_ON, acts);
    PushPassLegal(sys);
    UnsavedPassRepeats(STATUS_ON, sys, PushPass());
    LegalSnoc(STATUS_ON, acts, PushPass());
    LegalSnoc(STATUS_ON, acts + [PushPass()], Crash);
    LegalSnoc(STATUS_ON, acts + [PushPass()] + [Crash], PushPass());
    RunSound(STATUS_ON, acts);
    PushIsForgotten(sys);
    RepeatedLog(sys.log, PassOf(STATUS_ON, sys, PushPass()).trace);
  }

  /** The last three events: an acknowledged push, a pull, and the same push acknowledged again. */
  ghost predicate PushedTwice(log: seq<Event>) {
    var n := |log|;
    && n >= 3 && StatusAcked(log[n - 3], "a") && log[n - 2].Pulled? && log[n - 1] == log[n - 3]
    && log[n - 1].token == "read"
  }

  lemma RepeatedLog(log: seq<Event>, trace: seq<Event>)
    requires trace == [Pulled([TOUCHED]), SetStatus("a", 1, "read", Ok(()), 1)]
    ensures PushedTwice(log + trace + trace)
  {
  }

  lemma PushPassLegal(sys: System)
    requires Prepared(sys)
    ensures Legal(STATUS_ON, sys, PushPass())
    ensures PassOf(STATUS_ON, sys, PushPass()).trace == [Pulled([TOUCHED]), SetStatus("a", 1, "read", Ok(()), 1)]
  {
    RowsOk();
    AcknowledgedPass(StatusWorld(Ok(())), STATUS_ON, sys.mem.data.(token := ZERO_TOKEN), TOUCHED, NewRecord(11, 1));
    PullsOne(sys.lib, 5000, TOUCHED);
  }
}
