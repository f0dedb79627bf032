/** Whole runs: server changes, passes, failed pulls and crashes in any order and number. */
module Runs {
  import opened Wrappers
  import opened Errors
  import opened Readest
  import opened Token
  import opened State
  import opened SyncPass
  import opened Projection
  import opened Phases
  import opened Progress
  import opened StatusChannel
  import opened Settlement
  import opened Traffic
  import opened NoLostUpdate
  import opened Cursor
  import opened History
  import opened Bookkeeping
  import opened StatusHistory

  /** A store together with the traffic that made it, and where in the log of all traffic each event of it stands. */
  datatype Snapshot = Snapshot(data: Data, hist: seq<Event>, at: seq<nat>)

  /** The server library and its newest watermark, everything that was ever said, the running bridge, and what its file
      holds. A crash takes the bridge back to its file; nothing takes back the log. */
  datatype System = System(lib: map<string, BookRow>, high: int, log: seq<Event>, mem: Snapshot, file: Snapshot,
                           bulkUnsupported: bool)

  /** `token` is the credential set in memory after the pull, `written` the last one that reached the file during it. */
  datatype Action =
    | Change(row: BookRow)
    | FailedPull(token: Token, written: Option<Token>)
    | Sync(w: World, rows: seq<BookRow>, token: Token, written: Option<Token>, saved: bool)
    | Crash

  const BLANK := Snapshot(NEW_DATA, [], [])

  const INITIAL := System(map[], 0, [], BLANK, BLANK, false)

  /** A token save in mid-pull writes everything else as it was before the pass. */
  function AfterPull(sys: System, token: Token, written: Option<Token>): System {
    sys.(mem := sys.mem.(data := sys.mem.data.(token := token)),
         file := if written.Some? then sys.mem.(data := sys.mem.data.(token := written.value)) else sys.file)
  }

  function PassOf(cfg: Config, sys: System, a: Action): Pass
    requires a.Sync?
  {
    RunPass(a.w, cfg, sys.bulkUnsupported, sys.mem.data.(token := a.token), a.rows)
  }

  /** The next n places of a log. */
  function Positions(start: nat, n: nat): (r: seq<nat>)
    ensures |r| == n && forall k :: 0 <= k < n ==> r[k] == start + k
  {
    seq(n, (k: nat) => start + k)
  }

  /** A crash in mid-pass is a failed pull, as far as the file goes, followed by a crash. */
  function Step(cfg: Config, sys: System, a: Action): System {
    match a
    case Change(row) => sys.(lib := sys.lib[row.hash := row], high := row.WatermarkMs())
    case FailedPull(token, written) => AfterPull(sys, token, written)
    case Sync(_, _, token, written, saved) =>
      var t := PassOf(cfg, sys, a);
      var mem := Snapshot(t.data, sys.mem.hist + t.trace, sys.mem.at + Positions(|sys.log|, |t.trace|));
      AfterPull(sys, token, written).(log := sys.log + t.trace, mem := mem, bulkUnsupported := t.bulkUnsupported,
                                      file := if saved then mem else AfterPull(sys, token, written).file)
    case Crash => sys.(mem := sys.file, bulkUnsupported := false)
  }

  /** The pull returns exactly the rows above the cursor, one per hash; a dummy row may come along. */
  ghost predicate PullAnswer(lib: map<string, BookRow>, since: int, rows: seq<BookRow>) {
    && Distinct(Hashes(rows))
    && (forall r :: r in rows && !r.IsDummy() ==> r.hash in lib && lib[r.hash] == r && r.WatermarkMs() > since)
    && (forall h :: h in lib && !lib[h].IsDummy() && lib[h].WatermarkMs() > since ==> lib[h] in rows)
  }

  /** What is assumed of the servers and the clock. */
  ghost predicate Legal(cfg: Config, sys: System, a: Action) {
    match a
    case Change(row) => row.WatermarkMs() > sys.high
    case Sync(w, rows, _, _, _) =>
      PullAnswer(sys.lib, sys.mem.data.watermarkMs, rows) && Honest(PassOf(cfg, sys, a).trace) && TicksNonZero(w.sync)
    case _ => true
  }

  function Run(cfg: Config, acts: seq<Action>): System {
    if acts == [] then INITIAL else Step(cfg, Run(cfg, acts[..|acts| - 1]), acts[|acts| - 1])
  }

  ghost predicate LegalRun(cfg: Config, acts: seq<Action>) {
    acts == [] || (LegalRun(cfg, acts[..|acts| - 1]) && Legal(cfg, Run(cfg, acts[..|acts| - 1]), acts[|acts| - 1]))
  }

  /******* What every legal run keeps *******/

  /** The history of a snapshot is a selection of the log. */
  ghost predicate Placed(log: seq<Event>, s: Snapshot) {
    && |s.at| == |s.hist|
    && (forall k :: 0 <= k < |s.at| ==> s.at[k] < |log| && s.hist[k] == log[s.at[k]])
    && (forall j, k :: 0 <= j < k < |s.at| ==> s.at[j] < s.at[k])
  }

  /** The file's history is where the engine's began. */
  ghost predicate LogOk(sys: System) {
    && Placed(sys.log, sys.mem) && Placed(sys.log, sys.file)
    && sys.file.at <= sys.mem.at && sys.file.hist <= sys.mem.hist
  }

  /** What the history says of every hash, whatever the answers were: honest answers, the remembered token, the
      cooldown. */
  ghost predicate Booked(s: Snapshot) {
    && Honest(s.hist)
    && (forall h :: StatusFollows(h, None, s.hist, s.data))
    && (forall h :: Replay(NO_SLOT, s.hist, h).unmatched == s.data.At(h).unmatched)
  }

  ghost predicate LibraryOk(sys: System) {
    && sys.high >= 0
    && (forall h :: h in sys.lib ==> sys.lib[h].hash == h && sys.lib[h].WatermarkMs() <= sys.high)
    && sys.file.data.watermarkMs <= sys.mem.data.watermarkMs <= sys.high
  }

  ghost predicate Sound(sys: System) {
    LibraryOk(sys) && LogOk(sys) && Booked(sys.mem) && Booked(sys.file)
  }

  lemma LogGrows(sys: System, trace: seq<Event>)
    requires LogOk(sys)
    ensures var mem := Snapshot(sys.mem.data, sys.mem.hist + trace, sys.mem.at + Positions(|sys.log|, |trace|));
            Placed(sys.log + trace, mem) && Placed(sys.log + trace, sys.file)
            && sys.file.at <= mem.at && sys.file.hist <= mem.hist
  {
    assert sys.file.at <= sys.mem.at + Positions(|sys.log|, |trace|);
  }

  /** How a cooldown develops does not depend on the record. */
  lemma CooldownAlone(e: Event, h: string, x: Slot, y: Slot)
    requires x.unmatched == y.unmatched
    ensures Observe(e, h, x).unmatched == Observe(e, h, y).unmatched
  {
    if e.Bulk? && e.refused.Ok? {
      ItemsCooldownAlone(e.items, e.refused.value, e.times, h, x, y);
    }
  }

  lemma {:induction false} ItemsCooldownAlone(items: seq<Sent>, refused: seq<string>, times: seq<int>, h: string,
                                              x: Slot, y: Slot)
    requires x.unmatched == y.unmatched
    ensures ObserveItems(items, refused, times, h, x).unmatched == ObserveItems(items, refused, times, h, y).unmatched
    decreases items
  {
    if items != [] && times != [] {
      ItemsCooldownAlone(items[1..], refused, times[1..], h,
                         ObserveItem(items[0], refused, times[0], h, x),
                         ObserveItem(items[0], refused, times[0], h, y));
    }
  }

  lemma {:induction false} ReplayCooldownAlone(events: seq<Event>, h: string, x: Slot, y: Slot)
    requires x.unmatched == y.unmatched
    ensures Replay(x, events, h).unmatched == Replay(y, events, h).unmatched
  {
    if events != [] {
      var front := events[..|events| - 1];
      ReplayCooldownAlone(front, h, x, y);
      CooldownAlone(events[|events| - 1], h, Replay(x, front, h), Replay(y, front, h));
    }
  }

  lemma PassBooked(cfg: Config, sys: System, a: Action, at: seq<nat>)
    requires a.Sync? && Booked(sys.mem) && Distinct(Hashes(a.rows)) && Honest(PassOf(cfg, sys, a).trace)
    ensures Booked(Snapshot(PassOf(cfg, sys, a).data, sys.mem.hist + PassOf(cfg, sys, a).trace, at))
  {
    var t, hist := PassOf(cfg, sys, a), sys.mem.hist + PassOf(cfg, sys, a).trace;
    forall h ensures StatusFollows(h, None, hist, t.data) {
      assert StatusFollows(h, None, sys.mem.hist, sys.mem.data);
      StatusIsReplay(a.w, cfg, sys.bulkUnsupported, sys.mem.data.(token := a.token), a.rows, h);
      StatusAppend(None, sys.mem.hist, t.trace, h);
      StatusJustifiedAppend(h, None, sys.mem.hist, t.trace);
    }
    forall h ensures Replay(NO_SLOT, hist, h).unmatched == t.data.At(h).unmatched {
      PassCooldown(cfg, sys, a, h);
    }
  }

  lemma PassCooldown(cfg: Config, sys: System, a: Action, h: string)
    requires a.Sync? && Booked(sys.mem) && Distinct(Hashes(a.rows)) && Honest(PassOf(cfg, sys, a).trace)
    ensures Replay(NO_SLOT, sys.mem.hist + PassOf(cfg, sys, a).trace, h).unmatched
            == PassOf(cfg, sys, a).data.At(h).unmatched
  {
    var t, d := PassOf(cfg, sys, a), sys.mem.data.(token := a.token);
    assert Replay(NO_SLOT, sys.mem.hist, h).unmatched == sys.mem.data.At(h).unmatched;
    StoreIsReplay(a.w, cfg, sys.bulkUnsupported, d, a.rows, h);
    ReplayAppend(NO_SLOT, sys.mem.hist, t.trace, h);
    ReplayCooldownAlone(t.trace, h, Replay(NO_SLOT, sys.mem.hist, h), CoreSlot(d.At(h)));
  }

  lemma TokenBooked(s: Snapshot, token: Token)
    requires Booked(s)
    ensures Booked(s.(data := s.data.(token := token)))
  {
    var s1 := s.(data := s.data.(token := token));
    forall h
      ensures StatusFollows(h, None, s.hist, s1.data)
              && Replay(NO_SLOT, s.hist, h).unmatched == s1.data.At(h).unmatched
    {
      assert StatusFollows(h, None, s.hist, s.data);
      assert Replay(NO_SLOT, s.hist, h).unmatched == s.data.At(h).unmatched;
      assert s1.data.At(h) == s.data.At(h);
    }
  }

  lemma LatestInLibrary(lib: map<string, BookRow>, since: int, high: int, rows: seq<BookRow>)
    requires PullAnswer(lib, since, rows) && high >= 0
    requires forall h :: h in lib ==> lib[h].WatermarkMs() <= high
    ensures LatestOf(rows) <= high
  {
  }

  lemma PassCursorBounds(cfg: Config, sys: System, a: Action)
    requires a.Sync? && LibraryOk(sys) && PullAnswer(sys.lib, sys.mem.data.watermarkMs, a.rows)
    ensures sys.mem.data.watermarkMs <= PassOf(cfg, sys, a).data.watermarkMs <= sys.high
  {
    var t := PassOf(cfg, sys, a);
    var d := sys.mem.data.(token := a.token);
    PassCursor(a.w, cfg, sys.bulkUnsupported, d, a.rows);
    PassAccounted(a.w, cfg, sys.bulkUnsupported, d, a.rows);
    LatestInLibrary(sys.lib, sys.mem.data.watermarkMs, sys.high, a.rows);
    if t.failed != [] {
      var m := MinOf(t.failed);
      assert HasFailed(Marks(a.rows), t.trace, m);
      var h :| FailedIn(t.trace, h) && h in Marks(a.rows) && Marks(a.rows)[h] == m;
      var r := MarkFrom(a.rows, h);
    }
  }

  lemma PullSound(sys: System, token: Token, written: Option<Token>)
    requires Sound(sys)
    ensures Sound(AfterPull(sys, token, written))
  {
    TokenBooked(sys.mem, token);
    if written.Some? {
      TokenBooked(sys.mem, written.value);
    }
  }

  lemma SyncSound(cfg: Config, sys: System, a: Action)
    requires a.Sync? && Sound(sys) && Legal(cfg, sys, a)
    ensures Sound(Step(cfg, sys, a))
  {
    var t := PassOf(cfg, sys, a);
    var mem := Snapshot(t.data, sys.mem.hist + t.trace, sys.mem.at + Positions(|sys.log|, |t.trace|));
    var pulled := AfterPull(sys, a.token, a.written);
    PassCursorBounds(cfg, sys, a);
    PullSound(sys, a.token, a.written);
    LogGrows(pulled, t.trace);
    PassBooked(cfg, sys, a, mem.at);
    PassedSound(pulled, t.trace, mem, a.saved, t.bulkUnsupported);
  }

  lemma PassedSound(sys: System, trace: seq<Event>, mem: Snapshot, saved: bool, latch: bool)
    requires Sound(sys) && Booked(mem) && sys.mem.data.watermarkMs <= mem.data.watermarkMs <= sys.high
    requires Placed(sys.log + trace, mem) && Placed(sys.log + trace, sys.file)
    requires sys.file.at <= mem.at && sys.file.hist <= mem.hist
    ensures Sound(sys.(log := sys.log + trace, mem := mem, bulkUnsupported := latch,
                       file := if saved then mem else sys.file))
  {
  }

  lemma StepSound(cfg: Config, sys: System, a: Action)
    requires Sound(sys) && Legal(cfg, sys, a)
    ensures Sound(Step(cfg, sys, a))
  {
    match a
    case Change(row) =>
    case FailedPull(token, written) => PullSound(sys, token, written);
    case Sync(_, _, _, _, _) => SyncSound(cfg, sys, a);
    case Crash =>
  }

  lemma InitialSound()
    ensures Sound(INITIAL)
  {
    assert Booked(BLANK) by {
      forall h ensures StatusFollows(h, None, BLANK.hist, BLANK.data) {
      }
    }
  }

  /** Over every legal run, whatever fails in it: memory and file are each a selection of everything that was said, the
      file's an initial part of memory's; the tokens and the cooldowns they hold are the replay of it, every status call
      was justified; and their cursors stay inside what the server has shown. */
  lemma {:induction false} RunSound(cfg: Config, acts: seq<Action>)
    requires LegalRun(cfg, acts)
    ensures Sound(Run(cfg, acts))
  {
    if acts == [] {
      InitialSound();
    } else {
      RunSound(cfg, acts[..|acts| - 1]);
      StepSound(cfg, Run(cfg, acts[..|acts| - 1]), acts[|acts| - 1]);
    }
  }

  /******* The records *******/

  /** In no pass of the run did the answers about a hash contradict each other, unless the book was then gone. */
  ghost predicate ConsistentRun(cfg: Config, acts: seq<Action>, h: string) {
    acts == [] ||
    (&& ConsistentRun(cfg, acts[..|acts| - 1], h)
     && (acts[|acts| - 1].Sync? ==>
           var t := PassOf(cfg, Run(cfg, acts[..|acts| - 1]), acts[|acts| - 1]).trace; Consistent(t, h) || Gone(t, h)))
  }

  predicate OneSided(x: Slot) { x.rec.None? || x.unmatched.None? }

  lemma {:induction false} ObserveItemsOneSided(items: seq<Sent>, refused: seq<string>, times: seq<int>, h: string,
                                                x: Slot)
    requires OneSided(x)
    ensures OneSided(ObserveItems(items, refused, times, h, x))
    decreases items
  {
    if items != [] && times != [] {
      ObserveItemsOneSided(items[1..], refused, times[1..], h, ObserveItem(items[0], refused, times[0], h, x));
    }
  }

  lemma {:induction false} ReplayOneSided(events: seq<Event>, h: string)
    ensures OneSided(Replay(NO_SLOT, events, h))
  {
    if events != [] {
      var e, x := events[|events| - 1], Replay(NO_SLOT, events[..|events| - 1], h);
      ReplayOneSided(events[..|events| - 1], h);
      if e.Bulk? && e.refused.Ok? {
        ObserveItemsOneSided(e.items, e.refused.value, e.times, h, x);
      }
    }
  }

  lemma PassTracks(cfg: Config, sys: System, a: Action, h: string)
    requires a.Sync? && Distinct(Hashes(a.rows)) && Honest(PassOf(cfg, sys, a).trace)
    requires Tracks(h, NO_SLOT, sys.mem.hist, sys.mem.data)
    requires var t := PassOf(cfg, sys, a).trace; Consistent(t, h) || Gone(t, h)
    ensures var t := PassOf(cfg, sys, a); Tracks(h, NO_SLOT, sys.mem.hist + t.trace, t.data)
  {
    StoreIsReplay(a.w, cfg, sys.bulkUnsupported, sys.mem.data.(token := a.token), a.rows, h);
    ReplayAppend(NO_SLOT, sys.mem.hist, PassOf(cfg, sys, a).trace, h);
  }

  ghost predicate TracksBoth(sys: System, h: string) {
    Tracks(h, NO_SLOT, sys.mem.hist, sys.mem.data) && Tracks(h, NO_SLOT, sys.file.hist, sys.file.data)
  }

  lemma StepTracks(cfg: Config, sys: System, a: Action, h: string)
    requires Legal(cfg, sys, a) && TracksBoth(sys, h)
    requires a.Sync? ==> var t := PassOf(cfg, sys, a).trace; Consistent(t, h) || Gone(t, h)
    ensures TracksBoth(Step(cfg, sys, a), h)
  {
    if a.Sync? {
      PassTracks(cfg, sys, a, h);
    }
  }

  lemma TracksOneSided(s: Snapshot, h: string)
    requires Tracks(h, NO_SLOT, s.hist, s.data)
    ensures OneSided(s.data.At(h))
  {
    ReplayOneSided(s.hist, h);
    assert OneSided(CoreSlot(s.data.At(h)));
  }

  /** At every moment of the run what memory and file hold of the hash is the replay of their histories. */
  ghost predicate TracksThroughout(cfg: Config, acts: seq<Action>, h: string) {
    (acts == [] || TracksThroughout(cfg, acts[..|acts| - 1], h)) && TracksBoth(Run(cfg, acts), h)
  }

  lemma PassTracksExactly(cfg: Config, sys: System, a: Action, h: string)
    requires a.Sync? && Legal(cfg, sys, a) && TracksBoth(sys, h)
    ensures TracksBoth(Step(cfg, sys, a), h) <==> var t := PassOf(cfg, sys, a).trace; Consistent(t, h) || Gone(t, h)
  {
    var t := PassOf(cfg, sys, a);
    StoreIsReplay(a.w, cfg, sys.bulkUnsupported, sys.mem.data.(token := a.token), a.rows, h);
    ReplayAppend(NO_SLOT, sys.mem.hist, t.trace, h);
    if Consistent(t.trace, h) || Gone(t.trace, h) {
      StepTracks(cfg, sys, a, h);
    }
  }

  /** The match cache over runs: what memory and file hold of a hash is the replay of their histories at every moment
      of a run exactly when no pass of it met contradicting answers, unless the book was then gone; and then the hash
      is not in both maps. */
  lemma {:induction false} RunIsReplay(cfg: Config, acts: seq<Action>, h: string)
    requires LegalRun(cfg, acts)
    ensures TracksThroughout(cfg, acts, h) <==> ConsistentRun(cfg, acts, h)
    ensures ConsistentRun(cfg, acts, h) ==>
              OneSided(Run(cfg, acts).mem.data.At(h)) && OneSided(Run(cfg, acts).file.data.At(h))
  {
    if acts != [] {
      var front, a := acts[..|acts| - 1], acts[|acts| - 1];
      RunIsReplay(cfg, front, h);
      if TracksThroughout(cfg, front, h) {
        if a.Sync? {
          PassTracksExactly(cfg, Run(cfg, front), a, h);
        } else {
          StepTracks(cfg, Run(cfg, front), a, h);
        }
      }
    }
    if TracksThroughout(cfg, acts, h) {
      TracksOneSided(Run(cfg, acts).mem, h);
      TracksOneSided(Run(cfg, acts).file, h);
    }
  }

  /** In no pass of the run did the answers about a hash contradict each other. */
  ghost predicate AgreedRun(cfg: Config, acts: seq<Action>, h: string) {
    acts == [] ||
    (&& AgreedRun(cfg, acts[..|acts| - 1], h)
     && (acts[|acts| - 1].Sync? ==> Consistent(PassOf(cfg, Run(cfg, acts[..|acts| - 1]), acts[|acts| - 1]).trace, h)))
  }

  ghost predicate FollowsBoth(sys: System, h: string) {
    Follows(h, NO_SLOT, sys.mem.hist, sys.mem.data) && Follows(h, NO_SLOT, sys.file.hist, sys.file.data)
  }

  lemma StepFollows(cfg: Config, sys: System, a: Action, h: string)
    requires Legal(cfg, sys, a) && FollowsBoth(sys, h)
    requires a.Sync? ==> Consistent(PassOf(cfg, sys, a).trace, h)
    ensures FollowsBoth(Step(cfg, sys, a), h)
  {
    if a.Sync? {
      PassTracks(cfg, sys, a, h);
      CallsAreJustified(a.w, cfg, sys.bulkUnsupported, sys.mem.data.(token := a.token), a.rows, h);
      JustifiedAppend(h, NO_SLOT, sys.mem.hist, PassOf(cfg, sys, a).trace);
    }
  }

  /** And then every match-check and status call of the history was justified by what came before it. */
  lemma {:induction false} RunIsJustified(cfg: Config, acts: seq<Action>, h: string)
    requires LegalRun(cfg, acts) && AgreedRun(cfg, acts, h)
    ensures FollowsBoth(Run(cfg, acts), h)
  {
    if acts != [] {
      RunIsJustified(cfg, acts[..|acts| - 1], h);
      StepFollows(cfg, Run(cfg, acts[..|acts| - 1]), acts[|acts| - 1], h);
    }
  }

  /** The file's cursor never moves back, and the engine's moves back only to the file's, in a crash. */
  lemma CursorOverRuns(cfg: Config, acts: seq<Action>, a: Action)
    requires LegalRun(cfg, acts + [a])
    ensures var sys, next := Run(cfg, acts), Run(cfg, acts + [a]);
            && sys.file.data.watermarkMs <= next.file.data.watermarkMs
            && (if a.Crash? then next.mem == sys.file else sys.mem.data.watermarkMs <= next.mem.data.watermarkMs)
  {
    assert (acts + [a])[..|acts|] == acts;
    RunSound(cfg, acts);
    if a.Sync? {
      PassCursorBounds(cfg, Run(cfg, acts), a);
    }
  }

  /******* No lost update *******/

  /** Every server row at or below the cursor is settled. */
  ghost predicate NothingLost(lib: map<string, BookRow>, d: Data) {
    forall h :: h in lib && !lib[h].IsDummy() && lib[h].WatermarkMs() <= d.watermarkMs ==> Settled(d, lib[h])
  }

  /** No match-check or bulk push was answered Unauthorized, and no UpdateProgress failed. */
  ghost predicate Lossless(trace: seq<Event>) {
    forall e :: e in trace ==>
      && (e.MatchCheck? ==> e.found != Err(Unauthorized))
      && (e.Bulk? ==> e.refused != Err(Unauthorized))
      && (e.Update? ==> e.done.Ok?)
  }

  ghost predicate LosslessRun(cfg: Config, acts: seq<Action>) {
    acts == [] || (LosslessRun(cfg, acts[..|acts| - 1]) &&
                 (acts[|acts| - 1].Sync? ==> Lossless(PassOf(cfg, Run(cfg, acts[..|acts| - 1]),
                                                             acts[|acts| - 1]).trace)))
  }

  lemma {:induction false} ErrorComesFrom(trace: seq<Event>, f: Failure)
    requires f in ErrorsOf(trace)
    ensures exists e :: e in trace && f in ErrorOf(e)
  {
    var front, last := trace[..|trace| - 1], trace[|trace| - 1];
    if f in ErrorOf(last) {
      assert last in trace;
    } else {
      ErrorComesFrom(front, f);
      var e :| e in front && f in ErrorOf(e);
      assert e in trace;
    }
  }

  lemma LosslessErrors(trace: seq<Event>)
    requires Lossless(trace)
    ensures !CutShort(ErrorsOf(trace)) && !UpdateFailed(ErrorsOf(trace))
  {
    if CutShort(ErrorsOf(trace)) {
      var f := if Failure(MatchCheckOp, Unauthorized) in ErrorsOf(trace) then Failure(MatchCheckOp, Unauthorized)
               else Failure(BulkProgressOp, Unauthorized);
      ErrorComesFrom(trace, f);
    }
    if UpdateFailed(ErrorsOf(trace)) {
      var f :| f in ErrorsOf(trace) && f.op == UpdateProgressOp;
      ErrorComesFrom(trace, f);
    }
  }

  /** A hash that was not pulled keeps its slot through the whole pass. */
  lemma UnpulledKept(w: World, cfg: Config, latch: bool, d: Data, rows: seq<BookRow>, h: string)
    requires AllForeign(rows, h) && h != DUMMY_HASH && Honest(RunPass(w, cfg, latch, d, rows).trace)
    ensures RunPass(w, cfg, latch, d, rows).data.At(h) == d.At(h)
  {
    var s2 := Before(w, cfg, latch, d, rows);
    var s3 := AfterStatus(w, cfg, s2, rows);
    StatusPhaseFrame(w, w.sync.clock(0), s2, rows);
    HonestPrefix(s2.trace, s3.trace);
    NotPulled(w, cfg, latch, d, rows, h);
    NotAmong(rows, h);
    StatusPhaseKeeps(w, w.sync.clock(0), s2, rows, h);
    assert RunPass(w, cfg, latch, d, rows).data.At(h) == s3.data.At(h);
  }

  lemma NotAmong(rows: seq<BookRow>, h: string)
    requires AllForeign(rows, h) && h != DUMMY_HASH
    ensures h !in Hashes(rows)
  {
    forall i | 0 <= i < |rows| ensures Hashes(rows)[i] != h {
      assert Foreign(rows[i], h);
    }
  }

  lemma RowSettledAfter(cfg: Config, sys: System, a: Action, r: BookRow)
    requires a.Sync? && Legal(cfg, sys, a) && Lossless(PassOf(cfg, sys, a).trace)
    requires r in a.rows && !r.IsDummy() && r.WatermarkMs() <= PassOf(cfg, sys, a).data.watermarkMs
    ensures Settled(PassOf(cfg, sys, a).data, r)
  {
    var t := PassOf(cfg, sys, a);
    var d := sys.mem.data.(token := a.token);
    SettledExactly(a.w, cfg, sys.bulkUnsupported, d, a.rows, r);
    AbortDiscipline(a.w, cfg, sys.bulkUnsupported, d, a.rows);
    LosslessErrors(t.trace);
    PassCursor(a.w, cfg, sys.bulkUnsupported, d, a.rows);
    if r.WatermarkMs() in t.failed {
      assert MinOf(t.failed) <= r.WatermarkMs();
    }
  }

  lemma NotInPull(lib: map<string, BookRow>, since: int, rows: seq<BookRow>, h: string)
    requires PullAnswer(lib, since, rows) && h in lib && lib[h].WatermarkMs() <= since
    ensures AllForeign(rows, h)
  {
    forall r | r in rows ensures Foreign(r, h) {
    }
  }

  lemma SyncLosesNothing(cfg: Config, sys: System, a: Action)
    requires a.Sync? && Sound(sys) && Legal(cfg, sys, a) && Lossless(PassOf(cfg, sys, a).trace)
    requires NothingLost(sys.lib, sys.mem.data)
    ensures NothingLost(sys.lib, PassOf(cfg, sys, a).data)
  {
    var t := PassOf(cfg, sys, a);
    var d := sys.mem.data.(token := a.token);
    forall h | h in sys.lib && !sys.lib[h].IsDummy() && sys.lib[h].WatermarkMs() <= t.data.watermarkMs
      ensures Settled(t.data, sys.lib[h])
    {
      var r := sys.lib[h];
      if r.WatermarkMs() > sys.mem.data.watermarkMs {
        RowSettledAfter(cfg, sys, a, r);
      } else {
        NotInPull(sys.lib, sys.mem.data.watermarkMs, a.rows, h);
        UnpulledKept(a.w, cfg, sys.bulkUnsupported, d, a.rows, h);
        SlotDecides(t.data, sys.mem.data, r);
      }
    }
  }

  lemma TokenLosesNothing(lib: map<string, BookRow>, d: Data, token: Token)
    requires NothingLost(lib, d)
    ensures NothingLost(lib, d.(token := token))
  {
    forall h | h in lib && !lib[h].IsDummy() && lib[h].WatermarkMs() <= d.watermarkMs
      ensures Settled(d.(token := token), lib[h])
    {
      SlotDecides(d, d.(token := token), lib[h]);
    }
  }

  ghost predicate Safe(sys: System) {
    Sound(sys) && NothingLost(sys.lib, sys.mem.data) && NothingLost(sys.lib, sys.file.data)
  }

  lemma StepSafe(cfg: Config, sys: System, a: Action)
    requires Safe(sys) && Legal(cfg, sys, a) && (a.Sync? ==> NothingLost(sys.lib, PassOf(cfg, sys, a).data))
    ensures Safe(Step(cfg, sys, a))
  {
    StepSound(cfg, sys, a);
    match a
    case Change(row) => ChangeLosesNothing(sys, row);
    case FailedPull(token, written) =>
      TokenLosesNothing(sys.lib, sys.mem.data, token);
      TokenLosesNothing(sys.lib, sys.mem.data, if written.Some? then written.value else token);
    case Sync(w, rows, token, written, saved) =>
      TokenLosesNothing(sys.lib, sys.mem.data, if written.Some? then written.value else token);
    case Crash =>
  }

  /** A server-side change lies above every cursor, so it unsettles nothing that was promised. */
  lemma ChangeLosesNothing(sys: System, row: BookRow)
    requires Safe(sys) && row.WatermarkMs() > sys.high
    ensures NothingLost(sys.lib[row.hash := row], sys.mem.data)
    ensures NothingLost(sys.lib[row.hash := row], sys.file.data)
  {
  }

  /** No lost update, and crash safety with it: over every legal run without an Unauthorized match-check or bulk answer
      and without a failed UpdateProgress, every server row at or below the cursor is settled, in memory and in the
      file, so whatever a crash brings back re-pulls everything it has not settled. */
  lemma {:induction false} NoUpdateIsLost(cfg: Config, acts: seq<Action>)
    requires LegalRun(cfg, acts) && LosslessRun(cfg, acts)
    ensures Safe(Run(cfg, acts))
  {
    if acts == [] {
      InitialSound();
    } else {
      NoUpdateIsLost(cfg, acts[..|acts| - 1]);
      var sys, a := Run(cfg, acts[..|acts| - 1]), acts[|acts| - 1];
      if a.Sync? {
        SyncLosesNothing(cfg, sys, a);
      }
      StepSafe(cfg, sys, a);
    }
  }

  /** What is not lost stays so: a step changes the library only above every cursor. */
  lemma LibraryMoves(cfg: Config, sys: System, a: Action, d: Data)
    requires LibraryOk(sys) && Legal(cfg, sys, a) && NothingLost(sys.lib, d)
             && d.watermarkMs <= sys.file.data.watermarkMs
    ensures NothingLost(Step(cfg, sys, a).lib, d)
  {
  }

  lemma LibraryMovesOverRuns(cfg: Config, acts: seq<Action>, a: Action, d: Data)
    requires LegalRun(cfg, acts + [a]) && NothingLost(Run(cfg, acts).lib, d)
    requires d.watermarkMs <= Run(cfg, acts).file.data.watermarkMs
    ensures NothingLost(Run(cfg, acts + [a]).lib, d)
    ensures d.watermarkMs <= Run(cfg, acts + [a]).file.data.watermarkMs
  {
    assert (acts + [a])[..|acts|] == acts;
    RunSound(cfg, acts);
    CursorOverRuns(cfg, acts, a);
    LibraryMoves(cfg, Run(cfg, acts), a, d);
  }

  /** A file saved at any earlier moment of such a run is still safe to restart from. */
  lemma {:induction false} EarlierFileIsSafe(cfg: Config, acts: seq<Action>, n: nat)
    requires LegalRun(cfg, acts) && LosslessRun(cfg, acts) && n <= |acts|
    ensures NothingLost(Run(cfg, acts).lib, Run(cfg, acts[..n]).file.data)
    ensures Run(cfg, acts[..n]).file.data.watermarkMs <= Run(cfg, acts).file.data.watermarkMs
  {
    if n == |acts| {
      NoUpdateIsLost(cfg, acts);
      assert acts[..n] == acts;
    } else {
      var front, a := acts[..|acts| - 1], acts[|acts| - 1];
      EarlierFileIsSafe(cfg, front, n);
      assert front[..n] == acts[..n];
      assert front + [a] == acts;
      LibraryMovesOverRuns(cfg, front, a, Run(cfg, acts[..n]).file.data);
    }
  }
}
