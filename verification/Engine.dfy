/** The sync engine (internal/sync/engine.go) as the object it is: it changes the store row by row and call by call.
    Every method is proved equal to its counterpart in SyncPass. */
module Engine {
  import opened Wrappers
  import opened Errors
  import opened Retry
  import opened Batch
  import opened Readest
  import opened Token
  import opened State
  import opened StateFile
  import opened Stores
  import opened PullCalls
  import opened SyncPass
  import Phases
  import Projection
  import Sending
  import Settlement
  import StatusChannel
  import A = Auth
  import C = Client

  /** What one pass meets: every attempt of the n-th call, and the clock. */
  datatype Surroundings = Surroundings(
    matching: nat -> Attempts<MatchResponse, BookOrbitError>,
    bulk: nat -> Attempts<seq<string>, BookOrbitError>,
    update: nat -> Attempts<(), BookOrbitError>,
    status: nat -> Attempts<(), BookOrbitError>,
    clock: nat -> int)

  /** What is left of it after the retries. */
  function Logical(rc: RetryConfig, w: Surroundings): World {
    World(SyncWorld((n: nat) => Retried(rc, w.matching(n), ClassifyBookOrbit),
                    (n: nat) => Retried(rc, w.bulk(n), ClassifyBookOrbit),
                    (n: nat) => Retried(rc, w.update(n), ClassifyBookOrbit),
                    w.clock),
          (n: nat) => Retried(rc, w.status(n), ClassifyBookOrbitStatus))
  }

  /** What RunOnce returns: the pull's error, or the errors of the calls and whether the final save worked. */
  datatype Report = PullFailed(error: ReadestError) | Finished(errs: seq<Failure>, saved: bool)

  ghost predicate ItemsIn(items: seq<PushItem>, touch: set<string>) { forall p :: p in items ==> p.hash in touch }

  /** The variables of RunOnce that its closures and helpers share, and how far into its surroundings the pass is.
      `touch` are the hashes that the pass may say anything about. */
  class Frame {
    const w: Surroundings
    ghost const touch: set<string>
    var calls: nat
    var ticks: nat
    var toPush: seq<PushItem>
    var failed: seq<int>
    var errs: seq<Failure>
    ghost var trace: seq<Event>

    constructor (w: Surroundings, rows: seq<BookRow>, ghost touch: set<string>)
      ensures this.w == w && this.touch == touch && calls == 1 && ticks == 0
      ensures toPush == [] && failed == [] && errs == [] && trace == [Pulled(rows)]
    {
      this.w, this.touch := w, touch;
      calls, ticks, toPush, failed, errs, trace := 1, 0, [], [], [], [Pulled(rows)];
    }

    method Now() returns (now: int)
      modifies this`ticks
      ensures now == w.clock(old(ticks)) && ticks == old(ticks) + 1
    {
      now := w.clock(ticks);
      ticks := ticks + 1;
    }

    method Fail(op: Operation, e: BookOrbitError)
      modifies this`errs
      ensures errs == old(errs) + [Failure(op, e)]
    {
      errs := errs + [Failure(op, e)];
    }
  }

  function Unwritten(s: PullState): PullState { s.(ledger := s.ledger.(written := None)) }

  /** A token save in mid-pull writes the store as it was, but for the token. */
  function FileAfterPull(file: Option<File>, d: Data, written: Option<Token>): Option<File> {
    if written.Some? then Some(File(Whole(d.(token := written.value)), true)) else file
  }

  /** Throughout a pass the state file is what it was, or the store before the pass but for its token, or the result. */
  ghost predicate PassImages(images: seq<Disk>, n: nat, file0: Option<File>, d0: Data, result: Option<File>) {
    forall i :: n <= i < |images| ==> A.TokenImage(images[i].target, file0, d0) || images[i].target == result
  }

  lemma ImagesOfPass(a: seq<Disk>, b: seq<Disk>, n: nat, file0: Option<File>, d0: Data, result: Option<File>)
    requires n <= |a| && a <= b && A.TokenImages(a, n, file0, d0)
    requires exists last :: Between(b, |a|, last, result) && A.TokenImage(last, file0, d0)
    ensures PassImages(b, n, file0, d0, result)
  {
  }

  /** The pass function, named rather than unfolded. */
  ghost predicate IsPass(t: Pass, w: World, cfg: Config, latch: bool, d: Data, rows: seq<BookRow>) {
    forall r :: r == rows ==> t == RunPass(w, cfg, latch, d, r)
  }

  class Engine {
    const cfg: Config
    const retry: RetryConfig
    const rd: C.Client
    const st: FileStore
    var bulkUnsupported: bool

    constructor (cfg: Config, retry: RetryConfig, rd: C.Client)
      ensures this.cfg == cfg && this.retry == retry && this.rd == rd && st == rd.auth.store && !bulkUnsupported
    {
      this.cfg, this.retry, this.rd, this.st := cfg, retry, rd, rd.auth.store;
      bulkUnsupported := false;
    }

    /** The pass so far. */
    ghost function Now(f: Frame, fatal: bool): Pass
      reads this, st, f
    {
      Pass(st.data, bulkUnsupported, f.toPush, f.trace, f.ticks, f.failed, f.errs, fatal)
    }

    /** Nothing outside these hashes was different in the store at any moment since. */
    twostate predicate Only(touch: set<string>)
      reads this, st
    {
      Stays(old(st.stores), old(st.data), st.stores, st.data, touch)
    }

    ghost predicate InStep(f: Frame)
      reads f
    {
      f.calls == |f.trace|
    }

    ghost function World(f: Frame): World {
      Logical(retry, f.w)
    }

    /******* Gateways *******/

    method CallMatchCheck(f: Frame, now: int, hashes: seq<string>) returns (r: Result<MatchResponse, BookOrbitError>)
      requires InStep(f)
      modifies f`calls, f`trace
      ensures InStep(f) && r == World(f).sync.matching(|old(f.trace)|)
      ensures f.trace == old(f.trace) + [MatchCheck(hashes, r, now)]
    {
      var t := WithRetry(retry, f.w.matching(f.calls), ClassifyBookOrbit);
      r := t.result;
      f.calls := f.calls + 1;
      f.trace := f.trace + [MatchCheck(hashes, r, now)];
    }

    method CallBulkProgress(f: Frame, items: seq<Sent>) returns (r: Result<seq<string>, BookOrbitError>)
      requires InStep(f)
      modifies f`calls, f`trace
      ensures InStep(f) && r == World(f).sync.bulk(|old(f.trace)|)
      ensures f.trace == old(f.trace) + [Bulk(items, r, if r.Ok? then Times(World(f).sync, f.ticks, |items|) else [])]
    {
      var t := WithRetry(retry, f.w.bulk(f.calls), ClassifyBookOrbit);
      r := t.result;
      f.calls := f.calls + 1;
      f.trace := f.trace + [Bulk(items, r, if r.Ok? then Times(World(f).sync, f.ticks, |items|) else [])];
    }

    method CallUpdateProgress(f: Frame, item: Sent) returns (r: Result<(), BookOrbitError>)
      requires InStep(f)
      modifies f`calls, f`trace
      ensures InStep(f) && r == World(f).sync.update(|old(f.trace)|)
      ensures f.trace == old(f.trace) + [Update(item, r, if r.Ok? then f.w.clock(f.ticks) else 0)]
    {
      var t := WithRetry(retry, f.w.update(f.calls), ClassifyBookOrbit);
      r := t.result;
      f.calls := f.calls + 1;
      f.trace := f.trace + [Update(item, r, if r.Ok? then f.w.clock(f.ticks) else 0)];
    }

    method CallSetReadStatus(f: Frame, now: int, hash: string, bookId: int, token: string)
      returns (r: Result<(), BookOrbitError>)
      requires InStep(f)
      modifies f`calls, f`trace
      ensures InStep(f) && r == World(f).status(|old(f.trace)|)
      ensures f.trace == old(f.trace) + [SetStatus(hash, bookId, token, r, now)]
    {
      var t := WithRetry(retry, f.w.status(f.calls), ClassifyBookOrbitStatus);
      r := t.result;
      f.calls := f.calls + 1;
      f.trace := f.trace + [SetStatus(hash, bookId, token, r, now)];
    }

    /******* Progress *******/

    method PushSingle(f: Frame, p: PushItem)
      requires InStep(f) && p.hash in f.touch
      modifies st`data, st`stores, f`calls, f`trace, f`ticks, f`errs
      ensures InStep(f)
      ensures Now(f, false) == SyncPass.PushSingle(World(f).sync, old(Now(f, false)), p) && Only(f.touch)
    {
      var done := CallUpdateProgress(f, p.ToSent());
      if done.Err? {
        f.Fail(UpdateProgressOp, done.error);
        return;
      }
      var at := f.Now();
      st.SetMatch(p.hash, p.rec.(lastPushedAt := at, lastPushedPct := p.pct));
      SettersAgree(old(st.data), p.hash, p.rec.(lastPushedAt := at, lastPushedPct := p.pct), at, f.touch);
    }

    method PushEach(f: Frame, chunk: seq<PushItem>)
      requires InStep(f) && ItemsIn(chunk, f.touch)
      modifies st`data, st`stores, f`calls, f`trace, f`ticks, f`errs
      ensures InStep(f)
      ensures Now(f, false) == PushSingles(World(f).sync, old(Now(f, false)), chunk) && Only(f.touch)
    {
      for i := 0 to |chunk|
        invariant InStep(f) && Only(f.touch)
        invariant PushSingles(World(f).sync, Now(f, false), chunk[i..])
                  == PushSingles(World(f).sync, old(Now(f, false)), chunk)
      {
        ghost var a, d := st.stores, st.data;
        PushSingle(f, chunk[i]);
        StaysThen(old(st.stores), old(st.data), a, d, st.stores, st.data, f.touch);
        assert chunk[i..][1..] == chunk[i + 1..];
      }
    }

    method MarkFailed(f: Frame, watermarks: seq<int>)
      modifies f`failed
      ensures f.failed == old(f.failed) + watermarks
    {
      for i := 0 to |watermarks|
        invariant f.failed == old(f.failed) + watermarks[..i]
      {
        f.failed := f.failed + [watermarks[i]];
      }
    }

    /** The two ways a bulk answer settles an item. */
    method Acknowledge(f: Frame, chunk: seq<PushItem>, refused: seq<string>)
      requires ItemsIn(chunk, f.touch)
      modifies st`data, st`stores, f`ticks
      ensures Now(f, false) == AckItems(World(f).sync, old(Now(f, false)), chunk, refused) && Only(f.touch)
    {
      for i := 0 to |chunk|
        invariant Only(f.touch)
        invariant AckItems(World(f).sync, Now(f, false), chunk[i..], refused)
               == AckItems(World(f).sync, old(Now(f, false)), chunk, refused)
      {
        ghost var a, d := st.stores, st.data;
        AcknowledgeOne(f, chunk[i], refused);
        StaysThen(old(st.stores), old(st.data), a, d, st.stores, st.data, f.touch);
        assert chunk[i..][1..] == chunk[i + 1..];
      }
    }

    method AcknowledgeOne(f: Frame, p: PushItem, refused: seq<string>)
      requires p.hash in f.touch
      modifies st`data, st`stores, f`ticks
      ensures Now(f, false) == AckItem(World(f).sync, old(Now(f, false)), p, refused) && Only(f.touch)
    {
      var at := f.Now();
      if p.hash in refused {
        Unmatch(p.hash, at, f.touch);
      } else {
        st.SetMatch(p.hash, p.rec.(lastPushedAt := at, lastPushedPct := p.pct));
        SettersAgree(old(st.data), p.hash, p.rec.(lastPushedAt := at, lastPushedPct := p.pct), at, f.touch);
      }
    }

    method PushChunk(f: Frame, chunk: seq<PushItem>) returns (fatal: bool)
      requires InStep(f) && ItemsIn(chunk, f.touch)
      modifies st`data, st`stores, this`bulkUnsupported, f`calls, f`trace, f`ticks, f`errs, f`failed
      ensures InStep(f)
      ensures Now(f, fatal) == SyncPass.PushChunk(World(f).sync, old(Now(f, false)), chunk) && Only(f.touch)
    {
      if bulkUnsupported {
        PushEach(f, chunk);
        return false;
      }
      var refused := CallBulkProgress(f, ToSents(chunk));
      if refused.Err? {
        if refused.error.Unauthorized? {
          f.Fail(BulkProgressOp, refused.error);
          return true;
        }
        if refused.error.UnsupportedEndpoint? {
          bulkUnsupported := true;
          PushEach(f, chunk);
          return false;
        }
        f.Fail(BulkProgressOp, refused.error);
        MarkFailed(f, ItemWatermarks(chunk));
        return false;
      }
      Acknowledge(f, chunk, refused.value);
      return false;
    }

    /** The push phase: BatchFunc over the queue, stopping when a chunk is fatal. */
    method PushPhase(f: Frame) returns (fatal: bool)
      requires InStep(f) && ItemsIn(f.toPush, f.touch)
      modifies st`data, st`stores, this`bulkUnsupported, f`calls, f`trace, f`ticks, f`errs, f`failed
      ensures InStep(f) && f.toPush == old(f.toPush)
      ensures Now(f, fatal) == SyncPass.PushPhase(World(f).sync, cfg, old(Now(f, false)), f.toPush) && Only(f.touch)
    {
      var items := f.toPush;
      fatal := false;
      var start := 0;
      assert items[0..] == items;
      while start < |items| && !fatal
        invariant 0 <= start <= |items| && InStep(f) && f.toPush == items && Only(f.touch)
        invariant SyncPass.PushPhase(World(f).sync, cfg, Now(f, fatal), items[start..])
               == SyncPass.PushPhase(World(f).sync, cfg, old(Now(f, false)), items)
        decreases |items| - start, !fatal
      {
        var end := start + ChunkLength(|items| - start, cfg.progressBatchSize);
        PushPhaseStep(World(f).sync, cfg, Now(f, false), items, start, end);
        ghost var a, d := st.stores, st.data;
        fatal := PushChunk(f, items[start..end]);
        StaysThen(old(st.stores), old(st.data), a, d, st.stores, st.data, f.touch);
        start := end;
      }
    }

    /******* Match-check *******/

    /** A hash found in the library: its record, and no cooldown. */
    method Resolve(h: string, rec: MatchRecord, ghost touch: set<string>)
      requires h in touch
      modifies st`data, st`stores
      ensures st.data == old(st.data).SetMatch(h, rec).ClearUnmatched(h) && Only(touch)
    {
      st.SetMatch(h, rec);
      ghost var mid := st.data;
      st.ClearUnmatched(h);
      SettersAgree(old(st.data), h, rec, 0, touch);
      SettersAgree(mid, h, rec, 0, touch);
      TwoSetters(old(st.stores), old(st.data), mid, st.stores, st.data, touch);
    }

    /** A hash not in the library: its cooldown begins, and it has no record. */
    method Unmatch(h: string, at: int, ghost touch: set<string>)
      requires h in touch
      modifies st`data, st`stores
      ensures st.data == SyncPass.Unmatch(old(st.data), h, at) && Only(touch)
    {
      st.SetUnmatched(h, at);
      ghost var mid := st.data;
      st.DeleteMatch(h);
      SettersAgree(old(st.data), h, NewRecord(0, 0), at, touch);
      SettersAgree(mid, h, NewRecord(0, 0), at, touch);
      TwoSetters(old(st.stores), old(st.data), mid, st.stores, st.data, touch);
    }

    method AddMatches(f: Frame, now: int, byHash: map<string, BookRow>, found: seq<Match>)
      requires forall m :: m in found ==> m.hash in f.touch
      modifies st`data, st`stores, f`toPush
      ensures Now(f, false) == SyncPass.AddMatches(byHash, now, old(Now(f, false)), found) && Only(f.touch)
    {
      for i := 0 to |found|
        invariant Only(f.touch)
        invariant SyncPass.AddMatches(byHash, now, Now(f, false), found[i..])
               == SyncPass.AddMatches(byHash, now, old(Now(f, false)), found)
      {
        var m := found[i];
        var rec := NewRecord(m.bookFileId, m.bookId);
        ghost var a, d := st.stores, st.data;
        Resolve(m.hash, rec, f.touch);
        StaysThen(old(st.stores), old(st.data), a, d, st.stores, st.data, f.touch);
        if m.hash in byHash {
          var pct := byHash[m.hash].Percentage();
          if pct.Some? {
            f.toPush := f.toPush + [ItemFor(m.hash, byHash[m.hash], rec, pct.value, now)];
          }
        }
        assert found[i..][1..] == found[i + 1..];
      }
    }

    method UnmatchListed(hs: seq<string>, at: int, ghost touch: set<string>)
      requires forall h :: h in hs ==> h in touch
      modifies st`data, st`stores
      ensures st.data == UnmatchAll(old(st.data), hs, at) && Only(touch)
    {
      for i := 0 to |hs|
        invariant Only(touch)
        invariant UnmatchAll(st.data, hs[i..], at) == UnmatchAll(old(st.data), hs, at)
      {
        ghost var a, d := st.stores, st.data;
        Unmatch(hs[i], at, touch);
        StaysThen(old(st.stores), old(st.data), a, d, st.stores, st.data, touch);
        assert hs[i..][1..] == hs[i + 1..];
      }
    }

    method UnmatchUnseen(chunk: seq<string>, named: set<string>, at: int, ghost touch: set<string>)
      requires forall h :: h in chunk ==> h in touch
      modifies st`data, st`stores
      ensures st.data == UnmatchOmitted(old(st.data), chunk, named, at) && Only(touch)
    {
      var seen := named;
      for i := 0 to |chunk|
        invariant Only(touch)
        invariant UnmatchOmitted(st.data, chunk[i..], seen, at) == UnmatchOmitted(old(st.data), chunk, named, at)
      {
        if chunk[i] !in seen {
          seen := seen + {chunk[i]};
          ghost var a, d := st.stores, st.data;
          Unmatch(chunk[i], at, touch);
          StaysThen(old(st.stores), old(st.data), a, d, st.stores, st.data, touch);
        }
        assert chunk[i..][1..] == chunk[i + 1..];
      }
    }

    method CheckChunk(f: Frame, now: int, byHash: map<string, BookRow>, chunk: seq<string>) returns (fatal: bool)
      requires InStep(f) && (forall h :: h in chunk ==> h in byHash) && (forall h :: h in chunk ==> h in f.touch)
      requires var r := World(f).sync.matching(|f.trace|); r.Ok? ==> AnswerIn(r.value, f.touch)
      modifies st`data, st`stores, f`calls, f`trace, f`toPush, f`errs, f`failed
      ensures InStep(f)
      ensures Now(f, fatal) == MatchChunk(World(f).sync, now, byHash, old(Now(f, false)), chunk) && Only(f.touch)
    {
      var found := CallMatchCheck(f, now, chunk);
      if found.Err? {
        f.Fail(MatchCheckOp, found.error);
        if found.error.Unauthorized? {
          return true;
        }
        MarkFailed(f, Watermarks(byHash, chunk));
        return false;
      }
      AddMatches(f, now, byHash, found.value.matches);
      ghost var a, d := st.stores, st.data;
      UnmatchListed(found.value.unmatched, now, f.touch);
      StaysThen(old(st.stores), old(st.data), a, d, st.stores, st.data, f.touch);
      a, d := st.stores, st.data;
      UnmatchUnseen(chunk, Named(found.value), now, f.touch);
      StaysThen(old(st.stores), old(st.data), a, d, st.stores, st.data, f.touch);
      return false;
    }

    method CheckPhase(f: Frame, now: int, byHash: map<string, BookRow>, hashes: seq<string>) returns (fatal: bool)
      requires InStep(f) && (forall h :: h in hashes ==> h in byHash) && (forall h :: h in hashes ==> h in f.touch)
      requires TraceIn(MatchPhase(World(f).sync, cfg, now, byHash, Now(f, false), hashes).trace, f.touch)
      modifies st`data, st`stores, f`calls, f`trace, f`toPush, f`errs, f`failed
      ensures InStep(f)
      ensures Now(f, fatal) == MatchPhase(World(f).sync, cfg, now, byHash, old(Now(f, false)), hashes) && Only(f.touch)
    {
      fatal := false;
      var start := 0;
      assert hashes[0..] == hashes;
      while start < |hashes| && !fatal
        invariant 0 <= start <= |hashes| && InStep(f) && Only(f.touch)
        invariant MatchPhase(World(f).sync, cfg, now, byHash, Now(f, fatal), hashes[start..])
               == MatchPhase(World(f).sync, cfg, now, byHash, old(Now(f, false)), hashes)
        decreases |hashes| - start, !fatal
      {
        var end := start + ChunkLength(|hashes| - start, cfg.matchBatchSize);
        MatchPhaseStep(World(f).sync, cfg, now, byHash, Now(f, false), hashes, start, end);
        NextAnswerIn(World(f).sync, cfg, now, byHash, Now(f, false), hashes, start, end, f.touch);
        ghost var a, d := st.stores, st.data;
        fatal := CheckChunk(f, now, byHash, hashes[start..end]);
        StaysThen(old(st.stores), old(st.data), a, d, st.stores, st.data, f.touch);
        start := end;
      }
    }

    /** hashes and rowByHash, built in one loop. */
    method IndexRows(toMatch: seq<BookRow>) returns (hashes: seq<string>, byHash: map<string, BookRow>)
      ensures hashes == Hashes(toMatch) && byHash == RowByHash(toMatch)
      ensures forall i :: 0 <= i < |toMatch| && (forall j :: i < j < |toMatch| ==>
                                                 toMatch[j].hash != toMatch[i].hash) ==>
                toMatch[i].hash in byHash && byHash[toMatch[i].hash] == toMatch[i]
    {
      forall i | 0 <= i < |toMatch| && forall j :: i < j < |toMatch| ==> toMatch[j].hash != toMatch[i].hash
        ensures toMatch[i].hash in RowByHash(toMatch) && RowByHash(toMatch)[toMatch[i].hash] == toMatch[i]
      {
        Projection.LaterRowWins(toMatch, i);
      }
      hashes, byHash := [], map[];
      for i := 0 to |toMatch|
        invariant hashes == Hashes(toMatch[..i]) && byHash == RowByHash(toMatch[..i])
      {
        IndexNext(toMatch, i);
        hashes := hashes + [toMatch[i].hash];
        byHash := byHash[toMatch[i].hash := toMatch[i]];
      }
      assert toMatch[..|toMatch|] == toMatch;
    }

    /******* Status *******/

    method RecordSeenStatus(hash: string, rec: MatchRecord, status: string, now: int, ghost touch: set<string>)
      requires hash in touch
      modifies st`data, st`stores
      ensures st.data == if rec.lastSeenStatus == status then old(st.data)
                         else old(st.data).SetMatch(hash, Seen(rec, status, now))
      ensures Only(touch)
    {
      if rec.lastSeenStatus == status {
        return;
      }
      st.SetMatch(hash, rec.(lastSeenStatus := status, lastSeenStatusAt := now));
      SettersAgree(old(st.data), hash, rec.(lastSeenStatus := status, lastSeenStatusAt := now), 0, touch);
    }

    method PushStatus(f: Frame, now: int, row: BookRow, rec: MatchRecord) returns (fatal: bool)
      requires InStep(f) && row.hash in f.touch
      modifies st`data, st`stores, f`calls, f`trace, f`errs
      ensures InStep(f)
      ensures Now(f, fatal) == SyncPass.PushStatus(World(f), now, old(Now(f, false)), row, rec) && Only(f.touch)
    {
      var token := MapReadingStatus(row.readingStatus);
      if token.None? {
        if KnownStatus(row.readingStatus) {
          RecordSeenStatus(row.hash, rec, row.readingStatus, now, f.touch);
        }
        return false;
      }
      if token.value == rec.lastPushedStatus {
        RecordSeenStatus(row.hash, rec, row.readingStatus, now, f.touch);
        return false;
      }
      var done := CallSetReadStatus(f, now, row.hash, rec.bookId, token.value);
      if done.Ok? {
        var pushed := rec.(lastSeenStatus := row.readingStatus, lastSeenStatusAt := now,
                           lastPushedStatus := token.value, lastPushedStatusAt := now);
        st.SetMatch(row.hash, pushed);
        SettersAgree(old(st.data), row.hash, pushed, now, f.touch);
        return false;
      }
      if done.error.BookGone? {
        st.DeleteMatch(row.hash);
        ghost var mid := st.data;
        st.SetUnmatched(row.hash, now);
        SettersAgree(old(st.data), row.hash, rec, now, f.touch);
        SettersAgree(mid, row.hash, rec, now, f.touch);
        TwoSetters(old(st.stores), old(st.data), mid, st.stores, st.data, f.touch);
        return false;
      }
      f.Fail(SetReadStatusOp, done.error);
      return done.error.Unauthorized?;
    }

    method PushStatuses(f: Frame, now: int, rows: seq<BookRow>) returns (fatal: bool)
      requires InStep(f) && RowsIn(rows, f.touch)
      modifies st`data, st`stores, f`calls, f`trace, f`errs
      ensures InStep(f)
      ensures Now(f, fatal) == StatusPhase(World(f), now, old(Now(f, false)), rows) && Only(f.touch)
    {
      for i := 0 to |rows|
        invariant InStep(f) && Only(f.touch)
        invariant StatusPhase(World(f), now, Now(f, false), rows[i..])
                  == StatusPhase(World(f), now, old(Now(f, false)), rows)
      {
        var row := rows[i];
        assert rows[i..][1..] == rows[i + 1..];
        if !row.IsDummy() && !row.IsDeleted() {
          var rec := st.Match(row.hash);
          if rec.Some? {
            ghost var a, d := st.stores, st.data;
            fatal := PushStatus(f, now, row, rec.value);
            StaysThen(old(st.stores), old(st.data), a, d, st.stores, st.data, f.touch);
            if fatal {
              return true;
            }
          }
        }
      }
      return false;
    }

    /******* Classification *******/

    method ClassifyRow(f: Frame, now: int, row: BookRow, maxWatermark: int, toMatch: seq<BookRow>)
      returns (latest: int, resolve: seq<BookRow>)
      requires row.hash in f.touch
      modifies st`data, st`stores, f`toPush
      ensures Classified(st.data, latest, resolve, f.toPush) ==
              SyncPass.ClassifyRow(cfg, now, Classified(old(st.data), maxWatermark, toMatch, old(f.toPush)), row)
      ensures Only(f.touch)
    {
      latest, resolve := maxWatermark, toMatch;
      if row.IsDummy() {
        return;
      }
      var wm := row.WatermarkMs();
      if wm > latest {
        latest := wm;
      }
      if row.IsDeleted() {
        st.DeleteMatch(row.hash);
        ghost var mid := st.data;
        st.ClearUnmatched(row.hash);
        SettersAgree(old(st.data), row.hash, NewRecord(0, 0), 0, f.touch);
        SettersAgree(mid, row.hash, NewRecord(0, 0), 0, f.touch);
        TwoSetters(old(st.stores), old(st.data), mid, st.stores, st.data, f.touch);
        return;
      }
      var progressEligible, statusEligible := false, false;
      var pct := row.Percentage();
      if pct.Some? {
        var rec := st.Match(row.hash);
        if rec.Some? {
          if !(rec.value.lastPushedAt != 0 && Abs(pct.value - rec.value.lastPushedPct) <= PERCENT_TOLERANCE) {
            f.toPush := f.toPush + [PushItem(row.hash, rec.value, pct.value, UpdatedSeconds(row, now), wm)];
          }
        } else {
          var at := st.UnmatchedAt(row.hash);
          if !(at.Some? && now - at.value < cfg.cooldownSeconds) {
            progressEligible := true;
          }
        }
      }
      if cfg.syncStatus && MapReadingStatus(row.readingStatus).Some? {
        var rec := st.Match(row.hash);
        if rec.None? {
          var at := st.UnmatchedAt(row.hash);
          if !(at.Some? && now - at.value < cfg.cooldownSeconds) && !progressEligible {
            statusEligible := true;
          }
        }
      }
      if progressEligible || statusEligible {
        resolve := resolve + [row];
      }
    }

    method ClassifyRows(f: Frame, now: int, rows: seq<BookRow>) returns (latest: int, resolve: seq<BookRow>)
      requires RowsIn(rows, f.touch)
      modifies st`data, st`stores, f`toPush
      ensures Classified(st.data, latest, resolve, f.toPush) ==
              Classify(cfg, now, Classified(old(st.data), 0, [], old(f.toPush)), rows)
      ensures Only(f.touch)
    {
      latest, resolve := 0, [];
      for i := 0 to |rows|
        invariant Only(f.touch)
        invariant Classify(cfg, now, Classified(st.data, latest, resolve, f.toPush), rows[i..])
               == Classify(cfg, now, Classified(old(st.data), 0, [], old(f.toPush)), rows)
      {
        ghost var a, d := st.stores, st.data;
        latest, resolve := ClassifyRow(f, now, rows[i], latest, resolve);
        StaysThen(old(st.stores), old(st.data), a, d, st.stores, st.data, f.touch);
        assert rows[i..][1..] == rows[i + 1..];
      }
    }

    /******* The pass *******/

    ghost predicate Valid()
      reads this, rd, rd.auth, st
    {
      st == rd.auth.store && st.Valid()
    }

    /** pullBooks: withRetry around the client. */
    method PullBooks(pauses: Pauses, since: int) returns (r: Result<seq<BookRow>, ReadestError>)
      requires Valid()
      modifies rd, rd.auth, st
      ensures Valid() && rd.auth.OnlyToken() && rd.World() == old(rd.World())
      ensures Stepped(rd.View(), r) == RetriedPull(retry, rd.World(), pauses, old(rd.View()), since)
    {
      ghost var e, s0 := rd.World(), rd.View();
      var delay := retry.initialBackoff;
      var attempt: nat := 0;
      while true
        invariant Valid() && rd.auth.OnlyToken() && rd.World() == e
        invariant RetryFrom(retry, Attempt(e, since), ClassifyReadest, pauses, rd.View(), attempt, delay)
               == RetriedPull(retry, e, pauses, s0, since)
        decreases retry.maxAttempts - attempt
      {
        r := rd.PullBooks(since);
        if ClassifyReadest(r) != OutcomeRetry || attempt >= retry.maxAttempts {
          return r;
        }
        var stopped := SleepError(delay, pauses(attempt));
        if stopped.Some? {
          return Err(stopped.value);
        }
        delay := NextDelay(retry, delay);
        attempt := attempt + 1;
      }
    }

    /** The progress and the status phase, unless the match-check phase gave up. */
    method Pushes(f: Frame, now: int, rows: seq<BookRow>, gaveUp: bool) returns (fatal: bool)
      requires InStep(f) && ItemsIn(f.toPush, f.touch) && RowsIn(rows, f.touch) && now == f.w.clock(0)
      modifies st`data, st`stores, this`bulkUnsupported, f`calls, f`trace, f`ticks, f`errs, f`failed
      ensures Now(f, fatal) == AfterStatus(World(f), cfg, AfterPush(World(f).sync, cfg, old(Now(f, gaveUp))), rows)
      ensures Only(f.touch)
    {
      fatal := gaveUp;
      if !fatal {
        fatal := PushPhase(f);
      }
      if !fatal && cfg.syncStatus {
        ghost var a, d := st.stores, st.data;
        fatal := PushStatuses(f, now, rows);
        StaysThen(old(st.stores), old(st.data), a, d, st.stores, st.data, f.touch);
      }
    }

    /** From the rows to the moment before the cursor moves. */
    method Phases(f: Frame, rows: seq<BookRow>, ghost t: Pass) returns (latest: int)
      requires f.calls == 1 && f.ticks == 0 && f.toPush == [] && f.failed == [] && f.errs == []
               && f.trace == [Pulled(rows)]
      requires IsPass(t, World(f), cfg, bulkUnsupported, st.data, rows) && f.touch == Touched(rows, t.trace)
      modifies st`data, st`stores, this`bulkUnsupported, f
      ensures bulkUnsupported == t.bulkUnsupported && f.errs == t.errs
      ensures t.data == st.data.(watermarkMs := SyncPass.ComputeWatermark(st.data.watermarkMs, latest, f.failed))
      ensures Only(f.touch)
    {
      PhasesOf(t, World(f), cfg, bulkUnsupported, st.data, rows);
      var now := f.Now();
      var toMatch;
      latest, toMatch := ClassifyRows(f, now, rows);
      ghost var w := World(f);
      ghost var c := Classification(w, cfg, old(st.data), rows);
      ghost var s0 := Started(c, bulkUnsupported, rows);
      assert Now(f, false) == s0;
      ghost var a, d := st.stores, st.data;
      var fatal := CheckQueued(f, now, toMatch);
      StaysThen(old(st.stores), old(st.data), a, d, st.stores, st.data, f.touch);
      ghost var s1 := AfterMatch(w.sync, cfg, c, s0);
      assert Now(f, fatal) == s1;
      a, d := st.stores, st.data;
      fatal := Pushes(f, now, rows, fatal);
      StaysThen(old(st.stores), old(st.data), a, d, st.stores, st.data, f.touch);
    }

    /** The pull of a pass, with what it wrote to the file counted from here. */
    method BeginPass(pauses: Pauses) returns (r: Result<seq<BookRow>, ReadestError>)
      requires Valid()
      modifies rd, rd.auth, st
      ensures Valid() && rd.World() == old(rd.World())
      ensures var p := RetriedPull(retry, rd.World(), pauses, Unwritten(old(rd.View())), old(st.data.watermarkMs));
              && r == p.result && rd.View() == p.state
              && st.data == old(st.data).(token := p.state.ledger.token)
              && st.disk.target == FileAfterPull(old(st.disk.target), old(st.data), p.state.ledger.written)
      ensures old(st.images) <= st.images
      ensures A.TokenImages(st.images, |old(st.images)|, old(st.disk.target), old(st.data))
      ensures old(st.stores) <= st.stores && A.TokenStores(st.stores, |old(st.stores)|, old(st.data))
    {
      var since := st.data.watermarkMs;
      rd.auth.written := None;
      r := PullBooks(pauses, since);
    }

    /** computeWatermark: the loop over the failed watermarks. */
    method ComputeWatermark(floor: int, maxWatermark: int, failed: seq<int>) returns (cursor: int)
      ensures cursor == SyncPass.ComputeWatermark(floor, maxWatermark, failed)
    {
      if |failed| == 0 {
        if maxWatermark > floor {
          return maxWatermark;
        }
        return floor;
      }
      var min := failed[0];
      for i := 1 to |failed|
        invariant min == MinOf(failed[..i])
      {
        assert failed[..i + 1][..i] == failed[..i];
        if failed[i] < min {
          min := failed[i];
        }
      }
      assert failed[..|failed|] == failed;
      var retreat := min - 1;
      if retreat > floor {
        return retreat;
      }
      return floor;
    }

    method Finish(f: Frame, latest: int, ghost t: Pass, ghost past: seq<Data>, ghost before: Data) returns (r: Report)
      requires st.Valid() && Stays(past, before, st.stores, st.data, f.touch) && f.errs == t.errs
      requires t.data == st.data.(watermarkMs := SyncPass.ComputeWatermark(st.data.watermarkMs, latest, f.failed))
      modifies st
      ensures st.Valid() && st.saves == old(st.saves) + 1 && st.data == t.data
      ensures r == Finished(t.errs, SaveOk(st.faults, old(st.saves)))
      ensures st.disk.target == if Replaces(st.faults, old(st.saves)) then Some(File(Whole(t.data), true))
              else old(st.disk.target)
      ensures old(st.images) <= st.images
      ensures Between(st.images, |old(st.images)|, old(st.disk.target), Some(File(Whole(t.data), true)))
      ensures past <= st.stores && Until(st.stores, |past|, before, f.touch, t.data)
    {
      var cursor := ComputeWatermark(st.data.watermarkMs, latest, f.failed);
      st.SetWatermark(cursor);
      UntilEnd(past, before, old(st.stores), old(st.data), f.touch, st.stores, st.data);
      var saved := st.Save();
      r := Finished(f.errs, saved);
    }

    /** RunOnce from the rows on. */
    method CompletePass(w: Surroundings, rows: seq<BookRow>, ghost t: Pass) returns (r: Report)
      requires st.Valid() && IsPass(t, Logical(retry, w), cfg, bulkUnsupported, st.data, rows)
      modifies this`bulkUnsupported, st
      ensures st.Valid() && st.saves == old(st.saves) + 1
      ensures st.data == t.data && bulkUnsupported == t.bulkUnsupported
              && r == Finished(t.errs, SaveOk(st.faults, old(st.saves)))
      ensures st.disk.target == if Replaces(st.faults, old(st.saves)) then Some(File(Whole(t.data), true))
              else old(st.disk.target)
      ensures old(st.images) <= st.images
      ensures Between(st.images, |old(st.images)|, old(st.disk.target), Some(File(Whole(t.data), true)))
      ensures old(st.stores) <= st.stores && Until(st.stores, |old(st.stores)|, old(st.data), Touched(rows, t.trace),
                                                   t.data)
    {
      var f := new Frame(w, rows, Touched(rows, t.trace));
      var latest := Phases(f, rows, t);
      r := Finish(f, latest, t, old(st.stores), old(st.data));
    }

    method RunOnce(w: Surroundings, pauses: Pauses) returns (r: Report)
      requires Valid()
      modifies this`bulkUnsupported, rd, rd.auth, st
      ensures Valid() && rd.World() == old(rd.World())
      ensures var p := RetriedPull(retry, rd.World(), pauses, Unwritten(old(rd.View())), old(st.data.watermarkMs));
              var d := old(st.data).(token := p.state.ledger.token);
              var file := FileAfterPull(old(st.disk.target), old(st.data), p.state.ledger.written);
              match p.result
              case Err(e) =>
                && r == PullFailed(e) && st.data == d && bulkUnsupported == old(bulkUnsupported)
                && st.saves == p.state.ledger.saves && st.disk.target == file
              case Ok(rows) =>
                var t := RunPass(Logical(retry, w), cfg, old(bulkUnsupported), d, rows);
                && st.data == t.data && bulkUnsupported == t.bulkUnsupported && st.saves == p.state.ledger.saves + 1
                && r == Finished(t.errs, SaveOk(st.faults, p.state.ledger.saves))
                && st.disk.target == if Replaces(st.faults, p.state.ledger.saves) then Some(File(Whole(t.data), true))
                   else file
      ensures old(st.images) <= st.images
      ensures PassImages(st.images, |old(st.images)|, old(st.disk.target), old(st.data),
                         Some(File(Whole(st.data), true)))
      ensures old(st.stores) <= st.stores
      ensures var p := RetriedPull(retry, rd.World(), pauses, Unwritten(old(rd.View())), old(st.data.watermarkMs));
              match p.result
              case Err(_) => Until(st.stores, |old(st.stores)|, old(st.data), {}, st.data)
              case Ok(rows) =>
                var d := old(st.data).(token := p.state.ledger.token);
                Until(st.stores, |old(st.stores)|, old(st.data),
                      Touched(rows, RunPass(Logical(retry, w), cfg, old(bulkUnsupported), d, rows).trace), st.data)
    {
      var rows := BeginPass(pauses);
      PullStores(st.stores, |old(st.stores)|, old(st.data), {});
      if rows.Err? {
        return PullFailed(rows.error);
      }
      ghost var files, stores, d := st.images, st.stores, st.data;
      ghost var t := RunPass(Logical(retry, w), cfg, bulkUnsupported, st.data, rows.value);
      ghost var touch := Touched(rows.value, t.trace);
      PullStores(st.stores, |old(st.stores)|, old(st.data), touch);
      r := CompletePass(w, rows.value, t);
      UntilAfter(old(st.stores), stores, st.stores, old(st.data), d, touch, st.data);
      ImagesOfPass(files, st.images, |old(st.images)|, old(st.disk.target), old(st.data),
                   Some(File(Whole(st.data), true)));
    }

    method CheckQueued(f: Frame, now: int, toMatch: seq<BookRow>) returns (fatal: bool)
      requires InStep(f) && RowsIn(toMatch, f.touch)
      requires TraceIn(MatchPhase(World(f).sync, cfg, now, RowByHash(toMatch), Now(f, false), Hashes(toMatch)).trace,
                       f.touch)
      modifies st`data, st`stores, f`calls, f`trace, f`toPush, f`errs, f`failed
      ensures InStep(f)
      ensures Now(f, fatal) == MatchPhase(World(f).sync, cfg, now, RowByHash(toMatch), old(Now(f, false)),
                                          Hashes(toMatch))
      ensures Only(f.touch)
    {
      fatal := false;
      if |toMatch| > 0 {
        var hashes, byHash := IndexRows(toMatch);
        fatal := CheckPhase(f, now, byHash, hashes);
      }
    }
  }

  /** While the pull goes on only the token changes. */
  lemma PullStores(stores: seq<Data>, n: nat, d: Data, touch: set<string>)
    requires A.TokenStores(stores, n, d)
    ensures forall i :: n <= i < |stores| ==> Agrees(stores[i], d, touch)
    ensures forall token :: Agrees(d.(token := token), d, touch)
  {
  }

  lemma TracePrefixIn(a: seq<Event>, b: seq<Event>, touch: set<string>)
    requires a <= b && TraceIn(b, touch)
    ensures TraceIn(a, touch)
  {
    forall e | e in a && e.MatchCheck? && e.found.Ok? ensures AnswerIn(e.found.value, touch) {
      assert e in b;
    }
  }

  /** The answer to the next chunk is one of those of the phase. */
  lemma NextAnswerIn(w: SyncWorld, cfg: Config, now: int, byHash: map<string, BookRow>, s: Pass, hashes: seq<string>,
                     start: nat, end: nat, touch: set<string>)
    requires forall h :: h in hashes ==> h in byHash
    requires start < end <= |hashes| && !s.fatal && end == start + ChunkLength(|hashes| - start, cfg.matchBatchSize)
    requires TraceIn(MatchPhase(w, cfg, now, byHash, s, hashes[start..]).trace, touch)
    ensures w.matching(|s.trace|).Ok? ==> AnswerIn(w.matching(|s.trace|).value, touch)
  {
    var s1 := MatchChunk(w, now, byHash, s, hashes[start..end]);
    MatchPhaseStep(w, cfg, now, byHash, s, hashes, start, end);
    Phases.MatchChunkFrame(w, now, byHash, s, hashes[start..end]);
    Phases.MatchPhaseFrame(w, cfg, now, byHash, s1, hashes[end..]);
    TracePrefixIn(s1.trace, MatchPhase(w, cfg, now, byHash, s, hashes[start..]).trace, touch);
    assert s1.trace[|s.trace|] in s1.trace;
  }

  /** What the phases of a pass are handed: the rows to check, the answers to that, and the queue; and how it ends. */
  lemma PhasesOf(t: Pass, w: World, cfg: Config, latch: bool, d: Data, rows: seq<BookRow>)
    requires IsPass(t, w, cfg, latch, d, rows)
    ensures var c, touch := Classification(w, cfg, d, rows), Touched(rows, t.trace);
            var s := AfterMatch(w.sync, cfg, c, Started(c, latch, rows));
            var last := AfterStatus(w, cfg, AfterPush(w.sync, cfg, s), rows);
            && RowsIn(rows, touch) && RowsIn(c.toMatch, touch) && TraceIn(s.trace, touch) && ItemsIn(s.toPush, touch)
            && t == last.(data := last.data.(
                 watermarkMs := SyncPass.ComputeWatermark(last.data.watermarkMs, c.maxWatermark, last.failed)))
  {
    var touch := Touched(rows, t.trace);
    assert t == RunPass(w, cfg, latch, d, rows);
    TouchedTrace(rows, t.trace);
    var c, s0, s1, s2 := Settlement.Assembled(w, cfg, latch, d, rows);
    Projection.ToMatchGrows(cfg, w.sync.clock(0), Classified(d, 0, [], []), rows);
    StatusChannel.StatusPhaseFrame(w, w.sync.clock(0), s2, rows);
    TracePrefixIn(s1.trace, t.trace, touch);
    Sending.QueueFrom(w, cfg, latch, d, rows);
    forall p | p in s1.toPush ensures p.hash in touch {
      assert Sending.FromRow(w.sync.clock(0), rows, p.ToSent());
    }
  }

  /** One row more, as rowByHash is filled: the later row of a hash wins. */
  lemma {:induction false} HashesSnoc(rows: seq<BookRow>, r: BookRow)
    ensures Hashes(rows + [r]) == Hashes(rows) + [r.hash]
  {
    assert |rows + [r]| == |rows| + 1;
  }

  lemma {:induction false} IndexSnoc(rows: seq<BookRow>, r: BookRow)
    ensures RowByHash(rows + [r]) == RowByHash(rows)[r.hash := r]
  {
    if rows == [] {
      assert rows + [r] == [r] && [r][1..] == [];
    } else {
      assert (rows + [r])[1..] == rows[1..] + [r] && (rows + [r])[0] == rows[0];
      IndexSnoc(rows[1..], r);
      EarlierRow(RowByHash(rows[1..]), rows[0], r);
    }
  }

  lemma IndexNext(rows: seq<BookRow>, i: nat)
    requires i < |rows|
    ensures Hashes(rows[..i + 1]) == Hashes(rows[..i]) + [rows[i].hash]
    ensures RowByHash(rows[..i + 1]) == RowByHash(rows[..i])[rows[i].hash := rows[i]]
  {
    assert rows[..i + 1] == rows[..i] + [rows[i]];
    HashesSnoc(rows[..i], rows[i]);
    IndexSnoc(rows[..i], rows[i]);
  }

  lemma PushPhaseStep(w: SyncWorld, cfg: Config, s: Pass, items: seq<PushItem>, start: nat, end: nat)
    requires start < |items| && !s.fatal && end == start + ChunkLength(|items| - start, cfg.progressBatchSize)
    ensures SyncPass.PushPhase(w, cfg, s, items[start..])
            == SyncPass.PushPhase(w, cfg, SyncPass.PushChunk(w, s, items[start..end]), items[end..])
  {
    assert items[start..][..end - start] == items[start..end] && items[start..][end - start..] == items[end..];
  }

  /** The match-check phase over what is left of the queue: one chunk, then the rest. */
  lemma MatchPhaseStep(w: SyncWorld, cfg: Config, now: int, byHash: map<string, BookRow>, s: Pass, hashes: seq<string>,
                       start: nat, end: nat)
    requires forall h :: h in hashes ==> h in byHash
    requires start < |hashes| && !s.fatal && end == start + ChunkLength(|hashes| - start, cfg.matchBatchSize)
    ensures (forall h :: h in hashes[start..] ==> h in byHash) && (forall h :: h in hashes[start..end] ==> h in byHash)
    ensures MatchPhase(w, cfg, now, byHash, s, hashes[start..])
            == MatchPhase(w, cfg, now, byHash, MatchChunk(w, now, byHash, s, hashes[start..end]), hashes[end..])
  {
    assert hashes[start..][..end - start] == hashes[start..end] && hashes[start..][end - start..] == hashes[end..];
  }

  function Under(rest: map<string, BookRow>, first: BookRow): map<string, BookRow> {
    if first.hash in rest then rest else rest[first.hash := first]
  }

  lemma EarlierRow(rest: map<string, BookRow>, first: BookRow, last: BookRow)
    ensures Under(rest[last.hash := last], first) == Under(rest, first)[last.hash := last]
  {
  }
}
