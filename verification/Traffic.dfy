/** The shape of a pass's traffic: phase order, giving up, dispatch conservation, the fallback latch, and the
    error list RunOnce returns. */
module Traffic {
  import opened Wrappers
  import opened Errors
  import opened Batch
  import opened Readest
  import opened State
  import opened SyncPass
  import opened Phases
  import opened Progress
  import opened StatusChannel
  import opened Settlement

  function Phase(e: Event): nat {
    match e
    case Pulled(_) => 0
    case MatchCheck(_, _, _) => 1
    case Bulk(_, _, _) => 2
    case Update(_, _, _) => 2
    case SetStatus(_, _, _, _, _) => 3
  }

  /** An answer that ends the pass. UpdateProgress is not among them: its failures are per item. */
  predicate Ends(e: Event) {
    match e
    case MatchCheck(_, found, _) => found == Err(Unauthorized)
    case Bulk(_, refused, _) => refused == Err(Unauthorized)
    case SetStatus(_, _, _, done, _) => done == Err(Unauthorized)
    case _ => false
  }

  /** What an event adds to the error list; an unsupported bulk endpoint and a gone book add nothing. */
  function ErrorOf(e: Event): seq<Failure> {
    match e
    case Pulled(_) => []
    case MatchCheck(_, found, _) => if found.Err? then [Failure(MatchCheckOp, found.error)] else []
    case Bulk(_, refused, _) =>
      if refused.Err? && !refused.error.UnsupportedEndpoint? then [Failure(BulkProgressOp, refused.error)] else []
    case Update(_, done, _) => if done.Err? then [Failure(UpdateProgressOp, done.error)] else []
    case SetStatus(_, _, _, done, _) =>
      if done.Err? && !done.error.BookGone? then [Failure(SetReadStatusOp, done.error)] else []
  }

  function ErrorsOf(trace: seq<Event>): seq<Failure> {
    if trace == [] then [] else ErrorsOf(trace[..|trace| - 1]) + ErrorOf(trace[|trace| - 1])
  }

  /** The hash lists of the match-check requests, in order. */
  function Requests(trace: seq<Event>): seq<seq<string>> {
    if trace == [] then []
    else
      var last := trace[|trace| - 1];
      Requests(trace[..|trace| - 1]) + if last.MatchCheck? then [last.hashes] else []
  }

  /** The items that went out and had their one attempt; a bulk call to an unsupported endpoint is not one. */
  function AttemptsOf(e: Event): seq<Sent> {
    match e
    case Bulk(items, refused, _) => if refused == Err(UnsupportedEndpoint) then [] else items
    case Update(item, _, _) => [item]
    case _ => []
  }

  function AttemptsIn(trace: seq<Event>): seq<Sent> {
    if trace == [] then [] else AttemptsIn(trace[..|trace| - 1]) + AttemptsOf(trace[|trace| - 1])
  }

  predicate Unsupported(e: Event) { e.Bulk? && e.refused == Err(UnsupportedEndpoint) }

  /** The state of the traffic that every step of a pass keeps. `latch` is the flag the pass began with. */
  ghost predicate Orderly(latch: bool, s: Pass) {
    && (forall i, j :: 0 <= i < j < |s.trace| ==> Phase(s.trace[i]) <= Phase(s.trace[j]))
    && (forall i :: 0 < i < |s.trace| ==> Phase(s.trace[i]) > 0)
    && (forall i :: 0 <= i < |s.trace| && Ends(s.trace[i]) ==> i == |s.trace| - 1 && s.fatal)
    && (s.fatal ==> s.trace != [] && Ends(s.trace[|s.trace| - 1]))
    && s.errs == ErrorsOf(s.trace)
  }

  ghost predicate Latched(latch: bool, s: Pass) {
    && (s.bulkUnsupported <==> latch || exists e :: e in s.trace && Unsupported(e))
    && (latch ==> forall e :: e in s.trace ==> !e.Bulk?)
    && (forall i, j :: 0 <= i < j < |s.trace| && Unsupported(s.trace[i]) ==> !s.trace[j].Bulk?)
  }

  lemma PhasesSnoc(trace: seq<Event>, e: Event)
    requires forall i, j :: 0 <= i < j < |trace| ==> Phase(trace[i]) <= Phase(trace[j])
    requires trace != [] && Phase(trace[|trace| - 1]) <= Phase(e)
    ensures forall i, j :: 0 <= i < j < |trace + [e]| ==> Phase((trace + [e])[i]) <= Phase((trace + [e])[j])
  {
    forall i, j | 0 <= i < j < |trace + [e]| ensures Phase((trace + [e])[i]) <= Phase((trace + [e])[j]) {
      if j == |trace| {
        assert Phase(trace[i]) <= Phase(trace[|trace| - 1]);
      }
    }
  }

  /** Appending one event of a phase no earlier than the last. */
  lemma OrderlySnoc(latch: bool, s: Pass, e: Event, t: Pass)
    requires Orderly(latch, s) && !s.fatal
    requires t.trace == s.trace + [e]
    requires s.trace != [] && Phase(s.trace[|s.trace| - 1]) <= Phase(e) && Phase(e) > 0
    requires t.errs == s.errs + ErrorOf(e)
    requires t.fatal <==> Ends(e)
    ensures Orderly(latch, t)
  {
    var n := |s.trace|;
    assert t.trace[..n] == s.trace && t.trace[n] == e;
    PhasesSnoc(s.trace, e);
  }

  lemma LatchedSnoc(latch: bool, s: Pass, e: Event, t: Pass)
    requires Latched(latch, s) && t.trace == s.trace + [e]
    requires e.Bulk? ==> !s.bulkUnsupported
    requires t.bulkUnsupported <==> s.bulkUnsupported || Unsupported(e)
    ensures Latched(latch, t)
  {
    assert t.trace[|s.trace|] == e;
    if exists x :: x in s.trace && Unsupported(x) {
      var x :| x in s.trace && Unsupported(x);
      assert x in t.trace;
    }
  }

  /** Both invariants together with the phase the traffic has reached. */
  ghost predicate Reached(latch: bool, s: Pass, phase: nat) {
    && Orderly(latch, s) && Latched(latch, s) && s.trace != []
    && Phase(s.trace[|s.trace| - 1]) <= phase
  }

  lemma ReachedSnoc(latch: bool, s: Pass, e: Event, t: Pass, phase: nat)
    requires Reached(latch, s, phase) && !s.fatal && Phase(e) == phase > 0
    requires t.trace == s.trace + [e] && t.errs == s.errs + ErrorOf(e) && (t.fatal <==> Ends(e))
    requires e.Bulk? ==> !s.bulkUnsupported
    requires t.bulkUnsupported <==> s.bulkUnsupported || Unsupported(e)
    ensures Reached(latch, t, phase)
  {
    OrderlySnoc(latch, s, e, t);
    LatchedSnoc(latch, s, e, t);
  }

  lemma RequestsSnoc(trace: seq<Event>, e: Event)
    ensures Requests(trace + [e]) == Requests(trace) + if e.MatchCheck? then [e.hashes] else []
  {
    assert (trace + [e])[..|trace|] == trace;
  }

  lemma AttemptsSnoc(trace: seq<Event>, e: Event)
    ensures AttemptsIn(trace + [e]) == AttemptsIn(trace) + AttemptsOf(e)
  {
    assert (trace + [e])[..|trace|] == trace;
  }

  /** Two stretches of a pass between which no match-check was requested, or no push attempted. */
  ghost predicate NoRequests(a: Pass, b: Pass) { Requests(b.trace) == Requests(a.trace) }

  ghost predicate NoAttempts(a: Pass, b: Pass) { AttemptsIn(b.trace) == AttemptsIn(a.trace) }

  ghost predicate Attempted(a: Pass, items: seq<PushItem>, b: Pass) {
    AttemptsIn(b.trace) == AttemptsIn(a.trace) + ToSents(items)
  }

  lemma AttemptedTwice(a: Pass, x: seq<PushItem>, b: Pass, y: seq<PushItem>, c: Pass)
    requires Attempted(a, x, b) && Attempted(b, y, c)
    ensures Attempted(a, x + y, c)
  {
    ToSentsAppend(x, y);
    Chained(AttemptsIn(a.trace), ToSents(x), AttemptsIn(b.trace), ToSents(y), AttemptsIn(c.trace));
  }

  lemma Chained<T>(a: seq<T>, x: seq<T>, b: seq<T>, y: seq<T>, c: seq<T>)
    requires b == a + x && c == b + y
    ensures c == a + (x + y)
  {
  }

  lemma {:induction false} ToSentsAppend(a: seq<PushItem>, b: seq<PushItem>)
    ensures ToSents(a + b) == ToSents(a) + ToSents(b)
  {
    if a == [] {
      assert a + b == b;
    } else {
      assert (a + b)[1..] == a[1..] + b;
      ToSentsAppend(a[1..], b);
    }
  }

  /******* Match-check *******/

  lemma MatchChunkReached(latch: bool, w: SyncWorld, now: int, byHash: map<string, BookRow>, s: Pass,
                          chunk: seq<string>)
    requires forall h :: h in chunk ==> h in byHash
    requires Reached(latch, s, 1) && !s.fatal
    ensures Reached(latch, MatchChunk(w, now, byHash, s, chunk), 1)
  {
    var found := w.matching(|s.trace|);
    var e := MatchCheck(chunk, found, now);
    var t := MatchChunk(w, now, byHash, s, chunk);
    MatchChunkFrame(w, now, byHash, s, chunk);
    MatchChunkFatal(w, now, byHash, s, chunk);
    if found.Ok? {
      AddMatchesFrame(byHash, now, s.Log(e), found.value.matches);
    }
    ReachedSnoc(latch, s, e, t, 1);
  }

  lemma {:induction false} MatchPhaseReached(latch: bool, w: SyncWorld, cfg: Config, now: int,
                                             byHash: map<string, BookRow>,
                                             s: Pass, hashes: seq<string>)
    requires forall h :: h in hashes ==> h in byHash
    requires Reached(latch, s, 1)
    ensures Reached(latch, MatchPhase(w, cfg, now, byHash, s, hashes), 1)
    decreases |hashes|
  {
    if hashes != [] && !s.fatal {
      var k := ChunkLength(|hashes|, cfg.matchBatchSize);
      MatchChunkReached(latch, w, now, byHash, s, hashes[..k]);
      MatchPhaseReached(latch, w, cfg, now, byHash, MatchChunk(w, now, byHash, s, hashes[..k]), hashes[k..]);
    }
  }

  ghost predicate Requested(a: Pass, chunks: seq<seq<string>>, b: Pass) {
    Requests(b.trace) == Requests(a.trace) + chunks
  }

  lemma RequestedTwice(a: Pass, x: seq<seq<string>>, b: Pass, y: seq<seq<string>>, c: Pass)
    requires Requested(a, x, b) && Requested(b, y, c)
    ensures Requested(a, x + y, c)
  {
  }

  lemma MatchChunkRequests(w: SyncWorld, now: int, byHash: map<string, BookRow>, s: Pass, chunk: seq<string>)
    requires forall h :: h in chunk ==> h in byHash
    ensures Requested(s, [chunk], MatchChunk(w, now, byHash, s, chunk))
            && NoAttempts(s, MatchChunk(w, now, byHash, s, chunk))
  {
    var e := MatchCheck(chunk, w.matching(|s.trace|), now);
    MatchChunkFrame(w, now, byHash, s, chunk);
    RequestsSnoc(s.trace, e);
    AttemptsSnoc(s.trace, e);
  }

  /** The requests of the phase are the chunks of the queue: all of them, or a prefix ending in the fatal one. */
  lemma {:induction false} MatchPhaseRequests(w: SyncWorld, cfg: Config, now: int, byHash: map<string, BookRow>,
                                              s: Pass, hashes: seq<string>)
    returns (asked: nat)
    requires forall h :: h in hashes ==> h in byHash
    ensures var t := MatchPhase(w, cfg, now, byHash, s, hashes);
            && asked <= |Chunks(hashes, cfg.matchBatchSize)|
            && Requested(s, Chunks(hashes, cfg.matchBatchSize)[..asked], t)
            && (!t.fatal ==> asked == |Chunks(hashes, cfg.matchBatchSize)|)
            && NoAttempts(s, t)
    decreases |hashes|
  {
    asked := 0;
    if hashes != [] && !s.fatal {
      var k := ChunkLength(|hashes|, cfg.matchBatchSize);
      var s1 := MatchChunk(w, now, byHash, s, hashes[..k]);
      var rest := Chunks(hashes[k..], cfg.matchBatchSize);
      MatchChunkRequests(w, now, byHash, s, hashes[..k]);
      var more := MatchPhaseRequests(w, cfg, now, byHash, s1, hashes[k..]);
      RequestedTwice(s, [hashes[..k]], s1, rest[..more], MatchPhase(w, cfg, now, byHash, s, hashes));
      asked := 1 + more;
      assert ([hashes[..k]] + rest)[..asked] == [hashes[..k]] + rest[..more];
    }
  }

  /******* Progress *******/

  lemma PushSingleReached(latch: bool, w: SyncWorld, s: Pass, p: PushItem)
    requires Reached(latch, s, 2) && !s.fatal
    ensures Reached(latch, PushSingle(w, s, p), 2)
  {
    var t := PushSingle(w, s, p);
    ReachedSnoc(latch, s, t.trace[|s.trace|], t, 2);
  }

  lemma PushSingleAttempts(w: SyncWorld, s: Pass, p: PushItem)
    ensures Attempted(s, [p], PushSingle(w, s, p)) && NoRequests(s, PushSingle(w, s, p))
  {
    var done := w.update(|s.trace|);
    var e := Update(p.ToSent(), done, if done.Ok? then w.clock(s.ticks) else 0);
    SingleTraffic(w, s, p);
    AttemptsSnoc(s.trace, e);
    RequestsSnoc(s.trace, e);
    assert ToSents([p]) == [p.ToSent()];
  }

  lemma SingleTraffic(w: SyncWorld, s: Pass, p: PushItem)
    ensures var done := w.update(|s.trace|);
            PushSingle(w, s, p).trace == s.trace + [Update(p.ToSent(), done, if done.Ok? then w.clock(s.ticks) else 0)]
  {
  }

  lemma {:induction false} PushSinglesReached(latch: bool, w: SyncWorld, s: Pass, items: seq<PushItem>)
    requires Reached(latch, s, 2) && !s.fatal
    ensures Reached(latch, PushSingles(w, s, items), 2)
    decreases items
  {
    if items != [] {
      PushSingleReached(latch, w, s, items[0]);
      PushSingleFrame(w, s, items[0]);
      PushSinglesReached(latch, w, PushSingle(w, s, items[0]), items[1..]);
    }
  }

  lemma {:induction false} PushSinglesAttempts(w: SyncWorld, s: Pass, items: seq<PushItem>)
    ensures Attempted(s, items, PushSingles(w, s, items)) && NoRequests(s, PushSingles(w, s, items))
    decreases items
  {
    if items != [] {
      var s1 := PushSingle(w, s, items[0]);
      PushSingleAttempts(w, s, items[0]);
      PushSinglesAttempts(w, s1, items[1..]);
      AttemptedTwice(s, [items[0]], s1, items[1..], PushSingles(w, s, items));
      assert [items[0]] + items[1..] == items;
    }
  }

  /** The pass right after a bulk call, before its answer is acted on. */
  function Called(w: SyncWorld, s: Pass, chunk: seq<PushItem>): Pass {
    var refused := w.bulk(|s.trace|);
    s.Log(Bulk(ToSents(chunk), refused, if refused.Ok? then Times(w, s.ticks, |chunk|) else []))
  }

  lemma PushChunkReached(latch: bool, w: SyncWorld, s: Pass, chunk: seq<PushItem>)
    requires Reached(latch, s, 2) && !s.fatal
    ensures Reached(latch, PushChunk(w, s, chunk), 2)
  {
    if s.bulkUnsupported {
      PushSinglesReached(latch, w, s, chunk);
    } else {
      var refused := w.bulk(|s.trace|);
      var s1 := Called(w, s, chunk);
      var e := s1.trace[|s.trace|];
      if refused.Ok? {
        AckItemsFrame(w, s1, chunk, refused.value);
        ReachedSnoc(latch, s, e, PushChunk(w, s, chunk), 2);
      } else if refused.error.UnsupportedEndpoint? {
        ReachedSnoc(latch, s, e, s1.(bulkUnsupported := true), 2);
        PushSinglesReached(latch, w, s1.(bulkUnsupported := true), chunk);
      } else {
        ReachedSnoc(latch, s, e, PushChunk(w, s, chunk), 2);
      }
    }
  }

  lemma PushChunkAttempts(w: SyncWorld, s: Pass, chunk: seq<PushItem>)
    ensures Attempted(s, chunk, PushChunk(w, s, chunk)) && NoRequests(s, PushChunk(w, s, chunk))
  {
    if s.bulkUnsupported {
      PushSinglesAttempts(w, s, chunk);
    } else {
      var s1 := Called(w, s, chunk);
      CalledAttempts(w, s, chunk);
      if w.bulk(|s.trace|) == Err(UnsupportedEndpoint) {
        PushSinglesAttempts(w, s1.(bulkUnsupported := true), chunk);
      } else {
        BulkTrace(w, s, chunk);
      }
    }
  }

  lemma BulkTrace(w: SyncWorld, s: Pass, chunk: seq<PushItem>)
    requires !s.bulkUnsupported && w.bulk(|s.trace|) != Err(UnsupportedEndpoint)
    ensures PushChunk(w, s, chunk).trace == Called(w, s, chunk).trace
  {
    if w.bulk(|s.trace|).Ok? {
      AckItemsFrame(w, Called(w, s, chunk), chunk, w.bulk(|s.trace|).value);
    }
  }

  lemma CalledAttempts(w: SyncWorld, s: Pass, chunk: seq<PushItem>)
    ensures NoRequests(s, Called(w, s, chunk))
    ensures if w.bulk(|s.trace|) == Err(UnsupportedEndpoint) then NoAttempts(s, Called(w, s, chunk))
            else Attempted(s, chunk, Called(w, s, chunk))
  {
    var e := Called(w, s, chunk).trace[|s.trace|];
    AttemptsSnoc(s.trace, e);
    RequestsSnoc(s.trace, e);
  }

  lemma {:induction false} PushPhaseReached(latch: bool, w: SyncWorld, cfg: Config, s: Pass, items: seq<PushItem>)
    requires Reached(latch, s, 2)
    ensures Reached(latch, PushPhase(w, cfg, s, items), 2)
    decreases |items|
  {
    if items != [] && !s.fatal {
      var k := ChunkLength(|items|, cfg.progressBatchSize);
      PushChunkReached(latch, w, s, items[..k]);
      PushPhaseReached(latch, w, cfg, PushChunk(w, s, items[..k]), items[k..]);
    }
  }

  lemma TakeTwice<T>(items: seq<T>, k: nat, more: nat)
    requires k + more <= |items|
    ensures items[..k] + items[k..][..more] == items[..k + more]
  {
  }

  /** Every queued item goes out once, in order; a phase that gives up has sent a prefix. */
  lemma {:induction false} PushPhaseAttempts(w: SyncWorld, cfg: Config, s: Pass, items: seq<PushItem>)
    returns (sent: nat)
    ensures sent <= |items| && Attempted(s, items[..sent], PushPhase(w, cfg, s, items))
    ensures !PushPhase(w, cfg, s, items).fatal ==> sent == |items|
    ensures NoRequests(s, PushPhase(w, cfg, s, items))
    decreases |items|
  {
    sent := 0;
    if items != [] && !s.fatal {
      var k := ChunkLength(|items|, cfg.progressBatchSize);
      var s1 := PushChunk(w, s, items[..k]);
      PushChunkAttempts(w, s, items[..k]);
      var more := PushPhaseAttempts(w, cfg, s1, items[k..]);
      AttemptedTwice(s, items[..k], s1, items[k..][..more], PushPhase(w, cfg, s, items));
      TakeTwice(items, k, more);
      sent := k + more;
    }
  }

  /******* Status *******/

  lemma StatusRowReached(latch: bool, w: World, now: int, s: Pass, row: BookRow)
    requires Reached(latch, s, 3) && !s.fatal
    ensures Reached(latch, StatusRow(w, now, s, row), 3)
  {
    var es := StatusRowTraffic(w, now, s, row);
    SetStatusReached(latch, s, es, StatusRow(w, now, s, row));
  }

  lemma SetStatusReached(latch: bool, s: Pass, es: seq<Event>, t: Pass)
    requires Reached(latch, s, 3) && !s.fatal
    requires t.trace == s.trace + es && t.bulkUnsupported == s.bulkUnsupported
    requires es == [] ==> t.errs == s.errs && t.fatal == s.fatal
    requires es != [] ==>
               |es| == 1 && es[0].SetStatus? && t.errs == s.errs + ErrorOf(es[0]) && (t.fatal <==> Ends(es[0]))
    ensures Reached(latch, t, 3)
  {
    if es == [] {
      assert t.trace == s.trace;
    } else {
      assert es == [es[0]];
      ReachedSnoc(latch, s, es[0], t, 3);
    }
  }

  /** A row causes at most one status call. */
  lemma StatusRowTraffic(w: World, now: int, s: Pass, row: BookRow) returns (es: seq<Event>)
    ensures var t := StatusRow(w, now, s, row);
            && t.trace == s.trace + es
            && t.bulkUnsupported == s.bulkUnsupported
            && (es == [] ==> t.errs == s.errs && t.fatal == s.fatal)
            && (es != [] ==> |es| == 1 && es[0].SetStatus? && t.errs == s.errs + ErrorOf(es[0]))
            && (es != [] && !s.fatal ==> (t.fatal <==> Ends(es[0])))
  {
    StatusRowCases(w, now, s, row);
    es := [];
    if Tracked(s, row) {
      var rec := s.data.matches[row.hash];
      var act := StatusDecision(rec, row.readingStatus);
      es := ActReported(w, now, s, row, rec, act);
    }
  }

  lemma ActReported(w: World, now: int, s: Pass, row: BookRow, rec: MatchRecord, act: StatusAct)
    returns (es: seq<Event>)
    ensures var t := ActOnStatus(w, now, s, row, rec, act);
            && t.trace == s.trace + es && t.bulkUnsupported == s.bulkUnsupported
            && (es == [] ==> t.errs == s.errs && t.fatal == s.fatal)
            && (es != [] ==> |es| == 1 && es[0].SetStatus? && t.errs == s.errs + ErrorOf(es[0]))
            && (es != [] && !s.fatal ==> (t.fatal <==> Ends(es[0])))
  {
    ActTraffic(w, now, s, row, rec, act);
    es := if act.Send? then [StatusCall(w, now, s, row, rec, act.token)] else [];
  }

  lemma StatusRowNoAttempts(w: World, now: int, s: Pass, row: BookRow)
    ensures NoAttempts(s, StatusRow(w, now, s, row)) && NoRequests(s, StatusRow(w, now, s, row))
  {
    var es := StatusRowTraffic(w, now, s, row);
    if es == [] {
      assert s.trace + es == s.trace;
    } else {
      assert es == [es[0]];
      AttemptsSnoc(s.trace, es[0]);
      RequestsSnoc(s.trace, es[0]);
    }
  }

  lemma {:induction false} StatusPhaseReached(latch: bool, w: World, now: int, s: Pass, rows: seq<BookRow>)
    requires Reached(latch, s, 3)
    ensures Reached(latch, StatusPhase(w, now, s, rows), 3)
    decreases rows
  {
    if rows != [] && !s.fatal {
      StatusRowReached(latch, w, now, s, rows[0]);
      StatusPhaseReached(latch, w, now, StatusRow(w, now, s, rows[0]), rows[1..]);
    }
  }

  lemma {:induction false} StatusPhaseNoAttempts(w: World, now: int, s: Pass, rows: seq<BookRow>)
    ensures NoAttempts(s, StatusPhase(w, now, s, rows)) && NoRequests(s, StatusPhase(w, now, s, rows))
    decreases rows
  {
    if rows != [] && !s.fatal {
      StatusRowNoAttempts(w, now, s, rows[0]);
      StatusPhaseNoAttempts(w, now, StatusRow(w, now, s, rows[0]), rows[1..]);
    }
  }

  /******* The whole pass *******/

  lemma StartReached(latch: bool, s: Pass, rows: seq<BookRow>)
    requires s.trace == [Pulled(rows)] && s.errs == [] && !s.fatal && s.bulkUnsupported == latch
    ensures Reached(latch, s, 1) && Requests(s.trace) == [] && AttemptsIn(s.trace) == []
  {
    assert s.trace[..0] == [];
  }

  /** Up to the status phase there is no status call. */
  lemma BeforeReached(w: World, cfg: Config, latch: bool, d: Data, rows: seq<BookRow>)
    ensures Reached(latch, Before(w, cfg, latch, d, rows), 2)
  {
    var c, s0, s1, s2 := Assembled(w, cfg, latch, d, rows);
    StartReached(latch, s0, rows);
    MatchPhaseReached(latch, w.sync, cfg, w.sync.clock(0), RowByHash(c.toMatch), s0, Hashes(c.toMatch));
    PushPhaseReached(latch, w.sync, cfg, s1, s1.toPush);
  }

  lemma PassReached(w: World, cfg: Config, latch: bool, d: Data, rows: seq<BookRow>)
    ensures Reached(latch, RunPass(w, cfg, latch, d, rows), 3)
  {
    var s2 := Before(w, cfg, latch, d, rows);
    var s3 := AfterStatus(w, cfg, s2, rows);
    BeforeReached(w, cfg, latch, d, rows);
    assert Reached(latch, s3, 3) by {
      StatusPhaseReached(latch, w, w.sync.clock(0), s2, rows);
    }
    CursorKeepsReached(latch, s3, RunPass(w, cfg, latch, d, rows));
  }

  lemma CursorKeepsReached(latch: bool, s: Pass, t: Pass)
    requires Reached(latch, s, 3) && t == s.(data := t.data)
    ensures Reached(latch, t, 3)
  {
  }

  lemma TrafficStartsWithPull(w: World, cfg: Config, latch: bool, d: Data, rows: seq<BookRow>)
    ensures [Pulled(rows)] <= RunPass(w, cfg, latch, d, rows).trace
  {
    var c, s0, s1, s2 := Assembled(w, cfg, latch, d, rows);
    StatusPhaseFrame(w, w.sync.clock(0), s2, rows);
    assert s0.trace == [Pulled(rows)];
    assert s0.trace <= s2.trace;
  }

  /** Abort discipline: pull, match-checks, pushes, statuses, in that order; an Unauthorized answer to a match-check,
      a bulk push or a status push is the last event of the pass; the returned errors are the failed answers in
      order. */
  lemma AbortDiscipline(w: World, cfg: Config, latch: bool, d: Data, rows: seq<BookRow>)
    ensures var t := RunPass(w, cfg, latch, d, rows).trace;
            && t != [] && t[0] == Pulled(rows)
            && (forall i :: 0 < i < |t| ==> Phase(t[i]) > 0)
            && (forall i, j :: 0 <= i < j < |t| ==> Phase(t[i]) <= Phase(t[j]))
            && (forall i :: 0 <= i < |t| && Ends(t[i]) ==> i == |t| - 1)
    ensures RunPass(w, cfg, latch, d, rows).errs == ErrorsOf(RunPass(w, cfg, latch, d, rows).trace)
  {
    PassReached(w, cfg, latch, d, rows);
    TrafficStartsWithPull(w, cfg, latch, d, rows);
  }

  /** With the status channel switched off no status call is ever made. */
  lemma StatusGate(w: World, cfg: Config, latch: bool, d: Data, rows: seq<BookRow>)
    requires !cfg.syncStatus
    ensures forall e :: e in RunPass(w, cfg, latch, d, rows).trace ==> !e.SetStatus?
  {
    BeforeReached(w, cfg, latch, d, rows);
    NoStatusYet(latch, Before(w, cfg, latch, d, rows));
  }

  lemma NoStatusYet(latch: bool, s: Pass)
    requires Reached(latch, s, 2)
    ensures forall e :: e in s.trace ==> !e.SetStatus?
  {
    forall e | e in s.trace ensures !e.SetStatus? {
      var i :| 0 <= i < |s.trace| && s.trace[i] == e;
      assert Phase(s.trace[i]) <= Phase(s.trace[|s.trace| - 1]);
    }
  }

  /** The latch: after the first UnsupportedEndpoint answer no bulk call follows, in this pass or, because the flag is
      handed on, in any later one. */
  lemma FallbackLatch(w: World, cfg: Config, latch: bool, d: Data, rows: seq<BookRow>)
    ensures Latched(latch, RunPass(w, cfg, latch, d, rows))
  {
    PassReached(w, cfg, latch, d, rows);
  }

  /** The push queue as the progress phase finds it. */
  function Queue(w: World, cfg: Config, latch: bool, d: Data, rows: seq<BookRow>): seq<PushItem> {
    var c := Classification(w, cfg, d, rows);
    AfterMatch(w.sync, cfg, c, Started(c, latch, rows)).toPush
  }

  /** Dispatch conservation: the match-check requests are the chunks of the queue and every queued push is attempted
      exactly once in order, unless the pass gives up, in which case both are prefixes. */
  lemma DispatchConserved(w: World, cfg: Config, latch: bool, d: Data, rows: seq<BookRow>)
    returns (asked: nat, sent: nat)
    ensures var t := RunPass(w, cfg, latch, d, rows);
            var queue := Queue(w, cfg, latch, d, rows);
            var requests := Chunks(Hashes(Classification(w, cfg, d, rows).toMatch), cfg.matchBatchSize);
            && asked <= |requests| && Requests(t.trace) == requests[..asked]
            && sent <= |queue| && AttemptsIn(t.trace) == ToSents(queue[..sent])
            && (!CutShort(t.errs) ==> asked == |requests| && sent == |queue|)
  {
    var c, s0, s1, s2 := Assembled(w, cfg, latch, d, rows);
    var now := w.sync.clock(0);
    StartReached(latch, s0, rows);
    asked := MatchPhaseRequests(w.sync, cfg, now, RowByHash(c.toMatch), s0, Hashes(c.toMatch));
    sent := PushPhaseAttempts(w.sync, cfg, s1, s1.toPush);
    BeforeReached(w, cfg, latch, d, rows);
    StatusPhaseNoAttempts(w, now, s2, rows);
    StatusPhaseFrame(w, now, s2, rows);
    if s2.fatal {
      FatalIsCutShort(latch, s2);
    }
  }

  /** Giving up before the status phase leaves its mark in the error list. */
  lemma FatalIsCutShort(latch: bool, s: Pass)
    requires Reached(latch, s, 2) && s.fatal
    ensures CutShort(s.errs)
  {
    var n := |s.trace|;
    var e := s.trace[n - 1];
    assert s.errs == ErrorsOf(s.trace[..n - 1]) + ErrorOf(e);
    assert s.errs[|s.errs| - 1] == ErrorOf(e)[0];
  }

  /** The status phase adds status calls only, and the progress phase pushes only. */
  lemma {:induction false} StatusPhaseOnly(w: World, now: int, s: Pass, rows: seq<BookRow>)
    ensures var t := StatusPhase(w, now, s, rows).trace;
            s.trace <= t && forall i :: |s.trace| <= i < |t| ==> t[i].SetStatus?
    decreases rows
  {
    if rows != [] && !s.fatal {
      var es := StatusRowTraffic(w, now, s, rows[0]);
      StatusPhaseOnly(w, now, StatusRow(w, now, s, rows[0]), rows[1..]);
      StatusPhaseFrame(w, now, s, rows);
    }
  }

  predicate IsPush(e: Event) { e.Bulk? || e.Update? }

  /** Every item of an answered bulk call was acted on at some time. */
  predicate Timed(e: Event) { e.Bulk? && e.refused.Ok? ==> |e.times| == |e.items| }

  ghost predicate AddsPushes(a: Pass, b: Pass) {
    a.trace <= b.trace && forall i :: |a.trace| <= i < |b.trace| ==> IsPush(b.trace[i]) && Timed(b.trace[i])
  }

  lemma {:induction false} PushSinglesAddPushes(w: SyncWorld, s: Pass, items: seq<PushItem>)
    ensures AddsPushes(s, PushSingles(w, s, items))
    decreases items
  {
    if items != [] {
      SingleTraffic(w, s, items[0]);
      PushSinglesAddPushes(w, PushSingle(w, s, items[0]), items[1..]);
    }
  }

  lemma PushChunkAddsPushes(w: SyncWorld, s: Pass, chunk: seq<PushItem>)
    ensures AddsPushes(s, PushChunk(w, s, chunk))
  {
    if s.bulkUnsupported {
      PushSinglesAddPushes(w, s, chunk);
    } else if w.bulk(|s.trace|) == Err(UnsupportedEndpoint) {
      PushSinglesAddPushes(w, Called(w, s, chunk).(bulkUnsupported := true), chunk);
    } else {
      BulkTrace(w, s, chunk);
    }
  }

  lemma {:induction false} PushPhaseAddsPushes(w: SyncWorld, cfg: Config, s: Pass, items: seq<PushItem>)
    ensures AddsPushes(s, PushPhase(w, cfg, s, items))
    decreases |items|
  {
    if items != [] && !s.fatal {
      var k := ChunkLength(|items|, cfg.progressBatchSize);
      PushChunkAddsPushes(w, s, items[..k]);
      PushPhaseAddsPushes(w, cfg, PushChunk(w, s, items[..k]), items[k..]);
    }
  }
}
