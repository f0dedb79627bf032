/** The store is the fold of the acknowledged traffic: what each record says is what the servers last confirmed for
    its hash since the record was created, and every call was justified by that history. */
module History {
  import opened Wrappers
  import opened Errors
  import opened Batch
  import opened Readest
  import opened Rows
  import opened State
  import opened SyncPass
  import opened Projection
  import opened Phases
  import opened StatusChannel

  /******* The reference: one hash, one event *******/

  /** A record without the Readest-side seen bookkeeping, which no acknowledgement confirms. */
  function Core(rec: MatchRecord): MatchRecord { rec.(lastSeenStatus := "", lastSeenStatusAt := 0) }

  function CoreSlot(x: Slot): Slot {
    if x.rec.Some? then x.(rec := Some(Core(x.rec.value))) else x
  }

  ghost predicate Deletes(rows: seq<BookRow>, h: string) {
    exists r :: r in rows && !r.IsDummy() && Tombstone(r) && r.hash == h
  }

  const NO_SLOT := Slot(None, None)

  function ObserveItem(item: Sent, refused: seq<string>, time: int, h: string, x: Slot): Slot {
    if item.hash != h then x
    else if h in refused then Slot(None, Some(time))
    else if x.rec.Some? then x.(rec := Some(x.rec.value.(lastPushedAt := time, lastPushedPct := item.pct)))
    else x
  }

  function ObserveItems(items: seq<Sent>, refused: seq<string>, times: seq<int>, h: string, x: Slot): Slot
    decreases items
  {
    if items == [] || times == [] then x
    else ObserveItems(items[1..], refused, times[1..], h, ObserveItem(items[0], refused, times[0], h, x))
  }

  /** What one event means for hash h. Only acknowledgements, refusals, gone books and deletion rows mean anything. */
  ghost function Observe(e: Event, h: string, x: Slot): Slot {
    match e
    case Pulled(rows) => if Deletes(rows, h) then Slot(None, None) else x
    case MatchCheck(hashes, found, time) =>
      if found.Err? then x
      else if LeavesUnmatched(hashes, found.value, h) then Slot(None, Some(time))
      else if MatchFor(found.value.matches, h).Some? then
        Slot(Some(RecordOf(MatchFor(found.value.matches, h).value)), None)
      else x
    case Bulk(items, refused, times) =>
      if refused.Err? then x else ObserveItems(items, refused.value, times, h, x)
    case Update(item, done, time) =>
      if done.Err? then x else ObserveItem(item, [], time, h, x)
    case SetStatus(hash, _, token, done, time) =>
      if hash != h then x
      else if done.Ok? then
        if x.rec.Some? then x.(rec := Some(x.rec.value.(lastPushedStatus := token, lastPushedStatusAt := time))) else x
      else if done.error.BookGone? then Slot(None, Some(time))
      else x
  }

  ghost function Replay(x: Slot, events: seq<Event>, h: string): Slot {
    if events == [] then x
    else Observe(events[|events| - 1], h, Replay(x, events[..|events| - 1], h))
  }

  lemma ReplaySnoc(x: Slot, events: seq<Event>, e: Event, h: string)
    ensures Replay(x, events + [e], h) == Observe(e, h, Replay(x, events, h))
  {
    assert (events + [e])[..|events|] == events;
  }

  lemma {:induction false} ReplayAppend(x: Slot, a: seq<Event>, b: seq<Event>, h: string)
    ensures Replay(x, a + b, h) == Replay(Replay(x, a, h), b, h)
  {
    if b == [] {
      assert a + b == a;
    } else {
      var front := b[..|b| - 1];
      assert (a + b)[..|a + b| - 1] == a + front;
      ReplayAppend(x, a, front, h);
    }
  }

  /** Why a match-check or a status call that concerns hash h is made, given what the history says about h: only
      unresolved hashes are checked, and only a new decisive token goes out, to the book last resolved. */
  predicate Justified(e: Event, h: string, x: Slot) {
    match e
    case MatchCheck(hashes, _, _) => h in hashes ==> x.rec.None?
    case SetStatus(hash, bookId, token, _, _) =>
      hash == h ==>
        && x.rec.Some? && x.rec.value.bookId == bookId && x.rec.value.lastPushedStatus != token
        && (token == "read" || token == "abandoned")
    case _ => true
  }

  /** The store is the replay for hash h. */
  ghost predicate Tracks(h: string, x: Slot, trace: seq<Event>, d: Data) { Replay(x, trace, h) == CoreSlot(d.At(h)) }

  ghost predicate AllJustified(h: string, x: Slot, trace: seq<Event>) {
    forall i :: 0 <= i < |trace| ==> Justified(trace[i], h, Replay(x, trace[..i], h))
  }

  ghost predicate Follows(h: string, x: Slot, trace: seq<Event>, d: Data) {
    Tracks(h, x, trace, d) && AllJustified(h, x, trace)
  }

  lemma JustifiedSnoc(h: string, x: Slot, trace: seq<Event>, e: Event)
    requires AllJustified(h, x, trace) && Justified(e, h, Replay(x, trace, h))
    ensures AllJustified(h, x, trace + [e])
  {
    forall i | 0 <= i < |trace + [e]|
      ensures Justified((trace + [e])[i], h, Replay(x, (trace + [e])[..i], h))
    {
      if i < |trace| {
        assert (trace + [e])[..i] == trace[..i];
      } else {
        assert (trace + [e])[..i] == trace;
      }
    }
  }

  lemma FollowsSnoc(h: string, x: Slot, trace: seq<Event>, d: Data, e: Event, d': Data)
    requires Follows(h, x, trace, d)
    requires Justified(e, h, CoreSlot(d.At(h)))
    requires Observe(e, h, CoreSlot(d.At(h))) == CoreSlot(d'.At(h))
    ensures Follows(h, x, trace + [e], d')
  {
    ReplaySnoc(x, trace, e, h);
    JustifiedSnoc(h, x, trace, e);
  }

  lemma JustifiedAppend(h: string, x: Slot, a: seq<Event>, b: seq<Event>)
    requires AllJustified(h, x, a) && AllJustified(h, Replay(x, a, h), b)
    ensures AllJustified(h, x, a + b)
  {
    forall i | 0 <= i < |a + b| ensures Justified((a + b)[i], h, Replay(x, (a + b)[..i], h)) {
      if i < |a| {
        assert (a + b)[..i] == a[..i];
      } else {
        assert (a + b)[..i] == a + b[..i - |a|];
        ReplayAppend(x, a, b[..i - |a|], h);
      }
    }
  }

  /******* The entries that matched a hash *******/

  function RecordOf(m: Match): MatchRecord { MatchRecord(m.bookFileId, m.bookId, 0, 0, "", 0, "", 0) }

  function EventMatches(e: Event, h: string): seq<Match> {
    if e.MatchCheck? && e.found.Ok? then MatchesFor(e.found.value.matches, h) else []
  }

  function MatchesIn(trace: seq<Event>, h: string): (ms: seq<Match>)
    ensures forall m :: m in ms ==> m.hash == h
  {
    if trace == [] then [] else MatchesIn(trace[..|trace| - 1], h) + EventMatches(trace[|trace| - 1], h)
  }

  lemma MatchesSnoc(trace: seq<Event>, e: Event, h: string)
    ensures MatchesIn(trace + [e], h) == MatchesIn(trace, h) + EventMatches(e, h)
  {
    assert (trace + [e])[..|trace|] == trace;
  }

  /** What waits in the queue for a hash: nothing, or the moved percentage of a record that was there, or one copy
      with a new record for every entry that matched the hash in this pass, whose last one is in the store. */
  ghost predicate Queued(h: string, ms: seq<Match>, x: Slot, mine: seq<PushItem>) {
    if ms == [] then mine == [] || (|mine| == 1 && x.rec == Some(mine[0].rec) && !Unchanged(mine[0].rec, mine[0].pct))
    else x == Slot(Some(RecordOf(ms[|ms| - 1])), None) && (mine == [] || CopiesQueued(ms, mine))
  }

  ghost predicate CopiesQueued(ms: seq<Match>, mine: seq<PushItem>) {
    |mine| == |ms| && forall i :: 0 <= i < |ms| ==> mine[i].rec == RecordOf(ms[i]) && mine[i].pct == mine[0].pct
  }

  ghost predicate QueuedIn(h: string, s: Pass) {
    Queued(h, MatchesIn(s.trace, h), s.data.At(h), ItemsFor(s.toPush, h))
  }

  /******* Classification *******/

  /** What classification leaves of a hash: its slot unless a deletion row came, at most one queued item, at most one
      place in the match-check queue, and not both. */
  lemma ClassifySlot(w: World, cfg: Config, d: Data, rows: seq<BookRow>, h: string)
    requires Distinct(Hashes(rows))
    ensures var c := Classification(w, cfg, d, rows);
            && c.data.At(h) == (if Deletes(rows, h) then Slot(None, None) else d.At(h))
            && Queued(h, [], c.data.At(h), ItemsFor(c.toPush, h))
            && multiset(Hashes(c.toMatch))[h] <= 1
            && (h in Hashes(c.toMatch) ==> c.data.At(h).rec.None? && ItemsFor(c.toPush, h) == [])
  {
    if AllForeign(rows, h) {
      var c := Classification(w, cfg, d, rows);
      ClassifyForeign(cfg, w.sync.clock(0), Classified(d, 0, [], []), rows, h);
      assert h !in multiset(Hashes(c.toMatch));
      assert !Deletes(rows, h);
    } else {
      var r :| r in rows && !Foreign(r, h);
      ClassifyOwn(w, cfg, d, rows, r);
      DeletesOnly(rows, r);
    }
  }

  lemma ClassifyOwn(w: World, cfg: Config, d: Data, rows: seq<BookRow>, r: BookRow)
    requires Distinct(Hashes(rows)) && r in rows && !r.IsDummy()
    ensures var c, h := Classification(w, cfg, d, rows), r.hash;
            && c.data.At(h) == (if r.IsDeleted() then Slot(None, None) else d.At(h))
            && Queued(h, [], c.data.At(h), ItemsFor(c.toPush, h))
            && multiset(Hashes(c.toMatch))[h] <= 1
            && (h in Hashes(c.toMatch) ==> c.data.At(h).rec.None? && ItemsFor(c.toPush, h) == [])
  {
    var c := Classification(w, cfg, d, rows);
    ClassifyHit(cfg, w.sync.clock(0), Classified(d, 0, [], []), rows, r);
    if !VerdictOf(cfg, w.sync.clock(0), d, r).Resolve? {
      assert r.hash !in multiset(Hashes(c.toMatch));
    }
  }

  lemma StartFollows(w: World, cfg: Config, latch: bool, d: Data, rows: seq<BookRow>, h: string)
    requires Distinct(Hashes(rows))
    ensures var c := Classification(w, cfg, d, rows);
            var s := Started(c, latch, rows);
            && Follows(h, CoreSlot(d.At(h)), s.trace, s.data) && QueuedIn(h, s) && Pending(h, s, Hashes(c.toMatch))
  {
    ClassifySlot(w, cfg, d, rows, h);
    var c := Classification(w, cfg, d, rows);
    PulledFollows(h, d, rows, c.data);
    MatchesSnoc([], Pulled(rows), h);
    assert [] + [Pulled(rows)] == [Pulled(rows)];
  }

  lemma PulledFollows(h: string, d: Data, rows: seq<BookRow>, d': Data)
    requires d'.At(h) == (if Deletes(rows, h) then Slot(None, None) else d.At(h))
    ensures Follows(h, CoreSlot(d.At(h)), [Pulled(rows)], d')
  {
    assert [] + [Pulled(rows)] == [Pulled(rows)];
    FollowsSnoc(h, CoreSlot(d.At(h)), [], d, Pulled(rows), d');
  }

  lemma DeletesOnly(rows: seq<BookRow>, r: BookRow)
    requires Distinct(Hashes(rows)) && r in rows && !r.IsDummy()
    ensures Deletes(rows, r.hash) <==> r.IsDeleted()
  {
    if Deletes(rows, r.hash) {
      var q :| q in rows && !q.IsDummy() && q.IsDeleted() && q.hash == r.hash;
      OneRowPerHash(rows, r, q);
    }
  }

  lemma OneRowPerHash(rows: seq<BookRow>, r: BookRow, q: BookRow)
    requires Distinct(Hashes(rows)) && r in rows && q in rows && q.hash == r.hash
    ensures r == q
  {
    var i :| 0 <= i < |rows| && rows[i] == r;
    var j :| 0 <= j < |rows| && rows[j] == q;
    var hs := Hashes(rows);
    assert hs[i] == r.hash && hs[j] == r.hash;
    assert !(i < j) && !(j < i);
  }

  /******* Match-check *******/

  ghost predicate Pending(h: string, s: Pass, hashes: seq<string>) {
    && multiset(hashes)[h] <= 1
    && (h in hashes ==> s.data.At(h).rec.None? && ItemsFor(s.toPush, h) == [] && MatchesIn(s.trace, h) == [])
  }

  lemma MatchChunkObserved(w: SyncWorld, now: int, byHash: map<string, BookRow>, s: Pass, chunk: seq<string>, h: string)
    requires forall g :: g in chunk ==> g in byHash
    ensures Observe(MatchCheck(chunk, w.matching(|s.trace|), now), h, CoreSlot(s.data.At(h)))
            == CoreSlot(MatchChunk(w, now, byHash, s, chunk).data.At(h))
  {
    var found := w.matching(|s.trace|);
    if found.Ok? {
      FoundSlot(byHash, now, s.Log(MatchCheck(chunk, found, now)), chunk, found.value, h);
    }
  }

  /** An answer that does not concern a hash says nothing about it. */
  lemma ForeignMatches(chunk: seq<string>, found: Result<MatchResponse, BookOrbitError>, now: int, h: string)
    requires h !in chunk && HonestEvent(MatchCheck(chunk, found, now))
    ensures EventMatches(MatchCheck(chunk, found, now), h) == []
  {
    if found.Ok? {
      MatchForNamed(found.value.matches, h);
    }
  }

  lemma QueuedKept(h: string, a: Pass, b: Pass)
    requires QueuedIn(h, a) && a.data.At(h) == b.data.At(h) && ItemsFor(a.toPush, h) == ItemsFor(b.toPush, h)
    requires MatchesIn(a.trace, h) == MatchesIn(b.trace, h)
    ensures QueuedIn(h, b)
  {
  }

  lemma AnsweredQueued(byHash: map<string, BookRow>, now: int, s: Pass, chunk: seq<string>, found: MatchResponse,
                       h: string)
    requires h in chunk && h in byHash && OwnChunk(chunk, found) && ItemsFor(s.toPush, h) == []
    ensures var t := ApplyFound(byHash, now, s, chunk, found);
            Queued(h, MatchesFor(found.matches, h), t.data.At(h), ItemsFor(t.toPush, h))
  {
    var t := ApplyFound(byHash, now, s, chunk, found);
    var ms := MatchesFor(found.matches, h);
    AnsweredHash(byHash, now, s, chunk, found, h);
    FoundSlot(byHash, now, s, chunk, found, h);
    assert ItemsFor(t.toPush, h) == Copies(h, byHash[h], now, ms);
    if ms != [] {
      CopiesAreQueued(h, byHash[h], now, ms);
    }
  }

  lemma CopiesAreQueued(h: string, r: BookRow, now: int, ms: seq<Match>)
    ensures Copies(h, r, now, ms) == [] || CopiesQueued(ms, Copies(h, r, now, ms))
  {
  }

  lemma ForeignChunkQueued(w: SyncWorld, now: int, byHash: map<string, BookRow>, s: Pass, chunk: seq<string>, h: string)
    requires (forall g :: g in chunk ==> g in byHash) && h !in chunk
    requires QueuedIn(h, s) && Honest(MatchChunk(w, now, byHash, s, chunk).trace)
    ensures QueuedIn(h, MatchChunk(w, now, byHash, s, chunk))
  {
    var found := w.matching(|s.trace|);
    MatchChunkFrame(w, now, byHash, s, chunk);
    ForeignMatches(chunk, found, now, h);
    MatchesSnoc(s.trace, MatchCheck(chunk, found, now), h);
    MatchChunkForeign(w, now, byHash, s, chunk, h);
    QueuedKept(h, s, MatchChunk(w, now, byHash, s, chunk));
  }

  lemma FailedChunkKeeps(w: SyncWorld, now: int, byHash: map<string, BookRow>, s: Pass, chunk: seq<string>)
    requires (forall g :: g in chunk ==> g in byHash) && w.matching(|s.trace|).Err?
    ensures var t := MatchChunk(w, now, byHash, s, chunk);
            && t.data == s.data && t.toPush == s.toPush
            && t.trace == s.trace + [MatchCheck(chunk, w.matching(|s.trace|), now)]
  {
  }

  lemma FailedChunkQueued(w: SyncWorld, now: int, byHash: map<string, BookRow>, s: Pass, chunk: seq<string>, h: string)
    requires (forall g :: g in chunk ==> g in byHash) && w.matching(|s.trace|).Err? && QueuedIn(h, s)
    ensures QueuedIn(h, MatchChunk(w, now, byHash, s, chunk))
  {
    FailedChunkKeeps(w, now, byHash, s, chunk);
    FailedQueued(s, MatchCheck(chunk, w.matching(|s.trace|), now), MatchChunk(w, now, byHash, s, chunk), h);
  }

  lemma FailedQueued(s: Pass, e: Event, t: Pass, h: string)
    requires QueuedIn(h, s) && t.data == s.data && t.toPush == s.toPush && t.trace == s.trace + [e]
    requires e.MatchCheck? && e.found.Err?
    ensures QueuedIn(h, t)
  {
    MatchesSnoc(s.trace, e, h);
    QueuedKept(h, s, t);
  }

  lemma MatchChunkQueued(w: SyncWorld, now: int, byHash: map<string, BookRow>, s: Pass, chunk: seq<string>, h: string)
    requires forall g :: g in chunk ==> g in byHash
    requires QueuedIn(h, s) && Pending(h, s, chunk) && Honest(MatchChunk(w, now, byHash, s, chunk).trace)
    ensures QueuedIn(h, MatchChunk(w, now, byHash, s, chunk))
  {
    var found := w.matching(|s.trace|);
    MatchChunkFrame(w, now, byHash, s, chunk);
    assert HonestEvent(MatchChunk(w, now, byHash, s, chunk).trace[|s.trace|]);
    if h !in chunk {
      ForeignChunkQueued(w, now, byHash, s, chunk, h);
    } else if found.Err? {
      FailedChunkQueued(w, now, byHash, s, chunk, h);
    } else {
      AnsweredChunkQueued(w, now, byHash, s, chunk, h);
    }
  }

  lemma AnsweredChunkQueued(w: SyncWorld, now: int, byHash: map<string, BookRow>, s: Pass, chunk: seq<string>,
                            h: string)
    requires (forall g :: g in chunk ==> g in byHash) && h in chunk && w.matching(|s.trace|).Ok?
    requires ItemsFor(s.toPush, h) == [] && MatchesIn(s.trace, h) == [] && OwnChunk(chunk, w.matching(|s.trace|).value)
    ensures QueuedIn(h, MatchChunk(w, now, byHash, s, chunk))
  {
    var found := w.matching(|s.trace|);
    var e := MatchCheck(chunk, found, now);
    MatchChunkFrame(w, now, byHash, s, chunk);
    MatchesSnoc(s.trace, e, h);
    AnsweredQueued(byHash, now, s.Log(e), chunk, found.value, h);
    assert MatchesIn(MatchChunk(w, now, byHash, s, chunk).trace, h) == MatchesFor(found.value.matches, h);
  }

  lemma MatchChunkFollows(w: SyncWorld, now: int, byHash: map<string, BookRow>, s: Pass, chunk: seq<string>, h: string,
                          x: Slot)
    requires forall g :: g in chunk ==> g in byHash
    requires Follows(h, x, s.trace, s.data) && Pending(h, s, chunk)
    ensures var t := MatchChunk(w, now, byHash, s, chunk); Follows(h, x, t.trace, t.data)
  {
    var e := MatchCheck(chunk, w.matching(|s.trace|), now);
    MatchChunkFrame(w, now, byHash, s, chunk);
    MatchChunkObserved(w, now, byHash, s, chunk, h);
    FollowsSnoc(h, x, s.trace, s.data, e, MatchChunk(w, now, byHash, s, chunk).data);
  }

  lemma PendingRest(w: SyncWorld, now: int, byHash: map<string, BookRow>, s: Pass, hashes: seq<string>, k: nat,
                    h: string)
    requires forall g :: g in hashes ==> g in byHash
    requires k <= |hashes| && Pending(h, s, hashes) && Honest(MatchChunk(w, now, byHash, s, hashes[..k]).trace)
    ensures Pending(h, MatchChunk(w, now, byHash, s, hashes[..k]), hashes[k..])
  {
    var chunk := hashes[..k];
    PendingSplit(h, s, hashes, k);
    if h in hashes[k..] {
      var e := MatchCheck(chunk, w.matching(|s.trace|), now);
      MatchChunkForeign(w, now, byHash, s, chunk, h);
      MatchChunkFrame(w, now, byHash, s, chunk);
      assert MatchChunk(w, now, byHash, s, chunk).trace[|s.trace|] == e;
      assert HonestEvent(e);
      MatchesSnoc(s.trace, e, h);
      ForeignMatches(chunk, e.found, now, h);
    }
  }

  lemma {:induction false} MatchPhaseFollows(w: SyncWorld, cfg: Config, now: int, byHash: map<string, BookRow>,
                                             s: Pass, hashes: seq<string>, h: string, x: Slot)
    requires forall g :: g in hashes ==> g in byHash
    requires Follows(h, x, s.trace, s.data) && QueuedIn(h, s) && Pending(h, s, hashes)
    requires Honest(MatchPhase(w, cfg, now, byHash, s, hashes).trace)
    ensures var t := MatchPhase(w, cfg, now, byHash, s, hashes); Follows(h, x, t.trace, t.data) && QueuedIn(h, t)
    decreases |hashes|
  {
    if hashes != [] && !s.fatal {
      var k := ChunkLength(|hashes|, cfg.matchBatchSize);
      var chunk, rest := hashes[..k], hashes[k..];
      var s1 := MatchChunk(w, now, byHash, s, chunk);
      MatchPhaseFrame(w, cfg, now, byHash, s1, rest);
      HonestPrefix(s1.trace, MatchPhase(w, cfg, now, byHash, s, hashes).trace);
      PendingSplit(h, s, hashes, k);
      MatchChunkFollows(w, now, byHash, s, chunk, h, x);
      MatchChunkQueued(w, now, byHash, s, chunk, h);
      PendingRest(w, now, byHash, s, hashes, k, h);
      MatchPhaseFollows(w, cfg, now, byHash, s1, rest, h, x);
    }
  }

  lemma PendingSplit(h: string, s: Pass, hashes: seq<string>, k: nat)
    requires k <= |hashes| && Pending(h, s, hashes)
    ensures Pending(h, s, hashes[..k]) && Pending(h, s, hashes[k..])
    ensures h in hashes[k..] ==> h !in hashes[..k]
  {
    var chunk, rest := hashes[..k], hashes[k..];
    assert hashes == chunk + rest;
    assert multiset(hashes) == multiset(chunk) + multiset(rest);
    if h in rest {
      assert h in multiset(rest);
      assert h !in multiset(chunk);
    }
  }

  /******* Status *******/

  lemma StatusRowFollows(w: World, now: int, s: Pass, row: BookRow, h: string, x: Slot)
    requires Follows(h, x, s.trace, s.data)
    ensures Follows(h, x, StatusRow(w, now, s, row).trace, StatusRow(w, now, s, row).data)
  {
    StatusRowCases(w, now, s, row);
    if Tracked(s, row) {
      var rec := s.data.matches[row.hash];
      var act := StatusDecision(rec, row.readingStatus);
      ActTraffic(w, now, s, row, rec, act);
      if act.Send? {
        var e := StatusCall(w, now, s, row, rec, act.token);
        StatusCallObserved(w, now, s, row, act, h);
        StatusCallJustified(s, row, e, h);
        FollowsSnoc(h, x, s.trace, s.data, e, StatusRow(w, now, s, row).data);
      } else {
        SilentStatus(w, now, s, row, act, h);
      }
    }
  }

  lemma SilentStatus(w: World, now: int, s: Pass, row: BookRow, act: StatusAct, h: string)
    requires Tracked(s, row) && !act.Send?
    ensures CoreSlot(ActOnStatus(w, now, s, row, s.data.matches[row.hash], act).data.At(h)) == CoreSlot(s.data.At(h))
  {
  }

  /** The slot of the row's hash after its status call was answered. */
  function AfterAnswer(x: Slot, rec: MatchRecord, status: string, token: string, done: Result<(), BookOrbitError>,
                       now: int): Slot
  {
    match done
    case Ok(_) => x.(rec := Some(rec.(lastSeenStatus := status, lastSeenStatusAt := now,
                                      lastPushedStatus := token, lastPushedStatusAt := now)))
    case Err(e) => if e.BookGone? then Slot(None, Some(now)) else x
  }

  lemma ActSlot(w: World, now: int, s: Pass, row: BookRow, token: string)
    requires Tracked(s, row)
    ensures var rec, x := s.data.matches[row.hash], s.data.At(row.hash);
            ActOnStatus(w, now, s, row, rec, Send(token)).data.At(row.hash)
            == AfterAnswer(x, rec, row.readingStatus, token, w.status(|s.trace|), now)
  {
  }

  lemma AnswerObserved(x: Slot, rec: MatchRecord, status: string, e: Event, now: int)
    requires x.rec == Some(rec) && e.SetStatus? && e.time == now
    ensures Observe(e, e.hash, CoreSlot(x)) == CoreSlot(AfterAnswer(x, rec, status, e.token, e.done, now))
  {
  }

  lemma StatusCallObserved(w: World, now: int, s: Pass, row: BookRow, act: StatusAct, h: string)
    requires Tracked(s, row) && act.Send?
    ensures var rec := s.data.matches[row.hash];
            Observe(StatusCall(w, now, s, row, rec, act.token), h, CoreSlot(s.data.At(h)))
            == CoreSlot(ActOnStatus(w, now, s, row, rec, act).data.At(h))
  {
    var rec := s.data.matches[row.hash];
    if row.hash == h {
      ActSlot(w, now, s, row, act.token);
      AnswerObserved(s.data.At(h), rec, row.readingStatus, StatusCall(w, now, s, row, rec, act.token), now);
    } else {
      ActKeeps(w, now, s, row, act, h);
    }
  }

  lemma StatusCallJustified(s: Pass, row: BookRow, e: Event, h: string)
    requires Tracked(s, row) && e.SetStatus? && e.hash == row.hash
    requires var rec := s.data.matches[row.hash];
             e.bookId == rec.bookId && StatusDecision(rec, row.readingStatus) == Send(e.token)
    ensures Justified(e, h, CoreSlot(s.data.At(h)))
  {
  }

  lemma {:induction false} StatusPhaseFollows(w: World, now: int, s: Pass, rows: seq<BookRow>, h: string, x: Slot)
    requires Follows(h, x, s.trace, s.data)
    ensures Follows(h, x, StatusPhase(w, now, s, rows).trace, StatusPhase(w, now, s, rows).data)
    decreases rows
  {
    if rows != [] && !s.fatal {
      StatusRowFollows(w, now, s, rows[0], h, x);
      StatusPhaseFollows(w, now, StatusRow(w, now, s, rows[0]), rows[1..], h, x);
    }
  }
}
