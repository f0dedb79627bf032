/** The match-check, progress and status phases, seen from one hash. */
module Phases {
  import opened Wrappers
  import opened Errors
  import opened Batch
  import opened Readest
  import opened State
  import opened SyncPass
  import opened Projection

  /******* Things that only grow during a pass *******/

  ghost predicate Grows(a: Pass, b: Pass) {
    && a.trace <= b.trace && a.failed <= b.failed && a.errs <= b.errs
    && a.data.watermarkMs == b.data.watermarkMs
    && a.data.token == b.data.token && a.data.deviceId == b.data.deviceId
    && (a.bulkUnsupported ==> b.bulkUnsupported)
  }

  lemma GrowsTransitive(a: Pass, b: Pass, c: Pass)
    requires Grows(a, b) && Grows(b, c)
    ensures Grows(a, c)
  {
    assert a.trace <= c.trace && a.failed <= c.failed && a.errs <= c.errs;
  }

  /******* Honest answers *******/

  /** A match-check answer names only hashes of its own chunk, and none in both lists. It may match a hash twice. */
  ghost predicate OwnChunk(chunk: seq<string>, r: MatchResponse) {
    && (forall m :: m in r.matches ==> m.hash in chunk)
    && (forall h :: h in r.unmatched ==> h in chunk)
    && (forall m :: m in r.matches ==> m.hash !in r.unmatched)
  }

  ghost predicate HonestEvent(e: Event) {
    e.MatchCheck? && e.found.Ok? ==> OwnChunk(e.hashes, e.found.value)
  }

  ghost predicate Honest(trace: seq<Event>) {
    forall e :: e in trace ==> HonestEvent(e)
  }

  lemma HonestPrefix(a: seq<Event>, b: seq<Event>)
    requires a <= b && Honest(b)
    ensures Honest(a)
  {
    forall e | e in a ensures HonestEvent(e) {
      var i :| 0 <= i < |a| && a[i] == e;
      assert b[i] == e;
    }
  }

  /******* One match-check answer *******/

  /** The last entry of the answer that names a hash. */
  function MatchFor(found: seq<Match>, h: string): Option<Match> {
    if found == [] then None
    else
      var later := MatchFor(found[1..], h);
      if later.Some? then later else if found[0].hash == h then Some(found[0]) else None
  }

  lemma {:induction false} MatchForNamed(found: seq<Match>, h: string)
    ensures MatchFor(found, h).Some? <==> exists m :: m in found && m.hash == h
    ensures MatchFor(found, h).Some? ==> MatchFor(found, h).value in found && MatchFor(found, h).value.hash == h
  {
    if found != [] {
      MatchForNamed(found[1..], h);
      if exists m :: m in found && m.hash == h {
        var m :| m in found && m.hash == h;
        assert m == found[0] || m in found[1..];
      }
    }
  }

  /** All entries of the answer that name a hash, in order. */
  function MatchesFor(found: seq<Match>, h: string): (ms: seq<Match>)
    ensures forall m :: m in ms ==> m.hash == h && m in found
    ensures ms == [] <==> MatchFor(found, h).None?
    ensures ms != [] ==> MatchFor(found, h) == Some(ms[|ms| - 1])
  {
    if found == [] then []
    else (if found[0].hash == h then [found[0]] else []) + MatchesFor(found[1..], h)
  }

  lemma {:induction false} AddMatchesSlot(byHash: map<string, BookRow>, now: int, s: Pass, found: seq<Match>, h: string)
    ensures AddMatches(byHash, now, s, found).data.At(h) ==
            match MatchFor(found, h)
            case None => s.data.At(h)
            case Some(m) => Slot(Some(NewRecord(m.bookFileId, m.bookId)), None)
    decreases found
  {
    if found != [] {
      AddMatchesSlot(byHash, now, AddMatch(byHash, now, s, found[0]), found[1..], h);
    }
  }

  /** Nothing but the two maps and the queue changes while matches are recorded. */
  lemma {:induction false} AddMatchesFrame(byHash: map<string, BookRow>, now: int, s: Pass, found: seq<Match>)
    ensures var t := AddMatches(byHash, now, s, found);
            t == s.(data := s.data.(matches := t.data.matches, unmatched := t.data.unmatched), toPush := t.toPush)
    decreases found
  {
    if found != [] {
      AddMatchesFrame(byHash, now, AddMatch(byHash, now, s, found[0]), found[1..]);
    }
  }

  /** What the entries for one hash queue: one item each, if the row has a usable percentage. */
  function Copies(h: string, r: BookRow, now: int, ms: seq<Match>): (items: seq<PushItem>)
    ensures |items| == if r.Percentage().Some? then |ms| else 0
    ensures forall i :: 0 <= i < |items| ==>
              items[i] == ItemFor(h, r, NewRecord(ms[i].bookFileId, ms[i].bookId), r.Percentage().value, now)
  {
    if ms == [] || r.Percentage().None? then []
    else
      [ItemFor(h, r, NewRecord(ms[0].bookFileId, ms[0].bookId), r.Percentage().value, now)]
      + Copies(h, r, now, ms[1..])
  }

  lemma CopiesCons(h: string, r: BookRow, now: int, m: Match, ms: seq<Match>)
    ensures Copies(h, r, now, [m] + ms) == Copies(h, r, now, [m]) + Copies(h, r, now, ms)
  {
    assert ([m] + ms)[1..] == ms && [m][1..] == [];
    if r.Percentage().Some? {
      var p := ItemFor(h, r, NewRecord(m.bookFileId, m.bookId), r.Percentage().value, now);
      assert Copies(h, r, now, []) == [];
      assert Copies(h, r, now, [m]) == [p] + [] == [p];
      assert Copies(h, r, now, [m] + ms) == [p] + Copies(h, r, now, ms);
    }
  }

  /** The items that entries of an answer queue for a hash. */
  function Queues(byHash: map<string, BookRow>, now: int, found: seq<Match>, h: string): seq<PushItem> {
    if h in byHash then Copies(h, byHash[h], now, MatchesFor(found, h)) else []
  }

  lemma QueuesCons(byHash: map<string, BookRow>, now: int, found: seq<Match>, h: string)
    requires found != []
    ensures Queues(byHash, now, found, h) == Queues(byHash, now, [found[0]], h) + Queues(byHash, now, found[1..], h)
  {
    assert [found[0]][1..] == [];
    if h in byHash && found[0].hash == h {
      CopiesCons(h, byHash[h], now, found[0], MatchesFor(found[1..], h));
    }
  }

  lemma AddMatchItems(byHash: map<string, BookRow>, now: int, s: Pass, m: Match, h: string)
    ensures ItemsFor(AddMatch(byHash, now, s, m).toPush, h) == ItemsFor(s.toPush, h) + Queues(byHash, now, [m], h)
  {
    assert [m][1..] == [];
    if m.hash in byHash && byHash[m.hash].Percentage().Some? {
      var p := ItemFor(m.hash, byHash[m.hash], NewRecord(m.bookFileId, m.bookId), byHash[m.hash].Percentage().value,
                       now);
      ItemsForAppend(s.toPush, [p], h);
      assert ItemsFor([p], h) == if m.hash == h then [p] else [];
    }
  }

  lemma Regroup<T>(a: seq<T>, b: seq<T>, c: seq<T>)
    ensures (a + b) + c == a + (b + c)
  {
  }

  lemma {:induction false} AddMatchesItems(byHash: map<string, BookRow>, now: int, s: Pass, found: seq<Match>,
                                           h: string)
    ensures ItemsFor(AddMatches(byHash, now, s, found).toPush, h)
            == ItemsFor(s.toPush, h) + Queues(byHash, now, found, h)
    decreases found
  {
    if found != [] {
      AddMatchItems(byHash, now, s, found[0], h);
      AddMatchesItems(byHash, now, AddMatch(byHash, now, s, found[0]), found[1..], h);
      QueuesCons(byHash, now, found, h);
      Regroup(ItemsFor(s.toPush, h), Queues(byHash, now, [found[0]], h), Queues(byHash, now, found[1..], h));
    }
  }

  lemma {:induction false} UnmatchAllSlot(d: Data, hs: seq<string>, at: int, h: string)
    ensures UnmatchAll(d, hs, at).At(h) == if h in hs then Slot(None, Some(at)) else d.At(h)
    ensures UnmatchAll(d, hs, at) == d.(matches := UnmatchAll(d, hs, at).matches,
                                        unmatched := UnmatchAll(d, hs, at).unmatched)
    decreases hs
  {
    if hs != [] {
      UnmatchAllSlot(Unmatch(d, hs[0], at), hs[1..], at, h);
    }
  }

  lemma {:induction false} UnmatchOmittedSlot(d: Data, chunk: seq<string>, seen: set<string>, at: int, h: string)
    ensures UnmatchOmitted(d, chunk, seen, at).At(h) ==
            if h in chunk && h !in seen then Slot(None, Some(at)) else d.At(h)
    ensures UnmatchOmitted(d, chunk, seen, at) ==
            d.(matches := UnmatchOmitted(d, chunk, seen, at).matches,
               unmatched := UnmatchOmitted(d, chunk, seen, at).unmatched)
    decreases chunk
  {
    if chunk != [] {
      if chunk[0] in seen {
        UnmatchOmittedSlot(d, chunk[1..], seen, at, h);
      } else {
        UnmatchOmittedSlot(Unmatch(d, chunk[0], at), chunk[1..], seen + {chunk[0]}, at, h);
      }
    }
  }

  /** Does the answer leave a hash unmatched: listed as such, or asked about and not named at all. */
  predicate LeavesUnmatched(chunk: seq<string>, r: MatchResponse, h: string) {
    h in r.unmatched || (h in chunk && MatchFor(r.matches, h).None?)
  }

  /** The slot of any hash after any answer to any chunk. */
  lemma FoundSlot(byHash: map<string, BookRow>, now: int, s: Pass, chunk: seq<string>, r: MatchResponse, h: string)
    ensures ApplyFound(byHash, now, s, chunk, r).data.At(h) ==
            if LeavesUnmatched(chunk, r, h) then Slot(None, Some(now))
            else match MatchFor(r.matches, h)
                 case None => s.data.At(h)
                 case Some(m) => Slot(Some(NewRecord(m.bookFileId, m.bookId)), None)
  {
    var s1 := AddMatches(byHash, now, s, r.matches);
    AddMatchesSlot(byHash, now, s, r.matches, h);
    UnmatchAllSlot(s1.data, r.unmatched, now, h);
    UnmatchOmittedSlot(UnmatchAll(s1.data, r.unmatched, now), chunk, Named(r), now, h);
    MatchForNamed(r.matches, h);
  }

  /** Acting on an answer changes the two maps and the queue. */
  lemma ApplyFoundFrame(byHash: map<string, BookRow>, now: int, s: Pass, chunk: seq<string>, r: MatchResponse)
    ensures var t := ApplyFound(byHash, now, s, chunk, r);
            t == s.(data := s.data.(matches := t.data.matches, unmatched := t.data.unmatched), toPush := t.toPush)
  {
    var s1 := AddMatches(byHash, now, s, r.matches);
    AddMatchesFrame(byHash, now, s, r.matches);
    UnmatchAllSlot(s1.data, r.unmatched, now, "");
    UnmatchOmittedSlot(UnmatchAll(s1.data, r.unmatched, now), chunk, Named(r), now, "");
  }

  lemma MatchChunkFrame(w: SyncWorld, now: int, byHash: map<string, BookRow>, s: Pass, chunk: seq<string>)
    requires forall h :: h in chunk ==> h in byHash
    ensures Grows(s, MatchChunk(w, now, byHash, s, chunk))
    ensures MatchChunk(w, now, byHash, s, chunk).bulkUnsupported == s.bulkUnsupported
    ensures MatchChunk(w, now, byHash, s, chunk).trace == s.trace + [MatchCheck(chunk, w.matching(|s.trace|), now)]
    ensures MatchChunk(w, now, byHash, s, chunk).ticks == s.ticks
  {
    var found := w.matching(|s.trace|);
    if found.Ok? {
      ApplyFoundFrame(byHash, now, s.Log(MatchCheck(chunk, found, now)), chunk, found.value);
    }
  }

  /******* The match-check phase *******/

  lemma {:induction false} MatchPhaseFrame(w: SyncWorld, cfg: Config, now: int, byHash: map<string, BookRow>,
                                           s: Pass, hashes: seq<string>)
    requires forall h :: h in hashes ==> h in byHash
    ensures Grows(s, MatchPhase(w, cfg, now, byHash, s, hashes))
    ensures MatchPhase(w, cfg, now, byHash, s, hashes).bulkUnsupported == s.bulkUnsupported
    ensures MatchPhase(w, cfg, now, byHash, s, hashes).ticks == s.ticks
    decreases |hashes|
  {
    if hashes != [] && !s.fatal {
      var k := ChunkLength(|hashes|, cfg.matchBatchSize);
      var s1 := MatchChunk(w, now, byHash, s, hashes[..k]);
      MatchChunkFrame(w, now, byHash, s, hashes[..k]);
      MatchPhaseFrame(w, cfg, now, byHash, s1, hashes[k..]);
      GrowsTransitive(s, s1, MatchPhase(w, cfg, now, byHash, s1, hashes[k..]));
    }
  }

  /** Does the event settle hash h: an answer after which the store records h as unmatched or as pushed. */
  predicate Answers(e: Event, h: string) {
    match e
    case Pulled(_) => false
    case MatchCheck(hashes, found, _) => found.Ok? && LeavesUnmatched(hashes, found.value, h)
    case Bulk(items, refused, _) => refused.Ok? && exists i :: 0 <= i < |items| && items[i].hash == h
    case Update(item, done, _) => done.Ok? && item.hash == h
    case SetStatus(_, _, _, _, _) => false
  }

  ghost predicate Answered(trace: seq<Event>, h: string) {
    exists e :: e in trace && Answers(e, h)
  }

  /** Does the event resolve hash h to a library book. */
  predicate Finds(e: Event, h: string) {
    e.MatchCheck? && e.found.Ok? && !LeavesUnmatched(e.hashes, e.found.value, h)
      && MatchFor(e.found.value.matches, h).Some?
  }

  ghost predicate Found(trace: seq<Event>, h: string) {
    exists e :: e in trace && Finds(e, h)
  }

  lemma HeardSnoc(trace: seq<Event>, e: Event, h: string)
    ensures Answered(trace + [e], h) <==> Answered(trace, h) || Answers(e, h)
    ensures Found(trace + [e], h) <==> Found(trace, h) || Finds(e, h)
  {
    assert e in trace + [e];
    if Answered(trace, h) {
      var x :| x in trace && Answers(x, h);
      assert x in trace + [e];
    }
    if Found(trace, h) {
      var x :| x in trace && Finds(x, h);
      assert x in trace + [e];
    }
  }

  /** The engine saw an Unauthorized answer in the match-check or the bulk phase and gave up. */
  predicate CutShort(errs: seq<Failure>) {
    Failure(MatchCheckOp, Unauthorized) in errs || Failure(BulkProgressOp, Unauthorized) in errs
  }

  /** The hash is exactly as it was, in the store, in the queue and in the settling answers. */
  ghost predicate Untouched(h: string, a: Pass, b: Pass) {
    && a.data.At(h) == b.data.At(h)
    && ItemsFor(a.toPush, h) == ItemsFor(b.toPush, h)
    && (Answered(a.trace, h) <==> Answered(b.trace, h))
    && (Found(a.trace, h) <==> Found(b.trace, h))
  }

  /** The three ways the match-check phase can leave a hash that it was given. */
  ghost predicate CheckedUnmatched(now: int, h: string, a: Pass, b: Pass) {
    b.data.At(h) == Slot(None, Some(now)) && ItemsFor(b.toPush, h) == ItemsFor(a.toPush, h) && Answered(b.trace, h)
  }

  ghost predicate CheckedMatched(now: int, r: BookRow, a: Pass, b: Pass) {
    && (Answered(a.trace, r.hash) <==> Answered(b.trace, r.hash)) && Found(b.trace, r.hash)
    && NewSlot(b.data.At(r.hash))
    && exists ms :: ms != [] && ItemsFor(b.toPush, r.hash) == ItemsFor(a.toPush, r.hash) + Copies(r.hash, r, now, ms)
  }

  /** A record as a match creates it, and no cooldown. */
  predicate NewSlot(x: Slot) {
    x.unmatched.None? && x.rec.Some? && x.rec.value == NewRecord(x.rec.value.bookFileId, x.rec.value.bookId)
  }

  ghost predicate CheckMissed(r: BookRow, a: Pass, b: Pass) {
    Untouched(r.hash, a, b) && (r.WatermarkMs() in b.failed
                                || (b.fatal && Failure(MatchCheckOp, Unauthorized) in b.errs))
  }

  lemma MatchChunkForeign(w: SyncWorld, now: int, byHash: map<string, BookRow>, s: Pass, chunk: seq<string>, h: string)
    requires forall g :: g in chunk ==> g in byHash
    requires h !in chunk && Honest(MatchChunk(w, now, byHash, s, chunk).trace)
    ensures Untouched(h, s, MatchChunk(w, now, byHash, s, chunk))
  {
    var found := w.matching(|s.trace|);
    var e := MatchCheck(chunk, found, now);
    MatchChunkFrame(w, now, byHash, s, chunk);
    assert e in s.trace + [e];
    assert HonestEvent(e);
    HeardSnoc(s.trace, e, h);
    if found.Ok? {
      MatchForNamed(found.value.matches, h);
      FoundSlot(byHash, now, s.Log(e), chunk, found.value, h);
      AddMatchesItems(byHash, now, s.Log(e), found.value.matches, h);
    }
  }

  /** The phase gives up exactly when the answer to the chunk was Unauthorized. */
  lemma MatchChunkFatal(w: SyncWorld, now: int, byHash: map<string, BookRow>, s: Pass, chunk: seq<string>)
    requires forall g :: g in chunk ==> g in byHash
    requires !s.fatal
    ensures var t := MatchChunk(w, now, byHash, s, chunk);
            && (t.fatal <==> w.matching(|s.trace|) == Err(Unauthorized))
            && (t.fatal ==> Failure(MatchCheckOp, Unauthorized) in t.errs)
  {
    var found := w.matching(|s.trace|);
    if found.Ok? {
      AddMatchesFrame(byHash, now, s.Log(MatchCheck(chunk, found, now)), found.value.matches);
    }
  }

  lemma {:induction false} WatermarksOfChunk(byHash: map<string, BookRow>, chunk: seq<string>, h: string)
    requires forall g :: g in chunk ==> g in byHash
    requires h in chunk
    ensures byHash[h].WatermarkMs() in Watermarks(byHash, chunk)
  {
    if chunk[0] != h {
      WatermarksOfChunk(byHash, chunk[1..], h);
    }
  }

  /** What an honest answer does to a hash of its own chunk. */
  lemma AnsweredHash(byHash: map<string, BookRow>, now: int, s: Pass, chunk: seq<string>, found: MatchResponse,
                     h: string)
    requires h in chunk && h in byHash && OwnChunk(chunk, found)
    ensures var t := ApplyFound(byHash, now, s, chunk, found);
            var ms := MatchesFor(found.matches, h);
            && ItemsFor(t.toPush, h) == ItemsFor(s.toPush, h) + Copies(h, byHash[h], now, ms)
            && (LeavesUnmatched(chunk, found, h) <==> ms == [])
            && (if ms == [] then t.data.At(h) == Slot(None, Some(now)) else NewSlot(t.data.At(h)))
  {
    MatchForNamed(found.matches, h);
    FoundSlot(byHash, now, s, chunk, found, h);
    AddMatchesItems(byHash, now, s, found.matches, h);
  }

  lemma MatchChunkHit(w: SyncWorld, now: int, byHash: map<string, BookRow>, s: Pass, chunk: seq<string>, r: BookRow)
    requires forall g :: g in chunk ==> g in byHash
    requires r.hash in chunk && byHash[r.hash] == r && Honest(MatchChunk(w, now, byHash, s, chunk).trace)
    ensures var t := MatchChunk(w, now, byHash, s, chunk);
            CheckedUnmatched(now, r.hash, s, t) || CheckedMatched(now, r, s, t) || CheckMissed(r, s, t)
  {
    var found := w.matching(|s.trace|);
    var e := MatchCheck(chunk, found, now);
    MatchChunkFrame(w, now, byHash, s, chunk);
    assert e in s.trace + [e];
    assert HonestEvent(e);
    HeardSnoc(s.trace, e, r.hash);
    if found.Ok? {
      AnsweredHash(byHash, now, s.Log(e), chunk, found.value, r.hash);
    } else if !found.error.Unauthorized? {
      WatermarksOfChunk(byHash, chunk, r.hash);
    }
  }

  lemma {:induction false} MatchPhaseForeign(w: SyncWorld, cfg: Config, now: int, byHash: map<string, BookRow>,
                                             s: Pass, hashes: seq<string>, h: string)
    requires forall g :: g in hashes ==> g in byHash
    requires h !in hashes && Honest(MatchPhase(w, cfg, now, byHash, s, hashes).trace)
    ensures Untouched(h, s, MatchPhase(w, cfg, now, byHash, s, hashes))
    decreases |hashes|
  {
    if hashes != [] && !s.fatal {
      var k := ChunkLength(|hashes|, cfg.matchBatchSize);
      var s1 := MatchChunk(w, now, byHash, s, hashes[..k]);
      MatchPhaseFrame(w, cfg, now, byHash, s1, hashes[k..]);
      HonestPrefix(s1.trace, MatchPhase(w, cfg, now, byHash, s, hashes).trace);
      MatchChunkForeign(w, now, byHash, s, hashes[..k], h);
      MatchPhaseForeign(w, cfg, now, byHash, s1, hashes[k..], h);
    }
  }

  ghost predicate MatchOutcome(now: int, r: BookRow, a: Pass, b: Pass) {
    CheckedUnmatched(now, r.hash, a, b) || CheckedMatched(now, r, a, b) || CheckMissed(r, a, b)
  }

  lemma OutcomeThenUntouched(now: int, r: BookRow, a: Pass, b: Pass, c: Pass)
    requires MatchOutcome(now, r, a, b) && Untouched(r.hash, b, c) && Grows(b, c) && (b.fatal ==> c.fatal)
    ensures MatchOutcome(now, r, a, c)
  {
    if CheckedMatched(now, r, a, b) {
      var ms :| ms != [] && ItemsFor(b.toPush, r.hash) == ItemsFor(a.toPush, r.hash) + Copies(r.hash, r, now, ms);
      assert ItemsFor(c.toPush, r.hash) == ItemsFor(a.toPush, r.hash) + Copies(r.hash, r, now, ms);
    } else if CheckMissed(r, a, b) {
      assert CheckMissed(r, a, c);
    } else {
      assert CheckedUnmatched(now, r.hash, a, c);
    }
  }

  lemma UntouchedThenOutcome(now: int, r: BookRow, a: Pass, b: Pass, c: Pass)
    requires Untouched(r.hash, a, b) && MatchOutcome(now, r, b, c)
    ensures MatchOutcome(now, r, a, c)
  {
  }

  lemma {:induction false} MatchPhaseHit(w: SyncWorld, cfg: Config, now: int, byHash: map<string, BookRow>,
                                         s: Pass, hashes: seq<string>, r: BookRow)
    requires forall g :: g in hashes ==> g in byHash
    requires !s.fatal && multiset(hashes)[r.hash] == 1 && byHash[r.hash] == r
    requires Honest(MatchPhase(w, cfg, now, byHash, s, hashes).trace)
    ensures MatchOutcome(now, r, s, MatchPhase(w, cfg, now, byHash, s, hashes))
    decreases |hashes|
  {
    var t := MatchPhase(w, cfg, now, byHash, s, hashes);
    var k := ChunkLength(|hashes|, cfg.matchBatchSize);
    var chunk, rest := hashes[..k], hashes[k..];
    var s1 := MatchChunk(w, now, byHash, s, chunk);
    assert hashes == chunk + rest;
    assert multiset(hashes) == multiset(chunk) + multiset(rest);
    MatchChunkFrame(w, now, byHash, s, chunk);
    MatchPhaseFrame(w, cfg, now, byHash, s1, rest);
    HonestPrefix(s1.trace, t.trace);
    if r.hash in chunk {
      assert r.hash in multiset(chunk);
      assert r.hash !in multiset(rest);
      MatchChunkHit(w, now, byHash, s, chunk, r);
      MatchPhaseForeign(w, cfg, now, byHash, s1, rest, r.hash);
      OutcomeThenUntouched(now, r, s, s1, t);
    } else {
      assert r.hash !in multiset(chunk);
      MatchChunkForeign(w, now, byHash, s, chunk, r.hash);
      MatchChunkFatal(w, now, byHash, s, chunk);
      if s1.fatal {
        assert t == s1;
        assert CheckMissed(r, s, t);
      } else {
        MatchPhaseHit(w, cfg, now, byHash, s1, rest, r);
        UntouchedThenOutcome(now, r, s, s1, t);
      }
    }
  }
}
