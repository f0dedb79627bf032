/** The progress phase for one hash, attempt by attempt: what each did to the store, what each tells the reference,
    and exactly when the two agree. */
module Fates {
  import opened Wrappers
  import opened Batch
  import opened State
  import opened SyncPass
  import opened Projection
  import opened Phases
  import opened Progress
  import opened Traffic
  import opened History

  /** How one attempt to push one copy of a hash ended. */
  datatype Fate = Acked(pct: int, time: int) | Refused(time: int) | Missed

  /******* What the traffic says *******/

  function AnswerFates(items: seq<Sent>, refused: seq<string>, times: seq<int>, h: string): seq<Fate>
    decreases items
  {
    if items == [] || times == [] then []
    else
      (if items[0].hash != h then [] else if h in refused then [Refused(times[0])] else [Acked(items[0].pct, times[0])])
      + AnswerFates(items[1..], refused, times[1..], h)
  }

  function MissedFates(items: seq<Sent>, h: string): seq<Fate> {
    if items == [] then [] else (if items[0].hash == h then [Missed] else []) + MissedFates(items[1..], h)
  }

  function EventFates(e: Event, h: string): seq<Fate> {
    match e
    case Bulk(items, refused, times) =>
      if refused.Ok? then AnswerFates(items, refused.value, times, h)
      else if refused.error.UnsupportedEndpoint? then []
      else MissedFates(items, h)
    case Update(item, done, time) =>
      if item.hash != h then [] else if done.Ok? then [Acked(item.pct, time)] else [Missed]
    case _ => []
  }

  function FatesIn(trace: seq<Event>, h: string): seq<Fate> {
    if trace == [] then [] else FatesIn(trace[..|trace| - 1], h) + EventFates(trace[|trace| - 1], h)
  }

  lemma FatesSnoc(trace: seq<Event>, e: Event, h: string)
    ensures FatesIn(trace + [e], h) == FatesIn(trace, h) + EventFates(e, h)
  {
    assert (trace + [e])[..|trace|] == trace;
  }

  /******* What fates do to the store, and to the reference *******/

  function StoreStep(x: Slot, p: PushItem, f: Fate): Slot {
    match f
    case Acked(_, time) => x.(rec := Some(p.rec.(lastPushedAt := time, lastPushedPct := p.pct)))
    case Refused(time) => Slot(None, Some(time))
    case Missed => x
  }

  function ReplayStep(x: Slot, f: Fate): Slot {
    match f
    case Acked(pct, time) => if x.rec.Some? then x.(rec := Some(x.rec.value.(lastPushedAt := time,
      lastPushedPct := pct))) else x
    case Refused(time) => Slot(None, Some(time))
    case Missed => x
  }

  function StoreFold(x: Slot, items: seq<PushItem>, fs: seq<Fate>): Slot
    requires |fs| <= |items|
  {
    if fs == [] then x
    else StoreStep(StoreFold(x, items, fs[..|fs| - 1]), items[|fs| - 1], fs[|fs| - 1])
  }

  function ReplayFold(x: Slot, fs: seq<Fate>): Slot {
    if fs == [] then x else ReplayStep(ReplayFold(x, fs[..|fs| - 1]), fs[|fs| - 1])
  }

  lemma {:induction false} StoreFoldAppend(x: Slot, a: seq<PushItem>, b: seq<PushItem>, fs: seq<Fate>, gs: seq<Fate>)
    requires |fs| == |a| && |gs| <= |b|
    ensures StoreFold(x, a + b, fs + gs) == StoreFold(StoreFold(x, a, fs), b, gs)
  {
    if gs == [] {
      assert fs + gs == fs;
      StoreFoldPrefix(x, a, b, fs);
    } else {
      var front := gs[..|gs| - 1];
      assert (fs + gs)[..|fs + gs| - 1] == fs + front;
      assert (a + b)[|fs + gs| - 1] == b[|gs| - 1];
      StoreFoldAppend(x, a, b, fs, front);
    }
  }

  lemma {:induction false} StoreFoldPrefix(x: Slot, a: seq<PushItem>, b: seq<PushItem>, fs: seq<Fate>)
    requires |fs| <= |a|
    ensures StoreFold(x, a + b, fs) == StoreFold(x, a, fs)
  {
    if fs != [] {
      StoreFoldPrefix(x, a, b, fs[..|fs| - 1]);
    }
  }

  lemma {:induction false} ReplayFoldAppend(x: Slot, fs: seq<Fate>, gs: seq<Fate>)
    ensures ReplayFold(x, fs + gs) == ReplayFold(ReplayFold(x, fs), gs)
  {
    if gs == [] {
      assert fs + gs == fs;
    } else {
      assert (fs + gs)[..|fs + gs| - 1] == fs + gs[..|gs| - 1];
      ReplayFoldAppend(x, fs, gs[..|gs| - 1]);
    }
  }

  /******* The phase *******/

  /** Between two states of the progress phase the copies of h in `mine` met the fates `fs`, and both sides show it. */
  ghost predicate Met(h: string, x: Slot, a: Pass, mine: seq<PushItem>, fs: seq<Fate>, b: Pass) {
    && |fs| <= |mine|
    && b.data.At(h) == StoreFold(a.data.At(h), mine, fs)
    && Replay(x, b.trace, h) == ReplayFold(Replay(x, a.trace, h), fs)
    && FatesIn(b.trace, h) == FatesIn(a.trace, h) + fs
    && MatchesIn(b.trace, h) == MatchesIn(a.trace, h)
    && SamePcts(mine, fs)
  }

  /** An acknowledged copy is acknowledged with its own percentage. */
  ghost predicate SamePcts(mine: seq<PushItem>, fs: seq<Fate>)
    requires |fs| <= |mine|
  {
    forall i :: 0 <= i < |fs| && fs[i].Acked? ==> fs[i].pct == mine[i].pct
  }

  lemma SamePctsAppend(m: seq<PushItem>, fs: seq<Fate>, n: seq<PushItem>, gs: seq<Fate>)
    requires |fs| == |m| && |gs| <= |n| && SamePcts(m, fs) && SamePcts(n, gs)
    ensures SamePcts(m + n, fs + gs)
  {
  }

  lemma MissedPcts(mine: seq<PushItem>, fs: seq<Fate>)
    requires |fs| <= |mine| && forall f :: f in fs ==> f.Missed?
    ensures SamePcts(mine, fs)
  {
    forall i | 0 <= i < |fs| ensures fs[i].Missed? {
      assert fs[i] in fs;
    }
  }

  lemma MetTwice(h: string, x: Slot, a: Pass, m: seq<PushItem>, fs: seq<Fate>, b: Pass, n: seq<PushItem>, gs: seq<Fate>,
                 c: Pass)
    requires Met(h, x, a, m, fs, b) && |fs| == |m| && Met(h, x, b, n, gs, c)
    ensures Met(h, x, a, m + n, fs + gs, c)
  {
    StoreFoldAppend(a.data.At(h), m, n, fs, gs);
    ReplayFoldAppend(Replay(x, a.trace, h), fs, gs);
    SamePctsAppend(m, fs, n, gs);
    Regroup(FatesIn(a.trace, h), fs, gs);
  }

  lemma MetNothing(h: string, x: Slot, a: Pass, mine: seq<PushItem>)
    ensures Met(h, x, a, mine, [], a)
  {
    assert FatesIn(a.trace, h) + [] == FatesIn(a.trace, h);
  }

  lemma PushSingleMet(w: SyncWorld, s: Pass, p: PushItem, h: string, x: Slot) returns (fs: seq<Fate>)
    ensures Met(h, x, s, ItemsFor([p], h), fs, PushSingle(w, s, p)) && |fs| == |ItemsFor([p], h)|
  {
    var done := w.update(|s.trace|);
    var e := Update(p.ToSent(), done, if done.Ok? then w.clock(s.ticks) else 0);
    SingleTraffic(w, s, p);
    ReplaySnoc(x, s.trace, e, h);
    FatesSnoc(s.trace, e, h);
    MatchesSnoc(s.trace, e, h);
    fs := EventFates(e, h);
    assert [p][1..] == [];
    SingleFolds(w, s, p, h, Replay(x, s.trace, h), e, fs);
  }

  lemma SingleFolds(w: SyncWorld, s: Pass, p: PushItem, h: string, y: Slot, e: Event, fs: seq<Fate>)
    requires var done := w.update(|s.trace|); e == Update(p.ToSent(), done, if done.Ok? then w.clock(s.ticks) else 0)
    requires fs == EventFates(e, h)
    ensures |fs| == |ItemsFor([p], h)|
    ensures PushSingle(w, s, p).data.At(h) == StoreFold(s.data.At(h), ItemsFor([p], h), fs)
    ensures Observe(e, h, y) == ReplayFold(y, fs)
  {
    assert [p][1..] == [];
    if fs != [] {
      assert fs[..0] == [];
    }
  }

  lemma {:induction false} PushSinglesMet(w: SyncWorld, s: Pass, items: seq<PushItem>, h: string, x: Slot)
    returns (fs: seq<Fate>)
    ensures Met(h, x, s, ItemsFor(items, h), fs, PushSingles(w, s, items)) && |fs| == |ItemsFor(items, h)|
    decreases items
  {
    if items == [] {
      fs := [];
      MetNothing(h, x, s, []);
    } else {
      var s1 := PushSingle(w, s, items[0]);
      var f := PushSingleMet(w, s, items[0], h, x);
      var rest := PushSinglesMet(w, s1, items[1..], h, x);
      fs := f + rest;
      assert items == [items[0]] + items[1..];
      ItemsForAppend([items[0]], items[1..], h);
      MetTwice(h, x, s, ItemsFor([items[0]], h), f, s1, ItemsFor(items[1..], h), rest, PushSingles(w, s, items));
    }
  }

  /** Between two slots the items met these fates. */
  ghost predicate Folded(y: Slot, mine: seq<PushItem>, fs: seq<Fate>, z: Slot) {
    |fs| == |mine| && z == StoreFold(y, mine, fs) && SamePcts(mine, fs)
  }

  lemma FoldedCons(y: Slot, p: PushItem, f: Fate, mine: seq<PushItem>, fs: seq<Fate>, z: Slot)
    requires Folded(StoreStep(y, p, f), mine, fs, z) && (f.Acked? ==> f.pct == p.pct)
    ensures Folded(y, [p] + mine, [f] + fs, z)
  {
    StoreFoldAppend(y, [p], mine, [f], fs);
    assert [f][..0] == [];
    SamePctsAppend([p], [f], mine, fs);
  }

  lemma AckHeadMet(w: SyncWorld, s: Pass, items: seq<PushItem>, refused: seq<string>, h: string, rest: seq<Fate>,
                   fates: seq<Fate>, z: Slot)
    requires items != []
    requires Folded(AckItem(w, s, items[0], refused).data.At(h), ItemsFor(items[1..], h), rest, z)
    requires fates == if items[0].hash != h then rest
                      else [if h in refused then Refused(w.clock(s.ticks))
                            else Acked(items[0].pct, w.clock(s.ticks))] + rest
    ensures Folded(s.data.At(h), ItemsFor(items, h), fates, z)
  {
    if items[0].hash == h {
      var f := if h in refused then Refused(w.clock(s.ticks)) else Acked(items[0].pct, w.clock(s.ticks));
      AckItemFate(w, s, items[0], refused);
      FoldedCons(s.data.At(h), items[0], f, ItemsFor(items[1..], h), rest, z);
    } else {
      OtherSlotKept(w, s, items[0], refused, h);
    }
  }

  lemma NoItemsMet(w: SyncWorld, s: Pass, refused: seq<string>, h: string)
    ensures Folded(s.data.At(h), ItemsFor([], h), AnswerFates(ToSents([]), refused, Times(w, s.ticks, 0), h),
                   AckItems(w, s, [], refused).data.At(h))
  {
  }

  /** The fates and the slot are those of the bulk answer. */
  ghost predicate OfAnswer(w: SyncWorld, s: Pass, items: seq<PushItem>, refused: seq<string>, h: string,
                           fates: seq<Fate>, z: Slot)
  {
    fates == AnswerFates(ToSents(items), refused, Times(w, s.ticks, |items|), h)
    && z == AckItems(w, s, items, refused).data.At(h)
  }

  lemma AnswerOfRest(w: SyncWorld, s: Pass, items: seq<PushItem>, refused: seq<string>, h: string, fates: seq<Fate>,
                     z: Slot) returns (rest: seq<Fate>)
    requires items != [] && OfAnswer(w, s, items, refused, h, fates, z)
    ensures OfAnswer(w, AckItem(w, s, items[0], refused), items[1..], refused, h, rest, z)
    ensures fates == if items[0].hash != h then rest
                     else [if h in refused then Refused(w.clock(s.ticks))
                           else Acked(items[0].pct, w.clock(s.ticks))] + rest
  {
    AckItemsCons(w, s, items, refused);
    AnswerFatesCons(w, s.ticks, items, refused, h);
    rest := AnswerFates(ToSents(items[1..]), refused, Times(w, s.ticks + 1, |items| - 1), h);
  }

  /** Applying a bulk answer item by item is what its fates say. */
  lemma {:induction false} AckItemsMet(w: SyncWorld, s: Pass, items: seq<PushItem>, refused: seq<string>, h: string,
                                       fates: seq<Fate>, z: Slot)
    requires OfAnswer(w, s, items, refused, h, fates, z)
    ensures Folded(s.data.At(h), ItemsFor(items, h), fates, z)
    decreases items
  {
    if items == [] {
      NoItemsMet(w, s, refused, h);
    } else {
      var rest := AnswerOfRest(w, s, items, refused, h, fates, z);
      AckItemsMet(w, AckItem(w, s, items[0], refused), items[1..], refused, h, rest, z);
      AckHeadMet(w, s, items, refused, h, rest, fates, z);
    }
  }

  lemma OtherSlotKept(w: SyncWorld, s: Pass, p: PushItem, refused: seq<string>, h: string)
    requires p.hash != h
    ensures AckItem(w, s, p, refused).data.At(h) == s.data.At(h)
  {
  }

  lemma AckItemsCons(w: SyncWorld, s: Pass, items: seq<PushItem>, refused: seq<string>)
    requires items != []
    ensures AckItems(w, s, items, refused) == AckItems(w, AckItem(w, s, items[0], refused), items[1..], refused)
    ensures AckItem(w, s, items[0], refused).ticks == s.ticks + 1
  {
  }

  lemma AnswerFatesCons(w: SyncWorld, tick: nat, items: seq<PushItem>, refused: seq<string>, h: string)
    requires items != []
    ensures var rest := AnswerFates(ToSents(items[1..]), refused, Times(w, tick + 1, |items| - 1), h);
            AnswerFates(ToSents(items), refused, Times(w, tick, |items|), h) ==
            if items[0].hash != h then rest
            else [if h in refused then Refused(w.clock(tick)) else Acked(items[0].pct, w.clock(tick))] + rest
  {
    assert Times(w, tick, |items|) == [w.clock(tick)] + Times(w, tick + 1, |items| - 1);
    assert ToSents(items) == [items[0].ToSent()] + ToSents(items[1..]);
  }

  lemma AckItemFate(w: SyncWorld, s: Pass, p: PushItem, refused: seq<string>)
    ensures AckItem(w, s, p, refused).data.At(p.hash) ==
            StoreStep(s.data.At(p.hash), p, if p.hash in refused then Refused(w.clock(s.ticks))
                      else Acked(p.pct, w.clock(s.ticks)))
  {
  }

  lemma {:induction false} ObservedFates(items: seq<Sent>, refused: seq<string>, times: seq<int>, h: string, x: Slot)
    ensures ObserveItems(items, refused, times, h, x) == ReplayFold(x, AnswerFates(items, refused, times, h))
    decreases items
  {
    if items != [] && times != [] {
      var x1 := ObserveItem(items[0], refused, times[0], h, x);
      ObservedFates(items[1..], refused, times[1..], h, x1);
      if items[0].hash == h {
        var f := if h in refused then Refused(times[0]) else Acked(items[0].pct, times[0]);
        ReplayFoldAppend(x, [f], AnswerFates(items[1..], refused, times[1..], h));
        assert [f][..0] == [];
        assert ReplayFold(x, [f]) == ReplayStep(x, f) == x1;
      } else {
        assert AnswerFates(items, refused, times, h) == AnswerFates(items[1..], refused, times[1..], h);
      }
    }
  }

  lemma {:induction false} MissedMet(items: seq<PushItem>, h: string)
    ensures |MissedFates(ToSents(items), h)| == |ItemsFor(items, h)|
    ensures forall f :: f in MissedFates(ToSents(items), h) ==> f.Missed?
  {
    if items != [] {
      assert ToSents(items) == [items[0].ToSent()] + ToSents(items[1..]);
      MissedMet(items[1..], h);
    }
  }

  lemma {:induction false} MissedFolds(x: Slot, y: Slot, items: seq<PushItem>, fs: seq<Fate>)
    requires |fs| <= |items| && forall f :: f in fs ==> f.Missed?
    ensures StoreFold(x, items, fs) == x && ReplayFold(y, fs) == y
  {
    if fs != [] {
      MissedFolds(x, y, items, fs[..|fs| - 1]);
      assert fs[|fs| - 1] in fs;
    }
  }

  /** A bulk call, whatever its answer, before anything is done about it. */
  lemma CalledSnocs(w: SyncWorld, s: Pass, chunk: seq<PushItem>, h: string, x: Slot)
    ensures var s1 := Called(w, s, chunk);
            var e := s1.trace[|s.trace|];
            && Replay(x, s1.trace, h) == Observe(e, h, Replay(x, s.trace, h))
            && FatesIn(s1.trace, h) == FatesIn(s.trace, h) + EventFates(e, h)
            && MatchesIn(s1.trace, h) == MatchesIn(s.trace, h)
  {
    var s1 := Called(w, s, chunk);
    var e := s1.trace[|s.trace|];
    ReplaySnoc(x, s.trace, e, h);
    FatesSnoc(s.trace, e, h);
    MatchesSnoc(s.trace, e, h);
  }

  lemma BulkOkMet(w: SyncWorld, s: Pass, chunk: seq<PushItem>, h: string, x: Slot) returns (fs: seq<Fate>)
    requires !s.bulkUnsupported && w.bulk(|s.trace|).Ok?
    ensures Met(h, x, s, ItemsFor(chunk, h), fs, PushChunk(w, s, chunk)) && |fs| == |ItemsFor(chunk, h)|
  {
    var refused := w.bulk(|s.trace|).value;
    var s1 := Called(w, s, chunk);
    CalledSnocs(w, s, chunk, h, x);
    fs := AnswerFates(ToSents(chunk), refused, Times(w, s.ticks, |chunk|), h);
    AckItemsFrame(w, s1, chunk, refused);
    AckItemsMet(w, s1, chunk, refused, h, fs, AckItems(w, s1, chunk, refused).data.At(h));
    ObservedFates(ToSents(chunk), refused, Times(w, s.ticks, |chunk|), h, Replay(x, s.trace, h));
  }

  lemma BulkErrShape(w: SyncWorld, s: Pass, chunk: seq<PushItem>)
    requires !s.bulkUnsupported && w.bulk(|s.trace|).Err? && !w.bulk(|s.trace|).error.UnsupportedEndpoint?
    ensures PushChunk(w, s, chunk).data == s.data && PushChunk(w, s, chunk).trace == Called(w, s, chunk).trace
  {
  }

  lemma BulkErrMet(w: SyncWorld, s: Pass, chunk: seq<PushItem>, h: string, x: Slot) returns (fs: seq<Fate>)
    requires !s.bulkUnsupported && w.bulk(|s.trace|).Err? && !w.bulk(|s.trace|).error.UnsupportedEndpoint?
    ensures Met(h, x, s, ItemsFor(chunk, h), fs, PushChunk(w, s, chunk)) && |fs| == |ItemsFor(chunk, h)|
  {
    BulkErrShape(w, s, chunk);
    CalledSnocs(w, s, chunk, h, x);
    fs := MissedFates(ToSents(chunk), h);
    MissedMet(chunk, h);
    MissedPcts(ItemsFor(chunk, h), fs);
    MissedFolds(s.data.At(h), Replay(x, s.trace, h), ItemsFor(chunk, h), fs);
  }

  lemma PushChunkMet(w: SyncWorld, s: Pass, chunk: seq<PushItem>, h: string, x: Slot) returns (fs: seq<Fate>)
    ensures Met(h, x, s, ItemsFor(chunk, h), fs, PushChunk(w, s, chunk)) && |fs| == |ItemsFor(chunk, h)|
  {
    if s.bulkUnsupported {
      fs := PushSinglesMet(w, s, chunk, h, x);
    } else if w.bulk(|s.trace|).Ok? {
      fs := BulkOkMet(w, s, chunk, h, x);
    } else if !w.bulk(|s.trace|).error.UnsupportedEndpoint? {
      fs := BulkErrMet(w, s, chunk, h, x);
    } else {
      var s1 := Called(w, s, chunk).(bulkUnsupported := true);
      CalledSnocs(w, s, chunk, h, x);
      fs := PushSinglesMet(w, s1, chunk, h, x);
      MetNothing(h, x, s, []);
      assert Met(h, x, s, [], [], s1);
      MetTwice(h, x, s, [], [], s1, ItemsFor(chunk, h), fs, PushChunk(w, s, chunk));
      assert [] + fs == fs && [] + ItemsFor(chunk, h) == ItemsFor(chunk, h);
    }
  }

  lemma ItemsForSplit(items: seq<PushItem>, k: nat, h: string)
    requires k <= |items|
    ensures ItemsFor(items, h) == ItemsFor(items[..k], h) + ItemsFor(items[k..], h)
  {
    assert items == items[..k] + items[k..];
    ItemsForAppend(items[..k], items[k..], h);
  }

  lemma {:induction false} PushPhaseMet(w: SyncWorld, cfg: Config, s: Pass, items: seq<PushItem>, h: string, x: Slot)
    returns (fs: seq<Fate>)
    ensures Met(h, x, s, ItemsFor(items, h), fs, PushPhase(w, cfg, s, items))
    decreases |items|
  {
    if items == [] || s.fatal {
      fs := [];
      MetNothing(h, x, s, ItemsFor(items, h));
    } else {
      var k := ChunkLength(|items|, cfg.progressBatchSize);
      var chunk, rest := items[..k], items[k..];
      var s1 := PushChunk(w, s, chunk);
      var f := PushChunkMet(w, s, chunk, h, x);
      var more := PushPhaseMet(w, cfg, s1, rest, h, x);
      ItemsForSplit(items, k, h);
      fs := f + more;
      MetTwice(h, x, s, ItemsFor(chunk, h), f, s1, ItemsFor(rest, h), more, PushPhase(w, cfg, s, items));
    }
  }

  /******* When the two agree *******/

  predicate SameBook(m: Match, n: Match) { m.bookFileId == n.bookFileId && m.bookId == n.bookId }

  predicate NoRefusal(fs: seq<Fate>) { forall f :: f in fs ==> !f.Refused? }

  /** The last copy that was answered at all was refused, or it names the book listed last and no copy was refused
      before it. A hash that is matched once, or always with the same ids and in one request, satisfies it. */
  predicate OneVoice(ms: seq<Match>, fs: seq<Fate>) {
    fs == [] ||
    match fs[|fs| - 1]
    case Missed => OneVoice(ms, fs[..|fs| - 1])
    case Refused(_) => true
    case Acked(_, _) =>
      ms == [] || (|fs| <= |ms| && SameBook(ms[|fs| - 1], ms[|ms| - 1]) && NoRefusal(fs[..|fs| - 1]))
  }

  /** Two slots that no status call can bring together: only one has a record, or the records are of different books. */
  predicate Apart(x: Slot, y: Slot) {
    x.rec.Some? != y.rec.Some? ||
    (x.rec.Some? && !(x.rec.value.bookFileId == y.rec.value.bookFileId && x.rec.value.bookId == y.rec.value.bookId))
  }

  /** What the reference can be after some copies of a new record were pushed. */
  predicate NewPushed(m: Match, x: Slot, fs: seq<Fate>) {
    && (x.rec.Some? <==> NoRefusal(fs))
    && (x.rec.Some? ==> x.rec.value == Pushed(RecordOf(m), x.rec.value.lastPushedPct, x.rec.value.lastPushedAt))
  }

  lemma RefusalSnoc(fs: seq<Fate>)
    requires fs != []
    ensures NoRefusal(fs) <==> NoRefusal(fs[..|fs| - 1]) && !fs[|fs| - 1].Refused?
  {
    assert fs == fs[..|fs| - 1] + [fs[|fs| - 1]];
  }

  lemma {:induction false} CopiesAgree(ms: seq<Match>, mine: seq<PushItem>, fs: seq<Fate>)
    requires ms != [] && CopiesQueued(ms, mine) && |fs| <= |mine|
    requires SamePcts(mine, fs)
    ensures var start := Slot(Some(RecordOf(ms[|ms| - 1])), None);
            var y, x := StoreFold(start, mine, fs), ReplayFold(start, fs);
            && y.unmatched == x.unmatched && NewPushed(ms[|ms| - 1], x, fs)
            && (CoreSlot(y) == x <==> OneVoice(ms, fs))
            && (CoreSlot(y) != x ==> Apart(CoreSlot(y), x))
  {
    if fs != [] {
      var front, f := fs[..|fs| - 1], fs[|fs| - 1];
      CopiesAgree(ms, mine, front);
      RefusalSnoc(fs);
    }
  }

  /** A record that was there before is queued once, so nothing can part. */
  lemma OneItemAgrees(y0: Slot, p: PushItem, fs: seq<Fate>)
    requires y0.rec == Some(p.rec) && |fs| <= 1
    requires SamePcts([p], fs)
    ensures CoreSlot(StoreFold(y0, [p], fs)) == ReplayFold(CoreSlot(y0), fs)
    ensures OneVoice([], fs)
  {
    if fs != [] {
      assert fs[..0] == [];
    }
  }
}
