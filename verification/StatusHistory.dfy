/** The status side of the match cache is the fold of the traffic, whatever the answers about a hash were: it needs no
    agreement between them. */
module StatusHistory {
  import opened Wrappers
  import opened Readest
  import opened State
  import opened SyncPass
  import opened Projection
  import opened Phases
  import opened StatusChannel
  import opened Settlement
  import opened Traffic
  import opened NoLostUpdate
  import opened History
  import opened Fates
  import opened Bookkeeping

  /** The token the store remembers for a hash, if it has a record. */
  function StatusSlot(x: Slot): Option<string> {
    if x.rec.Some? then Some(x.rec.value.lastPushedStatus) else None
  }

  function Kept(v: Option<string>): Option<string> { if v.Some? then v else Some("") }

  function ItemsStatus(items: seq<Sent>, refused: seq<string>, h: string, v: Option<string>): Option<string> {
    if items == [] then v
    else
      ItemsStatus(items[1..], refused, h, if items[0].hash != h then v else if h in refused then None else Kept(v))
  }

  /** A match makes a record without a token, an acknowledged push keeps or restores one, a status push sets it. */
  ghost function StatusAfter(e: Event, h: string, v: Option<string>): Option<string> {
    match e
    case Pulled(rows) => if Deletes(rows, h) then None else v
    case MatchCheck(hashes, found, _) =>
      if found.Err? then v
      else if LeavesUnmatched(hashes, found.value, h) then None
      else if MatchFor(found.value.matches, h).Some? then Some("")
      else v
    case Bulk(items, refused, _) => if refused.Err? then v else ItemsStatus(items, refused.value, h, v)
    case Update(item, done, _) => if done.Ok? && item.hash == h then Kept(v) else v
    case SetStatus(hash, _, token, done, _) =>
      if hash != h then v
      else if done.Ok? then (if v.Some? then Some(token) else v)
      else if done.error.BookGone? then None
      else v
  }

  ghost function StatusReplay(v: Option<string>, events: seq<Event>, h: string): Option<string> {
    if events == [] then v
    else StatusAfter(events[|events| - 1], h, StatusReplay(v, events[..|events| - 1], h))
  }

  lemma StatusSnoc(v: Option<string>, events: seq<Event>, e: Event, h: string)
    ensures StatusReplay(v, events + [e], h) == StatusAfter(e, h, StatusReplay(v, events, h))
  {
    assert (events + [e])[..|events|] == events;
  }

  lemma {:induction false} StatusAppend(v: Option<string>, a: seq<Event>, b: seq<Event>, h: string)
    ensures StatusReplay(v, a + b, h) == StatusReplay(StatusReplay(v, a, h), b, h)
  {
    if b == [] {
      assert a + b == a;
    } else {
      assert (a + b)[..|a + b| - 1] == a + b[..|b| - 1];
      StatusAppend(v, a, b[..|b| - 1], h);
    }
  }

  /** A token goes out only for a record that remembers another one, and a hash is asked about only without a record. */
  predicate StatusJustified(e: Event, h: string, v: Option<string>) {
    match e
    case SetStatus(hash, _, token, _, _) =>
      hash == h ==> v.Some? && v.value != token && (token == "read" || token == "abandoned")
    case MatchCheck(hashes, _, _) => h in hashes ==> v.None?
    case _ => true
  }

  ghost predicate AllStatusJustified(h: string, v: Option<string>, trace: seq<Event>) {
    forall i :: 0 <= i < |trace| ==> StatusJustified(trace[i], h, StatusReplay(v, trace[..i], h))
  }

  ghost predicate StatusFollows(h: string, v: Option<string>, trace: seq<Event>, d: Data) {
    StatusReplay(v, trace, h) == StatusSlot(d.At(h)) && AllStatusJustified(h, v, trace)
  }

  lemma StatusFollowsSnoc(h: string, v: Option<string>, trace: seq<Event>, d: Data, e: Event, d': Data)
    requires StatusFollows(h, v, trace, d) && StatusJustified(e, h, StatusSlot(d.At(h)))
    requires StatusAfter(e, h, StatusSlot(d.At(h))) == StatusSlot(d'.At(h))
    ensures StatusFollows(h, v, trace + [e], d')
  {
    StatusSnoc(v, trace, e, h);
    forall i | 0 <= i < |trace + [e]|
      ensures StatusJustified((trace + [e])[i], h, StatusReplay(v, (trace + [e])[..i], h))
    {
      if i < |trace| {
        assert (trace + [e])[..i] == trace[..i];
      } else {
        assert (trace + [e])[..i] == trace;
      }
    }
  }

  lemma StatusJustifiedAppend(h: string, v: Option<string>, a: seq<Event>, b: seq<Event>)
    requires AllStatusJustified(h, v, a) && AllStatusJustified(h, StatusReplay(v, a, h), b)
    ensures AllStatusJustified(h, v, a + b)
  {
    forall i | 0 <= i < |a + b| ensures StatusJustified((a + b)[i], h, StatusReplay(v, (a + b)[..i], h)) {
      if i < |a| {
        assert (a + b)[..i] == a[..i];
      } else {
        assert (a + b)[..i] == a + b[..i - |a|];
        StatusAppend(v, a, b[..i - |a|], h);
      }
    }
  }

  /******* Up to the progress phase *******/

  lemma EventStatus(e: Event, h: string, x: Slot)
    requires !IsPush(e)
    ensures StatusSlot(Observe(e, h, x)) == StatusAfter(e, h, StatusSlot(x))
  {
  }

  lemma {:induction false} QuietStatus(trace: seq<Event>, h: string, x: Slot)
    requires forall e :: e in trace ==> !IsPush(e)
    ensures StatusReplay(StatusSlot(x), trace, h) == StatusSlot(Replay(x, trace, h))
  {
    if trace != [] {
      var front, e := trace[..|trace| - 1], trace[|trace| - 1];
      assert e in trace;
      QuietStatus(front, h, x);
      EventStatus(e, h, Replay(x, front, h));
    }
  }

  lemma QuietJustified(a: seq<Event>, h: string, x: Slot)
    requires (forall e :: e in a ==> !IsPush(e)) && AllJustified(h, x, a)
    ensures AllStatusJustified(h, StatusSlot(x), a)
  {
    forall i | 0 <= i < |a| ensures StatusJustified(a[i], h, StatusReplay(StatusSlot(x), a[..i], h)) {
      assert forall e :: e in a[..i] ==> e in a;
      QuietStatus(a[..i], h, x);
      assert Justified(a[i], h, Replay(x, a[..i], h));
    }
  }

  lemma PushesJustifyStatus(a: Pass, b: Pass, h: string, v: Option<string>)
    requires AllStatusJustified(h, v, a.trace) && AddsPushes(a, b)
    ensures AllStatusJustified(h, v, b.trace)
  {
    forall i | 0 <= i < |b.trace| ensures StatusJustified(b.trace[i], h, StatusReplay(v, b.trace[..i], h)) {
      if i < |a.trace| {
        assert b.trace[..i] == a.trace[..i] && b.trace[i] == a.trace[i];
      } else {
        assert IsPush(b.trace[i]);
      }
    }
  }

  /******* The progress phase *******/

  function StatusFold(v: Option<string>, fs: seq<Fate>): Option<string> {
    if fs == [] then v
    else
      var u := StatusFold(v, fs[..|fs| - 1]);
      match fs[|fs| - 1] case Acked(_, _) => Kept(u) case Refused(_) => None case Missed => u
  }

  lemma {:induction false} StatusFoldAppend(v: Option<string>, fs: seq<Fate>, gs: seq<Fate>)
    ensures StatusFold(v, fs + gs) == StatusFold(StatusFold(v, fs), gs)
  {
    if gs == [] {
      assert fs + gs == fs;
    } else {
      assert (fs + gs)[..|fs + gs| - 1] == fs + gs[..|gs| - 1];
      StatusFoldAppend(v, fs, gs[..|gs| - 1]);
    }
  }

  lemma OneFate(v: Option<string>, f: Fate)
    ensures StatusFold(v, [f]) == match f case Acked(_, _) => Kept(v) case Refused(_) => None case Missed => v
  {
    assert [f][..0] == [];
  }

  lemma {:induction false} ItemsStatusFold(items: seq<Sent>, refused: seq<string>, times: seq<int>, h: string,
                                           v: Option<string>)
    requires |times| == |items|
    ensures ItemsStatus(items, refused, h, v) == StatusFold(v, AnswerFates(items, refused, times, h))
    decreases items
  {
    if items != [] {
      var rest := AnswerFates(items[1..], refused, times[1..], h);
      if items[0].hash == h {
        var f := if h in refused then Refused(times[0]) else Acked(items[0].pct, times[0]);
        ItemsStatusFold(items[1..], refused, times[1..], h, if h in refused then None else Kept(v));
        OneFate(v, f);
        StatusFoldAppend(v, [f], rest);
      } else {
        ItemsStatusFold(items[1..], refused, times[1..], h, v);
        assert AnswerFates(items, refused, times, h) == rest;
      }
    }
  }

  lemma {:induction false} MissedStatus(v: Option<string>, items: seq<Sent>, h: string)
    ensures StatusFold(v, MissedFates(items, h)) == v
  {
    if items != [] {
      MissedStatus(v, items[1..], h);
      if items[0].hash == h {
        OneFate(v, Missed);
        StatusFoldAppend(v, [Missed], MissedFates(items[1..], h));
      } else {
        assert MissedFates(items, h) == MissedFates(items[1..], h);
      }
    }
  }

  lemma PushEventStatus(e: Event, h: string, v: Option<string>)
    requires IsPush(e) && Timed(e)
    ensures StatusAfter(e, h, v) == StatusFold(v, EventFates(e, h))
  {
    match e
    case Bulk(items, refused, times) =>
      if refused.Ok? {
        ItemsStatusFold(items, refused.value, times, h, v);
      } else {
        MissedStatus(v, items, h);
      }
    case Update(item, done, time) =>
      if item.hash == h {
        OneFate(v, if done.Ok? then Acked(item.pct, time) else Missed);
      }
  }

  /** The token in the store after some fates of queued copies. */
  lemma {:induction false} StoreStatus(h: string, ms: seq<Match>, y: Slot, mine: seq<PushItem>, fs: seq<Fate>)
    requires Queued(h, ms, y, mine) && |fs| <= |mine|
    ensures StatusSlot(StoreFold(y, mine, fs)) == StatusFold(StatusSlot(y), fs)
    ensures ms != [] ==> StatusSlot(StoreFold(y, mine, fs)) == None || StatusSlot(StoreFold(y, mine, fs)) == Some("")
  {
    if fs != [] {
      StoreStatus(h, ms, y, mine, fs[..|fs| - 1]);
    }
  }

  lemma {:induction false} StretchStatus(a: seq<Event>, b: seq<Event>, h: string, v: Option<string>)
    returns (fs: seq<Fate>)
    requires a <= b && forall i :: |a| <= i < |b| ==> IsPush(b[i]) && Timed(b[i])
    ensures FatesIn(b, h) == FatesIn(a, h) + fs
    ensures StatusReplay(v, b, h) == StatusFold(StatusReplay(v, a, h), fs)
    decreases |b|
  {
    if a == b {
      fs := [];
    } else {
      var front, e := b[..|b| - 1], b[|b| - 1];
      var f := StretchStatus(a, front, h, v);
      fs := f + EventFates(e, h);
      assert IsPush(e) && Timed(e);
      PushEventStatus(e, h, StatusReplay(v, front, h));
      StatusFoldAppend(StatusReplay(v, a, h), f, EventFates(e, h));
      Regroup(FatesIn(a, h), f, EventFates(e, h));
    }
  }

  lemma BeforeStatusFollows(w: World, cfg: Config, latch: bool, d: Data, rows: seq<BookRow>, h: string)
    requires Distinct(Hashes(rows)) && HonestPass(w, cfg, latch, d, rows)
    ensures var s := Before(w, cfg, latch, d, rows); StatusFollows(h, StatusSlot(d.At(h)), s.trace, s.data)
  {
    var s1 := PushStart(w, cfg, latch, d, rows, h);
    var s2 := Before(w, cfg, latch, d, rows);
    PushesKeepStatus(w.sync, cfg, s1, h, CoreSlot(d.At(h)));
    QuietJustified(s1.trace, h, CoreSlot(d.At(h)));
    PushPhaseAddsPushes(w.sync, cfg, s1, s1.toPush);
    PushesJustifyStatus(s1, s2, h, StatusSlot(d.At(h)));
  }

  lemma PushesKeepStatus(w: SyncWorld, cfg: Config, s1: Pass, h: string, x: Slot)
    requires QueuedIn(h, s1) && Tracks(h, x, s1.trace, s1.data) && forall e :: e in s1.trace ==> !IsPush(e)
    ensures var s2 := AfterPush(w, cfg, s1); StatusReplay(StatusSlot(x), s2.trace, h) == StatusSlot(s2.data.At(h))
  {
    QuietStatus(s1.trace, h, x);
    PushPhaseAddsPushes(w, cfg, s1, s1.toPush);
    var fs := PushFates(w, cfg, s1, h, x);
    FoldedStatus(s1, AfterPush(w, cfg, s1), h, StatusSlot(x), fs);
  }

  lemma FoldedStatus(a: Pass, b: Pass, h: string, v: Option<string>, fs: seq<Fate>)
    requires QueuedIn(h, a) && StatusReplay(v, a.trace, h) == StatusSlot(a.data.At(h)) && AddsPushes(a, b)
    requires |fs| <= |ItemsFor(a.toPush, h)| && b.data.At(h) == StoreFold(a.data.At(h), ItemsFor(a.toPush, h), fs)
    requires FatesIn(b.trace, h) == FatesIn(a.trace, h) + fs
    ensures StatusReplay(v, b.trace, h) == StatusSlot(b.data.At(h))
  {
    var gs := StretchStatus(a.trace, b.trace, h, v);
    Cancel(FatesIn(a.trace, h), fs, gs);
    StoreStatus(h, MatchesIn(a.trace, h), a.data.At(h), ItemsFor(a.toPush, h), fs);
  }

  lemma Cancel<T>(a: seq<T>, b: seq<T>, c: seq<T>)
    requires a + b == a + c
    ensures b == c
  {
    assert (a + b)[|a|..] == b && (a + c)[|a|..] == c;
  }

  lemma PushFates(w: SyncWorld, cfg: Config, s1: Pass, h: string, x: Slot) returns (fs: seq<Fate>)
    ensures var s2 := AfterPush(w, cfg, s1);
            && |fs| <= |ItemsFor(s1.toPush, h)|
            && s2.data.At(h) == StoreFold(s1.data.At(h), ItemsFor(s1.toPush, h), fs)
            && FatesIn(s2.trace, h) == FatesIn(s1.trace, h) + fs
  {
    fs := PushPhaseMet(w, cfg, s1, s1.toPush, h, x);
  }

  /******* The status phase *******/

  lemma StatusRowFollows(w: World, now: int, s: Pass, row: BookRow, h: string, v: Option<string>)
    requires StatusFollows(h, v, s.trace, s.data)
    ensures StatusFollows(h, v, StatusRow(w, now, s, row).trace, StatusRow(w, now, s, row).data)
  {
    StatusRowCases(w, now, s, row);
    if Tracked(s, row) {
      var rec := s.data.matches[row.hash];
      var act := StatusDecision(rec, row.readingStatus);
      ActTraffic(w, now, s, row, rec, act);
      if act.Send? {
        var e := StatusCall(w, now, s, row, rec, act.token);
        StatusCallObserved(w, now, s, row, act, h);
        EventStatus(e, h, CoreSlot(s.data.At(h)));
        StatusCallJustified(s, row, e, h);
        StatusFollowsSnoc(h, v, s.trace, s.data, e, StatusRow(w, now, s, row).data);
      } else {
        SilentStatus(w, now, s, row, act, h);
      }
    }
  }

  lemma {:induction false} StatusPhaseFollows(w: World, now: int, s: Pass, rows: seq<BookRow>, h: string,
                                              v: Option<string>)
    requires StatusFollows(h, v, s.trace, s.data)
    ensures StatusFollows(h, v, StatusPhase(w, now, s, rows).trace, StatusPhase(w, now, s, rows).data)
    decreases rows
  {
    if rows != [] && !s.fatal {
      StatusRowFollows(w, now, s, rows[0], h, v);
      StatusPhaseFollows(w, now, StatusRow(w, now, s, rows[0]), rows[1..], h, v);
    }
  }

  /** After any pass, whatever failed and whatever was answered, the token the store remembers for a hash is the fold of
      the traffic, and every status call was made for a record that remembered another token. */
  lemma StatusIsReplay(w: World, cfg: Config, latch: bool, d: Data, rows: seq<BookRow>, h: string)
    requires Distinct(Hashes(rows)) && HonestPass(w, cfg, latch, d, rows)
    ensures var t := RunPass(w, cfg, latch, d, rows); StatusFollows(h, StatusSlot(d.At(h)), t.trace, t.data)
  {
    var s := Before(w, cfg, latch, d, rows);
    BeforeStatusFollows(w, cfg, latch, d, rows, h);
    CursorAside(w, cfg, latch, d, rows, h);
    if cfg.syncStatus {
      StatusPhaseFollows(w, w.sync.clock(0), s, rows, h, StatusSlot(d.At(h)));
    }
  }
}
