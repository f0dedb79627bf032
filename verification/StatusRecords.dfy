/** What the status phase leaves of a matched record, field by field. */
module StatusRecords {
  import opened Wrappers
  import opened Errors
  import opened Readest
  import opened State
  import opened SyncPass
  import opened Projection
  import opened StatusChannel
  import opened Settlement
  import opened Cursor
  import opened Bookkeeping
  import opened Sending
  import opened Forgotten

  /** The statuses that are noted and never sent. */
  predicate Undecided(status: string) { status in ["", "reading", "unread"] }

  /** A status as it is noted: with the time of the pass, unless it was noted before. */
  function Noted(rec: MatchRecord, status: string, now: int): MatchRecord {
    if rec.lastSeenStatus == status then rec
    else
      MatchRecord(rec.bookFileId, rec.bookId, rec.lastPushedAt, rec.lastPushedPct, status, now, rec.lastPushedStatus,
                  rec.lastPushedStatusAt)
  }

  /** A status as it is recorded once it has been accepted. */
  function Accepted(rec: MatchRecord, status: string, token: string, now: int): MatchRecord {
    MatchRecord(rec.bookFileId, rec.bookId, rec.lastPushedAt, rec.lastPushedPct, status, now, token, now)
  }

  /** The slot after an answer to a call about the record. */
  function AfterAnswer(x: Slot, rec: MatchRecord, status: string, token: string, done: Result<(), BookOrbitError>,
                       now: int): Slot
  {
    match done
    case Ok(_) => Slot(Some(Accepted(rec, status, token, now)), x.unmatched)
    case Err(BookGone) => Slot(None, Some(now))
    case Err(_) => x
  }

  ghost predicate CalledAnd(trace: seq<Event>, x: Slot, rec: MatchRecord, status: string, token: string, h: string,
                            now: int, y: Slot)
  {
    exists done :: SetStatus(h, rec.bookId, token, done, now) in trace
      && y == AfterAnswer(x, rec, status, token, done, now)
  }

  /** How slot x of a row's hash, which holds a record, becomes slot y. */
  ghost predicate Recorded(trace: seq<Event>, r: BookRow, now: int, x: Slot, y: Slot)
    requires x.rec.Some?
  {
    var rec, status := x.rec.value, r.readingStatus;
    && (Undecided(status) ==> y == Slot(Some(Noted(rec, status, now)), x.unmatched))
    && (forall token :: Means(status, token) && rec.lastPushedStatus == token ==>
          y == Slot(Some(Noted(rec, status, now)), x.unmatched))
    && (forall token :: Means(status, token) && rec.lastPushedStatus != token ==>
          CalledAnd(trace, x, rec, status, token, r.hash, now, y))
    && (!Undecided(status) && status != "finished" && status != "abandoned" ==> y == x)
  }

  lemma RecordedLater(a: seq<Event>, b: seq<Event>, r: BookRow, now: int, x: Slot, y: Slot)
    requires x.rec.Some? && Recorded(a, r, now, x, y) && a <= b
    ensures Recorded(b, r, now, x, y)
  {
    var rec := x.rec.value;
    forall token | Means(r.readingStatus, token) && rec.lastPushedStatus != token
      ensures CalledAnd(b, x, rec, r.readingStatus, token, r.hash, now, y)
    {
      var done :| SetStatus(r.hash, rec.bookId, token, done, now) in a
                  && y == AfterAnswer(x, rec, r.readingStatus, token, done, now);
      var e := SetStatus(r.hash, rec.bookId, token, done, now);
      var i :| 0 <= i < |a| && a[i] == e;
      assert b[i] == e;
    }
  }

  lemma SentRecorded(w: World, now: int, s: Pass, r: BookRow, token: string)
    requires Tracked(s, r) && StatusDecision(s.data.matches[r.hash], r.readingStatus) == Send(token)
    ensures var t := ActOnStatus(w, now, s, r, s.data.matches[r.hash], Send(token));
            CalledAnd(t.trace, s.data.At(r.hash), s.data.matches[r.hash], r.readingStatus, token, r.hash, now,
                      t.data.At(r.hash))
  {
    var rec := s.data.matches[r.hash];
    var done := w.status(|s.trace|);
    ActTraffic(w, now, s, r, rec, Send(token));
    var t := ActOnStatus(w, now, s, r, rec, Send(token));
    assert SetStatus(r.hash, rec.bookId, token, done, now) in t.trace;
    assert t.data.At(r.hash) == AfterAnswer(s.data.At(r.hash), rec, r.readingStatus, token, done, now);
  }

  lemma RowRecorded(w: World, now: int, s: Pass, r: BookRow)
    requires Tracked(s, r)
    ensures var t := StatusRow(w, now, s, r); Recorded(t.trace, r, now, s.data.At(r.hash), t.data.At(r.hash))
  {
    StatusRowCases(w, now, s, r);
    var act := StatusDecision(s.data.matches[r.hash], r.readingStatus);
    if act.Send? {
      SentRecorded(w, now, s, r, act.token);
    }
  }

  lemma {:induction false} PhaseRecorded(w: World, now: int, s: Pass, rows: seq<BookRow>, r: BookRow)
    requires Distinct(Hashes(rows)) && r in rows && Tracked(s, r) && !StatusPhase(w, now, s, rows).fatal
    ensures var t := StatusPhase(w, now, s, rows); Recorded(t.trace, r, now, s.data.At(r.hash), t.data.At(r.hash))
    decreases rows
  {
    var s1, t := StatusRow(w, now, s, rows[0]), StatusPhase(w, now, s, rows);
    HeadOnly(rows);
    if rows[0] == r {
      RowRecorded(w, now, s, r);
      StatusPhaseKeeps(w, now, s1, rows[1..], r.hash);
      StatusPhaseFrame(w, now, s1, rows[1..]);
      RecordedLater(s1.trace, t.trace, r, now, s.data.At(r.hash), t.data.At(r.hash));
    } else {
      TailRow(rows, r);
      StatusRowKeeps(w, now, s, rows[0], r.hash);
      assert s1.data.At(r.hash) == s.data.At(r.hash);
      PhaseRecorded(w, now, s1, rows[1..], r);
    }
  }

  /** In a pass that does not give up, the record of a live pulled row, matched by the time of the status phase, ends
      up like this. A status that is never sent, or whose token was the last one pushed, is noted, and dated if it is
      new. A decisive new one is sent to the record's book at the time of the pass: accepted, it is recorded with its
      token; answered "gone", the record gives way to a cooldown; refused otherwise, nothing changes. Any other status
      leaves no trace, and so does every status when status sync is off. */
  lemma StatusRecordedExactly(w: World, cfg: Config, latch: bool, d: Data, rows: seq<BookRow>, r: BookRow)
    requires Distinct(Hashes(rows)) && r in rows && Live(r) && !RunPass(w, cfg, latch, d, rows).fatal
    requires r.hash in Before(w, cfg, latch, d, rows).data.matches
    ensures var t := RunPass(w, cfg, latch, d, rows);
            var x, y := Before(w, cfg, latch, d, rows).data.At(r.hash), t.data.At(r.hash);
            if cfg.syncStatus then Recorded(t.trace, r, w.sync.clock(0), x, y) else y == x
  {
    CursorAside(w, cfg, latch, d, rows, r.hash);
    if cfg.syncStatus {
      PhaseRecorded(w, w.sync.clock(0), Before(w, cfg, latch, d, rows), rows, r);
    }
  }
}
