/** The status phase seen from one hash: it never touches progress (internal/sync/engine.go:375-501). */
module StatusChannel {
  import opened Wrappers
  import opened Readest
  import opened State
  import opened SyncPass
  import opened Phases

  predicate SameProgress(a: MatchRecord, b: MatchRecord) {
    a.bookFileId == b.bookFileId && a.bookId == b.bookId && a.lastPushedAt == b.lastPushedAt
      && a.lastPushedPct == b.lastPushedPct
  }

  /** All a status step may do to a slot: change status bookkeeping, or drop a book that is gone. */
  predicate StatusKeeps(a: Slot, b: Slot, now: int) {
    || a == b
    || (a.rec.Some? && b.rec.Some? && a.unmatched == b.unmatched && SameProgress(a.rec.value, b.rec.value))
    || (a.rec.Some? && b == Slot(None, Some(now)))
  }

  predicate Tracked(s: Pass, row: BookRow) { !row.IsDummy() && !row.IsDeleted() && row.hash in s.data.matches }

  lemma StatusRowCases(w: World, now: int, s: Pass, row: BookRow)
    ensures Tracked(s, row) ==>
              var rec := s.data.matches[row.hash];
              StatusRow(w, now, s, row) == ActOnStatus(w, now, s, row, rec, StatusDecision(rec, row.readingStatus))
    ensures !Tracked(s, row) ==> StatusRow(w, now, s, row) == s
  {
  }

  lemma ActKeeps(w: World, now: int, s: Pass, row: BookRow, act: StatusAct, h: string)
    requires Tracked(s, row)
    ensures var t := ActOnStatus(w, now, s, row, s.data.matches[row.hash], act);
            StatusKeeps(s.data.At(h), t.data.At(h), now) && (row.hash != h ==> t.data.At(h) == s.data.At(h))
  {
  }

  lemma StatusRowKeeps(w: World, now: int, s: Pass, row: BookRow, h: string)
    ensures StatusKeeps(s.data.At(h), StatusRow(w, now, s, row).data.At(h), now)
    ensures row.hash != h ==> StatusRow(w, now, s, row).data.At(h) == s.data.At(h)
  {
    StatusRowCases(w, now, s, row);
    if Tracked(s, row) {
      ActKeeps(w, now, s, row, StatusDecision(s.data.matches[row.hash], row.readingStatus), h);
    }
  }

  lemma ActFrame(w: World, now: int, s: Pass, row: BookRow, rec: MatchRecord, act: StatusAct)
    ensures var t := ActOnStatus(w, now, s, row, rec, act);
            Grows(s, t) && t.toPush == s.toPush && t.failed == s.failed && t.bulkUnsupported == s.bulkUnsupported
  {
  }

  lemma StatusRowFrame(w: World, now: int, s: Pass, row: BookRow)
    ensures Grows(s, StatusRow(w, now, s, row))
    ensures StatusRow(w, now, s, row).toPush == s.toPush && StatusRow(w, now, s, row).failed == s.failed
    ensures StatusRow(w, now, s, row).bulkUnsupported == s.bulkUnsupported
  {
    StatusRowCases(w, now, s, row);
    if Tracked(s, row) {
      var rec := s.data.matches[row.hash];
      ActFrame(w, now, s, row, rec, StatusDecision(rec, row.readingStatus));
    }
  }

  /** The one call a status step can make. */
  function StatusCall(w: World, now: int, s: Pass, row: BookRow, rec: MatchRecord, token: string): Event {
    SetStatus(row.hash, rec.bookId, token, w.status(|s.trace|), now)
  }

  lemma ActTraffic(w: World, now: int, s: Pass, row: BookRow, rec: MatchRecord, act: StatusAct)
    ensures ActOnStatus(w, now, s, row, rec, act).trace ==
            if act.Send? then s.trace + [StatusCall(w, now, s, row, rec, act.token)] else s.trace
  {
  }

  lemma StatusRowHeard(w: World, now: int, s: Pass, row: BookRow, h: string)
    ensures Answered(StatusRow(w, now, s, row).trace, h) <==> Answered(s.trace, h)
    ensures Found(StatusRow(w, now, s, row).trace, h) <==> Found(s.trace, h)
  {
    StatusRowCases(w, now, s, row);
    if Tracked(s, row) {
      var rec := s.data.matches[row.hash];
      var act := StatusDecision(rec, row.readingStatus);
      ActTraffic(w, now, s, row, rec, act);
      if act.Send? {
        HeardSnoc(s.trace, StatusCall(w, now, s, row, rec, act.token), h);
      }
    }
  }

  /** The status phase leaves the queue, the failed rows, the settling answers and all progress alone. */
  lemma {:induction false} StatusPhaseKeeps(w: World, now: int, s: Pass, rows: seq<BookRow>, h: string)
    ensures var t := StatusPhase(w, now, s, rows);
            && StatusKeeps(s.data.At(h), t.data.At(h), now)
            && (h !in Hashes(rows) ==> t.data.At(h) == s.data.At(h))
            && (Answered(t.trace, h) <==> Answered(s.trace, h))
            && (Found(t.trace, h) <==> Found(s.trace, h))
    decreases rows
  {
    if rows != [] && !s.fatal {
      var s1 := StatusRow(w, now, s, rows[0]);
      StatusRowKeeps(w, now, s, rows[0], h);
      StatusRowHeard(w, now, s, rows[0], h);
      StatusPhaseKeeps(w, now, s1, rows[1..], h);
      assert Hashes(rows) == [rows[0].hash] + Hashes(rows[1..]);
    }
  }

  lemma {:induction false} StatusPhaseFrame(w: World, now: int, s: Pass, rows: seq<BookRow>)
    ensures var t := StatusPhase(w, now, s, rows);
            Grows(s, t) && t.toPush == s.toPush && t.failed == s.failed && t.bulkUnsupported == s.bulkUnsupported
    decreases rows
  {
    if rows != [] && !s.fatal {
      var s1 := StatusRow(w, now, s, rows[0]);
      StatusRowFrame(w, now, s, rows[0]);
      StatusPhaseFrame(w, now, s1, rows[1..]);
      GrowsTransitive(s, s1, StatusPhase(w, now, s1, rows[1..]));
    }
  }
}
