/** Everything the bridge persists (internal/sync/state/state.go) and the store's setters as functions. */
module State {
  import opened Wrappers
  import opened Token

  datatype MatchRecord = MatchRecord(
    bookFileId: int,
    bookId: int,
    lastPushedAt: int,
    lastPushedPct: int,
    lastSeenStatus: string,
    lastSeenStatusAt: int,
    lastPushedStatus: string,
    lastPushedStatusAt: int)

  /** A record as the match-check phase creates it. */
  function NewRecord(bookFileId: int, bookId: int): MatchRecord {
    MatchRecord(bookFileId, bookId, 0, 0, "", 0, "", 0)
  }

  datatype Data = Data(
    token: Token,
    deviceId: string,
    watermarkMs: int,
    matches: map<string, MatchRecord>,
    unmatched: map<string, int>)
  {
    function SetMatch(h: string, rec: MatchRecord): Data { this.(matches := matches[h := rec]) }

    function DeleteMatch(h: string): Data { this.(matches := matches - {h}) }

    function SetUnmatched(h: string, at: int): Data { this.(unmatched := unmatched[h := at]) }

    function ClearUnmatched(h: string): Data { this.(unmatched := unmatched - {h}) }

    /** What the two maps say about one hash. */
    function At(h: string): Slot {
      Slot(if h in matches then Some(matches[h]) else None, if h in unmatched then Some(unmatched[h]) else None)
    }
  }

  datatype Slot = Slot(rec: Option<MatchRecord>, unmatched: Option<int>)

  const NEW_DATA := Data(ZERO_TOKEN, "", 0, map[], map[])
}
