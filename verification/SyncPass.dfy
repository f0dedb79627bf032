/** One pass of Engine.RunOnce as a function of the store, the pulled rows and every answer the outside
    world gives (internal/sync/engine.go:162-644). The class in Engine.dfy is proved equal to it. */
module SyncPass {
  import opened Wrappers
  import opened Errors
  import opened Batch
  import opened Readest
  import opened State

  datatype Config = Config(matchBatchSize: int, progressBatchSize: int, cooldownSeconds: int, syncStatus: bool)

  /******* The outside world *******/

  datatype Match = Match(hash: string, bookFileId: int, bookId: int)

  datatype MatchResponse = MatchResponse(matches: seq<Match>, unmatched: seq<string>)

  /** What is sent for one book's progress. */
  datatype Sent = Sent(hash: string, pct: int, ts: int)

  /** The traffic of a pass: the pulled rows, then every BookOrbit call with its answer and the clock
      readings the engine took when it acted on that answer. */
  datatype Event =
    | Pulled(rows: seq<BookRow>)
    | MatchCheck(hashes: seq<string>, found: Result<MatchResponse, BookOrbitError>, time: int)
    | Bulk(items: seq<Sent>, refused: Result<seq<string>, BookOrbitError>, times: seq<int>)
    | Update(item: Sent, done: Result<(), BookOrbitError>, time: int)
    | SetStatus(hash: string, bookId: int, token: string, done: Result<(), BookOrbitError>, time: int)

  /** Answers to the n-th call of a pass, and successive clock readings. */
  datatype SyncWorld = SyncWorld(
    matching: nat -> Result<MatchResponse, BookOrbitError>,
    bulk: nat -> Result<seq<string>, BookOrbitError>,
    update: nat -> Result<(), BookOrbitError>,
    clock: nat -> int)

  /** The status channel is kept apart: no phase before the status phase can see it. */
  datatype World = World(sync: SyncWorld, status: nat -> Result<(), BookOrbitError>)

  /******* The engine's state during a pass *******/

  datatype PushItem = PushItem(hash: string, rec: MatchRecord, pct: int, ts: int, wm: int)
  {
    function ToSent(): Sent { Sent(hash, pct, ts) }
  }

  function ToSents(items: seq<PushItem>): (r: seq<Sent>)
    ensures |r| == |items|
    ensures forall i :: 0 <= i < |items| ==> r[i] == items[i].ToSent()
  {
    if items == [] then [] else [items[0].ToSent()] + ToSents(items[1..])
  }

  datatype Operation = MatchCheckOp | BulkProgressOp | UpdateProgressOp | SetReadStatusOp

  datatype Failure = Failure(op: Operation, error: BookOrbitError)

  datatype Pass = Pass(
    data: Data,
    bulkUnsupported: bool,
    toPush: seq<PushItem>,
    trace: seq<Event>,
    ticks: nat,
    failed: seq<int>,
    errs: seq<Failure>,
    fatal: bool)
  {
    function Log(e: Event): Pass { this.(trace := trace + [e]) }

    function Fail(op: Operation, e: BookOrbitError): Pass { this.(errs := errs + [Failure(op, e)]) }
  }

  /******* Classification *******/

  /** mapReadingStatus: the token to push, if the value is one that is pushed at all. */
  function MapReadingStatus(status: string): Option<string> {
    if status == "finished" then Some("read")
    else if status == "abandoned" then Some("abandoned")
    else None
  }

  /** classifyStatusValue: known values that are never pushed. */
  predicate KnownStatus(status: string) { status == "" || status == "reading" || status == "unread" }

  /** 0.001 in units of 1e-5 */
  const PERCENT_TOLERANCE: int := 100

  predicate Unchanged(rec: MatchRecord, pct: int) {
    rec.lastPushedAt != 0 && Abs(pct - rec.lastPushedPct) <= PERCENT_TOLERANCE
  }

  predicate Cooling(cfg: Config, now: int, d: Data, h: string) {
    h in d.unmatched && now - d.unmatched[h] < cfg.cooldownSeconds
  }

  function ItemFor(hash: string, row: BookRow, rec: MatchRecord, pct: int, now: int): PushItem {
    PushItem(hash, rec, pct, UpdatedSeconds(row, now), row.WatermarkMs())
  }

  datatype Classified = Classified(data: Data, maxWatermark: int, toMatch: seq<BookRow>, toPush: seq<PushItem>)

  /** What the classification loop decides about a row. */
  datatype Verdict = Forget | Push(item: PushItem) | Resolve | Leave

  function VerdictOf(cfg: Config, now: int, d: Data, row: BookRow): Verdict {
    if row.IsDeleted() then Forget
    else if row.hash in d.matches then
      if row.Percentage().Some? && !Unchanged(d.matches[row.hash], row.Percentage().value)
      then Push(ItemFor(row.hash, row, d.matches[row.hash], row.Percentage().value, now))
      else Leave
    else if Cooling(cfg, now, d, row.hash) then Leave
    else if row.Percentage().Some? || (cfg.syncStatus && MapReadingStatus(row.readingStatus).Some?) then Resolve
    else Leave
  }

  function ClassifyRow(cfg: Config, now: int, c: Classified, row: BookRow): Classified {
    if row.IsDummy() then c
    else
      var c := c.(maxWatermark := Max(c.maxWatermark, row.WatermarkMs()));
      match VerdictOf(cfg, now, c.data, row)
      case Forget => c.(data := c.data.DeleteMatch(row.hash).ClearUnmatched(row.hash))
      case Push(item) => c.(toPush := c.toPush + [item])
      case Resolve => c.(toMatch := c.toMatch + [row])
      case Leave => c
  }

  function Classify(cfg: Config, now: int, c: Classified, rows: seq<BookRow>): Classified
    decreases rows
  {
    if rows == [] then c else Classify(cfg, now, ClassifyRow(cfg, now, c, rows[0]), rows[1..])
  }

  /******* Match-check phase *******/

  function Hashes(rows: seq<BookRow>): (r: seq<string>)
    ensures |r| == |rows|
    ensures forall i :: 0 <= i < |rows| ==> r[i] == rows[i].hash
  {
    if rows == [] then [] else [rows[0].hash] + Hashes(rows[1..])
  }

  /** rowByHash: a later row overwrites an earlier one with the same hash. */
  function RowByHash(rows: seq<BookRow>): (r: map<string, BookRow>)
    ensures forall h :: h in r <==> h in Hashes(rows)
    ensures forall h :: h in r ==> r[h].hash == h && r[h] in rows
  {
    if rows == [] then map[]
    else
      var rest := RowByHash(rows[1..]);
      if rows[0].hash in rest then rest else rest[rows[0].hash := rows[0]]
  }

  function Watermarks(byHash: map<string, BookRow>, chunk: seq<string>): seq<int>
    requires forall h :: h in chunk ==> h in byHash
  {
    if chunk == [] then [] else [byHash[chunk[0]].WatermarkMs()] + Watermarks(byHash, chunk[1..])
  }

  function Unmatch(d: Data, h: string, at: int): Data { d.SetUnmatched(h, at).DeleteMatch(h) }

  function AddMatch(byHash: map<string, BookRow>, now: int, s: Pass, m: Match): Pass {
    var rec := NewRecord(m.bookFileId, m.bookId);
    var s := s.(data := s.data.SetMatch(m.hash, rec).ClearUnmatched(m.hash));
    if m.hash in byHash && byHash[m.hash].Percentage().Some?
    then s.(toPush := s.toPush + [ItemFor(m.hash, byHash[m.hash], rec, byHash[m.hash].Percentage().value, now)])
    else s
  }

  function AddMatches(byHash: map<string, BookRow>, now: int, s: Pass, found: seq<Match>): Pass
    decreases found
  {
    if found == [] then s else AddMatches(byHash, now, AddMatch(byHash, now, s, found[0]), found[1..])
  }

  function UnmatchAll(d: Data, hs: seq<string>, at: int): Data
    decreases hs
  {
    if hs == [] then d else UnmatchAll(Unmatch(d, hs[0], at), hs[1..], at)
  }

  /** Chunk hashes that the answer named in neither list. */
  function UnmatchOmitted(d: Data, chunk: seq<string>, seen: set<string>, at: int): Data
    decreases chunk
  {
    if chunk == [] then d
    else if chunk[0] in seen then UnmatchOmitted(d, chunk[1..], seen, at)
    else UnmatchOmitted(Unmatch(d, chunk[0], at), chunk[1..], seen + {chunk[0]}, at)
  }

  function Named(r: MatchResponse): set<string> {
    (set m | m in r.matches :: m.hash) + (set h | h in r.unmatched)
  }

  function ApplyFound(byHash: map<string, BookRow>, now: int, s: Pass, chunk: seq<string>, r: MatchResponse): Pass {
    var s := AddMatches(byHash, now, s, r.matches);
    s.(data := UnmatchOmitted(UnmatchAll(s.data, r.unmatched, now), chunk, Named(r), now))
  }

  function MatchChunk(w: SyncWorld, now: int, byHash: map<string, BookRow>, s: Pass, chunk: seq<string>): Pass
    requires forall h :: h in chunk ==> h in byHash
  {
    var found := w.matching(|s.trace|);
    var s := s.Log(MatchCheck(chunk, found, now));
    match found
    case Ok(r) => ApplyFound(byHash, now, s, chunk, r)
    case Err(e) =>
      var s := s.Fail(MatchCheckOp, e);
      if e.Unauthorized? then s.(fatal := true)
      else s.(failed := s.failed + Watermarks(byHash, chunk))
  }

  function MatchPhase(w: SyncWorld, cfg: Config, now: int, byHash: map<string, BookRow>, s: Pass,
                      hashes: seq<string>): Pass
    requires forall h :: h in hashes ==> h in byHash
    decreases |hashes|
  {
    if hashes == [] || s.fatal then s
    else
      var k := ChunkLength(|hashes|, cfg.matchBatchSize);
      MatchPhase(w, cfg, now, byHash, MatchChunk(w, now, byHash, s, hashes[..k]), hashes[k..])
  }

  /******* Progress phase *******/

  function Times(w: SyncWorld, tick: nat, n: nat): (r: seq<int>)
    ensures |r| == n
    ensures forall i: nat :: i < n ==> r[i] == w.clock(tick + i)
    decreases n
  {
    if n == 0 then [] else [w.clock(tick)] + Times(w, tick + 1, n - 1)
  }

  function Pushed(rec: MatchRecord, pct: int, at: int): MatchRecord {
    rec.(lastPushedAt := at, lastPushedPct := pct)
  }

  function AckItem(w: SyncWorld, s: Pass, p: PushItem, refused: seq<string>): Pass {
    var at := w.clock(s.ticks);
    s.(ticks := s.ticks + 1,
       data := if p.hash in refused then Unmatch(s.data, p.hash, at)
               else s.data.SetMatch(p.hash, Pushed(p.rec, p.pct, at)))
  }

  function AckItems(w: SyncWorld, s: Pass, items: seq<PushItem>, refused: seq<string>): Pass
    decreases items
  {
    if items == [] then s else AckItems(w, AckItem(w, s, items[0], refused), items[1..], refused)
  }

  function PushSingle(w: SyncWorld, s: Pass, p: PushItem): Pass {
    var done := w.update(|s.trace|);
    var at := w.clock(s.ticks);
    match done
    case Err(e) => s.Log(Update(p.ToSent(), done, 0)).Fail(UpdateProgressOp, e)
    case Ok(_) =>
      s.Log(Update(p.ToSent(), done, at)).(ticks := s.ticks + 1,
                                           data := s.data.SetMatch(p.hash, Pushed(p.rec, p.pct, at)))
  }

  function PushSingles(w: SyncWorld, s: Pass, items: seq<PushItem>): Pass
    decreases items
  {
    if items == [] then s else PushSingles(w, PushSingle(w, s, items[0]), items[1..])
  }

  function ItemWatermarks(items: seq<PushItem>): seq<int> {
    if items == [] then [] else [items[0].wm] + ItemWatermarks(items[1..])
  }

  function PushChunk(w: SyncWorld, s: Pass, chunk: seq<PushItem>): Pass {
    if s.bulkUnsupported then PushSingles(w, s, chunk)
    else
      var refused := w.bulk(|s.trace|);
      var times := if refused.Ok? then Times(w, s.ticks, |chunk|) else [];
      var s := s.Log(Bulk(ToSents(chunk), refused, times));
      match refused
      case Ok(hs) => AckItems(w, s, chunk, hs)
      case Err(e) =>
        if e.Unauthorized? then s.Fail(BulkProgressOp, e).(fatal := true)
        else if e.UnsupportedEndpoint? then PushSingles(w, s.(bulkUnsupported := true), chunk)
        else s.Fail(BulkProgressOp, e).(failed := s.failed + ItemWatermarks(chunk))
  }

  function PushPhase(w: SyncWorld, cfg: Config, s: Pass, items: seq<PushItem>): Pass
    decreases |items|
  {
    if items == [] || s.fatal then s
    else
      var k := ChunkLength(|items|, cfg.progressBatchSize);
      PushPhase(w, cfg, PushChunk(w, s, items[..k]), items[k..])
  }

  /******* Status phase *******/

  function Seen(rec: MatchRecord, status: string, now: int): MatchRecord {
    if rec.lastSeenStatus == status then rec else rec.(lastSeenStatus := status, lastSeenStatusAt := now)
  }

  function RecordSeen(s: Pass, h: string, rec: MatchRecord, status: string, now: int): Pass {
    if rec.lastSeenStatus == status then s else s.(data := s.data.SetMatch(h, Seen(rec, status, now)))
  }

  /** What the status step does for a matched row: nothing, note what was seen, or push a token. */
  datatype StatusAct = Ignore | Note | Send(token: string)

  function StatusDecision(rec: MatchRecord, status: string): StatusAct {
    var token := MapReadingStatus(status);
    if token.None? then (if KnownStatus(status) then Note else Ignore)
    else if token.value == rec.lastPushedStatus then Note
    else Send(token.value)
  }

  function ActOnStatus(w: World, now: int, s: Pass, row: BookRow, rec: MatchRecord, act: StatusAct): Pass {
    match act
    case Ignore => s
    case Note => RecordSeen(s, row.hash, rec, row.readingStatus, now)
    case Send(token) =>
      var done := w.status(|s.trace|);
      var s := s.Log(SetStatus(row.hash, rec.bookId, token, done, now));
      match done
      case Ok(_) =>
        s.(data := s.data.SetMatch(row.hash, rec.(lastSeenStatus := row.readingStatus, lastSeenStatusAt := now,
                                                  lastPushedStatus := token, lastPushedStatusAt := now)))
      case Err(e) =>
        if e.BookGone? then s.(data := s.data.DeleteMatch(row.hash).SetUnmatched(row.hash, now))
        else if e.Unauthorized? then s.Fail(SetReadStatusOp, e).(fatal := true)
        else s.Fail(SetReadStatusOp, e)
  }

  function PushStatus(w: World, now: int, s: Pass, row: BookRow, rec: MatchRecord): Pass {
    ActOnStatus(w, now, s, row, rec, StatusDecision(rec, row.readingStatus))
  }

  function StatusRow(w: World, now: int, s: Pass, row: BookRow): Pass {
    if row.IsDummy() || row.IsDeleted() || row.hash !in s.data.matches then s
    else PushStatus(w, now, s, row, s.data.matches[row.hash])
  }

  function StatusPhase(w: World, now: int, s: Pass, rows: seq<BookRow>): Pass
    decreases rows
  {
    if rows == [] || s.fatal then s else StatusPhase(w, now, StatusRow(w, now, s, rows[0]), rows[1..])
  }

  /******* The cursor *******/

  function MinOf(xs: seq<int>): (m: int)
    requires xs != []
    ensures m in xs && forall x :: x in xs ==> m <= x
  {
    if |xs| == 1 then xs[0]
    else
      var front, last := xs[..|xs| - 1], xs[|xs| - 1];
      assert xs == front + [last];
      Min(MinOf(front), last)
  }

  function ComputeWatermark(floor: int, maxWatermark: int, failed: seq<int>): int {
    if failed == [] then Max(maxWatermark, floor) else Max(MinOf(failed) - 1, floor)
  }

  /******* The whole pass *******/

  function Classification(w: World, cfg: Config, d: Data, rows: seq<BookRow>): Classified {
    Classify(cfg, w.sync.clock(0), Classified(d, 0, [], []), rows)
  }

  function Started(c: Classified, bulkUnsupported: bool, rows: seq<BookRow>): Pass {
    Pass(c.data, bulkUnsupported, c.toPush, [Pulled(rows)], 1, [], [], false)
  }

  function AfterMatch(w: SyncWorld, cfg: Config, c: Classified, s: Pass): Pass {
    MatchPhase(w, cfg, w.clock(0), RowByHash(c.toMatch), s, Hashes(c.toMatch))
  }

  function AfterPush(w: SyncWorld, cfg: Config, s: Pass): Pass {
    PushPhase(w, cfg, s, s.toPush)
  }

  function AfterStatus(w: World, cfg: Config, s: Pass, rows: seq<BookRow>): Pass {
    if cfg.syncStatus then StatusPhase(w, w.sync.clock(0), s, rows) else s
  }

  /** RunOnce after a successful pull, up to but not including the final save. */
  function RunPass(w: World, cfg: Config, bulkUnsupported: bool, d: Data, rows: seq<BookRow>): Pass {
    var c := Classification(w, cfg, d, rows);
    var s := AfterStatus(w, cfg, BeforeStatus(w.sync, cfg, c, bulkUnsupported, rows), rows);
    s.(data := s.data.(watermarkMs := ComputeWatermark(s.data.watermarkMs, c.maxWatermark, s.failed)))
  }

  /** The pass up to the status phase, which alone consults the status answers. */
  function BeforeStatus(w: SyncWorld, cfg: Config, c: Classified, bulkUnsupported: bool, rows: seq<BookRow>): Pass {
    AfterPush(w, cfg, AfterMatch(w, cfg, c, Started(c, bulkUnsupported, rows)))
  }
}
