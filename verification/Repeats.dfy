/** Exactly when a pass pushes a status that BookOrbit has already acknowledged as the last one of the book. */
module Repeats {
  import opened Wrappers
  import opened Readest
  import opened State
  import opened SyncPass
  import opened Projection
  import opened Phases
  import opened Settlement
  import opened StatusChannel
  import opened NoLostUpdate
  import opened History
  import opened Fates
  import opened Bookkeeping
  import opened StatusHistory
  import opened Runs
  import opened StatusRuns
  import opened Consequences
  import opened Sending

  /******* What memory knows of the last acknowledged push *******/

  /** In all that was ever said, the last acknowledged status push of the hash. */
  ghost predicate LastAck(log: seq<Event>, h: string, i: nat) {
    i < |log| && StatusAcked(log[i], h) && NoAck(log, h, i, |log|)
  }

  /** If memory holds the event, the record of the hash has lasted since. */
  ghost predicate LastsSince(s: Snapshot, h: string, i: nat)
    requires |s.at| == |s.hist|
  {
    forall k :: 0 <= k < |s.at| && s.at[k] == i ==> Survives(h, s.hist, k, |s.hist|)
  }

  lemma LaterNotAcked(log: seq<Event>, s: Snapshot, h: string, k: nat)
    requires Placed(log, s) && k < |s.at| && NoAck(log, h, s.at[k], |log|)
    ensures NoAck(s.hist, h, k, |s.hist|)
  {
    forall p | k < p < |s.hist| ensures !StatusAcked(s.hist[p], h) {
      assert s.hist[p] == log[s.at[p]];
    }
  }

  lemma LastAckIsToken(s: Snapshot, h: string, k: nat)
    requires StatusFollows(h, None, s.hist, s.data) && Honest(s.hist) && h in s.data.matches
    requires k < |s.hist| && StatusAcked(s.hist[k], h) && NoAck(s.hist, h, k, |s.hist|)
    requires Survives(h, s.hist, k, |s.hist|)
    ensures s.data.matches[h].lastPushedStatus == s.hist[k].token
  {
    TokenRemembered(h, s.hist, k, |s.hist| - 1);
    assert s.hist[..|s.hist|] == s.hist;
  }

  /** A remembered push is the token the record has. */
  lemma TokenIsKnown(sys: System, h: string, i: nat)
    requires Placed(sys.log, sys.mem) && Booked(sys.mem) && LastAck(sys.log, h, i) && i in sys.mem.at
    requires LastsSince(sys.mem, h, i) && h in sys.mem.data.matches
    ensures sys.mem.data.matches[h].lastPushedStatus == sys.log[i].token
  {
    var k :| 0 <= k < |sys.mem.at| && sys.mem.at[k] == i;
    LaterNotAcked(sys.log, sys.mem, h, k);
    LastAckIsToken(sys.mem, h, k);
  }

  /******* The record up to the status phase *******/

  lemma MatchedAtPush(w: World, cfg: Config, latch: bool, d: Data, rows: seq<BookRow>, r: BookRow)
    requires Distinct(Hashes(rows)) && r in rows && Live(r) && r.hash in d.matches
    requires HonestPass(w, cfg, latch, d, rows)
    ensures AtPush(w, cfg, latch, d, rows).data.At(r.hash) == d.At(r.hash)
  {
    var c, s0, s1, s2 := Assembled(w, cfg, latch, d, rows);
    var now := w.sync.clock(0);
    StatusPhaseFrame(w, now, s2, rows);
    HonestPrefix(s2.trace, RunPass(w, cfg, latch, d, rows).trace);
    HonestPrefix(s1.trace, s2.trace);
    NotQueuedForCheck(w, cfg, d, rows, r);
    ClassifyHit(cfg, now, Classified(d, 0, [], []), rows, r);
    MatchPhaseForeign(w.sync, cfg, now, RowByHash(c.toMatch), s0, Hashes(c.toMatch), r.hash);
  }

  lemma OnePushKeepsToken(y: Slot, p: PushItem, fs: seq<Fate>)
    requires y.rec == Some(p.rec) && |fs| <= 1
    ensures var z := StoreFold(y, [p], fs);
            z.rec.Some? ==> z.rec.value.lastPushedStatus == p.rec.lastPushedStatus
  {
    if fs != [] {
      assert fs[..0] == [];
    }
  }

  /** A record that was there before a pass has, if it is there when the status phase begins, the same token. */
  lemma MatchedKeepsToken(w: World, cfg: Config, latch: bool, d: Data, rows: seq<BookRow>, r: BookRow)
    requires Distinct(Hashes(rows)) && r in rows && Live(r) && r.hash in d.matches
    requires HonestPass(w, cfg, latch, d, rows)
    ensures var s := Before(w, cfg, latch, d, rows).data;
            r.hash in s.matches ==> s.matches[r.hash].lastPushedStatus == d.matches[r.hash].lastPushedStatus
  {
    var h := r.hash;
    var s1, fs := PushPart(w, cfg, latch, d, rows, h);
    MatchedAtPush(w, cfg, latch, d, rows, r);
    MatchedRowQueued(w, cfg, latch, d, rows, r);
    var y, mine, z := d.At(h), ItemsFor(s1.toPush, h), Before(w, cfg, latch, d, rows).data.At(h);
    assert z == StoreFold(y, mine, fs);
    if mine != [] {
      OnePushKeepsToken(y, mine[0], fs);
    }
  }

  /******* The repeat *******/

  /** The situation: the last acknowledged push of a matched book, whether the bridge remembers it or not, and a live
      pulled row of it whose status means the very same token. */
  ghost predicate Again(sys: System, a: Action, r: BookRow, i: nat) {
    && a.Sync? && r in a.rows && Live(r) && r.hash in sys.mem.data.matches
    && LastAck(sys.log, r.hash, i) && Means(r.readingStatus, sys.log[i].token)
    && |sys.mem.at| == |sys.mem.hist| && LastsSince(sys.mem, r.hash, i)
  }

  lemma MeansOne(status: string, a: string, b: string)
    requires Means(status, a) && Means(status, b)
    ensures a == b
  {
  }

  /** Then the pass pushes that token again exactly when the bridge no longer remembers the push, the token it does
      remember is another one, and the record outlasts the progress phase. */
  lemma PassRepeatsExactly(cfg: Config, sys: System, a: Action, r: BookRow, i: nat)
    requires Again(sys, a, r, i) && Sound(sys) && Legal(cfg, sys, a) && cfg.syncStatus && !PassOf(cfg, sys, a).fatal
    ensures StatusCalled(PassOf(cfg, sys, a).trace, r.hash) <==>
              && i !in sys.mem.at && sys.mem.data.matches[r.hash].lastPushedStatus != sys.log[i].token
              && r.hash in Before(a.w, cfg, sys.bulkUnsupported, sys.mem.data.(token := a.token), a.rows).data.matches
  {
    var d := sys.mem.data.(token := a.token);
    var s := Before(a.w, cfg, sys.bulkUnsupported, d, a.rows).data;
    StatusCalledExactly(a.w, cfg, sys.bulkUnsupported, d, a.rows, r);
    MatchedKeepsToken(a.w, cfg, sys.bulkUnsupported, d, a.rows, r);
    if i in sys.mem.at {
      TokenIsKnown(sys, r.hash, i);
    }
    if r.hash in s.matches {
      OnlyToken(r.readingStatus, sys.log[i].token, s.matches[r.hash].lastPushedStatus);
    }
  }

  lemma OnlyToken(status: string, token: string, pushed: string)
    requires Means(status, token)
    ensures (exists other :: Means(status, other) && other != pushed) <==> token != pushed
  {
  }

  /** Every status call for the hash in that pass carries the same token. */
  lemma SameToken(cfg: Config, sys: System, a: Action, r: BookRow, i: nat, e: Event)
    requires Again(sys, a, r, i) && Legal(cfg, sys, a)
    requires e in PassOf(cfg, sys, a).trace && e.SetStatus? && e.hash == r.hash
    ensures e.token == sys.log[i].token
  {
    EveryStatusIsARow(a.w, cfg, sys.bulkUnsupported, sys.mem.data.(token := a.token), a.rows, e);
    var q :| q in a.rows && Live(q) && q.hash == e.hash && Means(q.readingStatus, e.token);
    OneRowPerHash(a.rows, r, q);
    MeansOne(r.readingStatus, e.token, sys.log[i].token);
  }

  /** Over runs: the last acknowledged status of a book is pushed to it again exactly when a crash has discarded the
      acknowledgement since (n is any moment at which it was in memory), the bridge remembers another token, and the
      record outlasts the progress phase. */
  lemma RepeatExactly(cfg: Config, acts: seq<Action>, n: nat, a: Action, r: BookRow, i: nat)
    requires LegalRun(cfg, acts + [a]) && n <= |acts| && cfg.syncStatus
    requires i in Run(cfg, acts[..n]).mem.at && Again(Run(cfg, acts), a, r, i) && !PassOf(cfg, Run(cfg, acts), a).fatal
    ensures var sys := Run(cfg, acts);
            StatusCalled(PassOf(cfg, sys, a).trace, r.hash) <==>
              && DiscardedBetween(cfg, acts, n, i) && sys.mem.data.matches[r.hash].lastPushedStatus != sys.log[i].token
              && r.hash in Before(a.w, cfg, sys.bulkUnsupported, sys.mem.data.(token := a.token), a.rows).data.matches
  {
    assert (acts + [a])[..|acts|] == acts;
    RunSound(cfg, acts);
    ForgottenExactly(cfg, acts, n, i);
    PassRepeatsExactly(cfg, Run(cfg, acts), a, r, i);
  }
}
