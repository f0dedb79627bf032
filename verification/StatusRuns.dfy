/** Reading statuses over whole runs: which tokens BookOrbit acknowledges one after the other, and what a crash
    changes. */
module StatusRuns {
  import opened Wrappers
  import opened SyncPass
  import opened Phases
  import opened StatusHistory
  import opened Runs

  predicate StatusAcked(e: Event, h: string) { e.SetStatus? && e.hash == h && e.done.Ok? }

  ghost predicate NoAck(es: seq<Event>, h: string, i: nat, j: nat)
    requires j <= |es|
  {
    forall k :: i < k < j ==> !StatusAcked(es[k], h)
  }

  /** The record of a hash outlives the events of a history from after i to before j. */
  ghost predicate Survives(h: string, hist: seq<Event>, i: nat, j: nat)
    requires j <= |hist|
  {
    forall k :: i < k <= j ==> StatusReplay(None, hist[..k], h).Some?
  }

  /******* One history *******/

  lemma TokenAfter(e: Event, h: string, v: Option<string>)
    requires StatusJustified(e, h, v) && HonestEvent(e) && StatusAfter(e, h, v).Some?
    ensures StatusAcked(e, h) ==> StatusAfter(e, h, v) == Some(e.token)
    ensures !StatusAcked(e, h) && v.Some? ==> StatusAfter(e, h, v) == v
  {
    if e.Bulk? && e.refused.Ok? {
      ItemsKeepToken(e.items, e.refused.value, h, v);
    }
    if e.MatchCheck? && e.found.Ok? {
      MatchForNamed(e.found.value.matches, h);
    }
  }

  lemma {:induction false} ItemsKeepToken(items: seq<Sent>, refused: seq<string>, h: string, v: Option<string>)
    ensures h !in refused && v.Some? ==> ItemsStatus(items, refused, h, v) == v
    ensures h in refused && ItemsStatus(items, refused, h, v).Some? ==> ItemsStatus(items, refused, h, v) == v
    ensures h in refused && v.None? ==> ItemsStatus(items, refused, h, v).None?
  {
    if items != [] {
      ItemsKeepToken(items[1..], refused, h,
                     if items[0].hash != h then v else if h in refused then None else Kept(v));
    }
  }

  lemma HistoryAt(h: string, hist: seq<Event>, m: nat)
    requires AllStatusJustified(h, None, hist) && Honest(hist) && m < |hist|
    ensures StatusJustified(hist[m], h, StatusReplay(None, hist[..m], h)) && HonestEvent(hist[m])
    ensures StatusReplay(None, hist[..m + 1], h) == StatusAfter(hist[m], h, StatusReplay(None, hist[..m], h))
  {
    assert hist[m] in hist;
    assert hist[..m + 1] == hist[..m] + [hist[m]];
    StatusSnoc(None, hist[..m], hist[m], h);
  }

  /** One more event that the record outlives: an acknowledged push sets the token, anything else keeps it. */
  lemma TokenStep(h: string, hist: seq<Event>, m: nat, token: string)
    requires AllStatusJustified(h, None, hist) && Honest(hist) && m < |hist|
    requires StatusReplay(None, hist[..m + 1], h).Some?
    requires if StatusAcked(hist[m], h) then hist[m].token == token else StatusReplay(None, hist[..m], h) == Some(token)
    ensures StatusReplay(None, hist[..m + 1], h) == Some(token)
  {
    HistoryAt(h, hist, m);
    TokenAfter(hist[m], h, StatusReplay(None, hist[..m], h));
  }

  /** From an acknowledged push on, the record remembers its token until the next one, if it survives. */
  lemma {:induction false} TokenRemembered(h: string, hist: seq<Event>, i: nat, m: nat)
    requires AllStatusJustified(h, None, hist) && Honest(hist) && i <= m < |hist|
    requires StatusAcked(hist[i], h) && NoAck(hist, h, i, m + 1) && Survives(h, hist, i, m + 1)
    ensures StatusReplay(None, hist[..m + 1], h) == Some(hist[i].token)
    decreases m
  {
    if m > i {
      TokenRemembered(h, hist, i, m - 1);
    }
    TokenStep(h, hist, m, hist[i].token);
  }

  predicate Settable(token: string) { token == "read" || token == "abandoned" }

  lemma TokensDiffer(h: string, hist: seq<Event>, i: nat, j: nat)
    requires AllStatusJustified(h, None, hist) && Honest(hist) && i < j < |hist|
    requires StatusAcked(hist[i], h) && StatusAcked(hist[j], h) && NoAck(hist, h, i, j) && Survives(h, hist, i, j)
    ensures hist[i].token != hist[j].token && Settable(hist[i].token) && Settable(hist[j].token)
  {
    TokenRemembered(h, hist, i, j - 1);
    HistoryAt(h, hist, i);
    HistoryAt(h, hist, j);
  }

  /******* The log *******/

  lemma {:induction false} LogPrefix(cfg: Config, acts: seq<Action>, n: nat)
    requires n <= |acts|
    ensures Run(cfg, acts[..n]).log <= Run(cfg, acts).log
  {
    if n == |acts| {
      assert acts[..n] == acts;
    } else {
      LogPrefix(cfg, acts[..|acts| - 1], n);
      assert acts[..|acts| - 1][..n] == acts[..n];
    }
  }

  /** The m-th action is a crash that takes a logged event out of the engine's memory: it had not reached the file. */
  ghost predicate Discards(cfg: Config, acts: seq<Action>, m: nat, i: nat)
    requires m < |acts|
  {
    var sys := Run(cfg, acts[..m]);
    acts[m].Crash? && i in sys.mem.at && i !in sys.file.at
  }

  ghost predicate DiscardedBetween(cfg: Config, acts: seq<Action>, n: nat, i: nat) {
    exists m :: n <= m < |acts| && Discards(cfg, acts, m, i)
  }

  lemma SameDiscard(cfg: Config, acts: seq<Action>, m: nat, i: nat)
    requires m < |acts| - 1
    ensures Discards(cfg, acts[..|acts| - 1], m, i) <==> Discards(cfg, acts, m, i)
  {
    assert acts[..|acts| - 1][..m] == acts[..m];
  }

  lemma DiscardsEarlier(cfg: Config, acts: seq<Action>, n: nat, i: nat)
    requires acts != [] && n < |acts|
    ensures var front := acts[..|acts| - 1];
            DiscardedBetween(cfg, acts, n, i) <==> DiscardedBetween(cfg, front, n, i) || Discards(cfg, acts, |front|, i)
  {
    var front := acts[..|acts| - 1];
    forall m: nat | m < |front| ensures Discards(cfg, front, m, i) <==> Discards(cfg, acts, m, i) {
      SameDiscard(cfg, acts, m, i);
    }
  }

  /** An event leaves the engine's memory exactly when a crash discards it, and it never comes back. */
  lemma {:induction false} ForgottenExactly(cfg: Config, acts: seq<Action>, n: nat, i: nat)
    requires LegalRun(cfg, acts) && n <= |acts| && i in Run(cfg, acts[..n]).mem.at
    ensures i !in Run(cfg, acts).mem.at <==> DiscardedBetween(cfg, acts, n, i)
  {
    if n == |acts| {
      assert acts[..n] == acts;
    } else {
      var front, a := acts[..|acts| - 1], acts[|acts| - 1];
      assert front[..n] == acts[..n];
      ForgottenExactly(cfg, front, n, i);
      DiscardsEarlier(cfg, acts, n, i);
      RunSound(cfg, front);
      RunSound(cfg, front[..n]) by { PrefixLegal(cfg, front, n); }
      LogPrefix(cfg, front, n);
      StepForgets(cfg, Run(cfg, front), a, i);
      assert acts[..|front|] == front;
    }
  }

  lemma {:induction false} PrefixLegal(cfg: Config, acts: seq<Action>, n: nat)
    requires LegalRun(cfg, acts) && n <= |acts|
    ensures LegalRun(cfg, acts[..n])
  {
    if n == |acts| {
      assert acts[..n] == acts;
    } else {
      PrefixLegal(cfg, acts[..|acts| - 1], n);
      assert acts[..|acts| - 1][..n] == acts[..n];
    }
  }

  lemma StepForgets(cfg: Config, sys: System, a: Action, i: nat)
    requires LogOk(sys) && i < |sys.log|
    ensures i in Step(cfg, sys, a).mem.at <==> if a.Crash? then i in sys.file.at else i in sys.mem.at
    ensures i in sys.file.at ==> i in sys.mem.at
  {
  }

  /******* Two pushes in one memory *******/

  /** The record of a hash outlives, in this memory, everything between two logged events. */
  ghost predicate Outlives(s: Snapshot, h: string, i: nat, j: nat)
    requires |s.at| == |s.hist|
  {
    forall k, m :: 0 <= k < |s.at| && 0 <= m < |s.at| && s.at[k] == i && s.at[m] == j ==> Survives(h, s.hist, k, m)
  }

  /** Two acknowledged pushes with no other one between them in this memory carry different tokens. */
  lemma MemoryTokensDiffer(log: seq<Event>, s: Snapshot, h: string, i: nat, j: nat)
    requires Placed(log, s) && Booked(s) && i < j < |log| && i in s.at && j in s.at
    requires StatusAcked(log[i], h) && StatusAcked(log[j], h)
    requires forall p :: i < p < j && p in s.at ==> !StatusAcked(log[p], h)
    requires Outlives(s, h, i, j)
    ensures log[i].token != log[j].token && Settable(log[i].token) && Settable(log[j].token)
  {
    var k :| 0 <= k < |s.at| && s.at[k] == i;
    var m :| 0 <= m < |s.at| && s.at[m] == j;
    assert StatusFollows(h, None, s.hist, s.data);
    forall p | k < p < m ensures !StatusAcked(s.hist[p], h) {
      assert s.at[p] in s.at;
    }
    assert k < m;
    TokensDiffer(h, s.hist, k, m);
  }

  lemma OutlivesLater(s: Snapshot, h: string, l: nat, i: nat, j: nat)
    requires |s.at| == |s.hist| && (forall p, q :: 0 <= p < q < |s.at| ==> s.at[p] < s.at[q])
    requires l in s.at && l < i && Outlives(s, h, l, j)
    ensures Outlives(s, h, i, j)
  {
    var k0 :| 0 <= k0 < |s.at| && s.at[k0] == l;
    forall k, m | 0 <= k < |s.at| && 0 <= m < |s.at| && s.at[k] == i && s.at[m] == j ensures Survives(h, s.hist, k, m) {
      assert Survives(h, s.hist, k0, m);
      assert k0 < k;
    }
  }

  /******* Over runs *******/

  /** Two acknowledged status pushes of one hash, with no other acknowledged one between them in all that was ever said,
      repeat a token only if a crash discarded the first one, or the record was dropped in between. `n` is any moment
      after the first one at which it was in memory. */
  lemma StatusTokensAlternate(cfg: Config, acts: seq<Action>, n: nat, h: string, i: nat, j: nat)
    requires LegalRun(cfg, acts) && n <= |acts|
    requires var log := Run(cfg, acts).log;
             i < j < |log| && StatusAcked(log[i], h) && StatusAcked(log[j], h) && NoAck(log, h, i, j)
    requires i in Run(cfg, acts[..n]).mem.at && j in Run(cfg, acts).mem.at
             && Placed(Run(cfg, acts).log, Run(cfg, acts).mem)
    ensures Settable(Run(cfg, acts).log[j].token)
    ensures Run(cfg, acts).log[i].token == Run(cfg, acts).log[j].token ==>
              DiscardedBetween(cfg, acts, n, i) || !Outlives(Run(cfg, acts).mem, h, i, j)
  {
    var sys := Run(cfg, acts);
    RunSound(cfg, acts);
    LoggedIsSettable(sys.log, sys.mem, h, j);
    if !DiscardedBetween(cfg, acts, n, i) && Outlives(sys.mem, h, i, j) {
      ForgottenExactly(cfg, acts, n, i);
      MemoryTokensDiffer(sys.log, sys.mem, h, i, j);
    }
  }

  lemma LoggedIsSettable(log: seq<Event>, s: Snapshot, h: string, j: nat)
    requires Placed(log, s) && Booked(s) && j in s.at && StatusAcked(log[j], h)
    ensures Settable(log[j].token)
  {
    var m :| 0 <= m < |s.at| && s.at[m] == j;
    assert StatusFollows(h, None, s.hist, s.data);
    HistoryAt(h, s.hist, m);
  }

  /** Three consecutive acknowledged pushes l, i, j of one hash. */
  ghost predicate Consecutive(log: seq<Event>, h: string, l: nat, i: nat, j: nat) {
    && l < i < j < |log| && StatusAcked(log[l], h) && StatusAcked(log[i], h) && StatusAcked(log[j], h)
    && NoAck(log, h, l, i) && NoAck(log, h, i, j)
  }

  lemma AcksBetween(log: seq<Event>, s: Snapshot, h: string, i: nat, j: nat)
    requires i < j <= |log| && NoAck(log, h, i, j)
    ensures forall p :: i < p < j && p in s.at ==> !StatusAcked(log[p], h)
  {
  }

  /** A memory that holds all three. */
  lemma MiddleKept(log: seq<Event>, s: Snapshot, h: string, l: nat, i: nat, j: nat)
    requires Placed(log, s) && Booked(s) && Consecutive(log, h, l, i, j)
    requires l in s.at && i in s.at && j in s.at && Outlives(s, h, l, j)
    ensures log[i].token != log[j].token
  {
    OutlivesLater(s, h, l, i, j);
    AcksBetween(log, s, h, i, j);
    MemoryTokensDiffer(log, s, h, i, j);
  }

  /** A memory that holds the first and the last only. */
  lemma MiddleForgotten(log: seq<Event>, s: Snapshot, h: string, l: nat, i: nat, j: nat)
    requires Placed(log, s) && Booked(s) && Consecutive(log, h, l, i, j)
    requires l in s.at && i !in s.at && j in s.at && Outlives(s, h, l, j)
    ensures log[l].token != log[j].token && Settable(log[l].token) && Settable(log[j].token)
  {
    forall p | l < p < j && p in s.at ensures !StatusAcked(log[p], h) {
      assert p != i;
    }
    MemoryTokensDiffer(log, s, h, l, j);
  }

  /** The memory in which the second push was made. */
  lemma FirstTwo(log: seq<Event>, more: seq<Event>, s: Snapshot, h: string, l: nat, i: nat, j: nat)
    requires log <= more && Placed(log, s) && Booked(s) && Consecutive(more, h, l, i, j)
    requires l in s.at && i in s.at && Outlives(s, h, l, i)
    ensures more[l].token != more[i].token && Settable(more[l].token) && Settable(more[i].token)
  {
    var k :| 0 <= k < |s.at| && s.at[k] == i;
    assert i < |log| && log[i] == more[i] && log[l] == more[l];
    forall p | l < p < i && p in s.at ensures !StatusAcked(log[p], h) {
      assert log[p] == more[p];
    }
    MemoryTokensDiffer(log, s, h, l, i);
  }

  /** Read off the log alone: of three consecutive pushes, the first remembered throughout and the record lasting, the
      third repeats the token of the second if and only if a crash discarded the second in between. */
  lemma ThirdRepeatsExactly(cfg: Config, acts: seq<Action>, n: nat, h: string, l: nat, i: nat, j: nat)
    requires LegalRun(cfg, acts) && n <= |acts| && Consecutive(Run(cfg, acts).log, h, l, i, j)
    requires var early := Run(cfg, acts[..n]).mem;
             |early.at| == |early.hist| && l in early.at && i in early.at && Outlives(early, h, l, i)
    requires var now := Run(cfg, acts).mem;
             |now.at| == |now.hist| && l in now.at && j in now.at && Outlives(now, h, l, j)
    ensures Run(cfg, acts).log[i].token == Run(cfg, acts).log[j].token <==> DiscardedBetween(cfg, acts, n, i)
  {
    var before, sys := Run(cfg, acts[..n]), Run(cfg, acts);
    PrefixLegal(cfg, acts, n);
    RunSound(cfg, acts[..n]);
    RunSound(cfg, acts);
    LogPrefix(cfg, acts, n);
    FirstTwo(before.log, sys.log, before.mem, h, l, i, j);
    ForgottenExactly(cfg, acts, n, i);
    if i in sys.mem.at {
      MiddleKept(sys.log, sys.mem, h, l, i, j);
    } else {
      MiddleForgotten(sys.log, sys.mem, h, l, i, j);
    }
  }

  /******* A repeat *******/

  /** From any state in which memory and file agree, a pass that is not saved, a crash, and the same answers to the same
      pull again: everything the first pass said is said a second time, and the state is that of the pass alone. */
  lemma UnsavedPassRepeats(cfg: Config, sys: System, a: Action)
    requires Legal(cfg, sys, a) && a.Sync? && !a.saved && a.written == None
    requires sys.mem == sys.file && !sys.bulkUnsupported
    ensures var crashed := Step(cfg, Step(cfg, sys, a), Crash);
            var again := Step(cfg, crashed, a);
            var trace := PassOf(cfg, sys, a).trace;
            && Legal(cfg, Step(cfg, sys, a), Crash) && Legal(cfg, crashed, a)
            && again.log == sys.log + trace + trace
            && again.mem.data == Step(cfg, sys, a).mem.data && again.mem.hist == sys.mem.hist + trace
            && crashed.file == sys.file
  {
  }
}
