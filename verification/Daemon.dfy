/** The running bridge is a run of the abstract system: passes, restarts and server changes, in any order. */
module Daemon {
  import opened Wrappers
  import opened Retry
  import opened Readest
  import opened State
  import opened StateFile
  import opened Stores
  import opened TokenCalls
  import opened PullCalls
  import opened SyncPass
  import opened NoLostUpdate
  import opened Runs
  import Intermediate
  import A = Auth
  import C = Client
  import E = Engine

  predicate Holds(file: Option<File>, d: Data) {
    if file.None? then d == NEW_DATA else file.value.contents == Whole(d)
  }

  ghost predicate Represents(e: E.Engine, sys: System)
    reads e, e.rd, e.rd.auth, e.st
  {
    && e.Valid() && e.st.data == sys.mem.data && e.bulkUnsupported == sys.bulkUnsupported
    && Holds(e.st.disk.target, sys.file.data)
  }

  /** The step of the abstract system that a pass was. */
  ghost function ActionOf(w: World, p: Pull, saved: bool): Action {
    match p.result
    case Err(_) => FailedPull(p.state.ledger.token, p.state.ledger.written)
    case Ok(rows) => Sync(w, rows, p.state.ledger.token, p.state.ledger.written, saved)
  }

  /** The hashes that a step of the engine may touch. */
  ghost function TouchedIn(cfg: Config, sys: System, a: Action): set<string> {
    if a.Sync? then Touched(a.rows, PassOf(cfg, sys, a).trace) else {}
  }

  lemma PassIsStep(cfg: Config, sys: System, w: World, p: Pull, saved: bool, file: Option<File>, after: Option<File>)
    requires Holds(file, sys.file.data)
    requires var base := E.FileAfterPull(file, sys.mem.data, p.state.ledger.written);
             after == if p.result.Ok? && saved
               then Some(File(Whole(PassOf(cfg, sys, ActionOf(w, p, saved)).data), true)) else base
    ensures Holds(after, Step(cfg, sys, ActionOf(w, p, saved)).file.data)
  {
  }

  /** One pass of the running engine is one step of the abstract system. */
  method Pass(e: E.Engine, w: E.Surroundings, pauses: Pauses, ghost sys: System) returns (r: E.Report, ghost a: Action)
    requires Represents(e, sys)
    modifies e`bulkUnsupported, e.rd, e.rd.auth, e.st
    ensures Represents(e, Step(e.cfg, sys, a))
    ensures if r.PullFailed? then a.FailedPull? else a.Sync? && a.w == E.Logical(e.retry, w)
    ensures r.Finished? ==> r.errs == PassOf(e.cfg, sys, a).errs
    ensures old(e.st.images) <= e.st.images && e.st.data == Step(e.cfg, sys, a).mem.data
    ensures E.PassImages(e.st.images, |old(e.st.images)|, old(e.st.disk.target), sys.mem.data,
                         Some(File(Whole(e.st.data), true)))
    ensures old(e.st.stores) <= e.st.stores
    ensures Until(e.st.stores, |old(e.st.stores)|, sys.mem.data, TouchedIn(e.cfg, sys, a), e.st.data)
  {
    ghost var p := RetriedPull(e.retry, e.rd.World(), pauses, E.Unwritten(e.rd.View()), e.st.data.watermarkMs);
    ghost var saved := Replaces(e.st.faults, p.state.ledger.saves);
    ghost var file := e.st.disk.target;
    a := ActionOf(E.Logical(e.retry, w), p, saved);
    r := e.RunOnce(w, pauses);
    PassIsStep(e.cfg, sys, E.Logical(e.retry, w), p, saved, file, e.st.disk.target);
  }

  /** A restart after a crash, on whatever complete state file the crash left. */
  method Restart(cfg: Config, retry: RetryConfig, file: Option<File>, faults: Faults, grants: nat -> Answer,
                 clock: nat -> int, pulls: nat -> SyncAnswer, ghost sys: System) returns (e: E.Engine)
    requires Holds(file, sys.file.data)
    ensures fresh(e) && fresh(e.rd) && fresh(e.rd.auth) && fresh(e.st)
    ensures e.cfg == cfg && Represents(e, Step(cfg, sys, Crash))
  {
    var st := new FileStore(if file.Some? then Some(file.value.contents) else None, faults);
    var failed := st.Load(false);
    var auth := new A.Auth(st, grants, clock);
    var rd := new C.Client(auth, pulls);
    e := new E.Engine(cfg, retry, rd);
  }

  /** What happens between two passes and what the next pass meets. */
  datatype Round = Round(changes: seq<BookRow>, w: E.Surroundings, pauses: Pauses)

  function Changes(rows: seq<BookRow>): seq<Action> {
    if rows == [] then [] else Changes(rows[..|rows| - 1]) + [Change(rows[|rows| - 1])]
  }

  lemma RunSnoc(cfg: Config, acts: seq<Action>, a: Action)
    ensures Run(cfg, acts + [a]) == Step(cfg, Run(cfg, acts), a)
  {
    assert (acts + [a])[..|acts|] == acts;
  }

  lemma {:induction false} ChangesAlone(cfg: Config, acts: seq<Action>, rows: seq<BookRow>)
    ensures var a, b := Run(cfg, acts), Run(cfg, acts + Changes(rows));
            b.mem == a.mem && b.file == a.file && b.bulkUnsupported == a.bulkUnsupported
  {
    if rows == [] {
      assert acts + Changes(rows) == acts;
    } else {
      var front := Changes(rows[..|rows| - 1]);
      ChangesAlone(cfg, acts, rows[..|rows| - 1]);
      assert acts + Changes(rows) == acts + front + [Change(rows[|rows| - 1])];
      RunSnoc(cfg, acts + front, Change(rows[|rows| - 1]));
    }
  }

  /******* Crashes *******/

  /** Everything at or below the cursor of this store is settled, and the cursor is one the server showed. */
  ghost predicate SafeStore(sys: System, d: Data) { NothingLost(sys.lib, d) && d.watermarkMs <= sys.high }

  /** A bridge restarted on this file re-pulls everything it has not settled. */
  ghost predicate SafeImage(sys: System, image: Option<File>) { forall d :: Holds(image, d) ==> SafeStore(sys, d) }

  /** So it is with every disk state and every value of the store from these positions on. */
  ghost predicate AllSafe(sys: System, images: seq<Disk>, n: nat, stores: seq<Data>, m: nat) {
    && (forall i :: n <= i < |images| ==> SafeImage(sys, images[i].target))
    && (forall i :: m <= i < |stores| ==> SafeStore(sys, stores[i]))
  }

  lemma TokenImageSafe(sys: System, file: Option<File>, image: Option<File>)
    requires Safe(sys) && Holds(file, sys.file.data) && A.TokenImage(image, file, sys.mem.data)
    ensures SafeImage(sys, image)
  {
    forall d | Holds(image, d) ensures SafeStore(sys, d) {
      if image != file {
        TokenLosesNothing(sys.lib, sys.mem.data, d.token);
      }
    }
  }

  /** A crash inside a pass, or inside any save of it before its last, whatever the pass met until then: the file it
      leaves is safe. */
  lemma CrashInPassIsSafe(cfg: Config, acts: seq<Action>, images: seq<Disk>, n: nat, file: Option<File>,
                          result: Option<File>, i: nat)
    requires LegalRun(cfg, acts) && LosslessRun(cfg, acts) && Holds(file, Run(cfg, acts).file.data)
    requires E.PassImages(images, n, file, Run(cfg, acts).mem.data, result)
    requires n <= i < |images| && images[i].target != result
    ensures SafeImage(Run(cfg, acts), images[i].target)
  {
    NoUpdateIsLost(cfg, acts);
    TokenImageSafe(Run(cfg, acts), file, images[i].target);
  }

  /** And if the pass lost nothing, so is the one it leaves at its end, and every value of its store on the way. */
  lemma PassSafe(cfg: Config, sys: System, a: Action, images: seq<Disk>, n: nat, stores: seq<Data>, m: nat,
                 file: Option<File>)
    requires Safe(sys) && Legal(cfg, sys, a) && (a.FailedPull? || (a.Sync? && Lossless(PassOf(cfg, sys, a).trace)))
    requires Holds(file, sys.file.data)
    requires E.PassImages(images, n, file, sys.mem.data, Some(File(Whole(Step(cfg, sys, a).mem.data), true)))
    requires Until(stores, m, sys.mem.data, TouchedIn(cfg, sys, a), Step(cfg, sys, a).mem.data)
    ensures AllSafe(Step(cfg, sys, a), images, n, stores, m)
  {
    var next := Step(cfg, sys, a);
    if a.Sync? {
      SyncLosesNothing(cfg, sys, a);
    }
    StepSafe(cfg, sys, a);
    assert next.lib == sys.lib && next.high == sys.high;
    forall i | n <= i < |images| ensures SafeImage(next, images[i].target) {
      if A.TokenImage(images[i].target, file, sys.mem.data) {
        TokenImageSafe(sys, file, images[i].target);
      } else {
        assert forall d :: Holds(images[i].target, d) ==> d == next.mem.data;
      }
    }
    forall i | m <= i < |stores| ensures SafeStore(next, stores[i]) {
      if stores[i] != next.mem.data {
        MidPassSafe(cfg, sys, a, stores[i]);
      }
    }
  }

  lemma MidPassSafe(cfg: Config, sys: System, a: Action, x: Data)
    requires Safe(sys) && Legal(cfg, sys, a) && (a.FailedPull? || a.Sync?)
    requires Agrees(x, sys.mem.data, TouchedIn(cfg, sys, a))
    ensures SafeStore(sys, x)
  {
    if a.Sync? {
      Intermediate.NothingLostMidPass(cfg, sys, a, x);
    } else {
      forall h | h in sys.lib && !sys.lib[h].IsDummy() && sys.lib[h].WatermarkMs() <= x.watermarkMs
        ensures Settled(x, sys.lib[h])
      {
        assert x.At(h) == sys.mem.data.At(h);
        SlotDecides(x, sys.mem.data, sys.lib[h]);
      }
    }
  }

  lemma ChangeKeepsSafe(cfg: Config, sys: System, row: BookRow, d: Data)
    requires Legal(cfg, sys, Change(row)) && SafeStore(sys, d)
    ensures SafeStore(Step(cfg, sys, Change(row)), d)
  {
  }

  lemma {:induction false} ChangesKeepSafe(cfg: Config, acts: seq<Action>, rows: seq<BookRow>, d: Data)
    requires LegalRun(cfg, acts + Changes(rows)) && SafeStore(Run(cfg, acts), d)
    ensures SafeStore(Run(cfg, acts + Changes(rows)), d)
  {
    if rows == [] {
      assert acts + Changes(rows) == acts;
    } else {
      var front, row := acts + Changes(rows[..|rows| - 1]), rows[|rows| - 1];
      assert acts + Changes(rows) == front + [Change(row)];
      assert (front + [Change(row)])[..|front|] == front;
      ChangesKeepSafe(cfg, acts, rows[..|rows| - 1], d);
      ChangeKeepsSafe(cfg, Run(cfg, front), row, d);
    }
  }

  lemma ChangesKeepAllSafe(cfg: Config, acts: seq<Action>, rows: seq<BookRow>, images: seq<Disk>, n: nat,
                           stores: seq<Data>, m: nat)
    requires LegalRun(cfg, acts + Changes(rows)) && AllSafe(Run(cfg, acts), images, n, stores, m)
    ensures AllSafe(Run(cfg, acts + Changes(rows)), images, n, stores, m)
  {
    forall d | SafeStore(Run(cfg, acts), d) ensures SafeStore(Run(cfg, acts + Changes(rows)), d) {
      ChangesKeepSafe(cfg, acts, rows, d);
    }
    forall i | n <= i < |images| ensures SafeImage(Run(cfg, acts + Changes(rows)), images[i].target) {
      assert SafeImage(Run(cfg, acts), images[i].target);
    }
  }

  lemma AllSafeJoins(sys: System, a: seq<Disk>, b: seq<Disk>, n: nat, c: seq<Data>, d: seq<Data>, m: nat)
    requires n <= |a| && a <= b && m <= |c| && c <= d
    requires AllSafe(sys, a, n, c, m) && AllSafe(sys, b, |a|, d, |c|)
    ensures AllSafe(sys, b, n, d, m)
  {
    forall i | n <= i < |b| ensures SafeImage(sys, b[i].target) {
      assert i < |a| ==> b[i] == a[i];
    }
    forall i | m <= i < |d| ensures SafeStore(sys, d[i]) {
      assert i < |c| ==> d[i] == c[i];
    }
  }

  lemma SameLibrary(a: System, b: System, images: seq<Disk>, n: nat, stores: seq<Data>, m: nat)
    requires a.lib == b.lib && a.high == b.high && AllSafe(a, images, n, stores, m)
    ensures AllSafe(b, images, n, stores, m)
  {
    forall i | n <= i < |images| ensures SafeImage(b, images[i].target) {
      assert SafeImage(a, images[i].target);
    }
  }

  /** The runs in which nothing can be lost. */
  ghost predicate Careful(cfg: Config, acts: seq<Action>) { LegalRun(cfg, acts) && LosslessRun(cfg, acts) }

  lemma {:induction false} CarefulFront(cfg: Config, a: seq<Action>, b: seq<Action>)
    requires Careful(cfg, a + b)
    ensures Careful(cfg, a)
    decreases |b|
  {
    if b == [] {
      assert a + b == a;
    } else {
      assert (a + b)[..|a + b| - 1] == a + b[..|b| - 1];
      CarefulFront(cfg, a, b[..|b| - 1]);
    }
  }

  /** The pass of a round: what it leaves on disk and in the store, after any changes of the server. */
  lemma RoundSafe(cfg: Config, mid: seq<Action>, a: Action, images: seq<Disk>, n: nat, stores: seq<Data>, m: nat,
                  file: Option<File>)
    requires Careful(cfg, mid + [a]) && (a.FailedPull? || a.Sync?) && Holds(file, Run(cfg, mid).file.data)
    requires E.PassImages(images, n, file, Run(cfg, mid).mem.data,
                          Some(File(Whole(Run(cfg, mid + [a]).mem.data), true)))
    requires Until(stores, m, Run(cfg, mid).mem.data, TouchedIn(cfg, Run(cfg, mid), a), Run(cfg, mid + [a]).mem.data)
    ensures AllSafe(Run(cfg, mid + [a]), images, n, stores, m)
    ensures Run(cfg, mid + [a]).lib == Run(cfg, mid).lib && Run(cfg, mid + [a]).high == Run(cfg, mid).high
  {
    RunSnoc(cfg, mid, a);
    assert (mid + [a])[..|mid|] == mid;
    NoUpdateIsLost(cfg, mid);
    PassSafe(cfg, Run(cfg, mid), a, images, n, stores, m, file);
  }

  /** Run: pass after pass. The engine's state is at every moment that of a run of the abstract system. So, if that
      run was legal and lossless, no update was lost: not in any value the store has had meanwhile, after any setter
      call of any pass; nor in any state the disk has been in, between any two file steps of any save, so that a
      bridge restarted on whatever a crash leaves re-pulls everything unsettled. */
  method RunRounds(e: E.Engine, rounds: seq<Round>, ghost before: seq<Action>) returns (ghost acts: seq<Action>)
    requires Represents(e, Run(e.cfg, before))
    modifies e`bulkUnsupported, e.rd, e.rd.auth, e.st
    ensures before <= acts && Represents(e, Run(e.cfg, acts))
    ensures old(e.st.images) <= e.st.images && old(e.st.stores) <= e.st.stores
    ensures LegalRun(e.cfg, acts) ==> Sound(Run(e.cfg, acts))
    ensures Careful(e.cfg, acts) ==>
              NothingLost(Run(e.cfg, acts).lib, e.st.data)
              && AllSafe(Run(e.cfg, acts), e.st.images, |old(e.st.images)|, e.st.stores, |old(e.st.stores)|)
  {
    acts := before;
    ghost var n, m := |e.st.images|, |e.st.stores|;
    for i := 0 to |rounds|
      invariant before <= acts && Represents(e, Run(e.cfg, acts))
      invariant old(e.st.images) <= e.st.images && old(e.st.stores) <= e.st.stores
      invariant Careful(e.cfg, acts) ==> AllSafe(Run(e.cfg, acts), e.st.images, n, e.st.stores, m)
    {
      ghost var a, next;
      a, next := OneRound(e, rounds[i], acts, n, m);
      acts := next;
    }
    if LegalRun(e.cfg, acts) {
      RunSound(e.cfg, acts);
      if LosslessRun(e.cfg, acts) {
        NoUpdateIsLost(e.cfg, acts);
      }
    }
  }

  method OneRound(e: E.Engine, round: Round, ghost acts: seq<Action>, ghost n: nat, ghost m: nat)
    returns (ghost a: Action, ghost next: seq<Action>)
    requires Represents(e, Run(e.cfg, acts)) && n <= |e.st.images| && m <= |e.st.stores|
    requires Careful(e.cfg, acts) ==> AllSafe(Run(e.cfg, acts), e.st.images, n, e.st.stores, m)
    modifies e`bulkUnsupported, e.rd, e.rd.auth, e.st
    ensures next == acts + Changes(round.changes) + [a] && Represents(e, Run(e.cfg, next))
    ensures old(e.st.images) <= e.st.images && old(e.st.stores) <= e.st.stores
    ensures Careful(e.cfg, next) ==> AllSafe(Run(e.cfg, next), e.st.images, n, e.st.stores, m)
  {
    ghost var mid, images, stores, file := acts + Changes(round.changes), e.st.images, e.st.stores, e.st.disk.target;
    ChangesAlone(e.cfg, acts, round.changes);
    var r;
    r, a := Pass(e, round.w, round.pauses, Run(e.cfg, mid));
    RunSnoc(e.cfg, mid, a);
    next := mid + [a];
    if Careful(e.cfg, next) {
      CarefulFront(e.cfg, mid, [a]);
      CarefulFront(e.cfg, acts, Changes(round.changes));
      ChangesKeepAllSafe(e.cfg, acts, round.changes, images, n, stores, m);
      RoundSafe(e.cfg, mid, a, e.st.images, |images|, e.st.stores, |stores|, file);
      SameLibrary(Run(e.cfg, mid), Run(e.cfg, next), images, n, stores, m);
      AllSafeJoins(Run(e.cfg, next), images, e.st.images, n, stores, e.st.stores, m);
    }
  }
}
