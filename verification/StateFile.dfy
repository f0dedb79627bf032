/** The state file (internal/sync/state/file.go): setters in place, and a save as a sequence of file steps
    any of which may fail and between any two of which the machine may stop. */
module StateFile {
  import opened Wrappers
  import opened Token
  import opened State

  /** What a file reads back as. */
  datatype Contents = Whole(data: Data) | Torn

  datatype File = File(contents: Contents, synced: bool)

  /** The state file and the temporary file beside it. */
  datatype Disk = Disk(target: Option<File>, temp: Option<File>)

  /** What the state file can read back as after a crash: a file that was not synced may be torn. */
  ghost predicate Survives(disk: Disk, after: Option<Contents>) {
    match disk.target
    case None => after == None
    case Some(f) => after == Some(f.contents) || (!f.synced && after == Some(Torn))
  }

  /** The steps of saveLocked that can fail, in order. */
  datatype SaveStep =
    | MakeDir | Encode | CreateTemp | ChmodTemp | WriteTemp | SyncTemp | CloseTemp | Rename | ChmodTarget | RemoveTemp

  /** Which step of which save fails. */
  type Faults = (nat, SaveStep) -> bool

  predicate TempFails(faults: Faults, n: nat) {
    faults(n, ChmodTemp) || faults(n, WriteTemp) || faults(n, SyncTemp) || faults(n, CloseTemp)
  }

  /** The save gets as far as replacing the state file. */
  predicate Replaces(faults: Faults, n: nat) {
    !faults(n, MakeDir) && !faults(n, Encode) && !faults(n, CreateTemp) && !TempFails(faults, n) && !faults(n, Rename)
  }

  predicate SaveOk(faults: Faults, n: nat) { Replaces(faults, n) && !faults(n, ChmodTarget) }

  /** Every step of a save works, but perhaps for some that do not matter. */
  ghost predicate AllWork(faults: Faults, n: nat, aside: set<SaveStep>) {
    forall step :: step !in aside ==> !faults(n, step)
  }

  lemma EveryStep(step: SaveStep)
    ensures step in {MakeDir, Encode, CreateTemp, ChmodTemp, WriteTemp, SyncTemp, CloseTemp, Rename, ChmodTarget,
                     RemoveTemp}
  {
    match step
    case MakeDir =>
    case Encode =>
    case CreateTemp =>
    case ChmodTemp =>
    case WriteTemp =>
    case SyncTemp =>
    case CloseTemp =>
    case Rename =>
    case ChmodTarget =>
    case RemoveTemp =>
  }

  /** A save succeeds exactly when all its steps do but for the removal of the temporary file; and the state file is
      replaced even if the last chmod fails. */
  lemma SavedExactly(faults: Faults, n: nat)
    ensures SaveOk(faults, n) <==> AllWork(faults, n, {RemoveTemp})
    ensures Replaces(faults, n) <==> AllWork(faults, n, {RemoveTemp, ChmodTarget})
  {
    forall step: SaveStep | Replaces(faults, n) && step !in {RemoveTemp, ChmodTarget} ensures !faults(n, step) {
      EveryStep(step);
    }
  }

  datatype LoadError = Unreadable | Unparseable

  /** The state file is the one that was found, or it is complete, on disk, and holds the store as it was at some
      save. */
  ghost predicate Intact(disk: Disk, found: Option<Contents>, history: seq<Data>) {
    disk.target == AsFound(found) || (disk.target.Some? && IsSaved(disk.target.value, history))
  }

  function AsFound(found: Option<Contents>): Option<File> {
    if found.Some? then Some(File(found.value, true)) else None
  }

  ghost predicate IsSaved(f: File, history: seq<Data>) {
    f.contents.Whole? && f.synced && f.contents.data in history
  }

  ghost predicate AllIntact(images: seq<Disk>, found: Option<Contents>, history: seq<Data>) {
    forall i :: 0 <= i < |images| ==> Intact(images[i], found, history)
  }

  /** From the n-th disk state on, the state file was one of these two. */
  ghost predicate Between(images: seq<Disk>, n: nat, a: Option<File>, b: Option<File>) {
    forall i :: n <= i < |images| ==> images[i].target == a || images[i].target == b
  }

  class FileStore {
    var data: Data
    var disk: Disk
    /** The number of saves begun; a save looks its faults up by it. */
    var saves: nat
    const faults: Faults
    /** What the state file held when the store was opened. */
    const found: Option<Contents>
    /** Every disk state there has been, the store at every save, and every value of the store. */
    ghost var images: seq<Disk>
    ghost var history: seq<Data>
    ghost var stores: seq<Data>

    ghost predicate Valid()
      reads this
    {
      images != [] && images[|images| - 1] == disk && AllIntact(images, found, history)
    }

    /** NewFileStore, on a disk with no state file or with any state file. */
    constructor (found: Option<Contents>, faults: Faults)
      ensures Valid() && data == NEW_DATA && saves == 0 && this.faults == faults && this.found == found
      ensures disk == Disk(AsFound(found), None) && history == []
    {
      this.faults, this.found := faults, found;
      data, saves := NEW_DATA, 0;
      disk := Disk(AsFound(found), None);
      images := [Disk(AsFound(found), None)];
      history, stores := [], [NEW_DATA];
    }

    /** Load: no file is the empty store; a file that cannot be read or parsed is an error and leaves the store
        alone. */
    method Load(readFails: bool) returns (err: Option<LoadError>)
      modifies this`data, this`stores
      ensures err == if disk.target.None? then None
                     else if readFails then Some(Unreadable)
                     else if disk.target.value.contents.Torn? then Some(Unparseable)
                     else None
      ensures data == if err.Some? then old(data)
                      else if disk.target.None? then NEW_DATA
                      else disk.target.value.contents.data
    {
      if disk.target.None? {
        data := NEW_DATA;
        stores := stores + [data];
        return None;
      }
      if readFails {
        return Some(Unreadable);
      }
      match disk.target.value.contents {
        case Whole(d) =>
          data := d;
          stores := stores + [data];
          return None;
        case Torn =>
          return Some(Unparseable);
      }
    }

    /** One change of the disk. */
    method Put(next: Disk)
      requires Valid() && Intact(next, found, history)
      modifies this`disk, this`images
      ensures Valid() && disk == next && images == old(images) + [next]
    {
      disk := next;
      images := images + [next];
    }

    /** Chmod, write, sync and close of the temporary file. */
    method FillTemp() returns (ok: bool)
      requires Valid() && disk.temp.Some?
      modifies this`disk, this`images
      ensures Valid() && disk.target == old(disk.target) && disk.temp.Some?
      ensures old(images) <= images && Between(images, |old(images)|, old(disk.target), old(disk.target))
      ensures ok <==> !TempFails(faults, saves)
      ensures ok ==> disk.temp == Some(File(Whole(data), true))
    {
      assert Intact(images[|images| - 1], found, history);
      if faults(saves, ChmodTemp) {
        return false;
      }
      if faults(saves, WriteTemp) {
        return false;
      }
      Put(disk.(temp := Some(File(Whole(data), false))));
      if faults(saves, SyncTemp) {
        return false;
      }
      Put(disk.(temp := Some(File(Whole(data), true))));
      return !faults(saves, CloseTemp);
    }

    /** The deferred removal of the temporary file, whose error is ignored. */
    method Cleanup()
      requires Valid()
      modifies this`disk, this`images
      ensures Valid() && disk.target == old(disk.target)
      ensures old(images) <= images && Between(images, |old(images)|, old(disk.target), old(disk.target))
      ensures disk.temp == if faults(saves, RemoveTemp) then old(disk.temp) else None
    {
      assert Intact(images[|images| - 1], found, history);
      if !faults(saves, RemoveTemp) {
        Put(disk.(temp := None));
      }
    }

    method SaveLocked() returns (ok: bool)
      requires Valid() && data in history
      modifies this`disk, this`images
      ensures Valid()
      ensures ok == SaveOk(faults, saves)
      ensures disk.target == if Replaces(faults, saves) then Some(File(Whole(data), true)) else old(disk.target)
      ensures disk.temp.Some? ==> old(disk.temp).Some? || faults(saves, RemoveTemp)
      ensures old(images) <= images && Between(images, |old(images)|, old(disk.target), Some(File(Whole(data), true)))
    {
      assert Intact(images[|images| - 1], found, history);
      if faults(saves, MakeDir) || faults(saves, Encode) || faults(saves, CreateTemp) {
        return false;
      }
      Put(disk.(temp := Some(File(Torn, false))));
      ok := FillTemp();
      if !ok || faults(saves, Rename) {
        Cleanup();
        return false;
      }
      Put(Disk(disk.temp, None));
      Cleanup();
      return !faults(saves, ChmodTarget);
    }

    /** Save: either the state file is replaced by one complete synced copy of the store, or it is what it was. An error
        does not mean the latter: the last chmod can fail on a file that is already in place. */
    method Save() returns (ok: bool)
      requires Valid()
      modifies this`disk, this`saves, this`images, this`history
      ensures Valid() && saves == old(saves) + 1 && history == old(history) + [data]
      ensures ok == SaveOk(faults, old(saves)) == AllWork(faults, old(saves), {RemoveTemp})
      ensures disk.target == if Replaces(faults, old(saves)) then Some(File(Whole(data), true)) else old(disk.target)
      ensures Replaces(faults, old(saves)) <==> AllWork(faults, old(saves), {RemoveTemp, ChmodTarget})
      ensures old(disk.temp).None? && !faults(old(saves), RemoveTemp) ==> disk.temp.None?
      ensures old(images) <= images && Between(images, |old(images)|, old(disk.target), Some(File(Whole(data), true)))
    {
      history := history + [data];
      IntactGrows(images, found, old(history), data);
      SavedExactly(faults, saves);
      ok := SaveLocked();
      saves := saves + 1;
    }

    method SetToken(t: Token)
      modifies this`data, this`stores
      ensures data == old(data).(token := t) && stores == old(stores) + [data]
    {
      data := data.(token := t);
      stores := stores + [data];
    }

    /** The device identity is generated once and never changes again. */
    method DeviceId(generated: string) returns (id: string)
      modifies this`data, this`stores
      ensures id == data.deviceId && data == old(data).(deviceId := data.deviceId)
      ensures data.deviceId == if old(data).deviceId == "" then generated else old(data).deviceId
    {
      if data.deviceId == "" {
        data := data.(deviceId := generated);
        stores := stores + [data];
      }
      return data.deviceId;
    }

    method SetWatermark(ms: int)
      modifies this`data, this`stores
      ensures data == old(data).(watermarkMs := ms) && stores == old(stores) + [data]
    {
      data := data.(watermarkMs := ms);
      stores := stores + [data];
    }

    method Match(hash: string) returns (rec: Option<MatchRecord>)
      ensures rec == data.At(hash).rec
    {
      if hash in data.matches {
        return Some(data.matches[hash]);
      }
      return None;
    }

    method SetMatch(hash: string, rec: MatchRecord)
      modifies this`data, this`stores
      ensures data == old(data).SetMatch(hash, rec) && stores == old(stores) + [data]
    {
      data := data.(matches := data.matches[hash := rec]);
      stores := stores + [data];
    }

    method DeleteMatch(hash: string)
      modifies this`data, this`stores
      ensures data == old(data).DeleteMatch(hash) && stores == old(stores) + [data]
    {
      data := data.(matches := data.matches - {hash});
      stores := stores + [data];
    }

    method UnmatchedAt(hash: string) returns (at: Option<int>)
      ensures at == data.At(hash).unmatched
    {
      if hash in data.unmatched {
        return Some(data.unmatched[hash]);
      }
      return None;
    }

    method SetUnmatched(hash: string, at: int)
      modifies this`data, this`stores
      ensures data == old(data).SetUnmatched(hash, at) && stores == old(stores) + [data]
    {
      data := data.(unmatched := data.unmatched[hash := at]);
      stores := stores + [data];
    }

    method ClearUnmatched(hash: string)
      modifies this`data, this`stores
      ensures data == old(data).ClearUnmatched(hash) && stores == old(stores) + [data]
    {
      data := data.(unmatched := data.unmatched - {hash});
      stores := stores + [data];
    }
  }

  lemma IntactGrows(images: seq<Disk>, found: Option<Contents>, history: seq<Data>, d: Data)
    requires AllIntact(images, found, history)
    ensures AllIntact(images, found, history + [d])
  {
    forall i | 0 <= i < |images| ensures Intact(images[i], found, history + [d]) {
      assert Intact(images[i], found, history);
    }
  }

  /** Crash safety of the file: whenever the machine stops, the state file reads back as it was found, or as one
      complete store that was saved since; a save never leaves a torn or partial one behind. */
  lemma CrashReadsOneSave(s: FileStore, i: nat, after: Option<Contents>)
    requires s.Valid() && i < |s.images| && Survives(s.images[i], after)
    ensures after == s.found || (after.Some? && after.value.Whole? && after.value.data in s.history)
  {
    assert Intact(s.images[i], s.found, s.history);
  }
}
