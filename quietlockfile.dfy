/** The non-throwing marker-file lock of the first generation (cache/fallback LockFile).

    The protocol is that of the later LockedFile (look, remove an expired marker,
    create-if-absent), judged at the wall clock, but no step throws: every I/O
    failure is logged and turned into "not acquired", and release reports whether
    it deleted a marker. */
module QuietLockFiles {
  import opened Failures
  import opened FileSystems
  import opened Paths
  import opened LockedFiles

  /** The create-if-absent half: acquired exactly when this process created the marker. */
  function AcquireQuietStep(files: Files, lock: Path, time: int, raced: bool, createFails: bool): Step<bool> {
    var c := CreateFileStep(RacedStep(files, lock, raced, time), lock, time, createFails);
    Step(Ok(c.result.Ok?), c.files)
  }

  /** tryUnlockExpired: true when deleteIfExists returned, whatever it found; false on I/O failure. */
  function TryUnlockExpiredStep(files: Files, lock: Path, fails: bool): (s: Step<bool>)
    ensures s.result == Ok(!fails)
    ensures s.files == if fails then files else files - {lock}
  {
    var d := DeleteIfExistsStep(files, lock, fails);
    Step(Ok(d.result.Ok?), d.files)
  }

  /** tryLock that never throws, judged at `now`; a marker it creates is stamped `time`. */
  function TryLockQuietSpec(files: Files, lock: Path, now: int, maxDuration: nat, time: int, f: LockFaults): (s: Step<bool>)
    ensures s.result.Ok?
    ensures s.result.value <==>
      (lock !in files || (ExpiredAt(files, lock, now, maxDuration, f.mtimeUnreadable) && !f.deleteFails))
      && !f.raced && !f.createFails
    ensures s.result.value ==> s.files == files[lock := EmptyFile(time)]
    // a live marker, or an expired one that cannot be deleted, is left alone
    ensures lock in files && !ExpiredAt(files, lock, now, maxDuration, f.mtimeUnreadable) ==> s == Step(Ok(false), files)
    ensures lock in files && f.deleteFails ==> s == Step(Ok(false), files)
    ensures s.files - {lock} == files - {lock}
  {
    if lock in files && !ExpiredAt(files, lock, now, maxDuration, f.mtimeUnreadable) then Step(Ok(false), files)
    else if lock in files then
      var u := TryUnlockExpiredStep(files, lock, f.deleteFails);
      if !u.result.value then Step(Ok(false), u.files)
      else AcquireQuietStep(u.files, lock, time, f.raced, f.createFails)
    else AcquireQuietStep(files, lock, time, f.raced, f.createFails)
  }

  /** release: whether a marker was deleted; false, never an exception, on I/O failure. */
  function ReleaseQuietSpec(files: Files, lock: Path, fails: bool): (s: Step<bool>)
    ensures s.result == Ok(lock in files && !fails)
    ensures s.files == if fails then files else files - {lock}
  {
    var d := DeleteIfExistsStep(files, lock, fails);
    if d.result.Err? then Step(Ok(false), d.files) else d
  }

  /** runIfLock(Runnable): run `op` once when the lock is acquired and release in a
      finally; the release cannot throw, so the operation's own outcome is the result. */
  function RunIfLockQuietSpec(files: Files, lock: Path, now: int, maxDuration: nat, time: int, f: LockFaults,
                              op: Files -> Step<()>, releaseFails: bool): (s: Step<bool>)
    ensures var t := TryLockQuietSpec(files, lock, now, maxDuration, time, f);
      !t.result.value ==> s == t
    ensures var o := op(files[lock := EmptyFile(time)]);
      TryLockQuietSpec(files, lock, now, maxDuration, time, f).result.value ==>
        && s.result == (if o.result.Ok? then Ok(true) else Err(o.result.error))
        && s.files == (if releaseFails then o.files else o.files - {lock})
    ensures s.result == Ok(true) ==> op(files[lock := EmptyFile(time)]).result.Ok?
  {
    var t := TryLockQuietSpec(files, lock, now, maxDuration, time, f);
    if !t.result.value then t
    else
      var o := op(t.files);
      var r := ReleaseQuietSpec(o.files, lock, releaseFails);
      Step(Finally(if o.result.Ok? then Ok(true) else Err(o.result.error), Void(r.result)), r.files)
  }

  /** The marker of a value file under this class's naming. */
  function QuietLockPath(forFile: Path): Path {
    Sibling(forFile, LOCK_FILE_POSTFIX)
  }

  class LockFile {
    const fs: FileSystem
    /** The marker itself. */
    const file: Path
    const maximumLockingDuration: nat

    constructor (fs: FileSystem, forFile: Path)
      ensures this.fs == fs && file == QuietLockPath(forFile) && maximumLockingDuration == DEFAULT_EXPIRY_TIME
    {
      this.fs := fs;
      file := QuietLockPath(forFile);
      maximumLockingDuration := DEFAULT_EXPIRY_TIME;
    }

    constructor WithExpiry(fs: FileSystem, forFile: Path, maximumLockingDuration: nat)
      ensures this.fs == fs && file == QuietLockPath(forFile) && this.maximumLockingDuration == maximumLockingDuration
    {
      this.fs := fs;
      file := QuietLockPath(forFile);
      this.maximumLockingDuration := maximumLockingDuration;
    }

    method IsLocked() returns (b: bool)
      ensures b <==> file in fs.files
    {
      b := fs.Exists(file);
    }

    method IsExpired(unreadable: bool) returns (b: bool)
      ensures b == ExpiredAt(fs.files, file, fs.wallClock.millis, maximumLockingDuration, unreadable)
    {
      var m := fs.GetLastModifiedTime(file, unreadable);
      b := m.Ok? && m.value < fs.wallClock.millis - maximumLockingDuration;
    }

    method TryUnlockExpired(fails: bool) returns (b: bool)
      modifies fs`files
      ensures Step(Ok(b), fs.files) == TryUnlockExpiredStep(old(fs.files), file, fails)
    {
      var d := fs.DeleteIfExists(file, fails);
      b := d.Ok?;
    }

    method TryLock(f: LockFaults) returns (b: bool)
      modifies fs`files
      ensures Step(Ok(b), fs.files) == TryLockQuietSpec(old(fs.files), file, fs.wallClock.millis, maximumLockingDuration, fs.wallClock.millis, f)
    {
      var locked := IsLocked();
      if locked {
        var expired := IsExpired(f.mtimeUnreadable);
        if expired {
          var unlocked := TryUnlockExpired(f.deleteFails);
          if !unlocked {
            return false;
          }
        } else {
          return false;
        }
      }
      fs.OtherProcessCreates(file, f.raced);
      var created := fs.CreateFile(file, f.createFails);
      b := created.Ok?;
    }

    method Release(fails: bool) returns (wasDeleted: bool)
      modifies fs`files
      ensures Step(Ok(wasDeleted), fs.files) == ReleaseQuietSpec(old(fs.files), file, fails)
    {
      var d := fs.DeleteIfExists(file, fails);
      wasDeleted := d.Ok? && d.value;
    }

    method RunIfLock(delegate: Files -> Step<()>, f: LockFaults, releaseFails: bool) returns (r: Result<bool>)
      modifies fs`files
      ensures Step(r, fs.files) == RunIfLockQuietSpec(old(fs.files), file, fs.wallClock.millis, maximumLockingDuration,
                                                      fs.wallClock.millis, f, delegate, releaseFails)
    {
      var acquired := TryLock(f);
      if !acquired {
        return Ok(false);
      }
      var ran := fs.Perform(delegate);
      var _ := Release(releaseFails);
      r := if ran.Ok? then Ok(true) else Err(ran.error);
    }
  }
}
