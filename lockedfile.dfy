/** The expiring marker-file lock of the second generation (cache2 LockedFile).

    A lock on a value file is an empty sibling file, the marker. Whoever creates the
    marker holds the lock; whoever holds it deletes the marker when done. A marker
    whose last-modified time lies strictly more than the maximum locking duration
    before the injected clock's reading is considered abandoned and may be removed by
    anyone. */
module LockedFiles {
  import opened Failures
  import opened FileSystems
  import opened Paths

  /** DEFAULT_EXPIRY_TIME: ten minutes, in milliseconds. */
  const DEFAULT_EXPIRY_TIME: nat := 10 * 60 * 1000

  /** The I/O failures one tryLock may meet: the marker's mtime cannot be read, deleting
      an expired marker fails, another process creates the marker just before this one
      does, creating the marker fails. */
  datatype LockFaults = LockFaults(mtimeUnreadable: bool, deleteFails: bool, raced: bool, createFails: bool)

  const NO_FAULTS: LockFaults := LockFaults(false, false, false, false)

  /** The marker of a value file: its sibling with the class's postfix. */
  function LockPath(file: Path): Path {
    Sibling(file, LOCKED_FILE_POSTFIX)
  }

  /** isExpiredAt: the marker's mtime is strictly before `now - maxDuration`;
      an mtime that cannot be read counts as not expired. */
  predicate ExpiredAt(files: Files, lock: Path, now: int, maxDuration: nat, unreadable: bool) {
    var m := LastModifiedStep(files, lock, unreadable);
    m.Ok? && m.value < now - maxDuration
  }

  /** A marker is still valid exactly `maxDuration` after it was stamped, expired one
      millisecond later, and never expired when its mtime cannot be read. */
  lemma ExpiryIsStrict(files: Files, lock: Path, maxDuration: nat)
    requires lock in files
    ensures !ExpiredAt(files, lock, files[lock].mtime + maxDuration, maxDuration, false)
    ensures ExpiredAt(files, lock, files[lock].mtime + maxDuration + 1, maxDuration, false)
    ensures forall now :: !ExpiredAt(files, lock, now, maxDuration, true)
  {
  }

  /** releaseExpired: deleteIfExists on the marker; an I/O failure becomes UnableToReleaseLock. */
  function ReleaseExpiredStep(files: Files, lock: Path, fails: bool): (s: Step<bool>)
    ensures s.result.Ok? <==> !fails
    ensures s.result.Ok? ==> s.result.value && s.files == files - {lock}
    ensures s.result.Err? ==> s.files == files && s.result.error == Wrap(UnableToReleaseLock, Raise(IoFailure))
  {
    var d := DeleteIfExistsStep(files, lock, fails);
    if d.result.Err? then Step(Err(Wrap(UnableToReleaseLock, d.result.error)), d.files)
    else Step(Ok(true), d.files)
  }

  /** The create-if-absent half of tryLock: true when this process created the marker,
      false when some process had it first, UnableToAcquireLock on any other failure. */
  function AcquireStep(files: Files, lock: Path, time: int, raced: bool, createFails: bool): Step<bool> {
    var c := CreateFileStep(RacedStep(files, lock, raced, time), lock, time, createFails);
    if c.result.Ok? then Step(Ok(true), c.files)
    else if c.result.error.kind == FileAlreadyExists then Step(Ok(false), c.files)
    else Step(Err(Wrap(UnableToAcquireLock, c.result.error)), c.files)
  }

  /** tryLock, judged at the clock reading `now`; a marker it creates is stamped `time`. */
  function TryLockSpec(files: Files, lock: Path, now: int, maxDuration: nat, time: int, f: LockFaults): (s: Step<bool>)
    // acquired exactly when the marker was absent or expired and removable, and the create won
    ensures s.result == Ok(true) <==>
      (lock !in files || (ExpiredAt(files, lock, now, maxDuration, f.mtimeUnreadable) && !f.deleteFails))
      && !f.raced && !f.createFails
    ensures s.result == Ok(true) ==> s.files == files[lock := EmptyFile(time)]
    // a live marker is respected and nothing changes
    ensures lock in files && !ExpiredAt(files, lock, now, maxDuration, f.mtimeUnreadable) ==> s == Step(Ok(false), files)
    // refusing means somebody else's marker is in place
    ensures s.result == Ok(false) ==> lock in s.files
    // the two exceptions, each wrapping the I/O failure
    ensures s.result.Err? <==>
      (lock in files && ExpiredAt(files, lock, now, maxDuration, f.mtimeUnreadable) && f.deleteFails)
      || ((lock !in files || (ExpiredAt(files, lock, now, maxDuration, f.mtimeUnreadable) && !f.deleteFails))
          && !f.raced && f.createFails)
    ensures s.result.Err? ==>
              s.result.error == Wrap(if lock in files && f.deleteFails then UnableToReleaseLock else UnableToAcquireLock,
                                     Raise(IoFailure))
    // only the marker is touched
    ensures s.files - {lock} == files - {lock}
  {
    if lock in files && !ExpiredAt(files, lock, now, maxDuration, f.mtimeUnreadable) then Step(Ok(false), files)
    else if lock in files then
      var r := ReleaseExpiredStep(files, lock, f.deleteFails);
      if r.result.Err? then Step(Err(r.result.error), r.files)
      else AcquireStep(r.files, lock, time, f.raced, f.createFails)
    else AcquireStep(files, lock, time, f.raced, f.createFails)
  }

  /** release: delete the marker; its absence is TryingToDeleteNonExistingLockFile,
      any other failure UnableToReleaseLock. */
  function ReleaseSpec(files: Files, lock: Path, fails: bool): (s: Step<()>)
    ensures s.result.Ok? <==> lock in files && !fails
    ensures s.result.Ok? ==> s.files == files - {lock}
    ensures s.result.Err? ==> s.files == files
    ensures lock !in files ==> s.result == Err(Wrap(TryingToDeleteNonExistingLockFile, Raise(NoSuchFile)))
    ensures lock in files && fails ==> s.result == Err(Wrap(UnableToReleaseLock, Raise(IoFailure)))
  {
    var d := DeleteStep(files, lock, fails);
    if d.result.Ok? then d
    else if d.result.error.kind == NoSuchFile then Step(Err(Wrap(TryingToDeleteNonExistingLockFile, d.result.error)), d.files)
    else Step(Err(Wrap(UnableToReleaseLock, d.result.error)), d.files)
  }

  /** runIfLock: when tryLock yields the lock, run `op` once and release in a finally. */
  function RunIfLockSpec(files: Files, lock: Path, now: int, maxDuration: nat, time: int, f: LockFaults,
                         op: Files -> Step<()>, releaseFails: bool): (s: Step<bool>)
    // not acquired: tryLock's false or exception, and the operation does not run
    ensures var t := TryLockSpec(files, lock, now, maxDuration, time, f);
      t.result != Ok(true) ==> s == t
    // acquired: the operation runs once on the locked state, then the marker is released
    ensures var o := op(files[lock := EmptyFile(time)]);
      TryLockSpec(files, lock, now, maxDuration, time, f).result == Ok(true) ==>
        && (lock in o.files && !releaseFails ==>
              s.files == o.files - {lock} && s.result == (if o.result.Ok? then Ok(true) else Err(o.result.error)))
        && (lock !in o.files ==> s == Step(Err(Wrap(TryingToDeleteNonExistingLockFile, Raise(NoSuchFile))), o.files))
        && (lock in o.files && releaseFails ==> s == Step(Err(Wrap(UnableToReleaseLock, Raise(IoFailure))), o.files))
    // true means the operation ran, returned normally, and the marker is gone
    ensures s.result == Ok(true) ==>
      TryLockSpec(files, lock, now, maxDuration, time, f).result == Ok(true)
      && op(files[lock := EmptyFile(time)]).result.Ok? && lock !in s.files
  {
    var t := TryLockSpec(files, lock, now, maxDuration, time, f);
    if t.result != Ok(true) then t
    else
      var o := op(t.files);
      var r := ReleaseSpec(o.files, lock, releaseFails);
      Step(Finally(if o.result.Ok? then Ok(true) else Err(o.result.error), r.result), r.files)
  }

  /** Whether the operation is run depends only on tryLock: when it refuses or throws,
      any two operations give the same outcome. */
  lemma NotRunWithoutLock(files: Files, lock: Path, now: int, maxDuration: nat, time: int, f: LockFaults,
                          op1: Files -> Step<()>, op2: Files -> Step<()>, releaseFails: bool)
    requires TryLockSpec(files, lock, now, maxDuration, time, f).result != Ok(true)
    ensures RunIfLockSpec(files, lock, now, maxDuration, time, f, op1, releaseFails)
         == RunIfLockSpec(files, lock, now, maxDuration, time, f, op2, releaseFails)
  {
  }

  /** A LockedFile guards `file` through the marker `lockfile`, judging expiry by `clock`. */
  class LockedFile {
    const fs: FileSystem
    const file: Path
    const lockfile: Path
    const maximumLockingDuration: nat
    const clock: Clock

    /** LockedFile(forFile, clock): the default ten-minute expiry. */
    constructor (fs: FileSystem, forFile: Path, clock: Clock)
      ensures this.fs == fs && file == forFile && lockfile == LockPath(forFile)
      ensures maximumLockingDuration == DEFAULT_EXPIRY_TIME && this.clock == clock
    {
      this.fs := fs;
      file := forFile;
      lockfile := LockPath(forFile);
      maximumLockingDuration := DEFAULT_EXPIRY_TIME;
      this.clock := clock;
    }

    constructor WithExpiry(fs: FileSystem, forFile: Path, maximumLockingDuration: nat, clock: Clock)
      ensures this.fs == fs && file == forFile && lockfile == LockPath(forFile)
      ensures this.maximumLockingDuration == maximumLockingDuration && this.clock == clock
    {
      this.fs := fs;
      file := forFile;
      lockfile := LockPath(forFile);
      this.maximumLockingDuration := maximumLockingDuration;
      this.clock := clock;
    }

    method IsLocked() returns (b: bool)
      ensures b <==> lockfile in fs.files
    {
      b := fs.Exists(lockfile);
    }

    method IsExpiredAt(now: int, unreadable: bool) returns (b: bool)
      ensures b == ExpiredAt(fs.files, lockfile, now, maximumLockingDuration, unreadable)
    {
      var m := fs.GetLastModifiedTime(lockfile, unreadable);
      b := m.Ok? && m.value < now - maximumLockingDuration;
    }

    method ReleaseExpired(fails: bool) returns (r: Result<bool>)
      modifies fs`files
      ensures Step(r, fs.files) == ReleaseExpiredStep(old(fs.files), lockfile, fails)
    {
      var d := fs.DeleteIfExists(lockfile, fails);
      r := if d.Err? then Err(Wrap(UnableToReleaseLock, d.error)) else Ok(true);
    }

    method TryLock(f: LockFaults) returns (r: Result<bool>)
      modifies fs`files
      ensures Step(r, fs.files) == TryLockSpec(old(fs.files), lockfile, clock.millis, maximumLockingDuration, fs.wallClock.millis, f)
    {
      var locked := IsLocked();
      if locked {
        var expired := IsExpiredAt(clock.millis, f.mtimeUnreadable);
        if expired {
          var released := ReleaseExpired(f.deleteFails);
          if released.Err? {
            return Err(released.error);
          }
        } else {
          return Ok(false);
        }
      }
      fs.OtherProcessCreates(lockfile, f.raced);
      var created := fs.CreateFile(lockfile, f.createFails);
      if created.Ok? {
        r := Ok(true);
      } else if created.error.kind == FileAlreadyExists {
        r := Ok(false);
      } else {
        r := Err(Wrap(UnableToAcquireLock, created.error));
      }
    }

    method Release(fails: bool) returns (r: Outcome)
      modifies fs`files
      ensures Step(r, fs.files) == ReleaseSpec(old(fs.files), lockfile, fails)
    {
      r := fs.Delete(lockfile, fails);
      if r.Err? {
        r := Err(Wrap(if r.error.kind == NoSuchFile then TryingToDeleteNonExistingLockFile else UnableToReleaseLock, r.error));
      }
    }

    method RunIfLock(op: Files -> Step<()>, f: LockFaults, releaseFails: bool) returns (r: Result<bool>)
      modifies fs`files
      ensures Step(r, fs.files) == RunIfLockSpec(old(fs.files), lockfile, clock.millis, maximumLockingDuration,
                                                 fs.wallClock.millis, f, op, releaseFails)
    {
      r := TryLock(f);
      if r != Ok(true) {
        return;
      }
      var ran := fs.Perform(op);
      var released := Release(releaseFails);
      r := Finally(if ran.Ok? then Ok(true) else Err(ran.error), released);
    }
  }
}
