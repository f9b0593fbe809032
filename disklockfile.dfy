/** The first disk generation's marker-file lock (cache/fallback/disk LockFile).

    It runs the same protocol as the second generation's LockedFile, with its own
    postfix and one difference: expiry is judged against the wall clock, the
    clock that also stamps the marker, rather than an injected one. */
module DiskLockFiles {
  import opened Failures
  import opened FileSystems
  import opened Paths
  import opened LockedFiles

  /** The marker of a value file under this generation's naming. */
  function DiskLockPath(forFile: Path): Path {
    Sibling(forFile, DISK_LOCK_FILE_POSTFIX)
  }

  /** The two generations never pick the same marker for one value file, so their
      locks do not exclude each other. */
  lemma MarkersOfGenerationsDiffer(forFile: Path)
    ensures DiskLockPath(forFile) != LockPath(forFile)
  {
    assert DiskLockPath(forFile)[|forFile| + 18] == '.';
    assert LockPath(forFile)[|forFile| + 18] == '2';
  }

  /** This class's own nested exceptions (UnableToAcquireLock, TryingToDeleteNonExistingLockFile,
      UnableToReleaseLock) share their Kind with the same-named ones of the later LockedFile:
      an Error does not record which of the two classes threw it. */
  class LockFile {
    const fs: FileSystem
    /** The marker itself. */
    const file: Path
    const maximumLockingDuration: nat

    constructor (fs: FileSystem, forFile: Path)
      ensures this.fs == fs && file == DiskLockPath(forFile) && maximumLockingDuration == DEFAULT_EXPIRY_TIME
    {
      this.fs := fs;
      file := DiskLockPath(forFile);
      maximumLockingDuration := DEFAULT_EXPIRY_TIME;
    }

    constructor WithExpiry(fs: FileSystem, forFile: Path, maximumLockingDuration: nat)
      ensures this.fs == fs && file == DiskLockPath(forFile) && this.maximumLockingDuration == maximumLockingDuration
    {
      this.fs := fs;
      file := DiskLockPath(forFile);
      this.maximumLockingDuration := maximumLockingDuration;
    }

    method IsLocked() returns (b: bool)
      ensures b <==> file in fs.files
    {
      b := fs.Exists(file);
    }

    /** isExpired: Instant.now() is the wall clock's reading. */
    method IsExpired(unreadable: bool) returns (b: bool)
      ensures b == ExpiredAt(fs.files, file, fs.wallClock.millis, maximumLockingDuration, unreadable)
    {
      var m := fs.GetLastModifiedTime(file, unreadable);
      b := m.Ok? && m.value < fs.wallClock.millis - maximumLockingDuration;
    }

    method ReleaseExpired(fails: bool) returns (r: Result<bool>)
      modifies fs`files
      ensures Step(r, fs.files) == ReleaseExpiredStep(old(fs.files), file, fails)
    {
      var d := fs.DeleteIfExists(file, fails);
      r := if d.Err? then Err(Wrap(UnableToReleaseLock, d.error)) else Ok(true);
    }

    method TryLock(f: LockFaults) returns (r: Result<bool>)
      modifies fs`files
      ensures Step(r, fs.files) == TryLockSpec(old(fs.files), file, fs.wallClock.millis, maximumLockingDuration, fs.wallClock.millis, f)
    {
      var locked := IsLocked();
      if locked {
        var expired := IsExpired(f.mtimeUnreadable);
        if expired {
          var released := ReleaseExpired(f.deleteFails);
          if released.Err? {
            return Err(released.error);
          }
        } else {
          return Ok(false);
        }
      }
      fs.OtherProcessCreates(file, f.raced);
      var created := fs.CreateFile(file, f.createFails);
      if created.Ok? {
        r := Ok(true);
      } else if created.error.kind == FileAlreadyExists {
        r := Ok(false);
      } else {
        r := Err(Wrap(UnableToAcquireLock, created.error));
      }
    }

    method Release(fails: bool) returns (r: Outcome)
      modifies fs`files
      ensures Step(r, fs.files) == ReleaseSpec(old(fs.files), file, fails)
    {
      r := fs.Delete(file, fails);
      if r.Err? {
        r := Err(Wrap(if r.error.kind == NoSuchFile then TryingToDeleteNonExistingLockFile else UnableToReleaseLock, r.error));
      }
    }

    method RunIfLock(op: Files -> Step<()>, f: LockFaults, releaseFails: bool) returns (r: Result<bool>)
      modifies fs`files
      ensures Step(r, fs.files) == RunIfLockSpec(old(fs.files), file, fs.wallClock.millis, maximumLockingDuration,
                                                 fs.wallClock.millis, f, op, releaseFails)
    {
      r := TryLock(f);
      if r != Ok(true) {
        return;
      }
      var ran := fs.Perform(op);
      var released := Release(releaseFails);
      r := Finally(if ran.Ok? then Ok(true) else Err(ran.error), released);
    }
  }
}
