/** LockFiles (cache/fallback): the non-throwing lock protocol as a service that takes
    the marker path as a parameter of each call, with one expiry for all markers. */
module PathLockFiles {
  import opened Failures
  import opened FileSystems
  import opened LockedFiles
  import opened QuietLockFiles

  /** DEFAULT_LOCK_MAXIMUM_TIME_TO_LIVE: ten minutes, in milliseconds. */
  const DEFAULT_LOCK_MAXIMUM_TIME_TO_LIVE: nat := 10 * 60 * 1000

  class LockFiles {
    const fs: FileSystem
    const lockfileExpiration: nat

    constructor (fs: FileSystem)
      ensures this.fs == fs && lockfileExpiration == DEFAULT_LOCK_MAXIMUM_TIME_TO_LIVE
    {
      this.fs := fs;
      lockfileExpiration := DEFAULT_LOCK_MAXIMUM_TIME_TO_LIVE;
    }

    constructor WithExpiration(fs: FileSystem, lockfileExpiration: nat)
      ensures this.fs == fs && this.lockfileExpiration == lockfileExpiration
    {
      this.fs := fs;
      this.lockfileExpiration := lockfileExpiration;
    }

    method IsLocked(lockfile: Path) returns (b: bool)
      ensures b <==> lockfile in fs.files
    {
      b := fs.Exists(lockfile);
    }

    /** lockedLongerAgoThan: strict, at the wall clock; false when the mtime cannot be read. */
    method LockedLongerAgoThan(duration: nat, lockfile: Path, unreadable: bool) returns (b: bool)
      ensures b == ExpiredAt(fs.files, lockfile, fs.wallClock.millis, duration, unreadable)
    {
      var m := fs.GetLastModifiedTime(lockfile, unreadable);
      b := m.Ok? && m.value < fs.wallClock.millis - duration;
    }

    method TryDeleteExpiredLockFile(lockfile: Path, fails: bool) returns (b: bool)
      modifies fs`files
      ensures Step(Ok(b), fs.files) == TryUnlockExpiredStep(old(fs.files), lockfile, fails)
    {
      var d := fs.DeleteIfExists(lockfile, fails);
      b := d.Ok?;
    }

    method TryLock(lockfile: Path, f: LockFaults) returns (b: bool)
      modifies fs`files
      ensures Step(Ok(b), fs.files) == TryLockQuietSpec(old(fs.files), lockfile, fs.wallClock.millis, lockfileExpiration, fs.wallClock.millis, f)
    {
      var locked := IsLocked(lockfile);
      if locked {
        var expired := LockedLongerAgoThan(lockfileExpiration, lockfile, f.mtimeUnreadable);
        if expired {
          var deleted := TryDeleteExpiredLockFile(lockfile, f.deleteFails);
          if !deleted {
            return false;
          }
        } else {
          return false;
        }
      }
      fs.OtherProcessCreates(lockfile, f.raced);
      var created := fs.CreateFile(lockfile, f.createFails);
      b := created.Ok?;
    }

    method ReleaseLock(lockfile: Path, fails: bool) returns (wasDeleted: bool)
      modifies fs`files
      ensures Step(Ok(wasDeleted), fs.files) == ReleaseQuietSpec(old(fs.files), lockfile, fails)
    {
      var d := fs.DeleteIfExists(lockfile, fails);
      wasDeleted := d.Ok? && d.value;
    }

    method RunIfLock(lockfile: Path, delegate: Files -> Step<()>, f: LockFaults, releaseFails: bool) returns (r: Result<bool>)
      modifies fs`files
      ensures Step(r, fs.files) == RunIfLockQuietSpec(old(fs.files), lockfile, fs.wallClock.millis, lockfileExpiration,
                                                      fs.wallClock.millis, f, delegate, releaseFails)
    {
      var acquiredLock := TryLock(lockfile, f);
      if !acquiredLock {
        return Ok(false);
      }
      var ran := fs.Perform(delegate);
      var _ := ReleaseLock(lockfile, releaseFails);
      r := if ran.Ok? then Ok(true) else Err(ran.error);
    }
  }
}
