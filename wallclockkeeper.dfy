/** DiskFallbackKeeper of the first disk generation (cache/fallback/disk): the same
    locked write as the later keeper, guarded by the wall-clock LockFile. */
module WallClockKeepers {
  import opened Failures
  import opened FileSystems
  import opened Paths
  import opened LockedFiles
  import opened DiskLockFiles
  import opened FallbackFiles
  import opened Marshallers
  import opened DiskKeepers

  /** keep on the slot at `path`: its marker is this generation's, judged at the wall clock `time`. */
  function WallClockKeepSpec(files: Files, path: Path, time: int, random: nat -> Draw, m: Marshalled,
                             f: LockFaults, w: WriteFaults, releaseFails: bool): Step<()>
  {
    KeepSpec(files, path, DiskLockPath(path), time, time, random, m, f, w, releaseFails)
  }

  /** After keep, whatever its outcome, no marker this call acquired remains, unless
      deleting it failed. */
  lemma WallClockKeepReleasesItsMarker(files: Files, path: Path, time: int, random: nat -> Draw, m: Marshalled,
                                       f: LockFaults, w: WriteFaults)
    requires TryLockSpec(files, DiskLockPath(path), time, DEFAULT_EXPIRY_TIME, time, f).result == Ok(true)
    ensures DiskLockPath(path) !in WallClockKeepSpec(files, path, time, random, m, f, w, false).files
  {
    TempPathIsNoMarker(path, time, random);
    MarkerIsNotValue(path, DISK_LOCK_FILE_POSTFIX);
    KeepReleasesItsMarker(files, path, DiskLockPath(path), time, time, random, m, f, w);
  }

  /** A live marker makes keep return normally without writing. */
  lemma WallClockKeepRespectsLiveLock(files: Files, path: Path, time: int, random: nat -> Draw, m: Marshalled,
                                      f: LockFaults, w: WriteFaults, releaseFails: bool)
    requires DiskLockPath(path) in files && !ExpiredAt(files, DiskLockPath(path), time, DEFAULT_EXPIRY_TIME, f.mtimeUnreadable)
    ensures WallClockKeepSpec(files, path, time, random, m, f, w, releaseFails) == Step(Done, files)
  {
    KeepRespectsLiveLock(files, path, DiskLockPath(path), time, time, random, m, f, w, releaseFails);
  }

  /** An I/O failure creating the temp file reaches the caller of keep. */
  lemma WallClockKeepPropagatesWriteFailure(files: Files, path: Path, time: int, random: nat -> Draw, m: Marshalled,
                                            f: LockFaults, w: WriteFaults)
    requires TryLockSpec(files, DiskLockPath(path), time, DEFAULT_EXPIRY_TIME, time, f).result == Ok(true)
    requires TempPath(path, time, random) !in files && w.createFails
    ensures WallClockKeepSpec(files, path, time, random, m, f, w, false) == Step(Err(Raise(IoFailure)), files - {DiskLockPath(path)})
  {
    var lock := DiskLockPath(path);
    TempPathIsNoMarker(path, time, random);
    MarkerIsNotValue(path, DISK_LOCK_FILE_POSTFIX);
    var locked := files[lock := EmptyFile(time)];
    assert WriteValueStep(locked, path, random, time, m, w) == Step(Err(Raise(IoFailure)), locked);
    assert locked - {lock} == files - {lock};
  }

  class DiskFallbackKeeper<K, V> {
    const fileResolver: Resolver<K>
    const marshaller: Marshaller<V>

    constructor (fileResolver: Resolver<K>, marshaller: Marshaller<V>)
      ensures this.fileResolver == fileResolver && this.marshaller == marshaller
    {
      this.fileResolver := fileResolver;
      this.marshaller := marshaller;
    }

    method Keep(key: K, value: V, random: nat -> Draw, f: LockFaults, w: WriteFaults, releaseFails: bool) returns (r: Outcome)
      modifies fileResolver.fs`files
      ensures var path := Resolve(fileResolver.directory, fileResolver.toFilename(key));
        Step(r, fileResolver.fs.files)
        == WallClockKeepSpec(old(fileResolver.fs.files), path, fileResolver.fs.wallClock.millis,
                             random, marshaller.marshal(value), f, w, releaseFails)
    {
      var fallbackFile := fileResolver.ResolveFor(key);
      var lock := new LockFile(fileResolver.fs, Resolve(fileResolver.directory, fileResolver.toFilename(key)));
      var acquired := lock.TryLock(f);
      if acquired != Ok(true) {
        return Void(acquired);
      }
      var ran := WriteValue(fallbackFile, marshaller, value, random, w);
      var released := lock.Release(releaseFails);
      r := Void(Finally(if ran.Ok? then Ok(true) else Err(ran.error), released));
    }
  }
}
