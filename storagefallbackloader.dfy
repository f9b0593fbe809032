/** DiskStorageFallbackLoader (cache/fallback): the first generation's loader with disk
    fallback. A successful load is written to the key's slot under the slot's `.lock`
    marker, and any failure to write is swallowed; only an unchecked exception from the
    primary loader makes it read the slot instead. */
module StorageFallbackLoaders {
  import opened Failures
  import opened FileSystems
  import opened Paths
  import opened LockedFiles
  import opened QuietLockFiles
  import opened PathLockFiles
  import opened Marshallers
  import opened DiskKeepers
  import LegacyFallbackFiles

  /** LOCK_EXPIRES_AFTER: ten minutes, in milliseconds. */
  const LOCK_EXPIRES_AFTER: nat := 10 * 60 * 1000

  /** The marker of a slot: its value file's sibling `<name>.lock`. */
  function StorageLockPath(path: Path): Path {
    Sibling(path, LOCK_SUFFIX)
  }

  /** The Runnable of tryWriteToDiskIfLock: the shared commit-on-close write, in which an
      IOException is caught and logged and anything else leaves the Runnable. */
  function LegacyWriteStep(files: Files, path: Path, random: nat -> Draw, time: int, m: Marshalled, w: WriteFaults): (s: Step<()>)
    ensures s.files == WriteValueStep(files, path, random, time, m, w).files
    ensures s.result.Err? ==> !IsIoException(s.result.error.kind)
  {
    var written := WriteValueStep(files, path, random, time, m, w);
    if written.result.Err? && IsIoException(written.result.error.kind) then Step(Done, written.files) else written
  }

  /** tryWriteToDiskIfLock(fallbackFile, value) at wall-clock time `time`. */
  function TryWriteSpec(files: Files, path: Path, time: int, random: nat -> Draw, m: Marshalled,
                        f: LockFaults, w: WriteFaults, releaseFails: bool): Step<bool>
  {
    RunIfLockQuietSpec(files, StorageLockPath(path), time, LOCK_EXPIRES_AFTER, time, f,
                       (g: Files) => LegacyWriteStep(g, path, random, time, m, w), releaseFails)
  }

  /** load(key) on the slot at `path`, given what the primary loader returned or threw. */
  function StorageLoadSpec<V>(files: Files, path: Path, primary: Result<V>, m: Marshaller<V>, time: int, random: nat -> Draw,
                              readFails: bool, f: LockFaults, w: WriteFaults, releaseFails: bool): (r: Step<V>)
    // a primary value is returned whatever the write does
    ensures primary.Ok? ==> r.result == primary
    // a failing primary leaves the disk alone
    ensures primary.Err? ==> r.files == files
    // a checked exception is not recovered from
    ensures primary.Err? && !IsUnchecked(primary.error.kind) ==> r.result == primary
    // an unchecked one is answered from the slot, or rethrown with the disk failure suppressed
    ensures primary.Err? && IsUnchecked(primary.error.kind) && path !in files ==>
              r.result == Err(AddSuppressed(primary.error, Raise(FileNotFound)))
    ensures primary.Err? && IsUnchecked(primary.error.kind) && RegularFile(files, path) && !readFails ==>
              && (m.unmarshal(files[path].bytes).Ok? ==> r.result == m.unmarshal(files[path].bytes))
              && (m.unmarshal(files[path].bytes).Err? ==>
                    r.result == Err(AddSuppressed(primary.error, m.unmarshal(files[path].bytes).error)))
    ensures r.result.Err? ==> primary.Err? && r.result.error.kind == primary.error.kind
  {
    if primary.Ok? then
      var t := TryWriteSpec(files, path, time, random, m.marshal(primary.value), f, w, releaseFails);
      Step(primary, t.files)
    else if !IsUnchecked(primary.error.kind) then Step(primary, files)
    else
      var read := LegacyFallbackFiles.LegacyReadSpec(path in files, files, path, readFails).result;
      var fallback := if read.Err? then Err(read.error) else m.unmarshal(read.value);
      if fallback.Ok? then Step(fallback, files) else Step(Err(AddSuppressed(primary.error, fallback.error)), files)
  }

  /** While another process's marker is live, a successful load changes nothing on disk. */
  lemma StorageLoadRespectsLiveLock<V>(files: Files, path: Path, v: V, m: Marshaller<V>, time: int, random: nat -> Draw,
                                       readFails: bool, f: LockFaults, w: WriteFaults, releaseFails: bool)
    requires StorageLockPath(path) in files
    requires !ExpiredAt(files, StorageLockPath(path), time, LOCK_EXPIRES_AFTER, f.mtimeUnreadable)
    ensures StorageLoadSpec(files, path, Ok(v), m, time, random, readFails, f, w, releaseFails) == Step(Ok(v), files)
  {
  }

  /** On a free slot without failures, a successful load stores the marshalled value and
      leaves neither marker nor temp file. */
  lemma StorageLoadStores<V>(files: Files, path: Path, v: V, m: Marshaller<V>, time: int, random: nat -> Draw, readFails: bool)
    requires StorageLockPath(path) !in files && TempPath(path, time, random) !in files
    ensures StorageLoadSpec(files, path, Ok(v), m, time, random, readFails, NO_FAULTS, NO_WRITE_FAULTS, false)
            == Step(Ok(v), files[path := File(m.marshal(v).bytes, time)])
  {
    var lock := StorageLockPath(path);
    TempPathIsNoMarker(path, time, random);
    MarkerIsNotValue(path, LOCK_SUFFIX);
    var locked := files[lock := EmptyFile(time)];
    WriteValueCommits(locked, path, random, time, m.marshal(v));
    UpdateThenDropMarker(files, lock, path, EmptyFile(time), File(m.marshal(v).bytes, time));
  }

  /** A value stored by a successful load is what a later load whose primary throws an
      unchecked exception returns, when the marshaller round-trips it. */
  lemma StorageLoadThenFallback<V>(files: Files, path: Path, v: V, m: Marshaller<V>, time: int, random: nat -> Draw,
                                   failure: Error, readFails: bool)
    requires StorageLockPath(path) !in files && TempPath(path, time, random) !in files
    requires RoundTrips(m, v) && IsUnchecked(failure.kind)
    ensures var stored := StorageLoadSpec(files, path, Ok(v), m, time, random, readFails, NO_FAULTS, NO_WRITE_FAULTS, false).files;
      StorageLoadSpec(stored, path, Err(failure), m, time, random, false, NO_FAULTS, NO_WRITE_FAULTS, false).result == Ok(v)
  {
    StorageLoadStores(files, path, v, m, time, random, readFails);
  }

  /** As in the later generation, the commit-on-close stream commits what a throwing
      marshaller wrote before it threw; here the load even returns normally, so nothing
      reports that the slot now holds a partial value. */
  lemma StorageLoadCommitsPartialValue<V>(files: Files, path: Path, v: V, m: Marshaller<V>, time: int, random: nat -> Draw, readFails: bool)
    requires StorageLockPath(path) !in files && TempPath(path, time, random) !in files
    requires m.marshal(v).failure.Some?
    ensures StorageLoadSpec(files, path, Ok(v), m, time, random, readFails, NO_FAULTS, NO_WRITE_FAULTS, false)
            == Step(Ok(v), files[path := File(m.marshal(v).bytes, time)])
  {
    StorageLoadStores(files, path, v, m, time, random, readFails);
  }

  /** tryWriteToDiskIfLock with the write that commits only a completed value. */
  function CorrectedTryWriteSpec(files: Files, path: Path, time: int, random: nat -> Draw, m: Marshalled,
                                 f: LockFaults, w: WriteFaults, releaseFails: bool): Step<bool>
  {
    RunIfLockQuietSpec(files, StorageLockPath(path), time, LOCK_EXPIRES_AFTER, time, f,
                       (g: Files) => CommitIfMarshalledStep(g, path, random, time, m, w), releaseFails)
  }

  /** With the corrected write, a throwing marshaller never changes the value file. */
  lemma CorrectedTryWriteKeepsValue(files: Files, path: Path, time: int, random: nat -> Draw, m: Marshalled,
                                    f: LockFaults, w: WriteFaults, releaseFails: bool)
    requires m.failure.Some?
    ensures var s := CorrectedTryWriteSpec(files, path, time, random, m, f, w, releaseFails);
      (path in s.files <==> path in files) && (path in files ==> s.files[path] == files[path])
  {
    var lock := StorageLockPath(path);
    MarkerIsNotValue(path, LOCK_SUFFIX);
    var t := TryLockQuietSpec(files, lock, time, LOCK_EXPIRES_AFTER, time, f);
    if t.result.value {
      CommitIfMarshalledKeepsGoodValue(t.files, path, random, time, m, w);
    }
  }

  class DiskStorageFallbackLoader<K, V> {
    const cacheFileResolver: LegacyFallbackFiles.Resolver<K>
    const cacheLoader: K -> Result<V>
    const marshaller: Marshaller<V>
    const lockFiles: LockFiles

    constructor (cacheFileResolver: LegacyFallbackFiles.Resolver<K>, cacheLoader: K -> Result<V>, marshaller: Marshaller<V>)
      ensures this.cacheFileResolver == cacheFileResolver && this.cacheLoader == cacheLoader && this.marshaller == marshaller
      ensures fresh(lockFiles) && lockFiles.fs == cacheFileResolver.fs && lockFiles.lockfileExpiration == LOCK_EXPIRES_AFTER
    {
      this.cacheFileResolver := cacheFileResolver;
      this.cacheLoader := cacheLoader;
      this.marshaller := marshaller;
      lockFiles := new LockFiles.WithExpiration(cacheFileResolver.fs, LOCK_EXPIRES_AFTER);
    }

    predicate Valid()
      reads this, lockFiles
    {
      lockFiles.fs == cacheFileResolver.fs && lockFiles.lockfileExpiration == LOCK_EXPIRES_AFTER
    }

    method Load(key: K, random: nat -> Draw, readFails: bool, f: LockFaults, w: WriteFaults, releaseFails: bool) returns (r: Result<V>)
      requires Valid()
      modifies cacheFileResolver.fs`files
      ensures var fs := cacheFileResolver.fs;
        Step(r, fs.files)
        == StorageLoadSpec(old(fs.files), Resolve(cacheFileResolver.directory, cacheFileResolver.toFilename(key)), cacheLoader(key),
                           marshaller, fs.wallClock.millis, random, readFails, f, w, releaseFails)
    {
      var fallbackFile := cacheFileResolver.ResolveFor(key);
      var primary := cacheLoader(key);
      if primary.Ok? {
        var _ := TryWriteToDiskIfLock(fallbackFile, primary.value, random, f, w, releaseFails);
        return primary;
      }
      if !IsUnchecked(primary.error.kind) {
        return primary;
      }
      var read := fallbackFile.Read(readFails);
      var fallback := if read.Err? then Err(read.error) else marshaller.unmarshal(read.value);
      r := if fallback.Ok? then fallback else Err(AddSuppressed(primary.error, fallback.error));
    }

    method TryWriteToDiskIfLock(fallbackFile: LegacyFallbackFiles.FallbackFile, value: V, random: nat -> Draw,
                                f: LockFaults, w: WriteFaults, releaseFails: bool) returns (r: Result<bool>)
      requires Valid() && fallbackFile.fs == cacheFileResolver.fs
      requires fallbackFile.lock == StorageLockPath(fallbackFile.cacheValue)
      modifies cacheFileResolver.fs`files
      ensures var fs := cacheFileResolver.fs;
        Step(r, fs.files) == TryWriteSpec(old(fs.files), fallbackFile.cacheValue, fs.wallClock.millis, random,
                                          marshaller.marshal(value), f, w, releaseFails)
    {
      var fs := cacheFileResolver.fs;
      var time := fs.wallClock.millis;
      var path := fallbackFile.cacheValue;
      var m := marshaller.marshal(value);
      r := lockFiles.RunIfLock(fallbackFile.lock, (g: Files) => LegacyWriteStep(g, path, random, time, m, w), f, releaseFails);
    }
  }
}
