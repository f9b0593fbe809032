/** LoaderWithDiskFallbackDecorator (cache2/fallback/disk): wraps a loader in a
    LoaderWithFallback whose fallback reads the key's slot under a directory and whose
    keeper writes it there.

    A decorated loader works on an environment: the filesystem, the reading of the
    decorator's clock and of the wall clock at the time of the call, the random source
    that names temp files, and which of the I/O operations of that call fail. */
module DiskFallbackDecorators {
  import opened Failures
  import opened FileSystems
  import opened Paths
  import opened LockedFiles
  import opened Marshallers
  import opened DiskKeepers
  import opened LoaderWithFallbacks
  import DiskLoaders
  import KeeperFailedHandlers

  /** The I/O failures one load can meet: reading the slot, locking, writing, releasing. */
  datatype DiskFaults = DiskFaults(readFails: bool, lock: LockFaults, write: WriteFaults, releaseFails: bool)

  const NO_DISK_FAULTS: DiskFaults := DiskFaults(false, NO_FAULTS, NO_WRITE_FAULTS, false)

  datatype Env = Env(files: Files, now: int, time: int, random: nat -> Draw, faults: DiskFaults)

  /** DiskFallbackLoader.load(key) in an environment. */
  function FallbackLoad<K, V>(directory: Path, toFilename: K -> string, m: Marshaller<V>, key: K, e: Env): (r: Result<V>)
    ensures Resolve(directory, toFilename(key)) !in e.files ==> r == Err(Raise(FallbackFileNotYetCreated))
  {
    DiskLoaders.Load(e.files, directory, toFilename, m, key, e.faults.readFails)
  }

  /** DiskFallbackKeeper.keep(key, value) in an environment. */
  function FallbackKeep<K, V>(directory: Path, toFilename: K -> string, m: Marshaller<V>, key: K, value: V, e: Env): (k: Kept<Env>)
    ensures k.world.now == e.now && k.world.time == e.time && k.world.random == e.random && k.world.faults == e.faults
    ensures var path := Resolve(directory, toFilename(key));
      LockPath(path) in e.files && !ExpiredAt(e.files, LockPath(path), e.now, DEFAULT_EXPIRY_TIME, e.faults.lock.mtimeUnreadable)
      ==> k == Kept(Done, e)
  {
    var path := Resolve(directory, toFilename(key));
    var s := KeepSpec(e.files, path, LockPath(path), e.now, e.time, e.random, m.marshal(value),
                      e.faults.lock, e.faults.write, e.faults.releaseFails);
    Kept(s.result, e.(files := s.files))
  }

  /** The loader that decorate(loader) returns. */
  function DiskFallback<K, V>(loader: K -> Result<V>, directory: Path, toFilename: K -> string, m: Marshaller<V>,
                              handler: (K, V, Error) -> Outcome): (l: LoaderWithFallback<K, V, Env>)
    ensures l.cacheLoader == loader && l.handler == handler
  {
    LoaderWithFallback(loader,
                       (k: K, e: Env) => FallbackLoad(directory, toFilename, m, k, e),
                       (k: K, v: V, e: Env) => FallbackKeep(directory, toFilename, m, k, v, e),
                       handler)
  }

  /** A keep that gets the lock, with no failures and a fresh temp name, stores exactly the
      marshalled value, returns normally and removes its marker. */
  lemma AcquiredKeepStores(files: Files, path: Path, now: int, time: int, random: nat -> Draw, m: Marshalled)
    requires TryLockSpec(files, LockPath(path), now, DEFAULT_EXPIRY_TIME, time, NO_FAULTS).result == Ok(true)
    requires TempPath(path, time, random) !in files && m.failure.None?
    ensures var s := KeepSpec(files, path, LockPath(path), now, time, random, m, NO_FAULTS, NO_WRITE_FAULTS, false);
      s.result == Done && s.files == files[path := File(m.bytes, time)] - {LockPath(path)}
  {
    var lock := LockPath(path);
    TempPathIsNoMarker(path, time, random);
    MarkerIsNotValue(path, LOCKED_FILE_POSTFIX);
    var locked := files[lock := EmptyFile(time)];
    KeepAfterAcquire(files, path, lock, now, time, random, m, NO_FAULTS, NO_WRITE_FAULTS);
    WriteValueCommits(locked, path, random, time, m);
    UpdateThenDropMarker(files, lock, path, EmptyFile(time), File(m.bytes, time));
  }

  /** should_load_cache_from_disk_as_fallback: a successful load on a free slot keeps the
      value, and a later failing load is answered with it. */
  lemma FallbackServesKeptValue<K, V>(directory: Path, toFilename: K -> string, m: Marshaller<V>,
                                          handler: (K, V, Error) -> Outcome, ok: K -> Result<V>, failing: K -> Result<V>,
                                          key: K, v: V, e: Env, later: Env)
    requires var path := Resolve(directory, toFilename(key));
      LockPath(path) !in e.files && TempPath(path, e.time, e.random) !in e.files
    requires e.faults == NO_DISK_FAULTS
    requires ok(key) == Ok(v) && RoundTrips(m, v) && failing(key).Err?
    requires later.files == Load(DiskFallback(ok, directory, toFilename, m, handler), key, e).world.files
    requires !later.faults.readFails
    ensures Load(DiskFallback(ok, directory, toFilename, m, handler), key, e).result == Ok(v)
    ensures Load(DiskFallback(failing, directory, toFilename, m, handler), key, later).result == Ok(v)
  {
    var path := Resolve(directory, toFilename(key));
    AcquiredKeepStores(e.files, path, e.now, e.time, e.random, m.marshal(v));
    MarkerIsNotValue(path, LOCKED_FILE_POSTFIX);
    assert RegularFile(later.files, path) && later.files[path].bytes == m.marshal(v).bytes;
  }

  /** should_fail_if_underlying_loader_fails_and_not_stored_on_disk: the primary's exception
      is thrown, with the fallback's FallbackFileNotYetCreated suppressed onto it. */
  lemma NothingStoredRethrowsPrimary<K, V>(directory: Path, toFilename: K -> string, m: Marshaller<V>,
                                           handler: (K, V, Error) -> Outcome, failing: K -> Result<V>, key: K, e: Env)
    requires Resolve(directory, toFilename(key)) !in e.files && failing(key).Err?
    ensures var r := Load(DiskFallback(failing, directory, toFilename, m, handler), key, e).result;
      r == Err(AddSuppressed(failing(key).error, Raise(FallbackFileNotYetCreated)))
  {
  }

  /** should_allow_update_of_disk_fallback_if_lock_expired, first half: while somebody
      else's marker is live, a successful load returns its value but changes nothing on disk. */
  lemma LiveLockLeavesSlot<K, V>(directory: Path, toFilename: K -> string, m: Marshaller<V>,
                                 handler: (K, V, Error) -> Outcome, ok: K -> Result<V>, key: K, v: V, e: Env)
    requires var lock := LockPath(Resolve(directory, toFilename(key)));
      lock in e.files && !ExpiredAt(e.files, lock, e.now, DEFAULT_EXPIRY_TIME, e.faults.lock.mtimeUnreadable)
    requires ok(key) == Ok(v)
    ensures var r := Load(DiskFallback(ok, directory, toFilename, m, handler), key, e);
      r.result == Ok(v) && r.world == e
  {
  }

  /** Second half: once the decorator's clock is more than ten minutes past the marker's
      time stamp, a successful load takes the lock over and stores its value. */
  lemma ExpiredLockIsTakenOver<K, V>(directory: Path, toFilename: K -> string, m: Marshaller<V>,
                                         handler: (K, V, Error) -> Outcome, ok: K -> Result<V>, key: K, v: V, e: Env)
    requires var path := Resolve(directory, toFilename(key));
      && LockPath(path) in e.files && e.files[LockPath(path)].mtime + DEFAULT_EXPIRY_TIME < e.now
      && TempPath(path, e.time, e.random) !in e.files
    requires e.faults == NO_DISK_FAULTS
    requires ok(key) == Ok(v) && RoundTrips(m, v)
    ensures var r := Load(DiskFallback(ok, directory, toFilename, m, handler), key, e);
      var path := Resolve(directory, toFilename(key));
      && r.result == Ok(v)
      && DiskLoaders.LoadSpec(r.world.files, path, false, m.unmarshal) == Ok(v)
      && LockPath(path) !in r.world.files
  {
    var path := Resolve(directory, toFilename(key));
    assert ExpiredAt(e.files, LockPath(path), e.now, DEFAULT_EXPIRY_TIME, false);
    AcquiredKeepStores(e.files, path, e.now, e.time, e.random, m.marshal(v));
    MarkerIsNotValue(path, LOCKED_FILE_POSTFIX);
  }

  class LoaderWithDiskFallbackDecorator<K, V> {
    const fs: FileSystem
    const fallbackDirectory: Path
    const toFilename: K -> string
    const marshaller: Marshaller<V>
    const handler: (K, V, Error) -> Outcome
    const clock: Clock

    /** The three-argument constructor: LogAsError, and the system clock. */
    constructor (fs: FileSystem, fallbackDirectory: Path, toFilename: K -> string, marshaller: Marshaller<V>)
      ensures this.fs == fs && this.fallbackDirectory == fallbackDirectory && this.toFilename == toFilename
      ensures this.marshaller == marshaller && handler == KeeperFailedHandlers.LogAsError && clock == fs.wallClock
    {
      this.fs := fs;
      this.fallbackDirectory := fallbackDirectory;
      this.toFilename := toFilename;
      this.marshaller := marshaller;
      handler := KeeperFailedHandlers.LogAsError;
      clock := fs.wallClock;
    }

    /** The four-argument constructor: the given handler, and the system clock. */
    constructor WithHandler(fs: FileSystem, fallbackDirectory: Path, toFilename: K -> string, marshaller: Marshaller<V>,
                            handler: (K, V, Error) -> Outcome)
      ensures this.fs == fs && this.fallbackDirectory == fallbackDirectory && this.toFilename == toFilename
      ensures this.marshaller == marshaller && this.handler == handler && clock == fs.wallClock
    {
      this.fs := fs;
      this.fallbackDirectory := fallbackDirectory;
      this.toFilename := toFilename;
      this.marshaller := marshaller;
      this.handler := handler;
      clock := fs.wallClock;
    }

    constructor WithClock(fs: FileSystem, fallbackDirectory: Path, toFilename: K -> string, marshaller: Marshaller<V>,
                          handler: (K, V, Error) -> Outcome, clock: Clock)
      ensures this.fs == fs && this.fallbackDirectory == fallbackDirectory && this.toFilename == toFilename
      ensures this.marshaller == marshaller && this.handler == handler && this.clock == clock
    {
      this.fs := fs;
      this.fallbackDirectory := fallbackDirectory;
      this.toFilename := toFilename;
      this.marshaller := marshaller;
      this.handler := handler;
      this.clock := clock;
    }

    /** decorate(loader): refuses a directory path that is a regular file, creates the
        directory, and returns the loader with disk fallback. */
    method Decorate(loader: K -> Result<V>, mkdirFails: bool) returns (r: Result<LoaderWithFallback<K, V, Env>>)
      modifies fs`files
      ensures RegularFile(old(fs.files), fallbackDirectory) ==>
                r == Err(Raise(IllegalState)) && fs.files == old(fs.files)
      ensures !RegularFile(old(fs.files), fallbackDirectory) ==>
        var c := CreateDirectoriesStep(old(fs.files), fallbackDirectory, fs.wallClock.millis, mkdirFails);
        && fs.files == c.files
        && (c.result.Err? ==> r == Err(Wrap(Unchecked, c.result.error)))
        && (c.result.Ok? ==> r == Ok(DiskFallback(loader, fallbackDirectory, toFilename, marshaller, handler)))
      // a decorated loader always has its directory
      ensures r.Ok? ==> fallbackDirectory in fs.files && fs.files[fallbackDirectory].Dir?
      ensures r.Err? ==> IsUnchecked(r.error.kind)
    {
      var isFile := fs.IsRegularFile(fallbackDirectory);
      if isFile {
        return Err(Raise(IllegalState));
      }
      var created := fs.CreateDirectories(fallbackDirectory, mkdirFails);
      if created.Err? {
        return Err(Wrap(Unchecked, created.error));
      }
      r := Ok(DiskFallback(loader, fallbackDirectory, toFilename, marshaller, handler));
    }

    /** One load(key) through a decorated loader, at this decorator's clock and the wall clock. */
    method LoadThrough(l: LoaderWithFallback<K, V, Env>, key: K, random: nat -> Draw, faults: DiskFaults) returns (r: Result<V>)
      modifies fs`files
      ensures var e := Load(l, key, Env(old(fs.files), clock.millis, fs.wallClock.millis, random, faults));
        r == e.result && fs.files == e.world.files
    {
      var e := Load(l, key, Env(fs.files, clock.millis, fs.wallClock.millis, random, faults));
      r := e.result;
      fs.files := e.world.files;
    }
  }
}
