/** DiskStorageFallback (cache/fallback): the earliest form of the disk fallback, a
    Callable wrapping another one. Its lock, temp-file and rename protocol is written out
    inline against java.nio.file.Files rather than through a lock or slot class.

    Once the marker `<name>.lock` is created, the value is written to a temp file and
    renamed over the cache file; the marker is deleted in a finally. Every failure of
    the write is logged and dropped. */
module StorageFallbacks {
  import opened Failures
  import opened FileSystems
  import opened Paths
  import opened LockedFiles
  import opened QuietLockFiles
  import opened Marshallers

  /** LOCK_EXPIRES_AFTER: ten minutes, in milliseconds. */
  const LOCK_EXPIRES_AFTER: nat := 10 * 60 * 1000

  /** The I/O failures of the write that holds the lock: opening the temp file, closing
      it, the rename, and deleting the temp file after a failed rename. */
  datatype StoreFaults = StoreFaults(openFails: bool, closeFails: bool, moveFails: bool, tempDeleteFails: bool)

  const NO_STORE_FAULTS: StoreFaults := StoreFaults(false, false, false, false)

  /** Whether the write renames a complete temp file over the cache file. */
  predicate StoreCommits(files: Files, cacheFile: Path, time: int, random: nat -> Draw, m: Marshalled, s: StoreFaults) {
    TempPath(cacheFile, time, random) !in files && !s.openFails && m.failure.None? && !s.closeFails && !s.moveFails
  }

  /** The body of the try in tryWriteToDiskIfLock, on the temp file `temp`: refuse a temp
      file that exists, write it (any exception is logged and ends the write), then rename
      it over the cache file, deleting it when the rename fails. */
  function StoreVia(files: Files, cacheFile: Path, temp: Path, time: int, m: Marshalled, s: StoreFaults): Files
    requires temp != cacheFile
  {
    if temp in files then files
    else
      var truncated := TruncateStep(files, temp, time, s.openFails);
      if truncated.result.Err? then truncated.files
      else
        var written := AppendAll(truncated.files, temp, m.bytes, time);
        if m.failure.Some? || s.closeFails then written
        else
          var moved := MoveStep(written, temp, cacheFile, s.moveFails);
          if moved.result.Ok? then moved.files else DeleteIfExistsStep(moved.files, temp, s.tempDeleteFails).files
  }

  /** The same write on the temp file that getTempfilePath names at time `time`. */
  function StoreStep(files: Files, cacheFile: Path, time: int, random: nat -> Draw, m: Marshalled, s: StoreFaults): Files {
    TempPathIsNoMarker(cacheFile, time, random);
    StoreVia(files, cacheFile, TempPath(cacheFile, time, random), time, m, s)
  }

  /** A fresh temp file that receives `bytes` holds exactly them, and nothing else changes. */
  lemma FreshTempHoldsBytes(files: Files, temp: Path, time: int, bytes: seq<byte>)
    requires temp !in files
    ensures TruncateStep(files, temp, time, false) == Step(Done, files[temp := EmptyFile(time)])
    ensures AppendAll(files[temp := EmptyFile(time)], temp, bytes, time) == files[temp := File(bytes, time)]
  {
    FreshFileHoldsWrittenBytes(files[temp := EmptyFile(time)], temp, bytes, time);
  }

  /** Renaming a fresh temp file over the cache file is a plain update of the cache file. */
  lemma RenameFreshTemp(files: Files, cacheFile: Path, temp: Path, e: Entry)
    requires temp !in files && temp != cacheFile
    ensures MoveStep(files[temp := e], temp, cacheFile, false) == Step(Done, files[cacheFile := e])
  {
    assert (files[temp := e] - {temp})[cacheFile := e] == files[cacheFile := e];
  }

  /** Without failures, the write renames a temp file holding exactly the marshalled bytes
      over the cache file, and no temp file is left. */
  lemma StoreCommitsValue(files: Files, cacheFile: Path, time: int, random: nat -> Draw, m: Marshalled, s: StoreFaults)
    requires StoreCommits(files, cacheFile, time, random, m, s)
    ensures StoreStep(files, cacheFile, time, random, m, s) == files[cacheFile := File(m.bytes, time)]
  {
    var temp := TempPath(cacheFile, time, random);
    TempPathIsNoMarker(cacheFile, time, random);
    FreshTempHoldsBytes(files, temp, time, m.bytes);
    RenameFreshTemp(files, cacheFile, temp, File(m.bytes, time));
  }

  /** StoreVia touches nothing but the cache file and the temp file. */
  lemma StoreViaFrame(files: Files, cacheFile: Path, temp: Path, time: int, m: Marshalled, s: StoreFaults, other: Path)
    requires temp != cacheFile && other != temp && other != cacheFile
    ensures var r := StoreVia(files, cacheFile, temp, time, m, s);
      (other in r <==> other in files) && (other in files ==> r[other] == files[other])
  {
    if temp !in files && !s.openFails {
      FreshTempHoldsBytes(files, temp, time, m.bytes);
    }
  }

  /** When it does not commit, StoreVia leaves the cache file as it was. */
  lemma StoreViaKeepsCacheFile(files: Files, cacheFile: Path, temp: Path, time: int, m: Marshalled, s: StoreFaults)
    requires temp != cacheFile
    requires temp in files || s.openFails || m.failure.Some? || s.closeFails || s.moveFails
    ensures var r := StoreVia(files, cacheFile, temp, time, m, s);
      (cacheFile in r <==> cacheFile in files) && (cacheFile in files ==> r[cacheFile] == files[cacheFile])
  {
    if temp !in files && !s.openFails {
      FreshTempHoldsBytes(files, temp, time, m.bytes);
    }
  }

  /** The write touches nothing but the cache file and its temp file, and the cache file
      changes only when the write commits. */
  lemma StoreChangesOnlyByCommit(files: Files, cacheFile: Path, time: int, random: nat -> Draw, m: Marshalled, s: StoreFaults, other: Path)
    requires other != TempPath(cacheFile, time, random)
    requires other != cacheFile || !StoreCommits(files, cacheFile, time, random, m, s)
    ensures var r := StoreStep(files, cacheFile, time, random, m, s);
      (other in r <==> other in files) && (other in files ==> r[other] == files[other])
  {
    var temp := TempPath(cacheFile, time, random);
    TempPathIsNoMarker(cacheFile, time, random);
    if other == cacheFile {
      StoreViaKeepsCacheFile(files, cacheFile, temp, time, m, s);
    } else {
      StoreViaFrame(files, cacheFile, temp, time, m, s, other);
    }
  }

  /** A rename that fails is followed by deleting the temp file: when that deletion works,
      a write that got as far as the rename leaves the filesystem exactly as it found it. */
  lemma StoreMoveFailureDeletesTemp(files: Files, cacheFile: Path, time: int, random: nat -> Draw, m: Marshalled, s: StoreFaults)
    requires TempPath(cacheFile, time, random) !in files
    requires m.failure.None? && !s.closeFails && s.moveFails && !s.tempDeleteFails
    ensures TempPath(cacheFile, time, random) !in StoreStep(files, cacheFile, time, random, m, s)
    ensures StoreStep(files, cacheFile, time, random, m, s) == files
  {
    var temp := TempPath(cacheFile, time, random);
    TempPathIsNoMarker(cacheFile, time, random);
    if !s.openFails {
      FreshTempHoldsBytes(files, temp, time, m.bytes);
      assert files[temp := File(m.bytes, time)] - {temp} == files;
    }
  }

  /** tryWriteToDiskIfLock(value) at wall-clock time `time`: the same marker protocol as the
      non-throwing LockFile, then the write, then silentDeleteLockFile in a finally. */
  function TryWriteInlineSpec(files: Files, cacheFile: Path, time: int, random: nat -> Draw, m: Marshalled,
                              f: LockFaults, s: StoreFaults, releaseFails: bool): Files
  {
    var lock := Sibling(cacheFile, LOCK_SUFFIX);
    var t := TryLockQuietSpec(files, lock, time, LOCK_EXPIRES_AFTER, time, f);
    if !t.result.value then t.files
    else ReleaseQuietSpec(StoreStep(t.files, cacheFile, time, random, m, s), lock, releaseFails).files
  }

  /** A live marker, or one that is expired but cannot be deleted, means no write at all. */
  lemma InlineWriteSkipsWhenLocked(files: Files, cacheFile: Path, time: int, random: nat -> Draw, m: Marshalled,
                                   f: LockFaults, s: StoreFaults, releaseFails: bool)
    requires Sibling(cacheFile, LOCK_SUFFIX) in files
    requires !ExpiredAt(files, Sibling(cacheFile, LOCK_SUFFIX), time, LOCK_EXPIRES_AFTER, f.mtimeUnreadable) || f.deleteFails
    ensures TryWriteInlineSpec(files, cacheFile, time, random, m, f, s, releaseFails) == files
  {
  }

  /** Once this call created the marker, the marker is gone afterwards unless its deletion
      fails, whatever the write did. */
  lemma InlineWriteReleasesMarker(files: Files, cacheFile: Path, time: int, random: nat -> Draw, m: Marshalled,
                                  f: LockFaults, s: StoreFaults)
    requires TryLockQuietSpec(files, Sibling(cacheFile, LOCK_SUFFIX), time, LOCK_EXPIRES_AFTER, time, f).result.value
    ensures Sibling(cacheFile, LOCK_SUFFIX) !in TryWriteInlineSpec(files, cacheFile, time, random, m, f, s, false)
  {
  }

  /** On a free slot without failures, the cache file ends up holding exactly the marshalled
      bytes, and neither marker nor temp file is left. */
  lemma InlineWriteStores(files: Files, cacheFile: Path, time: int, random: nat -> Draw, m: Marshalled)
    requires Sibling(cacheFile, LOCK_SUFFIX) !in files && TempPath(cacheFile, time, random) !in files
    requires m.failure.None?
    ensures TryWriteInlineSpec(files, cacheFile, time, random, m, NO_FAULTS, NO_STORE_FAULTS, false)
            == files[cacheFile := File(m.bytes, time)]
  {
    var lock := Sibling(cacheFile, LOCK_SUFFIX);
    TempPathIsNoMarker(cacheFile, time, random);
    MarkerIsNotValue(cacheFile, LOCK_SUFFIX);
    var locked := files[lock := EmptyFile(time)];
    assert TryLockQuietSpec(files, lock, time, LOCK_EXPIRES_AFTER, time, NO_FAULTS) == Step(Ok(true), locked);
    StoreCommitsValue(locked, cacheFile, time, random, m, NO_STORE_FAULTS);
    UpdateThenDropMarker(files, lock, cacheFile, EmptyFile(time), File(m.bytes, time));
  }


  /** When the marshaller throws, the catch returns without deleting the temp file: it is
      left next to the cache file holding what the marshaller wrote. */
  lemma StoreLeavesTempFile(files: Files, cacheFile: Path, time: int, random: nat -> Draw, m: Marshalled, s: StoreFaults)
    requires TempPath(cacheFile, time, random) !in files && !s.openFails && m.failure.Some?
    ensures var r := StoreStep(files, cacheFile, time, random, m, s);
      TempPath(cacheFile, time, random) in r && r[TempPath(cacheFile, time, random)] == File(m.bytes, time)
  {
    var temp := TempPath(cacheFile, time, random);
    TempPathIsNoMarker(cacheFile, time, random);
    FreshTempHoldsBytes(files, temp, time, m.bytes);
  }

  /** The leak on a free slot with no I/O failure at all: a whole tryWriteToDiskIfLock run
      with a throwing marshaller leaves a temp file behind. */
  lemma InlineWriteLeaksTempFile(files: Files, cacheFile: Path, time: int, random: nat -> Draw, m: Marshalled)
    requires Sibling(cacheFile, LOCK_SUFFIX) !in files && TempPath(cacheFile, time, random) !in files
    requires m.failure.Some?
    ensures TempPath(cacheFile, time, random) in TryWriteInlineSpec(files, cacheFile, time, random, m, NO_FAULTS, NO_STORE_FAULTS, false)
  {
    var lock := Sibling(cacheFile, LOCK_SUFFIX);
    TempPathIsNoMarker(cacheFile, time, random);
    StoreLeavesTempFile(files[lock := EmptyFile(time)], cacheFile, time, random, m, NO_STORE_FAULTS);
  }

  /** The evidently intended write: a temp file that is not renamed is deleted, as after a
      failed rename. */
  function CorrectedStoreVia(files: Files, cacheFile: Path, temp: Path, time: int, m: Marshalled, s: StoreFaults): Files
    requires temp != cacheFile
  {
    if temp in files then files
    else
      var truncated := TruncateStep(files, temp, time, s.openFails);
      if truncated.result.Err? then truncated.files
      else
        var written := AppendAll(truncated.files, temp, m.bytes, time);
        if m.failure.Some? || s.closeFails then DeleteIfExistsStep(written, temp, s.tempDeleteFails).files
        else
          var moved := MoveStep(written, temp, cacheFile, s.moveFails);
          if moved.result.Ok? then moved.files else DeleteIfExistsStep(moved.files, temp, s.tempDeleteFails).files
  }

  function CorrectedStoreStep(files: Files, cacheFile: Path, time: int, random: nat -> Draw, m: Marshalled, s: StoreFaults): Files {
    TempPathIsNoMarker(cacheFile, time, random);
    CorrectedStoreVia(files, cacheFile, TempPath(cacheFile, time, random), time, m, s)
  }

  /** The corrected write leaves no temp file unless deleting it fails, and it commits
      exactly when the written one does. */
  lemma CorrectedStoreLeavesNoTempFile(files: Files, cacheFile: Path, time: int, random: nat -> Draw, m: Marshalled, s: StoreFaults)
    requires TempPath(cacheFile, time, random) !in files && !s.tempDeleteFails
    ensures TempPath(cacheFile, time, random) !in CorrectedStoreStep(files, cacheFile, time, random, m, s)
    ensures StoreCommits(files, cacheFile, time, random, m, s) ==>
              CorrectedStoreStep(files, cacheFile, time, random, m, s) == files[cacheFile := File(m.bytes, time)]
    ensures !StoreCommits(files, cacheFile, time, random, m, s) ==>
              var r := CorrectedStoreStep(files, cacheFile, time, random, m, s);
              (cacheFile in r <==> cacheFile in files) && (cacheFile in files ==> r[cacheFile] == files[cacheFile])
  {
    var temp := TempPath(cacheFile, time, random);
    TempPathIsNoMarker(cacheFile, time, random);
    if !s.openFails {
      FreshTempHoldsBytes(files, temp, time, m.bytes);
      RenameFreshTemp(files, cacheFile, temp, File(m.bytes, time));
    }
  }

  /** tryReadFromDisk: a missing cache file is a RuntimeException, and an IOException while
      reading is rethrown wrapped in one. A FileInputStream refuses to open a directory
      with a FileNotFoundException. */
  function ReadFromDiskSpec<T>(files: Files, cacheFile: Path, readFails: bool, unmarshal: seq<byte> -> Result<T>): (r: Result<T>)
    ensures cacheFile !in files ==> r == Err(Raise(Unchecked))
    ensures cacheFile in files && files[cacheFile].Dir? ==> r == Err(Wrap(Unchecked, Raise(FileNotFound)))
    ensures RegularFile(files, cacheFile) && readFails ==> r == Err(Wrap(Unchecked, Raise(IoFailure)))
    ensures RegularFile(files, cacheFile) && !readFails ==>
      var u := unmarshal(files[cacheFile].bytes);
      && (u.Ok? ==> r == u)
      && (u.Err? && IsIoException(u.error.kind) ==> r == Err(Wrap(Unchecked, u.error)))
      && (u.Err? && !IsIoException(u.error.kind) ==> r == u)
    ensures r.Err? ==> !IsIoException(r.error.kind)
  {
    if cacheFile !in files then Err(Raise(Unchecked))
    else if files[cacheFile].Dir? then Err(Wrap(Unchecked, Raise(FileNotFound)))
    else
      var read := ReadStep(files, cacheFile, readFails);
      var u := if read.Err? then Err(read.error) else unmarshal(read.value);
      if u.Err? && IsIoException(u.error.kind) then Err(Wrap(Unchecked, u.error)) else u
  }

  /** call(), given what the wrapped Callable returned or threw. */
  function CallSpec<T>(files: Files, cacheFile: Path, primary: Result<T>, m: Marshaller<T>, time: int, random: nat -> Draw,
                       readFails: bool, f: LockFaults, s: StoreFaults, releaseFails: bool): (r: Step<T>)
    ensures primary.Ok? ==> r.result == primary
    ensures primary.Err? ==> r.files == files
    ensures primary.Err? && !IsUnchecked(primary.error.kind) ==> r.result == primary
    ensures primary.Err? && IsUnchecked(primary.error.kind) ==>
      var d := ReadFromDiskSpec(files, cacheFile, readFails, m.unmarshal);
      && (d.Ok? ==> r.result == d)
      && (d.Err? && IsUnchecked(d.error.kind) ==> r.result == Err(AddSuppressed(primary.error, d.error)))
    ensures primary.Err? && IsUnchecked(primary.error.kind) && cacheFile !in files ==>
              r.result == Err(AddSuppressed(primary.error, Raise(Unchecked)))
  {
    if primary.Ok? then Step(primary, TryWriteInlineSpec(files, cacheFile, time, random, m.marshal(primary.value), f, s, releaseFails))
    else if !IsUnchecked(primary.error.kind) then Step(primary, files)
    else
      var d := ReadFromDiskSpec(files, cacheFile, readFails, m.unmarshal);
      if d.Ok? then Step(d, files)
      else if IsUnchecked(d.error.kind) then Step(Err(AddSuppressed(primary.error, d.error)), files)
      else Step(d, files)
  }

  /** A value written by one call is what a later call whose Callable throws an unchecked
      exception returns, when the marshaller round-trips it. */
  lemma CallThenFallback<T>(files: Files, cacheFile: Path, v: T, failure: Error, m: Marshaller<T>, time: int, random: nat -> Draw)
    requires Sibling(cacheFile, LOCK_SUFFIX) !in files && TempPath(cacheFile, time, random) !in files
    requires RoundTrips(m, v) && IsUnchecked(failure.kind)
    ensures var stored := CallSpec(files, cacheFile, Ok(v), m, time, random, false, NO_FAULTS, NO_STORE_FAULTS, false);
      && stored.result == Ok(v)
      && CallSpec(stored.files, cacheFile, Err(failure), m, time, random, false, NO_FAULTS, NO_STORE_FAULTS, false).result == Ok(v)
  {
    InlineWriteStores(files, cacheFile, time, random, m.marshal(v));
  }

  class DiskStorageFallback<T> {
    const fs: FileSystem
    const lockFile: Path
    const cacheFile: Path
    const marshaller: Marshaller<T>
    const cacheLoader: () -> Result<T>

    predicate Valid() {
      lockFile == Sibling(cacheFile, LOCK_SUFFIX)
    }

    constructor (fs: FileSystem, cacheFile: Path, cacheLoader: () -> Result<T>, marshaller: Marshaller<T>)
      ensures Valid()
      ensures this.fs == fs && this.cacheFile == cacheFile && this.cacheLoader == cacheLoader && this.marshaller == marshaller
    {
      this.fs := fs;
      this.cacheFile := cacheFile;
      this.marshaller := marshaller;
      lockFile := Sibling(cacheFile, LOCK_SUFFIX);
      this.cacheLoader := cacheLoader;
    }

    method Call(random: nat -> Draw, readFails: bool, f: LockFaults, s: StoreFaults, releaseFails: bool) returns (r: Result<T>)
      requires Valid()
      modifies fs`files
      ensures Step(r, fs.files) == CallSpec(old(fs.files), cacheFile, cacheLoader(), marshaller, fs.wallClock.millis, random,
                                            readFails, f, s, releaseFails)
    {
      var primary := cacheLoader();
      if primary.Ok? {
        TryWriteToDiskIfLock(primary.value, random, f, s, releaseFails);
        return primary;
      }
      if !IsUnchecked(primary.error.kind) {
        return primary;
      }
      var disk := TryReadFromDisk(readFails);
      if disk.Ok? || !IsUnchecked(disk.error.kind) {
        return disk;
      }
      r := Err(AddSuppressed(primary.error, disk.error));
    }

    method TryWriteToDiskIfLock(content: T, random: nat -> Draw, f: LockFaults, s: StoreFaults, releaseFails: bool)
      requires Valid()
      modifies fs`files
      ensures fs.files == TryWriteInlineSpec(old(fs.files), cacheFile, fs.wallClock.millis, random, marshaller.marshal(content),
                                             f, s, releaseFails)
    {
      var locked := fs.Exists(lockFile);
      if locked {
        var expired := IsLockFileExpired(f.mtimeUnreadable);
        if expired {
          var deleted := TryDeleteExpiredLockFile(f.deleteFails);
          if !deleted {
            return;
          }
        } else {
          return;
        }
      }
      fs.OtherProcessCreates(lockFile, f.raced);
      var created := fs.CreateFile(lockFile, f.createFails);
      if created.Err? {
        return;
      }
      Store(content, random, s);
      var _ := SilentDeleteLockFile(releaseFails);
    }

    /** The try block of tryWriteToDiskIfLock, run while holding the marker. */
    method Store(content: T, random: nat -> Draw, s: StoreFaults)
      modifies fs`files
      ensures fs.files == StoreStep(old(fs.files), cacheFile, fs.wallClock.millis, random, marshaller.marshal(content), s)
    {
      var m := marshaller.marshal(content);
      var tempFile := GetTempfilePath(cacheFile, random);
      TempPathIsNoMarker(cacheFile, fs.wallClock.millis, random);
      var taken := fs.Exists(tempFile);
      if taken {
        return;
      }
      var truncated := fs.NewOutputStream(tempFile, s.openFails);
      if truncated.Err? {
        return;
      }
      ghost var start := fs.files;
      // marshaller.write(value, out): one write(int) per marshalled byte
      var i := 0;
      while i < |m.bytes|
        invariant 0 <= i <= |m.bytes|
        invariant fs.files == AppendAll(start, tempFile, m.bytes[..i], fs.wallClock.millis)
      {
        assert m.bytes[..i + 1][..i] == m.bytes[..i];
        fs.WriteByte(tempFile, m.bytes[i]);
        i := i + 1;
      }
      assert m.bytes[..i] == m.bytes;
      if m.failure.Some? || s.closeFails {
        return;
      }
      var moved := fs.Move(tempFile, cacheFile, s.moveFails);
      if moved.Err? {
        SilentDelete(tempFile, s.tempDeleteFails);
      }
    }

    /** isLockFileExpired: strict, at the wall clock; false when the mtime cannot be read. */
    method IsLockFileExpired(unreadable: bool) returns (b: bool)
      ensures b == ExpiredAt(fs.files, lockFile, fs.wallClock.millis, LOCK_EXPIRES_AFTER, unreadable)
    {
      var m := fs.GetLastModifiedTime(lockFile, unreadable);
      b := m.Ok? && m.value < fs.wallClock.millis - LOCK_EXPIRES_AFTER;
    }

    method GetTempfilePath(forPath: Path, random: nat -> Draw) returns (p: Path)
      ensures p == TempPath(forPath, fs.wallClock.millis, random)
    {
      var letters := RandomString(RANDOM_LENGTH, random);
      p := Sibling(forPath, "." + Decimal(fs.wallClock.millis) + "." + letters);
    }

    method TryReadFromDisk(readFails: bool) returns (r: Result<T>)
      ensures r == ReadFromDiskSpec(fs.files, cacheFile, readFails, marshaller.unmarshal)
    {
      var present := fs.Exists(cacheFile);
      if !present {
        return Err(Raise(Unchecked));
      }
      var isFile := fs.IsRegularFile(cacheFile);
      if !isFile {
        return Err(Wrap(Unchecked, Raise(FileNotFound)));
      }
      var read := fs.ReadAll(cacheFile, readFails);
      var u := if read.Err? then Err(read.error) else marshaller.unmarshal(read.value);
      r := if u.Err? && IsIoException(u.error.kind) then Err(Wrap(Unchecked, u.error)) else u;
    }

    /** silentDeleteLockFile: whether the marker was deleted; never throws. */
    method SilentDeleteLockFile(fails: bool) returns (wasDeleted: bool)
      modifies fs`files
      ensures Step(Ok(wasDeleted), fs.files) == ReleaseQuietSpec(old(fs.files), lockFile, fails)
    {
      var d := fs.DeleteIfExists(lockFile, fails);
      wasDeleted := d.Ok? && d.value;
    }

    /** silentDelete: deleteIfExists with any IOException dropped. */
    method SilentDelete(file: Path, fails: bool)
      modifies fs`files
      ensures fs.files == if fails then old(fs.files) else old(fs.files) - {file}
    {
      var _ := fs.DeleteIfExists(file, fails);
    }

    /** tryDeleteExpiredLockFile: true unless the deletion throws. */
    method TryDeleteExpiredLockFile(fails: bool) returns (b: bool)
      modifies fs`files
      ensures Step(Ok(b), fs.files) == TryUnlockExpiredStep(old(fs.files), lockFile, fails)
    {
      var d := fs.DeleteIfExists(lockFile, fails);
      b := d.Ok?;
    }
  }
}
