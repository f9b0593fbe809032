/** The first generation's value slot (cache/fallback FallbackFile).

    The value file's lock marker is its sibling `<name>.lock`, managed by the slot
    itself. Reads fail with FileNotFoundException both for a value never written and
    for one that went missing; the write stream is the shared commit-on-close one. */
module LegacyFallbackFiles {
  import opened Failures
  import opened FileSystems
  import opened Paths
  import opened LockedFiles
  import opened QuietLockFiles
  import opened CommitStreams
  import FallbackFiles

  /** read(): the flag is updated as in the later generation, but both refusals
      are FileNotFoundException. */
  function LegacyReadSpec(written: bool, files: Files, path: Path, fails: bool): (r: FallbackFiles.Reading)
    ensures r.written <==> written || path in files
    ensures path !in files ==> r.result == Err(Raise(FileNotFound))
    ensures RegularFile(files, path) && !fails ==> r.result == Ok(files[path].bytes)
    ensures path in files && (fails || files[path].Dir?) ==> r.result == Err(Raise(IoFailure))
  {
    var present := path in files;
    var w := written || present;
    if !w then FallbackFiles.Reading(w, Err(Raise(FileNotFound)))
    else if !present then FallbackFiles.Reading(w, Err(Raise(FileNotFound)))
    else FallbackFiles.Reading(w, ReadStep(files, path, fails))
  }

  /** The two generations' reads agree except on a slot that was never written and
      has no file, where only the later one says so. */
  lemma ReadsDifferOnlyWhenNeverWritten(written: bool, files: Files, path: Path, fails: bool)
    ensures LegacyReadSpec(written, files, path, fails).written == FallbackFiles.ReadSpec(written, files, path, fails).written
    ensures LegacyReadSpec(written, files, path, fails) != FallbackFiles.ReadSpec(written, files, path, fails)
            <==> !written && path !in files
  {
  }

  class FallbackFile {
    const fs: FileSystem
    const cacheValue: Path
    const lock: Path
    const written: Flag

    constructor (fs: FileSystem, file: Path)
      ensures this.fs == fs && cacheValue == file && lock == Sibling(file, LOCK_SUFFIX) && fresh(written)
      ensures written.value <==> file in fs.files
    {
      this.fs := fs;
      cacheValue := file;
      lock := Sibling(file, LOCK_SUFFIX);
      var present := fs.Exists(file);
      written := new Flag(present);
    }

    method Read(fails: bool) returns (r: Result<seq<byte>>)
      modifies written
      ensures FallbackFiles.Reading(written.value, r) == LegacyReadSpec(old(written.value), fs.files, cacheValue, fails)
    {
      var fallbackFileExists := fs.Exists(cacheValue);
      if !written.value {
        written.value := fallbackFileExists;
      }
      if !written.value {
        return Err(Raise(FileNotFound));
      }
      if !fallbackFileExists {
        return Err(Raise(FileNotFound));
      }
      r := fs.ReadAll(cacheValue, fails);
    }

    method GetTempfile(random: nat -> Draw) returns (t: Path)
      ensures t == TempPath(cacheValue, fs.wallClock.millis, random)
    {
      var letters := RandomString(RANDOM_LENGTH, random);
      t := Sibling(cacheValue, "." + Decimal(fs.wallClock.millis) + "." + letters);
    }

    method Write(random: nat -> Draw, createFails: bool) returns (r: Result<CommitStream>)
      modifies fs`files
      ensures var temp := TempPath(cacheValue, fs.wallClock.millis, random);
        && Step(Void(r), fs.files) == CreateFileStep(old(fs.files), temp, fs.wallClock.millis, createFails)
        && (r.Ok? ==> fresh(r.value) && r.value.Valid() && !r.value.closed && r.value.fs == fs
                      && r.value.tempfile == temp && r.value.target == cacheValue && r.value.written == written)
    {
      var tempfile := GetTempfile(random);
      TempPathIsNoMarker(cacheValue, fs.wallClock.millis, random);
      var taken := fs.Exists(tempfile);
      if taken {
        return Err(Raise(FileAlreadyExists));
      }
      var created := fs.CreateFile(tempfile, createFails);
      if created.Err? {
        return Err(created.error);
      }
      var stream := new CommitStream(fs, tempfile, cacheValue, written);
      r := Ok(stream);
    }

    method IsLocked() returns (b: bool)
      ensures b <==> lock in fs.files
    {
      b := fs.Exists(lock);
    }

    /** lockedLongerAgoThan: strict, at the wall clock; false when the mtime cannot be read. */
    method LockedLongerAgoThan(duration: nat, unreadable: bool) returns (b: bool)
      ensures b == ExpiredAt(fs.files, lock, fs.wallClock.millis, duration, unreadable)
    {
      var m := fs.GetLastModifiedTime(lock, unreadable);
      b := m.Ok? && m.value < fs.wallClock.millis - duration;
    }

    /** silentDeleteLockFile: whether the marker was deleted; never throws. */
    method SilentDeleteLockFile(fails: bool) returns (wasDeleted: bool)
      modifies fs`files
      ensures Step(Ok(wasDeleted), fs.files) == ReleaseQuietSpec(old(fs.files), lock, fails)
    {
      var d := fs.DeleteIfExists(lock, fails);
      wasDeleted := d.Ok? && d.value;
    }
  }

  class Resolver<K> {
    const fs: FileSystem
    const directory: Path
    const toFilename: K -> string

    constructor (fs: FileSystem, directory: Path, toFilename: K -> string)
      ensures this.fs == fs && this.directory == directory && this.toFilename == toFilename
    {
      this.fs := fs;
      this.directory := directory;
      this.toFilename := toFilename;
    }

    method ResolveFor(cacheKey: K) returns (f: FallbackFile)
      ensures fresh(f) && fresh(f.written) && f.fs == fs
      ensures f.cacheValue == Resolve(directory, toFilename(cacheKey))
      ensures f.lock == Sibling(Resolve(directory, toFilename(cacheKey)), LOCK_SUFFIX)
      ensures f.written.value <==> Resolve(directory, toFilename(cacheKey)) in fs.files
    {
      f := new FallbackFile(fs, Resolve(directory, toFilename(cacheKey)));
    }
  }
}
