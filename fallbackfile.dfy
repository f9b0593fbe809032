/** The durable value slot of the second generation (cache/fallback/disk FallbackFile).

    A slot is a value file guarded by a LockedFile. Its `written` flag starts as
    "the value file exists" and only ever goes from false to true, so that a read can
    tell a value that was never written from one that went missing. */
module FallbackFiles {
  import opened Failures
  import opened FileSystems
  import opened Paths
  import opened LockedFiles
  import opened CommitStreams

  /** The `written` flag after a read, and what the read returned or threw. */
  datatype Reading = Reading(written: bool, result: Result<seq<byte>>)

  /** read(): records that the file exists, then refuses a slot never written
      (FallbackFileNotYetCreated) and a written slot whose file is gone (FileNotFoundException). */
  function ReadSpec(written: bool, files: Files, path: Path, fails: bool): (r: Reading)
    ensures r.written <==> written || path in files
    ensures !written && path !in files ==> r.result == Err(Raise(FallbackFileNotYetCreated))
    ensures written && path !in files ==> r.result == Err(Raise(FileNotFound))
    ensures RegularFile(files, path) && !fails ==> r.result == Ok(files[path].bytes)
    ensures path in files && (fails || files[path].Dir?) ==> r.result == Err(Raise(IoFailure))
  {
    var present := path in files;
    var w := written || present;
    if !w then Reading(w, Err(Raise(FallbackFileNotYetCreated)))
    else if !present then Reading(w, Err(Raise(FileNotFound)))
    else Reading(w, ReadStep(files, path, fails))
  }

  class FallbackFile {
    const lockedFile: LockedFile
    const written: Flag

    constructor (file: LockedFile)
      ensures lockedFile == file && fresh(written)
      ensures written.value <==> file.file in file.fs.files
    {
      lockedFile := file;
      var present := file.fs.Exists(file.file);
      written := new Flag(present);
    }

    method Read(fails: bool) returns (r: Result<seq<byte>>)
      modifies written
      ensures Reading(written.value, r) == ReadSpec(old(written.value), lockedFile.fs.files, lockedFile.file, fails)
    {
      var file := lockedFile.file;
      var fallbackFileExists := lockedFile.fs.Exists(file);
      if !written.value {
        written.value := fallbackFileExists;
      }
      if !written.value {
        return Err(Raise(FallbackFileNotYetCreated));
      } else if !fallbackFileExists {
        return Err(Raise(FileNotFound));
      }
      r := lockedFile.fs.ReadAll(file, fails);
    }

    /** getTempfile: `<name>.<current millis>.<ten random letters>`. */
    method GetTempfile(random: nat -> Draw) returns (t: Path)
      ensures t == TempPath(lockedFile.file, lockedFile.fs.wallClock.millis, random)
    {
      var letters := RandomString(RANDOM_LENGTH, random);
      t := Sibling(lockedFile.file, "." + Decimal(lockedFile.fs.wallClock.millis) + "." + letters);
    }

    /** write(): refuses a temp path that exists, else creates it (CREATE_NEW) and
        returns a stream that commits to the value file on close. */
    method Write(random: nat -> Draw, createFails: bool) returns (r: Result<CommitStream>)
      modifies lockedFile.fs`files
      ensures var temp := TempPath(lockedFile.file, lockedFile.fs.wallClock.millis, random);
        && Step(Void(r), lockedFile.fs.files) == CreateFileStep(old(lockedFile.fs.files), temp, lockedFile.fs.wallClock.millis, createFails)
        && (r.Ok? ==> fresh(r.value) && r.value.Valid() && !r.value.closed && r.value.fs == lockedFile.fs
                      && r.value.tempfile == temp && r.value.target == lockedFile.file && r.value.written == written)
    {
      var fs := lockedFile.fs;
      var tempfile := GetTempfile(random);
      TempPathIsNoMarker(lockedFile.file, fs.wallClock.millis, random);
      var taken := fs.Exists(tempfile);
      if taken {
        return Err(Raise(FileAlreadyExists));
      }
      var created := fs.CreateFile(tempfile, createFails);
      if created.Err? {
        return Err(created.error);
      }
      var stream := new CommitStream(fs, tempfile, lockedFile.file, written);
      r := Ok(stream);
    }
  }

  /** Resolver: the slot of a key is `directory/toFilename(key)`, locked with the shared clock. */
  class Resolver<K> {
    const fs: FileSystem
    const directory: Path
    const toFilename: K -> string
    const clock: Clock

    constructor (fs: FileSystem, directory: Path, toFilename: K -> string, clock: Clock)
      ensures this.fs == fs && this.directory == directory && this.toFilename == toFilename && this.clock == clock
    {
      this.fs := fs;
      this.directory := directory;
      this.toFilename := toFilename;
      this.clock := clock;
    }

    method ResolveFor(cacheKey: K) returns (f: FallbackFile)
      ensures fresh(f) && fresh(f.lockedFile) && fresh(f.written)
      ensures f.lockedFile.fs == fs && f.lockedFile.file == Resolve(directory, toFilename(cacheKey))
      ensures f.lockedFile.lockfile == LockPath(Resolve(directory, toFilename(cacheKey)))
      ensures f.lockedFile.clock == clock && f.lockedFile.maximumLockingDuration == DEFAULT_EXPIRY_TIME
      ensures f.written.value <==> Resolve(directory, toFilename(cacheKey)) in fs.files
    {
      var locked := new LockedFile(fs, Resolve(directory, toFilename(cacheKey)), clock);
      f := new FallbackFile(locked);
    }
  }
}
