/** The filesystem the fallback mechanism works on, as abstract state.

    The state is a map from path strings to entries (a regular file with its bytes
    and last-modified time, or a directory) plus a wall clock that stamps the files
    it creates. Each java.nio.file.Files operation used by the fallback code is a
    pure step function over that map; the FileSystem class performs the same step
    in place. An I/O failure that the operating system may raise at any time is an
    explicit `fails` input: when it is true the call throws an IOException and
    leaves the map as it was. */
module FileSystems {
  import opened Failures

  newtype byte = b: int | 0 <= b < 256

  type Path = string

  datatype Entry = File(bytes: seq<byte>, mtime: int) | Dir(mtime: int)

  type Files = map<Path, Entry>

  /** What a filesystem operation returned or threw, and the map afterwards. */
  datatype Step<+T> = Step(result: Result<T>, files: Files)

  /** The empty regular file that Files.createFile leaves behind. */
  function EmptyFile(time: int): Entry {
    File([], time)
  }

  /** Files.isRegularFile */
  predicate RegularFile(files: Files, p: Path) {
    p in files && files[p].File?
  }

  /** Files.createFile (and Files.newOutputStream with CREATE_NEW): an atomic
      create-if-absent, which throws FileAlreadyExistsException when the path exists. */
  function CreateFileStep(files: Files, p: Path, time: int, fails: bool): Step<()> {
    if p in files then Step(Err(Raise(FileAlreadyExists)), files)
    else if fails then Step(Err(Raise(IoFailure)), files)
    else Step(Done, files[p := EmptyFile(time)])
  }

  /** Another process creating the empty file `p` between two steps of this one, when
      `raced` says so. This is how a sequential run meets a create-if-absent that loses
      a race. */
  function RacedStep(files: Files, p: Path, raced: bool, time: int): Files {
    if raced && p !in files then files[p := EmptyFile(time)] else files
  }

  /** Files.delete: NoSuchFileException when nothing is there. */
  function DeleteStep(files: Files, p: Path, fails: bool): Step<()> {
    if p !in files then Step(Err(Raise(NoSuchFile)), files)
    else if fails then Step(Err(Raise(IoFailure)), files)
    else Step(Done, files - {p})
  }

  /** Files.deleteIfExists: whether something was deleted. */
  function DeleteIfExistsStep(files: Files, p: Path, fails: bool): Step<bool> {
    if fails then Step(Err(Raise(IoFailure)), files)
    else Step(Ok(p in files), files - {p})
  }

  /** Files.getLastModifiedTime, in milliseconds. */
  function LastModifiedStep(files: Files, p: Path, fails: bool): Result<int> {
    if p !in files then Err(Raise(NoSuchFile))
    else if fails then Err(Raise(IoFailure))
    else Ok(files[p].mtime)
  }

  /** Files.move with ATOMIC_MOVE and REPLACE_EXISTING: one step in which `src`
      disappears and `dst` holds what `src` held. */
  function MoveStep(files: Files, src: Path, dst: Path, fails: bool): Step<()> {
    if src !in files then Step(Err(Raise(NoSuchFile)), files)
    else if fails then Step(Err(Raise(IoFailure)), files)
    else Step(Done, (files - {src})[dst := files[src]])
  }

  /** Files.newOutputStream with its default options (CREATE, TRUNCATE_EXISTING, WRITE). */
  function TruncateStep(files: Files, p: Path, time: int, fails: bool): Step<()> {
    if fails || (p in files && files[p].Dir?) then Step(Err(Raise(IoFailure)), files)
    else Step(Done, files[p := EmptyFile(time)])
  }

  /** One byte written through a handle open on `p`. A handle whose file has been
      unlinked writes to nothing that a path can reach. */
  function AppendStep(files: Files, p: Path, b: byte, time: int): Files {
    if RegularFile(files, p) then files[p := File(files[p].bytes + [b], time)] else files
  }

  /** The bytes `bs` written one after another through a handle open on `p`. */
  function AppendAll(files: Files, p: Path, bs: seq<byte>, time: int): Files
    decreases |bs|
  {
    if bs == [] then files
    else AppendStep(AppendAll(files, p, bs[..|bs| - 1], time), p, bs[|bs| - 1], time)
  }

  /** Writing `bs` through a handle on a regular file appends exactly `bs` to it and
      touches nothing else. */
  lemma {:induction false} AppendAllAppends(files: Files, p: Path, bs: seq<byte>, time: int)
    requires RegularFile(files, p)
    ensures bs != [] ==> AppendAll(files, p, bs, time) == files[p := File(files[p].bytes + bs, time)]
    ensures bs == [] ==> AppendAll(files, p, bs, time) == files
  {
    if bs != [] {
      var init, last := bs[..|bs| - 1], bs[|bs| - 1];
      AppendAllAppends(files, p, init, time);
      var before := AppendAll(files, p, init, time);
      assert RegularFile(before, p);
      assert before[p].bytes == files[p].bytes + init by {
        if init == [] { assert files[p].bytes + init == files[p].bytes; }
      }
      assert before[p].bytes + [last] == files[p].bytes + bs by {
        assert init + [last] == bs;
      }
      assert before[p := File(files[p].bytes + bs, time)] == files[p := File(files[p].bytes + bs, time)];
    }
  }

  /** Writing `bs` into a freshly created empty file leaves exactly `bs` in it. */
  lemma FreshFileHoldsWrittenBytes(files: Files, p: Path, bs: seq<byte>, time: int)
    requires p in files && files[p] == EmptyFile(time)
    ensures AppendAll(files, p, bs, time) == files[p := File(bs, time)]
  {
    AppendAllAppends(files, p, bs, time);
    if bs == [] {
      assert files[p := File(bs, time)] == files;
    } else {
      assert files[p].bytes + bs == bs;
    }
  }

  /** Creating a marker, updating another file and deleting the marker again is just the update. */
  lemma UpdateThenDropMarker(files: Files, lock: Path, target: Path, marker: Entry, e: Entry)
    requires lock != target
    ensures files[lock := marker][target := e] - {lock} == files[target := e] - {lock}
    ensures lock !in files ==> files[target := e] - {lock} == files[target := e]
  {
  }

  /** Opening `p` and reading it to the end. */
  function ReadStep(files: Files, p: Path, fails: bool): Result<seq<byte>> {
    if p !in files then Err(Raise(NoSuchFile))
    else if fails || files[p].Dir? then Err(Raise(IoFailure))
    else Ok(files[p].bytes)
  }

  /** Files.createDirectories (parents are not modelled). */
  function CreateDirectoriesStep(files: Files, p: Path, time: int, fails: bool): Step<()> {
    if fails then Step(Err(Raise(IoFailure)), files)
    else if RegularFile(files, p) then Step(Err(Raise(FileAlreadyExists)), files)
    else if p in files then Step(Done, files)
    else Step(Done, files[p := Dir(time)])
  }

  /** A java.time.Clock reading in milliseconds; tests advance it by hand. */
  class Clock {
    var millis: int

    constructor (millis: int)
      ensures this.millis == millis
    {
      this.millis := millis;
    }

    method TimePasses(d: nat)
      modifies this
      ensures millis == old(millis) + d
    {
      millis := millis + d;
    }
  }

  /** The filesystem shared by every process, with the system clock that stamps it. */
  class FileSystem {
    var files: Files
    const wallClock: Clock

    constructor (files: Files, wallClock: Clock)
      ensures this.files == files && this.wallClock == wallClock
    {
      this.files := files;
      this.wallClock := wallClock;
    }

    method Exists(p: Path) returns (b: bool)
      ensures b <==> p in files
    {
      b := p in files;
    }

    method IsRegularFile(p: Path) returns (b: bool)
      ensures b <==> RegularFile(files, p)
    {
      b := RegularFile(files, p);
    }

    method CreateFile(p: Path, fails: bool) returns (r: Outcome)
      modifies this`files
      ensures Step(r, files) == CreateFileStep(old(files), p, wallClock.millis, fails)
    {
      var s := CreateFileStep(files, p, wallClock.millis, fails);
      r, files := s.result, s.files;
    }

    method OtherProcessCreates(p: Path, raced: bool)
      modifies this`files
      ensures files == RacedStep(old(files), p, raced, wallClock.millis)
    {
      files := RacedStep(files, p, raced, wallClock.millis);
    }

    method Delete(p: Path, fails: bool) returns (r: Outcome)
      modifies this`files
      ensures Step(r, files) == DeleteStep(old(files), p, fails)
    {
      var s := DeleteStep(files, p, fails);
      r, files := s.result, s.files;
    }

    method DeleteIfExists(p: Path, fails: bool) returns (r: Result<bool>)
      modifies this`files
      ensures Step(r, files) == DeleteIfExistsStep(old(files), p, fails)
    {
      var s := DeleteIfExistsStep(files, p, fails);
      r, files := s.result, s.files;
    }

    method GetLastModifiedTime(p: Path, fails: bool) returns (r: Result<int>)
      ensures r == LastModifiedStep(files, p, fails)
    {
      r := LastModifiedStep(files, p, fails);
    }

    method Move(src: Path, dst: Path, fails: bool) returns (r: Outcome)
      modifies this`files
      ensures Step(r, files) == MoveStep(old(files), src, dst, fails)
    {
      var s := MoveStep(files, src, dst, fails);
      r, files := s.result, s.files;
    }

    method NewOutputStream(p: Path, fails: bool) returns (r: Outcome)
      modifies this`files
      ensures Step(r, files) == TruncateStep(old(files), p, wallClock.millis, fails)
    {
      var s := TruncateStep(files, p, wallClock.millis, fails);
      r, files := s.result, s.files;
    }

    method WriteByte(p: Path, b: byte)
      modifies this`files
      ensures files == AppendStep(old(files), p, b, wallClock.millis)
    {
      files := AppendStep(files, p, b, wallClock.millis);
    }

    method ReadAll(p: Path, fails: bool) returns (r: Result<seq<byte>>)
      ensures r == ReadStep(files, p, fails)
    {
      r := ReadStep(files, p, fails);
    }

    /** Runs an operation given as a step function against the shared state. */
    method Perform(op: Files -> Step<()>) returns (r: Outcome)
      modifies this`files
      ensures Step(r, files) == op(old(files))
    {
      var s := op(files);
      r, files := s.result, s.files;
    }

    method CreateDirectories(p: Path, fails: bool) returns (r: Outcome)
      modifies this`files
      ensures Step(r, files) == CreateDirectoriesStep(old(files), p, wallClock.millis, fails)
    {
      var s := CreateDirectoriesStep(files, p, wallClock.millis, fails);
      r, files := s.result, s.files;
    }
  }
}
