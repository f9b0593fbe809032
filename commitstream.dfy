/** The output stream that FallbackFile.write hands out (both generations share it).

    Bytes go to a temp file; the first close renames the temp file over the value
    file in one atomic step and records that the value has been written; every
    close attempt on the first call ends by deleting the temp file if it is still
    there. Later closes do nothing. */
module CommitStreams {
  import opened Failures
  import opened FileSystems

  /** java.util.concurrent.atomic.AtomicBoolean, as used for the `written` flag. */
  class Flag {
    var value: bool

    constructor (value: bool)
      ensures this.value == value
    {
      this.value := value;
    }
  }

  /** The I/O failures the first close may meet: closing the underlying stream,
      the rename, deleting the temp file afterwards. */
  datatype CloseFaults = CloseFaults(flushFails: bool, moveFails: bool, deleteFails: bool)

  const NO_CLOSE_FAULTS: CloseFaults := CloseFaults(false, false, false)

  /** What close returned or threw, the filesystem afterwards and the `written` flag afterwards. */
  datatype Closing = Closing(result: Outcome, files: Files, written: bool)

  /** Whether the first close renames `temp` over the value file. */
  predicate Commits(files: Files, temp: Path, c: CloseFaults) {
    temp in files && !c.flushFails && !c.moveFails
  }

  /** close(): a second close is a no-op; the first one closes the underlying stream,
      moves the temp file over `target`, sets `written`, and finally deletes the temp file. */
  function CloseSpec(files: Files, temp: Path, target: Path, written: bool, closed: bool, c: CloseFaults): (k: Closing)
    requires temp != target
    ensures closed ==> k == Closing(Done, files, written)
    // the flag is monotone, and set exactly when the rename happened
    ensures written ==> k.written
    ensures !closed ==> (k.written <==> written || Commits(files, temp, c))
    // the value file changes only by receiving the temp file's entry
    ensures !closed && Commits(files, temp, c) ==> k.files == (files - {temp})[target := files[temp]]
    ensures !closed && !Commits(files, temp, c) ==> k.files == if c.deleteFails then files else files - {temp}
    // the temp file does not survive a close whose cleanup succeeds
    ensures !closed && !c.deleteFails ==> temp !in k.files
    ensures k.result.Ok? <==> closed || (Commits(files, temp, c) && !c.deleteFails)
  {
    if closed then Closing(Done, files, written)
    else
      var body := if c.flushFails then Step(Err(Raise(IoFailure)), files) else MoveStep(files, temp, target, c.moveFails);
      var cleanup := DeleteIfExistsStep(body.files, temp, c.deleteFails);
      Closing(Finally(body.result, Void(cleanup.result)), cleanup.files, written || body.result.Ok?)
  }

  class CommitStream {
    const fs: FileSystem
    const tempfile: Path
    const target: Path
    const written: Flag
    var closed: bool

    predicate Valid() {
      tempfile != target
    }

    constructor (fs: FileSystem, tempfile: Path, target: Path, written: Flag)
      requires tempfile != target
      ensures Valid() && !closed
      ensures this.fs == fs && this.tempfile == tempfile && this.target == target && this.written == written
    {
      this.fs := fs;
      this.tempfile := tempfile;
      this.target := target;
      this.written := written;
      closed := false;
    }

    /** write(int): one byte through the handle on the temp file; the handle is gone after close. */
    method Write(b: byte) returns (r: Outcome)
      modifies fs`files
      ensures r == if closed then Err(Raise(IoFailure)) else Done
      ensures fs.files == if closed then old(fs.files) else AppendStep(old(fs.files), tempfile, b, fs.wallClock.millis)
    {
      if closed {
        return Err(Raise(IoFailure));
      }
      fs.WriteByte(tempfile, b);
      r := Done;
    }

    method Close(c: CloseFaults) returns (r: Outcome)
      requires Valid()
      modifies this`closed, written`value, fs`files
      ensures closed
      ensures Closing(r, fs.files, written.value) == CloseSpec(old(fs.files), tempfile, target, old(written.value), old(closed), c)
    {
      var wasClosed := closed;
      closed := true;
      if wasClosed {
        return Done;
      }
      var body: Outcome;
      if c.flushFails {
        body := Err(Raise(IoFailure));
      } else {
        body := fs.Move(tempfile, target, c.moveFails);
        if body.Ok? {
          written.value := true;
        }
      }
      var cleanup := fs.DeleteIfExists(tempfile, c.deleteFails);
      r := Finally(body, Void(cleanup));
    }
  }
}
