/** DiskFallbackKeeper (cache2/fallback/disk): keeps a freshly loaded value in the key's
    slot, writing it only while holding the slot's lock.

    keep(key, value) resolves the slot, and under `runIfLock` opens the slot's write
    stream and lets the marshaller write the value into it, in a try-with-resources
    that closes (and so commits) the stream however the marshaller ends. */
module DiskKeepers {
  import opened Failures
  import opened FileSystems
  import opened Paths
  import opened LockedFiles
  import opened CommitStreams
  import opened FallbackFiles
  import opened Marshallers
  import DiskLoaders

  /** The I/O failures of one locked write: creating the temp file, then the close. */
  datatype WriteFaults = WriteFaults(createFails: bool, close: CloseFaults)

  const NO_WRITE_FAULTS: WriteFaults := WriteFaults(false, NO_CLOSE_FAULTS)

  /** The locked operation: `try (out = fallbackFile.write()) { marshaller.write(value, out); }`
      at wall-clock time `time`, on the temp file `temp`. */
  function WriteVia(files: Files, path: Path, temp: Path, time: int, m: Marshalled, w: WriteFaults): Step<()>
    requires temp != path
  {
    var created := CreateFileStep(files, temp, time, w.createFails);
    if created.result.Err? then created
    else
      var k := CloseSpec(AppendAll(created.files, temp, m.bytes, time), temp, path, false, false, w.close);
      Step(WithResource(Written(m), k.result), k.files)
  }

  /** The same write on the temp file that `random` names. */
  function WriteValueStep(files: Files, path: Path, random: nat -> Draw, time: int, m: Marshalled, w: WriteFaults): Step<()> {
    TempPathIsNoMarker(path, time, random);
    WriteVia(files, path, TempPath(path, time, random), time, m, w)
  }

  /** keep(key, value) for the slot at `path`, guarded by the marker `lock` judged at `now`;
      whether the operation ran is not reported. */
  function KeepSpec(files: Files, path: Path, lock: Path, now: int, time: int, random: nat -> Draw, m: Marshalled,
                    f: LockFaults, w: WriteFaults, releaseFails: bool): Step<()>
  {
    var r := RunIfLockSpec(files, lock, now, DEFAULT_EXPIRY_TIME, time, f,
                           (g: Files) => WriteValueStep(g, path, random, time, m, w), releaseFails);
    Step(Void(r.result), r.files)
  }

  /** A marker that is present and not expired makes keep a no-op that returns normally. */
  lemma KeepRespectsLiveLock(files: Files, path: Path, lock: Path, now: int, time: int, random: nat -> Draw, m: Marshalled,
                             f: LockFaults, w: WriteFaults, releaseFails: bool)
    requires lock in files && !ExpiredAt(files, lock, now, DEFAULT_EXPIRY_TIME, f.mtimeUnreadable)
    ensures KeepSpec(files, path, lock, now, time, random, m, f, w, releaseFails) == Step(Done, files)
  {
  }

  /** The lock is skipped without error whenever it is refused: the boolean of runIfLock is dropped. */
  lemma SkippedKeepIsNoError(files: Files, path: Path, lock: Path, now: int, time: int, random: nat -> Draw, m: Marshalled,
                             f: LockFaults, w: WriteFaults, releaseFails: bool)
    requires TryLockSpec(files, lock, now, DEFAULT_EXPIRY_TIME, time, f).result == Ok(false)
    ensures KeepSpec(files, path, lock, now, time, random, m, f, w, releaseFails).result == Done
    ensures KeepSpec(files, path, lock, now, time, random, m, f, w, releaseFails).files
            == TryLockSpec(files, lock, now, DEFAULT_EXPIRY_TIME, time, f).files
  {
  }

  /** Without failures, the locked write moves exactly the marshalled bytes into the value
      file and leaves no temp file; everything else is as it was. */
  lemma WriteValueCommits(files: Files, path: Path, random: nat -> Draw, time: int, m: Marshalled)
    requires TempPath(path, time, random) !in files
    ensures WriteValueStep(files, path, random, time, m, NO_WRITE_FAULTS)
            == Step(Written(m), files[path := File(m.bytes, time)])
  {
    TempPathIsNoMarker(path, time, random);
    WriteViaCommits(files, path, TempPath(path, time, random), time, m);
  }

  /** WriteValueCommits on any fresh temp file. */
  lemma WriteViaCommits(files: Files, path: Path, temp: Path, time: int, m: Marshalled)
    requires temp !in files && temp != path
    ensures WriteVia(files, path, temp, time, m, NO_WRITE_FAULTS) == Step(Written(m), files[path := File(m.bytes, time)])
  {
    var created := files[temp := EmptyFile(time)];
    FreshFileHoldsWrittenBytes(created, temp, m.bytes, time);
    var full := created[temp := File(m.bytes, time)];
    assert CreateFileStep(files, temp, time, false) == Step(Done, created);
    assert AppendAll(created, temp, m.bytes, time) == full;
    var k := CloseSpec(full, temp, path, false, false, NO_CLOSE_FAULTS);
    assert Commits(full, temp, NO_CLOSE_FAULTS);
    assert k.files == (full - {temp})[path := full[temp]];
    assert (full - {temp})[path := full[temp]] == files[path := File(m.bytes, time)];
  }

  /** The locked write never touches anything but the value file and its temp file. */
  lemma WriteValueFrame(files: Files, path: Path, random: nat -> Draw, time: int, m: Marshalled, w: WriteFaults, other: Path)
    requires other != path && other != TempPath(path, time, random)
    ensures var s := WriteValueStep(files, path, random, time, m, w);
      (other in s.files <==> other in files) && (other in files ==> s.files[other] == files[other])
  {
    TempPathIsNoMarker(path, time, random);
    WriteViaFrame(files, path, TempPath(path, time, random), time, m, w, other);
  }

  /** WriteValueFrame on any temp file. */
  lemma WriteViaFrame(files: Files, path: Path, temp: Path, time: int, m: Marshalled, w: WriteFaults, other: Path)
    requires temp != path && other != path && other != temp
    ensures var s := WriteVia(files, path, temp, time, m, w);
      (other in s.files <==> other in files) && (other in files ==> s.files[other] == files[other])
  {
    var created := CreateFileStep(files, temp, time, w.createFails);
    if created.result.Ok? {
      var full := AppendAll(created.files, temp, m.bytes, time);
      AppendAllAppends(created.files, temp, m.bytes, time);
      assert (other in full <==> other in files) && (other in files ==> full[other] == files[other]);
    }
  }

  /** On an uncontended slot with no failures, keep leaves exactly the marshalled bytes in
      the value file, no marker and no temp file. */
  lemma KeepStoresMarshalledValue(files: Files, path: Path, lock: Path, now: int, time: int, random: nat -> Draw, m: Marshalled)
    requires lock !in files && TempPath(path, time, random) !in files
    requires lock != path && lock != TempPath(path, time, random)
    requires m.failure.None?
    ensures KeepSpec(files, path, lock, now, time, random, m, NO_FAULTS, NO_WRITE_FAULTS, false)
            == Step(Done, files[path := File(m.bytes, time)])
  {
    var locked := files[lock := EmptyFile(time)];
    WriteValueCommits(locked, path, random, time, m);
    UpdateThenDropMarker(files, lock, path, EmptyFile(time), File(m.bytes, time));
  }

  /** Once keep acquires the marker, it is the locked write on the marked state followed by
      the removal of the marker, and it reports what the write reported. */
  lemma KeepAfterAcquire(files: Files, path: Path, lock: Path, now: int, time: int, random: nat -> Draw, m: Marshalled,
                         f: LockFaults, w: WriteFaults)
    requires lock != path && lock != TempPath(path, time, random)
    requires TryLockSpec(files, lock, now, DEFAULT_EXPIRY_TIME, time, f).result == Ok(true)
    ensures var o := WriteValueStep(files[lock := EmptyFile(time)], path, random, time, m, w);
      KeepSpec(files, path, lock, now, time, random, m, f, w, false) == Step(Void(o.result), o.files - {lock})
  {
    WriteValueFrame(files[lock := EmptyFile(time)], path, random, time, m, w, lock);
  }

  /** Whatever the locked write does, a marker this call acquired is removed again unless
      deleting it fails. */
  lemma KeepReleasesItsMarker(files: Files, path: Path, lock: Path, now: int, time: int, random: nat -> Draw, m: Marshalled,
                              f: LockFaults, w: WriteFaults)
    requires lock != path && lock != TempPath(path, time, random)
    requires TryLockSpec(files, lock, now, DEFAULT_EXPIRY_TIME, time, f).result == Ok(true)
    ensures lock !in KeepSpec(files, path, lock, now, time, random, m, f, w, false).files
  {
    WriteValueFrame(files[lock := EmptyFile(time)], path, random, time, m, w, lock);
  }

  /** A marshaller exception reaches the caller of keep (with any close failure suppressed
      onto it), and the marker is still released. */
  lemma KeepPropagatesMarshallerFailure(files: Files, path: Path, lock: Path, now: int, time: int, random: nat -> Draw,
                                        m: Marshalled, f: LockFaults, w: WriteFaults)
    requires lock != path && lock != TempPath(path, time, random)
    requires TryLockSpec(files, lock, now, DEFAULT_EXPIRY_TIME, time, f).result == Ok(true)
    requires TempPath(path, time, random) !in files && !w.createFails
    requires m.failure.Some?
    ensures var s := KeepSpec(files, path, lock, now, time, random, m, f, w, false);
      s.result.Err? && s.result.error.kind == m.failure.value.kind && s.result.error.cause == m.failure.value.cause
      && lock !in s.files
  {
    var locked := files[lock := EmptyFile(time)];
    WriteValueFrame(locked, path, random, time, m, w, lock);
    assert WriteValueStep(locked, path, random, time, m, w).result.Err?;
  }

  /** The locked operation, run against the shared filesystem. */
  method WriteValue<V>(fallbackFile: FallbackFile, marshaller: Marshaller<V>, value: V, random: nat -> Draw, w: WriteFaults) returns (r: Outcome)
    modifies fallbackFile.lockedFile.fs`files, fallbackFile.written
    ensures var fs := fallbackFile.lockedFile.fs;
      Step(r, fs.files) == WriteValueStep(old(fs.files), fallbackFile.lockedFile.file, random, fs.wallClock.millis,
                                          marshaller.marshal(value), w)
  {
    var fs := fallbackFile.lockedFile.fs;
    var created := fallbackFile.Write(random, w.createFails);
    if created.Err? {
      return Err(created.error);
    }
    var out := created.value;
    var m := marshaller.marshal(value);
    ghost var start := fs.files;
    // marshaller.write(value, out): one write(int) per marshalled byte
    var i := 0;
    while i < |m.bytes|
      invariant 0 <= i <= |m.bytes|
      invariant !out.closed
      invariant fs.files == AppendAll(start, out.tempfile, m.bytes[..i], fs.wallClock.millis)
    {
      assert m.bytes[..i + 1][..i] == m.bytes[..i];
      var _ := out.Write(m.bytes[i]);
      i := i + 1;
    }
    assert m.bytes[..i] == m.bytes;
    var closed := out.Close(w.close);
    r := WithResource(Written(m), closed);
  }

  /** The try-with-resources around the marshaller closes the stream however the
      marshaller ends, and closing commits: when the marshaller throws after writing part
      of a value, keep reports the exception but the value file now holds that part. */
  lemma KeepCommitsPartialValue(files: Files, path: Path, lock: Path, now: int, time: int, random: nat -> Draw, m: Marshalled)
    requires lock !in files && TempPath(path, time, random) !in files
    requires lock != path && lock != TempPath(path, time, random)
    requires m.failure.Some?
    ensures KeepSpec(files, path, lock, now, time, random, m, NO_FAULTS, NO_WRITE_FAULTS, false)
            == Step(Err(m.failure.value), files[path := File(m.bytes, time)])
  {
    var locked := files[lock := EmptyFile(time)];
    WriteValueCommits(locked, path, random, time, m);
    UpdateThenDropMarker(files, lock, path, EmptyFile(time), File(m.bytes, time));
  }

  /** A slot holding the bytes of `good` and a marshaller that writes one byte of `v` and
      then throws: after keep, the fallback no longer yields `good`. */
  lemma PartialValueReplacesGoodOne(path: Path, lock: Path, time: int, random: nat -> Draw, mr: Marshaller<int>, good: int)
    requires lock != path && lock != TempPath(path, time, random) && TempPath(path, time, random) != path
    requires mr.marshal(1) == Marshalled([7], Some(Raise(Thrown(0, false))))
    requires mr.unmarshal([7]) == Err(Raise(Thrown(1, false)))
    requires mr.unmarshal([8]) == Ok(good)
    ensures var before: Files := map[path := File([8], time)];
      && DiskLoaders.LoadSpec(before, path, false, mr.unmarshal) == Ok(good)
      && DiskLoaders.LoadSpec(KeepSpec(before, path, lock, time, time, random, mr.marshal(1), NO_FAULTS, NO_WRITE_FAULTS, false).files,
                              path, false, mr.unmarshal) == Err(Raise(Thrown(1, false)))
  {
    var before: Files := map[path := File([8], time)];
    KeepCommitsPartialValue(before, path, lock, time, time, random, mr.marshal(1));
    assert before[path := File([7], time)][path].bytes == [7];
  }

  /** The evidently intended locked write: the temp file is committed only when the
      marshaller completed, and discarded when it threw. */
  function CommitIfMarshalledStep(files: Files, path: Path, random: nat -> Draw, time: int, m: Marshalled, w: WriteFaults): Step<()> {
    var temp := TempPath(path, time, random);
    TempPathIsNoMarker(path, time, random);
    var created := CreateFileStep(files, temp, time, w.createFails);
    if created.result.Err? then created
    else if m.failure.Some? then
      var d := DeleteIfExistsStep(AppendAll(created.files, temp, m.bytes, time), temp, w.close.deleteFails);
      Step(WithResource(Written(m), Void(d.result)), d.files)
    else
      var k := CloseSpec(AppendAll(created.files, temp, m.bytes, time), temp, path, false, false, w.close);
      Step(k.result, k.files)
  }

  /** The corrected write agrees with the written one when the marshaller completes. */
  lemma CommitIfMarshalledAgreesOnSuccess(files: Files, path: Path, random: nat -> Draw, time: int, m: Marshalled, w: WriteFaults)
    requires m.failure.None?
    ensures CommitIfMarshalledStep(files, path, random, time, m, w) == WriteValueStep(files, path, random, time, m, w)
  {
    assert Written(m) == Done;
  }

  /** When the marshaller throws, the corrected write fails (with the marshaller's exception
      once the temp file was created) and leaves the value file as it was. */
  lemma CommitIfMarshalledKeepsGoodValue(files: Files, path: Path, random: nat -> Draw, time: int, m: Marshalled, w: WriteFaults)
    requires m.failure.Some?
    ensures var s := CommitIfMarshalledStep(files, path, random, time, m, w);
      && s.result.Err?
      && (TempPath(path, time, random) !in files && !w.createFails ==> s.result.error.kind == m.failure.value.kind)
      && (path in s.files <==> path in files) && (path in files ==> s.files[path] == files[path])
  {
    var temp := TempPath(path, time, random);
    TempPathIsNoMarker(path, time, random);
    var created := CreateFileStep(files, temp, time, w.createFails);
    if created.result.Ok? {
      var full := AppendAll(created.files, temp, m.bytes, time);
      AppendAllAppends(created.files, temp, m.bytes, time);
      assert (path in full <==> path in files) && (path in files ==> full[path] == files[path]);
      var d := DeleteIfExistsStep(full, temp, w.close.deleteFails);
      assert (path in d.files <==> path in files) && (path in files ==> d.files[path] == files[path]);
    }
  }

  /** keep with the corrected write. */
  function CorrectedKeepSpec(files: Files, path: Path, lock: Path, now: int, time: int, random: nat -> Draw, m: Marshalled,
                             f: LockFaults, w: WriteFaults, releaseFails: bool): Step<()>
  {
    var r := RunIfLockSpec(files, lock, now, DEFAULT_EXPIRY_TIME, time, f,
                           (g: Files) => CommitIfMarshalledStep(g, path, random, time, m, w), releaseFails);
    Step(Void(r.result), r.files)
  }

  /** With the corrected write, a marshaller that throws leaves the fallback value alone,
      whatever else happens. */
  lemma CorrectedKeepNeverCommitsPartialValue(files: Files, path: Path, lock: Path, now: int, time: int, random: nat -> Draw,
                                              m: Marshalled, f: LockFaults, w: WriteFaults, releaseFails: bool)
    requires lock != path && m.failure.Some?
    ensures var s := CorrectedKeepSpec(files, path, lock, now, time, random, m, f, w, releaseFails);
      (path in s.files <==> path in files) && (path in files ==> s.files[path] == files[path])
  {
    var t := TryLockSpec(files, lock, now, DEFAULT_EXPIRY_TIME, time, f);
    if t.result == Ok(true) {
      CommitIfMarshalledKeepsGoodValue(t.files, path, random, time, m, w);
    }
  }

  class DiskFallbackKeeper<K, V> {
    const fileResolver: Resolver<K>
    const marshaller: Marshaller<V>

    constructor (fileResolver: Resolver<K>, marshaller: Marshaller<V>)
      ensures this.fileResolver == fileResolver && this.marshaller == marshaller
    {
      this.fileResolver := fileResolver;
      this.marshaller := marshaller;
    }

    method Keep(key: K, value: V, random: nat -> Draw, f: LockFaults, w: WriteFaults, releaseFails: bool) returns (r: Outcome)
      modifies fileResolver.fs`files
      ensures var path := Resolve(fileResolver.directory, fileResolver.toFilename(key));
        Step(r, fileResolver.fs.files)
        == KeepSpec(old(fileResolver.fs.files), path, LockPath(path), fileResolver.clock.millis, fileResolver.fs.wallClock.millis,
                    random, marshaller.marshal(value), f, w, releaseFails)
    {
      var fallbackFile := fileResolver.ResolveFor(key);
      var locking := fileResolver.ResolveFor(key);
      var acquired := locking.lockedFile.TryLock(f);
      if acquired != Ok(true) {
        return Void(acquired);
      }
      var ran := WriteValue(fallbackFile, marshaller, value, random, w);
      var released := locking.lockedFile.Release(releaseFails);
      r := Void(Finally(if ran.Ok? then Ok(true) else Err(ran.error), released));
    }
  }

  /** What a later fallback load finds after a keep on an uncontended slot with no failures:
      the kept value, whenever the marshaller round-trips it. */
  lemma KeepThenLoad<V>(files: Files, path: Path, lock: Path, now: int, time: int, random: nat -> Draw, mr: Marshaller<V>, v: V)
    requires lock !in files && TempPath(path, time, random) !in files
    requires lock != path && lock != TempPath(path, time, random)
    requires RoundTrips(mr, v)
    ensures DiskLoaders.LoadSpec(KeepSpec(files, path, lock, now, time, random, mr.marshal(v), NO_FAULTS, NO_WRITE_FAULTS, false).files,
                                 path, false, mr.unmarshal) == Ok(v)
  {
    KeepStoresMarshalledValue(files, path, lock, now, time, random, mr.marshal(v));
  }
}
