/** How the generations of the fallback differ, stated over their models. */
module GenerationVariants {
  import opened Failures
  import opened FileSystems
  import opened Paths
  import opened LockedFiles
  import opened QuietLockFiles
  import opened DiskLockFiles
  import opened Marshallers
  import LoaderWithFallbacks
  import StorageFallbackLoaders
  import StorageFallbacks
  import DiskKeepers

  /** The non-throwing tryLock is the throwing one with every exception turned into
      "not acquired": same filesystem effect, and the same answer whenever the throwing
      one answers. */
  lemma QuietTryLockSwallowsFailures(files: Files, lock: Path, now: int, maxDuration: nat, time: int, f: LockFaults)
    ensures var t := TryLockSpec(files, lock, now, maxDuration, time, f);
      TryLockQuietSpec(files, lock, now, maxDuration, time, f) == if t.result.Err? then Step(Ok(false), t.files) else t
  {
  }

  /** A failing createFile on a free marker: the later generation throws
      UnableToAcquireLock, the first one quietly does not acquire. */
  lemma CreateFailureThrowsOnlyInLaterGeneration(files: Files, lock: Path, now: int, maxDuration: nat, time: int)
    requires lock !in files
    ensures TryLockSpec(files, lock, now, maxDuration, time, LockFaults(false, false, false, true))
            == Step(Err(Wrap(UnableToAcquireLock, Raise(IoFailure))), files)
    ensures TryLockQuietSpec(files, lock, now, maxDuration, time, LockFaults(false, false, false, true)) == Step(Ok(false), files)
  {
  }

  /** Both releases delete the marker alike; they differ only in how they report a
      missing marker or a failed deletion. */
  lemma ReleasesDifferOnlyInReporting(files: Files, lock: Path, fails: bool)
    ensures ReleaseSpec(files, lock, fails).files == ReleaseQuietSpec(files, lock, fails).files
    ensures ReleaseSpec(files, lock, fails).result.Ok? <==> ReleaseQuietSpec(files, lock, fails).result.value
  {
  }

  /** For one value file, the four generations use four different markers, so a process
      of one generation is not excluded by the marker of another. */
  lemma MarkersOfAllGenerationsDiffer(p: Path)
    ensures LockPath(p) != DiskLockPath(p) && LockPath(p) != QuietLockPath(p) && LockPath(p) != Sibling(p, LOCK_SUFFIX)
    ensures DiskLockPath(p) != QuietLockPath(p) && DiskLockPath(p) != Sibling(p, LOCK_SUFFIX)
    ensures QuietLockPath(p) != Sibling(p, LOCK_SUFFIX)
  {
    MarkersOfGenerationsDiffer(p);
    assert |LOCKED_FILE_POSTFIX| == 49 && |DISK_LOCK_FILE_POSTFIX| == 46 && |LOCK_FILE_POSTFIX| == 41 && |LOCK_SUFFIX| == 5;
  }

  /** The inline protocol of DiskStorageFallback is the non-throwing runIfLock on the
      `.lock` marker, with the write as its operation. */
  lemma InlineProtocolIsQuietRunIfLock(files: Files, cacheFile: Path, time: int, random: nat -> Draw, m: Marshalled,
                                       f: LockFaults, s: StorageFallbacks.StoreFaults, releaseFails: bool)
    ensures StorageFallbacks.TryWriteInlineSpec(files, cacheFile, time, random, m, f, s, releaseFails)
            == RunIfLockQuietSpec(files, Sibling(cacheFile, LOCK_SUFFIX), time, StorageFallbacks.LOCK_EXPIRES_AFTER, time, f,
                                  (g: Files) => Step(Done, StorageFallbacks.StoreStep(g, cacheFile, time, random, m, s)),
                                  releaseFails).files
  {
  }

  /** A checked exception from the primary loader: the later generation still asks the
      fallback and returns its value, the first one rethrows without reading the disk. */
  lemma OnlyLaterGenerationRecoversCheckedFailures<K, V, W>(l: LoaderWithFallbacks.LoaderWithFallback<K, V, W>, key: K, world: W,
                                                            files: Files, path: Path, m: Marshaller<V>, time: int,
                                                            random: nat -> Draw, readFails: bool, f: LockFaults,
                                                            w: DiskKeepers.WriteFaults, releaseFails: bool)
    requires l.cacheLoader(key).Err? && !IsUnchecked(l.cacheLoader(key).error.kind)
    requires l.fallbackLoader(key, world).Ok?
    ensures var r := LoaderWithFallbacks.Load(l, key, world);
      r.result == l.fallbackLoader(key, world) && r.calls[1] == LoaderWithFallbacks.FallbackCall(key)
    ensures StorageFallbackLoaders.StorageLoadSpec(files, path, l.cacheLoader(key), m, time, random, readFails, f, w, releaseFails)
            == Step(l.cacheLoader(key), files)
  {
  }
}
