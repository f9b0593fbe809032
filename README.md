# Disk fallback for cache loaders, modelled in Dafny

digipost-cache wraps the loader that fills a cache so that a value loaded
successfully is also written to a file on disk. When the loader later fails,
the cache is served that file's value instead. Several generations of this
mechanism live side by side in the library, and all of them are modelled here:

- **DiskStorageFallback** (`cache/fallback`): a `Callable` that wraps another one
  and writes the lock/temp-file/rename protocol out inline.
- **DiskStorageFallbackLoader** and its decorator (`cache/fallback`): per-key
  slots. Each slot is a `FallbackFile` whose value file is guarded by a `<name>.lock`
  marker, managed by the non-throwing `LockFiles` service. The package also holds
  the non-throwing `LockFile` class.
- **The first disk generation** (`cache/fallback/disk`): `DiskFallbackLoader` and
  `DiskFallbackKeeper`, with the throwing `LockFile` that judges expiry at the wall clock.
- **The second generation** (`cache2/fallback`): `LoaderWithFallback` asks the
  primary loader, keeps a fresh value through a `FallbackKeeper`, hands a keeping
  failure to a `FallbackKeeperFailedHandler`, and falls back to a `Loader` that
  reads the slot. `LoaderWithDiskFallbackDecorator` wires it to the disk slot
  (`FallbackFile` guarded by `LockedFile`, whose expiry is judged by an injected clock).

All generations share the same ideas:

- A slot's value file is only ever replaced by an atomic rename of a temp file
  named `<name>.<millis>.<ten random letters>`.
- Writing happens only while this process holds the marker file, created
  create-if-absent.
- A marker whose last-modified time is strictly more than ten minutes old is
  treated as abandoned and removed.

Reading differs between generations. The `cache/fallback/disk` slot, which `cache2` also uses,
distinguishes a slot that was never written (FallbackFileNotYetCreated) from one whose
file went missing (FileNotFoundException). The `cache/fallback` slot throws
FileNotFoundException in both cases. DiskStorageFallback keeps no written flag at all.

The filesystem is a `map<Path, Entry>` (module `FileSystems`). Each `java.nio.file.Files`
call used is a pure step function over that map, performed in place by a
`FileSystem` class. The I/O failures the model covers are explicit boolean
inputs, grouped in fault records (`LockFaults`, `CloseFaults`,
`WriteFaults`, `StoreFaults`, `DiskFaults`). Another process winning the race
for a marker is the `raced` input. Two I/O operations are taken never to fail:
closing a read stream and writing through an open write stream (see "## Left out"). Exceptions are values (`Failures.Error`: class,
cause, suppressed list), and try/finally, try-with-resources and `addSuppressed`
are the functions `Finally`, `WithResource` and `AddSuppressed`. A marshaller is a
pair of functions: `marshal` yields the bytes it writes and the exception it
throws afterwards, if any, and `unmarshal` reads bytes back.

Each class that works on the filesystem or holds mutable state is modelled as a
Dafny `class` over the shared `FileSystem`: the lock files, the slots and their
resolvers, the commit stream, the two `DiskFallbackKeeper`s, `DiskStorageFallbackLoader`,
`DiskStorageFallback` and the two decorators. Its methods are proved to coincide with a pure specification function
(`TryLockSpec`, `CloseSpec`, `KeepSpec`, `StorageLoadSpec`, `CallSpec`, ...), and
the lemmas state what the code promises about those functions. The classes without
state of their own are values:
- `DiskFallbackLoader` is the function `DiskLoaders.Load`.
- `LoaderWithFallback` is a datatype of functions (`LoaderWithFallbacks.LoaderWithFallback`).
- The four handlers are the functions of `KeeperFailedHandlers` and `WriteFailedHandlers`.
  They are LogAsError and Rethrow of `FallbackKeeperFailedHandler` and of
  `FallbackWriteFailedHandler`.
- The fallback and the keeper that `LoaderWithDiskFallbackDecorator` builds are
  `DiskFallbackDecorators.FallbackLoad` and `FallbackKeep`.

The one loop
of the source, `randomString` (copied into three classes), is a `while` loop with
invariants. The library call `marshaller.write(value, out)` is also a `while` loop:
it writes the marshalled bytes one at a time into the stream.

In the table below, all source paths start with `src/`.

## Model

| member | source | states |
|---|---|---|
| Paths.Decimal | src/main/java/no/digipost/cache/fallback/disk/FallbackFile.java:120-123 | the millisecond part of a temp name is non-empty, starts with a digit or `-`, and is all digits for a non-negative time |
| Paths.RandomString | src/main/java/no/digipost/cache/fallback/disk/FallbackFile.java:125-131 | the loop yields exactly `length` letters, one per random draw in order, each between `a` and `y` (nextInt(25) never reaches `z`) |
| Paths.SiblingOfResolved | src/main/java/no/digipost/cache/fallback/disk/FallbackFile.java:146-148 | the sibling of the resolved value path is the resolved path of the extended file name |
| Paths.TempPathIsNoMarker | src/main/java/no/digipost/cache/fallback/disk/FallbackFile.java:120-123 | a temp path is never the value file, nor the marker of any of the four lock classes |
| Paths.MarkerIsNotValue | src/main/java/no/digipost/cache2/fallback/disk/LockedFile.java:51-56 | a marker with a non-empty postfix is never the file it guards |
| LockedFiles.ExpiryIsStrict | src/main/java/no/digipost/cache2/fallback/disk/LockedFile.java:139-147 | a marker is still live exactly the maximum duration after its mtime and expired one millisecond later; an unreadable mtime never counts as expired |
| LockedFiles.ReleaseExpiredStep | src/main/java/no/digipost/cache2/fallback/disk/LockedFile.java:149-161 | removing an expired marker answers true and removes it, or throws UnableToReleaseLock wrapping the I/O failure and changes nothing |
| LockedFiles.TryLockSpec | src/main/java/no/digipost/cache2/fallback/disk/LockedFile.java:106-133 | acquired iff the marker was absent, or expired and deletable, and this process's create won; a live marker gives false with nothing changed; false implies someone's marker exists; exactly the two exception cases (UnableToReleaseLock, UnableToAcquireLock); only the marker path changes |
| LockedFiles.ReleaseSpec | src/main/java/no/digipost/cache2/fallback/disk/LockedFile.java:163-172 | release succeeds iff the marker exists and can be deleted, and removes it; a missing marker is TryingToDeleteNonExistingLockFile, any other failure UnableToReleaseLock, both leaving the disk unchanged |
| LockedFiles.RunIfLockSpec | src/main/java/no/digipost/cache2/fallback/disk/LockedFile.java:73-84 | without the lock the outcome is tryLock's and the operation does not run; with it, the operation runs once on the locked disk and the marker is released in a finally whose exception replaces the operation's; true means the operation ran, returned normally and the marker is gone |
| LockedFiles.NotRunWithoutLock | src/main/java/no/digipost/cache2/fallback/disk/LockedFile.java:73-84 | when tryLock does not yield the lock, the outcome does not depend on the operation at all |
| LockedFiles.LockedFile.constructor | src/main/java/no/digipost/cache2/fallback/disk/LockedFile.java:47-49 | the marker is the value file's sibling with the class postfix, the expiry ten minutes, the clock the given one |
| LockedFiles.LockedFile.WithExpiry | src/main/java/no/digipost/cache2/fallback/disk/LockedFile.java:51-56 | the same, with the given expiry |
| LockedFiles.LockedFile.IsLocked | src/main/java/no/digipost/cache2/fallback/disk/LockedFile.java:135-137 | true iff the marker exists |
| LockedFiles.LockedFile.IsExpiredAt | src/main/java/no/digipost/cache2/fallback/disk/LockedFile.java:139-147 | the strict expiry test at the given instant, false on an unreadable mtime |
| LockedFiles.LockedFile.ReleaseExpired | src/main/java/no/digipost/cache2/fallback/disk/LockedFile.java:149-161 | result and new disk are those of ReleaseExpiredStep |
| LockedFiles.LockedFile.TryLock | src/main/java/no/digipost/cache2/fallback/disk/LockedFile.java:106-133 | result and new disk are those of TryLockSpec, judged at the injected clock, the marker stamped by the wall clock |
| LockedFiles.LockedFile.Release | src/main/java/no/digipost/cache2/fallback/disk/LockedFile.java:163-172 | result and new disk are those of ReleaseSpec |
| LockedFiles.LockedFile.RunIfLock | src/main/java/no/digipost/cache2/fallback/disk/LockedFile.java:73-84 | result and new disk are those of RunIfLockSpec |
| DiskLockFiles.MarkersOfGenerationsDiffer | src/main/java/no/digipost/cache/fallback/disk/LockFile.java:41 | this class's marker for a file differs from the later LockedFile's marker for it |
| DiskLockFiles.LockFile.constructor | src/main/java/no/digipost/cache/fallback/disk/LockFile.java:46-48 | marker with this class's postfix, ten-minute expiry |
| DiskLockFiles.LockFile.WithExpiry | src/main/java/no/digipost/cache/fallback/disk/LockFile.java:50-53 | the same, with the given expiry |
| DiskLockFiles.LockFile.IsLocked | src/main/java/no/digipost/cache/fallback/disk/LockFile.java:124-126 | true iff the marker exists |
| DiskLockFiles.LockFile.IsExpired | src/main/java/no/digipost/cache/fallback/disk/LockFile.java:128-136 | the strict expiry test at the wall clock |
| DiskLockFiles.LockFile.ReleaseExpired | src/main/java/no/digipost/cache/fallback/disk/LockFile.java:138-150 | as ReleaseExpiredStep |
| DiskLockFiles.LockFile.TryLock | src/main/java/no/digipost/cache/fallback/disk/LockFile.java:96-122 | as TryLockSpec, judged at the wall clock |
| DiskLockFiles.LockFile.Release | src/main/java/no/digipost/cache/fallback/disk/LockFile.java:152-161 | as ReleaseSpec |
| DiskLockFiles.LockFile.RunIfLock | src/main/java/no/digipost/cache/fallback/disk/LockFile.java:63-74 | as RunIfLockSpec at the wall clock |
| QuietLockFiles.TryUnlockExpiredStep | src/main/java/no/digipost/cache/fallback/LockFile.java:140-153 | true and the marker removed when deleteIfExists returns, whatever it found; false and nothing changed on I/O failure |
| QuietLockFiles.TryLockQuietSpec | src/main/java/no/digipost/cache/fallback/LockFile.java:93-124 | never throws; acquired iff the marker was absent, or expired and deletable, and the create won, in which case exactly the stamped marker is added; a live or undeletable marker gives false with nothing changed; only the marker path changes |
| QuietLockFiles.ReleaseQuietSpec | src/main/java/no/digipost/cache/fallback/LockFile.java:155-173 | never throws; answers whether a marker was there and deleted, and removes it unless the deletion fails |
| QuietLockFiles.RunIfLockQuietSpec | src/main/java/no/digipost/cache/fallback/LockFile.java:60-71 | not acquired: false, and the operation does not run; acquired: the operation's outcome, with the marker removed unless deletion fails; true only if the operation returned normally |
| QuietLockFiles.LockFile.constructor | src/main/java/no/digipost/cache/fallback/LockFile.java:44-46 | marker with this class's postfix, ten-minute expiry |
| QuietLockFiles.LockFile.WithExpiry | src/main/java/no/digipost/cache/fallback/LockFile.java:48-51 | the same, with the given expiry |
| QuietLockFiles.LockFile.IsLocked | src/main/java/no/digipost/cache/fallback/LockFile.java:126-128 | true iff the marker exists |
| QuietLockFiles.LockFile.IsExpired | src/main/java/no/digipost/cache/fallback/LockFile.java:130-138 | the strict expiry test at the wall clock |
| QuietLockFiles.LockFile.TryUnlockExpired | src/main/java/no/digipost/cache/fallback/LockFile.java:140-153 | as TryUnlockExpiredStep |
| QuietLockFiles.LockFile.TryLock | src/main/java/no/digipost/cache/fallback/LockFile.java:93-124 | as TryLockQuietSpec at the wall clock |
| QuietLockFiles.LockFile.Release | src/main/java/no/digipost/cache/fallback/LockFile.java:155-173 | as ReleaseQuietSpec |
| QuietLockFiles.LockFile.RunIfLock | src/main/java/no/digipost/cache/fallback/LockFile.java:60-71 | as RunIfLockQuietSpec |
| PathLockFiles.LockFiles.constructor | src/main/java/no/digipost/cache/fallback/LockFiles.java:36-38 | the default expiry is ten minutes |
| PathLockFiles.LockFiles.WithExpiration | src/main/java/no/digipost/cache/fallback/LockFiles.java:40-43 | the given expiry |
| PathLockFiles.LockFiles.IsLocked | src/main/java/no/digipost/cache/fallback/LockFiles.java:121-123 | true iff the given marker exists |
| PathLockFiles.LockFiles.LockedLongerAgoThan | src/main/java/no/digipost/cache/fallback/LockFiles.java:125-133 | the strict expiry test of the given marker at the wall clock |
| PathLockFiles.LockFiles.TryDeleteExpiredLockFile | src/main/java/no/digipost/cache/fallback/LockFiles.java:135-148 | as TryUnlockExpiredStep on the given marker |
| PathLockFiles.LockFiles.TryLock | src/main/java/no/digipost/cache/fallback/LockFiles.java:88-119 | as TryLockQuietSpec on the given marker, with the service's expiry |
| PathLockFiles.LockFiles.ReleaseLock | src/main/java/no/digipost/cache/fallback/LockFiles.java:150-168 | as ReleaseQuietSpec on the given marker |
| PathLockFiles.LockFiles.RunIfLock | src/main/java/no/digipost/cache/fallback/LockFiles.java:53-66 | as RunIfLockQuietSpec on the given marker |
| CommitStreams.CloseSpec | src/main/java/no/digipost/cache/fallback/disk/FallbackFile.java:94-110 | a second close does nothing; the first renames the temp file over the value file iff it exists and neither close nor rename fails, and `written` becomes true exactly then (it never goes back); otherwise the value file is untouched; the temp file is gone whenever its cleanup succeeds; close returns normally iff it committed and cleaned up |
| CommitStreams.CommitStream.constructor | src/main/java/no/digipost/cache/fallback/disk/FallbackFile.java:84-86 | a stream open on the temp file, targeting the value file, sharing the slot's `written` flag |
| CommitStreams.CommitStream.Write | src/main/java/no/digipost/cache/fallback/disk/FallbackFile.java:88-91 | an open stream appends the byte to the temp file; a closed one throws and changes nothing |
| CommitStreams.CommitStream.Close | src/main/java/no/digipost/cache/fallback/disk/FallbackFile.java:94-110 | result, disk and flag are those of CloseSpec, and the stream is closed afterwards |
| FallbackFiles.ReadSpec | src/main/java/no/digipost/cache/fallback/disk/FallbackFile.java:58-68 | `written` becomes true once the file is seen; never written and absent gives FallbackFileNotYetCreated, written but absent FileNotFoundException, a regular file its bytes, an unreadable one an IOException |
| FallbackFiles.FallbackFile.constructor | src/main/java/no/digipost/cache/fallback/disk/FallbackFile.java:47-50 | `written` starts as "the value file exists" |
| FallbackFiles.FallbackFile.Read | src/main/java/no/digipost/cache/fallback/disk/FallbackFile.java:58-68 | result and flag are those of ReadSpec |
| FallbackFiles.FallbackFile.GetTempfile | src/main/java/no/digipost/cache/fallback/disk/FallbackFile.java:120-123 | the temp path is `<name>.<wall-clock millis>.<ten letters>` |
| FallbackFiles.FallbackFile.Write | src/main/java/no/digipost/cache/fallback/disk/FallbackFile.java:77-92 | creates the temp file create-if-absent (an existing one is FileAlreadyExists), and on success returns a fresh open stream from it to the value file |
| FallbackFiles.Resolver.constructor | src/main/java/no/digipost/cache/fallback/disk/FallbackFile.java:140-144 | keeps directory, naming strategy and clock |
| FallbackFiles.Resolver.ResolveFor | src/main/java/no/digipost/cache/fallback/disk/FallbackFile.java:146-148 | a fresh slot at `directory/name(key)`, locked by a LockedFile with the shared clock and default expiry |
| LegacyFallbackFiles.LegacyReadSpec | src/main/java/no/digipost/cache/fallback/FallbackFile.java:55-68 | the flag is updated as in the later slot; an absent file is FileNotFoundException whether or not it was ever written |
| LegacyFallbackFiles.ReadsDifferOnlyWhenNeverWritten | src/main/java/no/digipost/cache/fallback/FallbackFile.java:55-68 | the two generations' reads agree on the flag, and differ iff the slot was never written and has no file |
| LegacyFallbackFiles.FallbackFile.constructor | src/main/java/no/digipost/cache/fallback/FallbackFile.java:49-53 | marker `<name>.lock`; `written` starts as "the value file exists" |
| LegacyFallbackFiles.FallbackFile.Read | src/main/java/no/digipost/cache/fallback/FallbackFile.java:55-68 | result and flag are those of LegacyReadSpec |
| LegacyFallbackFiles.FallbackFile.GetTempfile | src/main/java/no/digipost/cache/fallback/FallbackFile.java:141-151 | the temp path is `<name>.<wall-clock millis>.<ten letters>` |
| LegacyFallbackFiles.FallbackFile.Write | src/main/java/no/digipost/cache/fallback/FallbackFile.java:70-103 | creates the temp file create-if-absent, and on success returns a fresh commit-on-close stream to the value file |
| LegacyFallbackFiles.FallbackFile.IsLocked | src/main/java/no/digipost/cache/fallback/FallbackFile.java:106-108 | true iff the marker exists |
| LegacyFallbackFiles.FallbackFile.LockedLongerAgoThan | src/main/java/no/digipost/cache/fallback/FallbackFile.java:110-119 | the strict expiry test at the wall clock |
| LegacyFallbackFiles.FallbackFile.SilentDeleteLockFile | src/main/java/no/digipost/cache/fallback/FallbackFile.java:121-134 | as ReleaseQuietSpec on the slot's marker |
| LegacyFallbackFiles.Resolver.constructor | src/main/java/no/digipost/cache/fallback/FallbackFile.java:159-162 | keeps directory and naming strategy |
| LegacyFallbackFiles.Resolver.ResolveFor | src/main/java/no/digipost/cache/fallback/FallbackFile.java:164-166 | a fresh slot at `directory/name(key)` with marker `<name>.lock` |
| DiskLoaders.LoadSpec | src/main/java/no/digipost/cache/fallback/disk/DiskFallbackLoader.java:33-38 | a slot without a file is FallbackFileNotYetCreated; a readable file yields whatever unmarshalling its bytes yields; an unreadable one an IOException |
| DiskLoaders.Load | src/main/java/no/digipost/cache/fallback/disk/DiskFallbackLoader.java:33-38 | the same for the key's slot `directory/name(key)` |
| DiskLoaders.UnmarshalFailurePropagates | src/main/java/no/digipost/cache/fallback/disk/DiskFallbackLoader.java:33-38 | an unmarshalling exception reaches the caller unchanged |
| DiskKeepers.WriteValueCommits | src/main/java/no/digipost/cache2/fallback/disk/DiskFallbackKeeper.java:37-41 | without I/O failures, the locked write leaves exactly the marshalled bytes in the value file, no temp file, and everything else unchanged |
| DiskKeepers.WriteValueFrame | src/main/java/no/digipost/cache2/fallback/disk/DiskFallbackKeeper.java:37-41 | the locked write touches only the value file and its temp file |
| DiskKeepers.WriteValue | src/main/java/no/digipost/cache2/fallback/disk/DiskFallbackKeeper.java:37-41 | the try-with-resources around the byte-by-byte marshalling loop has the outcome and disk of WriteValueStep |
| DiskKeepers.KeepRespectsLiveLock | src/main/java/no/digipost/cache2/fallback/disk/DiskFallbackKeeper.java:34-42 | a live marker makes keep return normally with nothing changed |
| DiskKeepers.SkippedKeepIsNoError | src/main/java/no/digipost/cache2/fallback/disk/DiskFallbackKeeper.java:34-42 | a refused lock is not an error: runIfLock's false is dropped |
| DiskKeepers.KeepStoresMarshalledValue | src/main/java/no/digipost/cache2/fallback/disk/DiskFallbackKeeper.java:34-42 | on a free slot without failures, keep leaves exactly the marshalled value, no marker and no temp file |
| DiskKeepers.KeepAfterAcquire | src/main/java/no/digipost/cache2/fallback/disk/DiskFallbackKeeper.java:34-42 | once the marker is acquired, keep is the locked write on the marked state followed by removing the marker, and it reports exactly what the write reported |
| DiskKeepers.KeepReleasesItsMarker | src/main/java/no/digipost/cache2/fallback/disk/DiskFallbackKeeper.java:34-42 | a marker keep acquired is gone afterwards, whatever the write did, unless its deletion failed |
| DiskKeepers.KeepPropagatesMarshallerFailure | src/main/java/no/digipost/cache2/fallback/disk/DiskFallbackKeeper.java:34-42 | a marshaller exception leaves keep (with any close failure suppressed onto it) and the marker is still released |
| DiskKeepers.KeepCommitsPartialValue | src/main/java/no/digipost/cache2/fallback/disk/DiskFallbackKeeper.java:37-41 | as written: a marshaller that throws after writing some bytes makes keep throw, yet those bytes become the value file |
| DiskKeepers.PartialValueReplacesGoodOne | src/main/java/no/digipost/cache2/fallback/disk/DiskFallbackKeeper.java:37-41 | concrete instance: a slot that served a good value no longer does after such a keep |
| DiskKeepers.CommitIfMarshalledAgreesOnSuccess | src/main/java/no/digipost/cache2/fallback/disk/DiskFallbackKeeper.java:37-41 | the corrected write equals the written one whenever the marshaller completes |
| DiskKeepers.CommitIfMarshalledKeepsGoodValue | src/main/java/no/digipost/cache2/fallback/disk/DiskFallbackKeeper.java:37-41 | corrected write: a throwing marshaller makes the write fail with its exception and leaves the value file as it was |
| DiskKeepers.CorrectedKeepNeverCommitsPartialValue | src/main/java/no/digipost/cache2/fallback/disk/DiskFallbackKeeper.java:34-42 | corrected keep: a throwing marshaller never changes the value file, whatever the lock and I/O do |
| DiskKeepers.DiskFallbackKeeper.constructor | src/main/java/no/digipost/cache2/fallback/disk/DiskFallbackKeeper.java:29-32 | keeps resolver and marshaller |
| DiskKeepers.DiskFallbackKeeper.Keep | src/main/java/no/digipost/cache2/fallback/disk/DiskFallbackKeeper.java:34-42 | outcome and disk are those of KeepSpec on the key's slot and its LockedFile marker |
| DiskKeepers.KeepThenLoad | src/main/java/no/digipost/cache/fallback/disk/DiskFallbackLoader.java:33-38 | after an unhindered keep of a value the marshaller round-trips, the fallback loader yields that value |
| WallClockKeepers.WallClockKeepReleasesItsMarker | src/main/java/no/digipost/cache/fallback/disk/DiskFallbackKeeper.java:36-47 | a marker this keep acquired is gone afterwards unless its deletion failed |
| WallClockKeepers.WallClockKeepRespectsLiveLock | src/main/java/no/digipost/cache/fallback/disk/DiskFallbackKeeper.java:36-47 | a live marker makes keep a normal-returning no-op |
| WallClockKeepers.WallClockKeepPropagatesWriteFailure | src/main/java/no/digipost/cache/fallback/disk/DiskFallbackKeeper.java:36-47 | a failure creating the temp file reaches the caller, and the marker is removed again |
| WallClockKeepers.DiskFallbackKeeper.constructor | src/main/java/no/digipost/cache/fallback/disk/DiskFallbackKeeper.java:31-34 | keeps resolver and marshaller |
| WallClockKeepers.DiskFallbackKeeper.Keep | src/main/java/no/digipost/cache/fallback/disk/DiskFallbackKeeper.java:36-47 | outcome and disk are those of the shared keep, guarded by this generation's marker at the wall clock |
| KeeperFailedHandlers.LogAsError | src/main/java/no/digipost/cache2/fallback/FallbackKeeperFailedHandler.java:36-43 | always returns normally |
| KeeperFailedHandlers.Rethrow | src/main/java/no/digipost/cache2/fallback/FallbackKeeperFailedHandler.java:47-50 | always throws an unchecked FallbackWriteFailed whose cause is the keeping failure |
| WriteFailedHandlers.LogAsError | src/main/java/no/digipost/cache/fallback/FallbackWriteFailedHandler.java:29-36 | always returns normally |
| WriteFailedHandlers.Rethrow | src/main/java/no/digipost/cache/fallback/FallbackWriteFailedHandler.java:40-43 | always throws an unchecked FallbackWriteFailed whose cause is the write failure |
| LoaderWithFallbacks.NoKeeping | src/main/java/no/digipost/cache2/fallback/LoaderWithFallback.java:42-48 | keeping nothing returns normally and changes nothing |
| LoaderWithFallbacks.WithoutKeeping | src/main/java/no/digipost/cache2/fallback/LoaderWithFallback.java:42-48 | the three-argument constructor keeps its arguments and uses no keeping |
| LoaderWithFallbacks.TryRecoverFailingLoader | src/main/java/no/digipost/cache2/fallback/LoaderWithFallback.java:80-98 | the fallback is asked once; its value is returned, or else the primary's exception is thrown with the fallback's appended to its suppressed list |
| LoaderWithFallbacks.Load | src/main/java/no/digipost/cache2/fallback/LoaderWithFallback.java:62-77 | primary first; on success its value is kept exactly once, the fallback never asked, and the value returned unless the keeper fails and the handler throws (then the handler's exception); on failure no keeping, the fallback asked with the same key, the state unchanged, and any exception has the primary's class |
| LoaderWithFallbacks.NoKeepingNeverHandles | src/main/java/no/digipost/cache2/fallback/LoaderWithFallback.java:42-48 | without keeping the handler is never called and a primary value is returned as is |
| LoaderWithFallbacks.DoubleFailureRethrowsPrimary | src/main/java/no/digipost/cache2/fallback/LoaderWithFallback.java:80-98 | both loaders failing: exactly the primary's exception with the fallback's as last suppressed |
| DiskFallbackDecorators.FallbackLoad | src/main/java/no/digipost/cache2/fallback/disk/LoaderWithDiskFallbackDecorator.java:74 | the decorated fallback answers FallbackFileNotYetCreated for a key with no file |
| DiskFallbackDecorators.FallbackKeep | src/main/java/no/digipost/cache2/fallback/disk/LoaderWithDiskFallbackDecorator.java:74 | the decorated keeper changes only the disk (the clocks, random source and faults of the environment are kept), and a live marker makes it a no-op |
| DiskFallbackDecorators.DiskFallback | src/main/java/no/digipost/cache2/fallback/disk/LoaderWithDiskFallbackDecorator.java:74 | the decorated loader keeps the wrapped loader and the handler |
| DiskFallbackDecorators.AcquiredKeepStores | src/main/java/no/digipost/cache2/fallback/disk/DiskFallbackKeeper.java:34-42 | a keep that gets the lock, without failures, stores exactly the marshalled value, returns normally and removes the marker |
| DiskFallbackDecorators.FallbackServesKeptValue | src/test/java/no/digipost/cache2/fallback/disk/DiskStorageFallbackTest.java:79-82 | a successful load stores its value, and a later failing load is answered with it |
| DiskFallbackDecorators.NothingStoredRethrowsPrimary | src/test/java/no/digipost/cache2/fallback/disk/DiskStorageFallbackTest.java:85-88 | with nothing stored, a failing load throws the loader's exception with FallbackFileNotYetCreated suppressed |
| DiskFallbackDecorators.LiveLockLeavesSlot | src/test/java/no/digipost/cache2/fallback/disk/DiskStorageFallbackTest.java:119-128 | while another marker is live, a successful load returns its value and leaves the disk unchanged |
| DiskFallbackDecorators.ExpiredLockIsTakenOver | src/test/java/no/digipost/cache2/fallback/disk/DiskStorageFallbackTest.java:129-133 | once the decorator's clock is past the marker's expiry, a successful load takes over, stores its value (a later fallback yields it) and removes the marker |
| DiskFallbackDecorators.LoaderWithDiskFallbackDecorator.constructor | src/main/java/no/digipost/cache2/fallback/disk/LoaderWithDiskFallbackDecorator.java:38-42 | LogAsError handler, the system clock |
| DiskFallbackDecorators.LoaderWithDiskFallbackDecorator.WithHandler | src/main/java/no/digipost/cache2/fallback/disk/LoaderWithDiskFallbackDecorator.java:44-49 | the given handler, the system clock |
| DiskFallbackDecorators.LoaderWithDiskFallbackDecorator.WithClock | src/main/java/no/digipost/cache2/fallback/disk/LoaderWithDiskFallbackDecorator.java:51-60 | the given handler and clock |
| DiskFallbackDecorators.LoaderWithDiskFallbackDecorator.Decorate | src/main/java/no/digipost/cache2/fallback/disk/LoaderWithDiskFallbackDecorator.java:62-75 | a regular file at the directory path is IllegalStateException with nothing changed; otherwise the directory is created, a failure rethrown as an unchecked exception wrapping it; a returned loader always has its directory; every exception is unchecked |
| DiskFallbackDecorators.LoaderWithDiskFallbackDecorator.LoadThrough | src/main/java/no/digipost/cache2/fallback/LoaderWithFallback.java:62-77 | a call of the decorated loader against the shared disk, at the decorator's clock and the wall clock |
| StorageFallbackLoaders.LegacyWriteStep | src/main/java/no/digipost/cache/fallback/DiskStorageFallbackLoader.java:96-103 | the Runnable changes the disk as the shared write does, and only non-IO exceptions leave it |
| StorageFallbackLoaders.StorageLoadSpec | src/main/java/no/digipost/cache/fallback/DiskStorageFallbackLoader.java:59-88 | a primary value is returned whatever the write does; a failing primary leaves the disk alone; a checked failure is rethrown as is; an unchecked one is answered from the slot, or rethrown with the disk failure suppressed (FileNotFoundException for an absent file); every exception has the primary's class |
| StorageFallbackLoaders.StorageLoadRespectsLiveLock | src/main/java/no/digipost/cache/fallback/DiskStorageFallbackLoader.java:90-107 | a live `.lock` marker means a successful load writes nothing |
| StorageFallbackLoaders.StorageLoadStores | src/main/java/no/digipost/cache/fallback/DiskStorageFallbackLoader.java:64-72 | on a free slot without failures, the loaded value's bytes become the value file and no marker or temp file is left |
| StorageFallbackLoaders.StorageLoadThenFallback | src/main/java/no/digipost/cache/fallback/DiskStorageFallbackLoader.java:59-88 | a value stored by one load is returned by a later load whose loader throws an unchecked exception |
| StorageFallbackLoaders.StorageLoadCommitsPartialValue | src/main/java/no/digipost/cache/fallback/DiskStorageFallbackLoader.java:96-103 | as written: a marshaller that throws part-way commits its partial output and the load still returns normally |
| StorageFallbackLoaders.CorrectedTryWriteKeepsValue | src/main/java/no/digipost/cache/fallback/DiskStorageFallbackLoader.java:96-103 | corrected write: a throwing marshaller never changes the value file |
| StorageFallbackLoaders.DiskStorageFallbackLoader.constructor | src/main/java/no/digipost/cache/fallback/DiskStorageFallbackLoader.java:47-57 | a LockFiles service over the same disk with a ten-minute expiry |
| StorageFallbackLoaders.DiskStorageFallbackLoader.Load | src/main/java/no/digipost/cache/fallback/DiskStorageFallbackLoader.java:59-88 | result and disk are those of StorageLoadSpec on the key's slot |
| StorageFallbackLoaders.DiskStorageFallbackLoader.TryWriteToDiskIfLock | src/main/java/no/digipost/cache/fallback/DiskStorageFallbackLoader.java:90-107 | the quiet runIfLock on the slot's `.lock` marker around the write that swallows IOExceptions |
| StorageFallbackDecorators.DiskStorageFallbackLoaderDecorator.constructor | src/main/java/no/digipost/cache/fallback/DiskStorageFallbackLoaderDecorator.java:33-37 | keeps directory, naming strategy and marshaller |
| StorageFallbackDecorators.DiskStorageFallbackLoaderDecorator.Decorate | src/main/java/no/digipost/cache/fallback/DiskStorageFallbackLoaderDecorator.java:43-56 | a regular file at the directory path is IllegalStateException; a directory creation failure is rethrown unchecked; otherwise a fresh loader over a fresh resolver of that directory, and the directory exists |
| StorageFallbackDecorators.DiskStorageFallbackLoaderDecorator.DecorateCallable | src/main/java/no/digipost/cache/fallback/DiskStorageFallbackLoaderDecorator.java:39-41 | as `decorate(toLoader(callable))`: a regular file at the directory path is an IllegalStateException and nothing changes; otherwise the directory is created and a creation failure is rethrown wrapped in a RuntimeException; on success the directory exists and the fresh loader gives the Callable's result for every key, with the decorator's marshaller and a resolver over the directory, naming strategy and filesystem |
| StorageFallbacks.StoreCommitsValue | src/main/java/no/digipost/cache/fallback/DiskStorageFallback.java:111-134 | without failures, the write renames a temp file holding exactly the marshalled bytes over the cache file, leaving no temp file |
| StorageFallbacks.StoreChangesOnlyByCommit | src/main/java/no/digipost/cache/fallback/DiskStorageFallback.java:111-134 | the write touches only the cache file and its temp file, and the cache file only when it commits |
| StorageFallbacks.InlineWriteSkipsWhenLocked | src/main/java/no/digipost/cache/fallback/DiskStorageFallback.java:90-101 | a live marker, or an expired one that cannot be deleted, means no write at all |
| StorageFallbacks.InlineWriteReleasesMarker | src/main/java/no/digipost/cache/fallback/DiskStorageFallback.java:137-139 | once created, the marker is gone afterwards unless its deletion fails |
| StorageFallbacks.InlineWriteStores | src/main/java/no/digipost/cache/fallback/DiskStorageFallback.java:88-141 | on a free slot without failures, the cache file holds exactly the marshalled bytes and nothing else is left |
| StorageFallbacks.StoreMoveFailureDeletesTemp | src/main/java/no/digipost/cache/fallback/DiskStorageFallback.java:128-134 | a failed rename is followed by deleting the temp file; when that works, no temp file is left and the filesystem, cache file included, is exactly as before |
| StorageFallbacks.StoreLeavesTempFile | src/main/java/no/digipost/cache/fallback/DiskStorageFallback.java:120-126 | as written: when the marshaller throws, the temp file is left holding what it wrote |
| StorageFallbacks.InlineWriteLeaksTempFile | src/main/java/no/digipost/cache/fallback/DiskStorageFallback.java:88-141 | as written: a whole unhindered run with a throwing marshaller leaves a temp file behind |
| StorageFallbacks.CorrectedStoreLeavesNoTempFile | src/main/java/no/digipost/cache/fallback/DiskStorageFallback.java:119-134 | corrected write: no temp file survives unless its deletion fails; when the written one commits it replaces the cache file with exactly the marshalled bytes, and otherwise it leaves the cache file as it was |
| StorageFallbacks.ReadFromDiskSpec | src/main/java/no/digipost/cache/fallback/DiskStorageFallback.java:160-172 | a missing cache file is a RuntimeException; a directory at the cache path is a FileNotFoundException wrapped in one; a read or unmarshal IOException is rethrown wrapped in one; other outcomes pass through; no IOException leaves it |
| StorageFallbacks.CallSpec | src/main/java/no/digipost/cache/fallback/DiskStorageFallback.java:60-86 | a loaded value is returned whatever the write does; a failing load leaves the disk alone; a checked failure is rethrown; an unchecked one is answered from disk, or rethrown with the unchecked disk failure suppressed |
| StorageFallbacks.CallThenFallback | src/main/java/no/digipost/cache/fallback/DiskStorageFallback.java:60-86 | a value written by one call is what a later call whose Callable throws an unchecked exception returns |
| StorageFallbacks.DiskStorageFallback.constructor | src/main/java/no/digipost/cache/fallback/DiskStorageFallback.java:53-58 | the marker is `<cache file>.lock` |
| StorageFallbacks.DiskStorageFallback.Call | src/main/java/no/digipost/cache/fallback/DiskStorageFallback.java:60-86 | result and disk are those of CallSpec |
| StorageFallbacks.DiskStorageFallback.TryWriteToDiskIfLock | src/main/java/no/digipost/cache/fallback/DiskStorageFallback.java:88-141 | the disk afterwards is that of the quiet lock protocol around the write |
| StorageFallbacks.DiskStorageFallback.Store | src/main/java/no/digipost/cache/fallback/DiskStorageFallback.java:111-135 | the byte-by-byte write loop, the rename and the cleanup have the disk effect of StoreStep |
| StorageFallbacks.DiskStorageFallback.IsLockFileExpired | src/main/java/no/digipost/cache/fallback/DiskStorageFallback.java:143-153 | the strict expiry test at the wall clock |
| StorageFallbacks.DiskStorageFallback.GetTempfilePath | src/main/java/no/digipost/cache/fallback/DiskStorageFallback.java:156-158 | the temp path is `<name>.<wall-clock millis>.<ten letters>` |
| StorageFallbacks.DiskStorageFallback.TryReadFromDisk | src/main/java/no/digipost/cache/fallback/DiskStorageFallback.java:160-172 | as ReadFromDiskSpec |
| StorageFallbacks.DiskStorageFallback.SilentDeleteLockFile | src/main/java/no/digipost/cache/fallback/DiskStorageFallback.java:174-187 | as ReleaseQuietSpec on the marker |
| StorageFallbacks.DiskStorageFallback.SilentDelete | src/main/java/no/digipost/cache/fallback/DiskStorageFallback.java:189-195 | removes the file, or changes nothing when deletion fails; never throws |
| StorageFallbacks.DiskStorageFallback.TryDeleteExpiredLockFile | src/main/java/no/digipost/cache/fallback/DiskStorageFallback.java:197-210 | as TryUnlockExpiredStep on the marker |
| GenerationVariants.QuietTryLockSwallowsFailures | src/main/java/no/digipost/cache/fallback/LockFile.java:93-124 | the non-throwing tryLock is the throwing one with each exception turned into false: same disk effect, same answer otherwise |
| GenerationVariants.CreateFailureThrowsOnlyInLaterGeneration | src/main/java/no/digipost/cache2/fallback/disk/LockedFile.java:126-131 | a failing create on a free marker throws UnableToAcquireLock in the later lock and gives false in the quiet one |
| GenerationVariants.ReleasesDifferOnlyInReporting | src/main/java/no/digipost/cache/fallback/LockFile.java:155-173 | both releases change the disk alike, and succeed in the same cases |
| GenerationVariants.MarkersOfAllGenerationsDiffer | src/main/java/no/digipost/cache2/fallback/disk/LockedFile.java:40 | the four lock classes use four different markers for one value file, so they do not exclude each other |
| GenerationVariants.InlineProtocolIsQuietRunIfLock | src/main/java/no/digipost/cache/fallback/DiskStorageFallback.java:88-141 | the inline protocol is exactly the quiet runIfLock on the `.lock` marker around the write |
| GenerationVariants.OnlyLaterGenerationRecoversCheckedFailures | src/main/java/no/digipost/cache2/fallback/LoaderWithFallback.java:62-77 | a checked loader exception is recovered from by the later loader, and rethrown without touching the disk by the first one |

## Left out

- Concurrency: threads and processes are not interleaved. Another process appears only as the `raced` input, which creates the marker between the existence check and this process's create. The tests that run writers concurrently (an executor and a blocking marshaller) are not modelled.
- Logging, log levels and exception messages: they have no effect on outcomes. An exception is its class, its cause and its suppressed list.
- The JDK: `java.nio.file.Files`, streams, `AtomicBoolean`, `Clock` and `Random` are trusted step functions and parameters. I/O failures are boolean inputs. The random source is a function from draw index to `nextInt(25)`. Clock readings are the `millis` of a `Clock` object. Parent directories are not created by `createDirectories`.
- Marshaller internals (Java serialisation): a marshaller is a pair of functions. Its declared exception types are not enforced. The model handles any exception class it throws.
- The write stream never fails while open: `write(int)` through an open handle is not given a fault input.
- DiskLoaders.LoadSpec: closing the read stream never fails. In src/main/java/no/digipost/cache/fallback/disk/DiskFallbackLoader.java:35-37 a close failure after a successful unmarshal would throw an IOException; the model returns the value.
- StorageFallbackLoaders.StorageLoadSpec: closing the read stream never fails. In src/main/java/no/digipost/cache/fallback/DiskStorageFallbackLoader.java:80-81 a close failure would rethrow the primary exception with the close failure suppressed; the model returns the value.
- StorageFallbacks.ReadFromDiskSpec: closing the read stream never fails. In src/main/java/no/digipost/cache/fallback/DiskStorageFallback.java:165-167 a close failure would throw a RuntimeException wrapping it; the model returns the value.
- FileNamingStrategy, FallbackFileNamingStrategy and ThrowingRunnable are plain functions. The in-memory caches, CacheConfig, CacheStats, SingleCached, DiskStorageFallbackFactory and the LoaderTransformer adapters are not part of this model.
- WallClockKeepers.DiskFallbackKeeper: the first disk keeper in src/main/java/no/digipost/cache/fallback/disk/DiskFallbackKeeper.java:39 locks through `resolveFor(key).lock`, a field that the FallbackFile of that package does not have in this revision (it holds a `LockedFile`). The keeper is modelled with that package's own LockFile guarding the slot, and its write uses the package's FallbackFile.
- StorageFallbacks.DiskStorageFallback.TryWriteToDiskIfLock: the method never throws in the model, so the RuntimeException catch around it in `call` is not exercised. Every exception inside the write is caught in the source, apart from one thrown by logging.
- StorageFallbackDecorators.DiskStorageFallbackLoaderDecorator.Decorate: the resolver is created before the directory check, as in the source. A resolver created on a path that then fails is not observable and is not returned.
- DiskFallbackDecorators.LoaderWithDiskFallbackDecorator.Decorate: the result is the loader as a value over an environment. Each call is run against the shared disk by LoadThrough, not by an object the decorator returns.
- DiskLockFiles.LockFile.TryLock, DiskLockFiles.LockFile.Release: the nested exception classes of src/main/java/no/digipost/cache/fallback/disk/LockFile.java:163-182 share their `Kind` with the same-named classes of the later LockedFile. An `Error` says which exception class was thrown by name only, not which of the two classes declared it.
- The logger constructors (`DiskStorageFallbackLoader(Logger, ...)`, `LockFiles(Logger)`) differ only in the logger and are folded into one constructor each.

## Findings

| source | as written | input that shows it | evidently intended | confidence | as-written member | corrected member |
|---|---|---|---|---|---|---|
| src/main/java/no/digipost/cache2/fallback/disk/DiskFallbackKeeper.java:37-41 | keep writes through try-with-resources on the FallbackFile stream, whose close renames the temp file over the value file however the block ended | a slot holding a good value, and a marshaller that writes one byte and then throws: keep throws, and the value file now holds that one byte | a marshaller failure leaves the previous fallback value in place | not executed | DiskKeepers.PartialValueReplacesGoodOne | DiskKeepers.CorrectedKeepNeverCommitsPartialValue |
| src/main/java/no/digipost/cache/fallback/DiskStorageFallbackLoader.java:96-103 | the same commit-on-close write, with the IOException caught and logged | a free slot and a marshaller that writes part of the value and then throws an IOException: load returns normally, and the slot holds the partial bytes | a failed write does not replace the stored value | not executed | StorageFallbackLoaders.StorageLoadCommitsPartialValue | StorageFallbackLoaders.CorrectedTryWriteKeepsValue |
| src/main/java/no/digipost/cache/fallback/DiskStorageFallback.java:120-126 | when writing the temp file throws, the catch returns without deleting it | a free slot and a marshaller that throws: the temp file `<name>.<millis>.<letters>` remains next to the cache file | the temp file is deleted, as after a failed rename at line 133 | not executed | StorageFallbacks.InlineWriteLeaksTempFile | StorageFallbacks.CorrectedStoreLeavesNoTempFile |
