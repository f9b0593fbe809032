/** DiskStorageFallbackLoaderDecorator (cache/fallback): prepares the fallback directory
    and wraps a loader, or a Callable, in a DiskStorageFallbackLoader. */
module StorageFallbackDecorators {
  import opened Failures
  import opened FileSystems
  import opened StorageFallbackLoaders
  import LegacyFallbackFiles

  class DiskStorageFallbackLoaderDecorator<K, V> {
    const fs: FileSystem
    const fallbackDirectory: Path
    const toFilename: K -> string
    const marshaller: Marshallers.Marshaller<V>

    constructor (fs: FileSystem, fallbackDirectory: Path, toFilename: K -> string, marshaller: Marshallers.Marshaller<V>)
      ensures this.fs == fs && this.fallbackDirectory == fallbackDirectory
      ensures this.toFilename == toFilename && this.marshaller == marshaller
    {
      this.fs := fs;
      this.fallbackDirectory := fallbackDirectory;
      this.toFilename := toFilename;
      this.marshaller := marshaller;
    }

    /** decorate(loader): a regular file at the directory path is an IllegalStateException;
        otherwise the directory is created (an IOException is rethrown wrapped in a
        RuntimeException) and the loader is wrapped. */
    method Decorate(loader: K -> Result<V>, mkdirFails: bool) returns (r: Result<DiskStorageFallbackLoader<K, V>>)
      modifies fs`files
      ensures RegularFile(old(fs.files), fallbackDirectory) ==>
                r == Err(Raise(IllegalState)) && fs.files == old(fs.files)
      ensures !RegularFile(old(fs.files), fallbackDirectory) ==>
        var c := CreateDirectoriesStep(old(fs.files), fallbackDirectory, fs.wallClock.millis, mkdirFails);
        && fs.files == c.files
        && (c.result.Err? ==> r == Err(Wrap(Unchecked, c.result.error)))
        && (c.result.Ok? ==> r.Ok?)
      ensures r.Ok? ==> fallbackDirectory in fs.files && fs.files[fallbackDirectory].Dir?
      ensures r.Err? ==> IsUnchecked(r.error.kind)
      ensures r.Ok? ==>
        && fresh(r.value) && fresh(r.value.cacheFileResolver) && r.value.Valid()
        && r.value.cacheLoader == loader && r.value.marshaller == marshaller
        && r.value.cacheFileResolver.fs == fs && r.value.cacheFileResolver.directory == fallbackDirectory
        && r.value.cacheFileResolver.toFilename == toFilename
    {
      var resolver := new LegacyFallbackFiles.Resolver(fs, fallbackDirectory, toFilename);
      var isFile := fs.IsRegularFile(fallbackDirectory);
      if isFile {
        return Err(Raise(IllegalState));
      }
      var created := fs.CreateDirectories(fallbackDirectory, mkdirFails);
      if created.Err? {
        return Err(Wrap(Unchecked, created.error));
      }
      var decorated := new DiskStorageFallbackLoader(resolver, loader, marshaller);
      r := Ok(decorated);
    }

    /** decorate(callable): the Callable as a loader that ignores its key. */
    method DecorateCallable(loader: () -> Result<V>, mkdirFails: bool) returns (r: Result<DiskStorageFallbackLoader<K, V>>)
      modifies fs`files
      ensures RegularFile(old(fs.files), fallbackDirectory) ==>
                r == Err(Raise(IllegalState)) && fs.files == old(fs.files)
      ensures !RegularFile(old(fs.files), fallbackDirectory) ==>
        var c := CreateDirectoriesStep(old(fs.files), fallbackDirectory, fs.wallClock.millis, mkdirFails);
        && fs.files == c.files
        && (c.result.Err? ==> r == Err(Wrap(Unchecked, c.result.error)))
        && (c.result.Ok? ==> r.Ok?)
      ensures r.Ok? ==> fallbackDirectory in fs.files && fs.files[fallbackDirectory].Dir?
      ensures r.Err? ==> IsUnchecked(r.error.kind)
      ensures r.Ok? ==>
        && fresh(r.value) && fresh(r.value.cacheFileResolver) && r.value.Valid()
        && (forall key :: r.value.cacheLoader(key) == loader()) && r.value.marshaller == marshaller
        && r.value.cacheFileResolver.fs == fs && r.value.cacheFileResolver.directory == fallbackDirectory
        && r.value.cacheFileResolver.toFilename == toFilename
    {
      r := Decorate((key: K) => loader(), mkdirFails);
    }
  }
}
