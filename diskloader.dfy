/** DiskFallbackLoader (cache/fallback/disk): the fallback loader reads the key's
    slot and unmarshals its bytes. It only reads the filesystem. */
module DiskLoaders {
  import opened Failures
  import opened FileSystems
  import opened Paths
  import opened Marshallers
  import FallbackFiles

  /** load(k) on the slot at `path`: the slot is resolved afresh, so its `written`
      flag is "the file exists", and a missing file means never written. */
  function LoadSpec<V>(files: Files, path: Path, readFails: bool, unmarshal: seq<byte> -> Result<V>): (r: Result<V>)
    ensures path !in files ==> r == Err(Raise(FallbackFileNotYetCreated))
    ensures RegularFile(files, path) && !readFails ==> r == unmarshal(files[path].bytes)
    ensures path in files && (readFails || files[path].Dir?) ==> r == Err(Raise(IoFailure))
  {
    var read := FallbackFiles.ReadSpec(path in files, files, path, readFails).result;
    if read.Err? then Err(read.error) else unmarshal(read.value)
  }

  /** load(key) through a resolver over `directory` and a naming strategy. */
  function Load<K, V>(files: Files, directory: Path, toFilename: K -> string, m: Marshaller<V>, key: K, readFails: bool): (r: Result<V>)
    ensures Resolve(directory, toFilename(key)) !in files ==> r == Err(Raise(FallbackFileNotYetCreated))
    ensures RegularFile(files, Resolve(directory, toFilename(key))) && !readFails
            ==> r == m.unmarshal(files[Resolve(directory, toFilename(key))].bytes)
  {
    LoadSpec(files, Resolve(directory, toFilename(key)), readFails, m.unmarshal)
  }

  /** An unmarshalling failure reaches the caller unchanged. */
  lemma UnmarshalFailurePropagates<V>(files: Files, path: Path, unmarshal: seq<byte> -> Result<V>)
    requires RegularFile(files, path) && unmarshal(files[path].bytes).Err?
    ensures LoadSpec(files, path, false, unmarshal) == Err(unmarshal(files[path].bytes).error)
  {
  }
}
