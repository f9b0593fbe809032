/** Marshaller: how a value becomes bytes on disk and back. The real marshallers
    (Java serialisation) are outside the model; one is a pair of functions. */
module Marshallers {
  import opened Failures
  import opened FileSystems

  /** What Marshaller.write put on the stream, one byte at a time, and the exception
      it threw afterwards, if any. */
  datatype Marshalled = Marshalled(bytes: seq<byte>, failure: Option<Error>)

  datatype Marshaller<!V> = Marshaller(marshal: V -> Marshalled, unmarshal: seq<byte> -> Result<V>)

  /** Writing `v` succeeds, and reading what was written gives `v` back. */
  predicate RoundTrips<V(==)>(m: Marshaller<V>, v: V) {
    m.marshal(v).failure.None? && m.unmarshal(m.marshal(v).bytes) == Ok(v)
  }

  /** The outcome of marshaller.write as seen by its caller. */
  function Written(m: Marshalled): Outcome {
    if m.failure.Some? then Err(m.failure.value) else Done
  }
}
