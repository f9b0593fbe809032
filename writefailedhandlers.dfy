/** FallbackWriteFailedHandler (cache/fallback): the first generation's choice of what to
    do when writing a loaded value to disk fails. Neither handler has state. */
module WriteFailedHandlers {
  import opened Failures

  /** LogAsError.handle: logs and returns normally, whatever the key, value and cause. */
  function LogAsError<K, V>(cacheKey: K, value: V, cause: Error): (r: Outcome)
    ensures r.Ok?
  {
    Done
  }

  /** Rethrow.handle: always throws FallbackWriteFailed, a RuntimeException that keeps
      the original cause. */
  function Rethrow<K, V>(cacheKey: K, value: V, cause: Error): (r: Outcome)
    ensures r.Err? && r.error.kind == FallbackWriteFailed && r.error.cause == Some(cause)
    ensures IsUnchecked(r.error.kind)
  {
    Err(Wrap(FallbackWriteFailed, cause))
  }
}
