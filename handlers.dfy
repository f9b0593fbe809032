/** FallbackKeeperFailedHandler (cache2/fallback): what the loader does when keeping a
    freshly loaded value fails. Neither handler has state. */
module KeeperFailedHandlers {
  import opened Failures

  /** LogAsError.handle: logs and returns normally, whatever the key, value and cause. */
  function LogAsError<K, V>(cacheKey: K, value: V, cause: Error): (r: Outcome)
    ensures r.Ok?
  {
    Done
  }

  /** Rethrow.handle: always throws FallbackWriteFailed carrying the cause; that exception
      is unchecked, so it leaves the loader. */
  function Rethrow<K, V>(cacheKey: K, value: V, cause: Error): (r: Outcome)
    ensures r.Err? && r.error.kind == FallbackWriteFailed && r.error.cause == Some(cause)
    ensures IsUnchecked(r.error.kind)
  {
    Err(Wrap(FallbackWriteFailed, cause))
  }
}
