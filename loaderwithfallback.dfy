/** LoaderWithFallback (cache2/fallback): a loader that asks the primary loader first,
    keeps what it got for later, and falls back to the kept value when the primary fails.

    Each collaborator is a function. The state they share (for the disk fallback: the
    filesystem and what the environment does to it) is a type parameter W; the primary
    loader does not touch it, the keeper may change it and the fallback loader only
    reads it. The calls made are recorded in order. */
module LoaderWithFallbacks {
  import opened Failures

  datatype Call<K, V> = PrimaryCall(key: K) | FallbackCall(key: K) | KeepCall(key: K, value: V) | HandleCall(key: K, value: V, cause: Error)

  /** What FallbackKeeper.keep returned or threw, and the state afterwards. */
  datatype Kept<W> = Kept(result: Outcome, world: W)

  /** What load returned or threw, the state afterwards and the calls it made. */
  datatype Loaded<K, V, W> = Loaded(result: Result<V>, world: W, calls: seq<Call<K, V>>)

  datatype LoaderWithFallback<!K, !V, !W> = LoaderWithFallback(
    cacheLoader: K -> Result<V>,
    fallbackLoader: (K, W) -> Result<V>,
    fallbackKeeper: (K, V, W) -> Kept<W>,
    handler: (K, V, Error) -> Outcome)

  /** FallbackKeeper.NO_KEEPING: keeps nothing and never fails. */
  function NoKeeping<K, V, W>(key: K, value: V, world: W): (k: Kept<W>)
    ensures k.result.Ok? && k.world == world
  {
    Kept(Done, world)
  }

  /** The three-argument constructor: no keeping. */
  function WithoutKeeping<K, V, W>(cacheLoader: K -> Result<V>, fallbackLoader: (K, W) -> Result<V>,
                                   handler: (K, V, Error) -> Outcome): (l: LoaderWithFallback<K, V, W>)
    ensures l.cacheLoader == cacheLoader && l.fallbackLoader == fallbackLoader && l.handler == handler
    ensures l.fallbackKeeper == NoKeeping
  {
    LoaderWithFallback(cacheLoader, fallbackLoader, NoKeeping, handler)
  }

  /** tryRecoverFailingLoader: the fallback's value, or else the primary's exception itself
      with the fallback's exception appended to its suppressed list. */
  function TryRecoverFailingLoader<K, V, W>(l: LoaderWithFallback<K, V, W>, key: K, loaderFailed: Error, world: W): (r: Loaded<K, V, W>)
    ensures r.world == world && r.calls == [FallbackCall(key)]
    ensures l.fallbackLoader(key, world).Ok? ==> r.result == l.fallbackLoader(key, world)
    ensures l.fallbackLoader(key, world).Err? ==>
      && r.result.Err? && r.result.error.kind == loaderFailed.kind && r.result.error.cause == loaderFailed.cause
      && r.result.error.suppressed == loaderFailed.suppressed + [l.fallbackLoader(key, world).error]
  {
    var fallback := l.fallbackLoader(key, world);
    if fallback.Ok? then Loaded(fallback, world, [FallbackCall(key)])
    else Loaded(Err(AddSuppressed(loaderFailed, fallback.error)), world, [FallbackCall(key)])
  }

  /** load(key). */
  function Load<K, V, W>(l: LoaderWithFallback<K, V, W>, key: K, world: W): (r: Loaded<K, V, W>)
    ensures |r.calls| >= 2 && r.calls[0] == PrimaryCall(key)
    // primary success: its value, kept exactly once, the fallback never consulted
    ensures l.cacheLoader(key).Ok? ==>
      var v := l.cacheLoader(key).value;
      var kept := l.fallbackKeeper(key, v, world);
      && r.calls[1] == KeepCall(key, v)
      && (forall i :: 0 <= i < |r.calls| ==> !r.calls[i].FallbackCall?)
      && r.world == kept.world
      && (kept.result.Ok? ==> r.result == Ok(v) && |r.calls| == 2)
      && (kept.result.Err? ==> r.calls == [PrimaryCall(key), KeepCall(key, v), HandleCall(key, v, kept.result.error)])
      && (kept.result.Err? && l.handler(key, v, kept.result.error).Ok? ==> r.result == Ok(v))
      && (kept.result.Err? && l.handler(key, v, kept.result.error).Err? ==> r.result == Err(l.handler(key, v, kept.result.error).error))
    // primary failure: no keeping, the fallback asked with the same key, the state untouched
    ensures l.cacheLoader(key).Err? ==>
      && r.calls == [PrimaryCall(key), FallbackCall(key)]
      && r.world == world
      && (l.fallbackLoader(key, world).Ok? ==> r.result == l.fallbackLoader(key, world))
      && (l.fallbackLoader(key, world).Err? ==> r.result.Err? && r.result.error.kind == l.cacheLoader(key).error.kind)
  {
    var primary := l.cacheLoader(key);
    if primary.Err? then
      var recovered := TryRecoverFailingLoader(l, key, primary.error, world);
      recovered.(calls := [PrimaryCall(key)] + recovered.calls)
    else
      var kept := l.fallbackKeeper(key, primary.value, world);
      if kept.result.Ok? then Loaded(Ok(primary.value), kept.world, [PrimaryCall(key), KeepCall(key, primary.value)])
      else
        var handled := l.handler(key, primary.value, kept.result.error);
        Loaded(if handled.Ok? then Ok(primary.value) else Err(handled.error), kept.world,
               [PrimaryCall(key), KeepCall(key, primary.value), HandleCall(key, primary.value, kept.result.error)])
  }

  /** Without keeping, the handler is never called and a primary success is returned as is. */
  lemma NoKeepingNeverHandles<K, V, W>(cacheLoader: K -> Result<V>, fallbackLoader: (K, W) -> Result<V>,
                                       handler: (K, V, Error) -> Outcome, key: K, world: W)
    ensures var r := Load(WithoutKeeping(cacheLoader, fallbackLoader, handler), key, world);
      && (forall i :: 0 <= i < |r.calls| ==> !r.calls[i].HandleCall?)
      && (cacheLoader(key).Ok? ==> r.result == cacheLoader(key) && r.world == world)
  {
    var l := WithoutKeeping(cacheLoader, fallbackLoader, handler);
    if cacheLoader(key).Ok? {
      assert l.fallbackKeeper(key, cacheLoader(key).value, world) == Kept(Done, world);
    }
  }

  /** Both loaders failing: the exception thrown is the primary's, and the fallback's
      exception is the last one suppressed on it. */
  lemma DoubleFailureRethrowsPrimary<K, V, W>(l: LoaderWithFallback<K, V, W>, key: K, world: W)
    requires l.cacheLoader(key).Err? && l.fallbackLoader(key, world).Err?
    ensures var e := Load(l, key, world).result;
      && e.Err? && e.error == AddSuppressed(l.cacheLoader(key).error, l.fallbackLoader(key, world).error)
      && e.error.suppressed[|e.error.suppressed| - 1] == l.fallbackLoader(key, world).error
  {
  }
}
