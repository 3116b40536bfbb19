/**
 * `LYRequest.start()`: the cache-aware start. With `ignoreCache` (the
 * default) or without a loadable cache the request clears its cache
 * variables and starts over the network (`startWithoutCache`, whose second
 * half is the base start of `RequestLifecycle`). On a cache hit it marks
 * its data as from the cache and delivers the success callbacks itself,
 * without accessories and without the agent.
 */
module CachedRequest {
  import opened Common
  import opened RequestConfig
  import opened CacheEngine

  datatype StartPath = WithoutCache | FromCache | StartTrapped

  /** The start's path, the events of a cache hit, and the cache state after it. */
  datatype Started = Started(path: StartPath, trace: seq<Event>, vars: CacheVars, store: Store)

  /**
   * The `LYRequest` override of `requestCompletePreprocessor()`: the
   * (empty) base hook, then saving the network response to the cache.
   * Whether the save is queued or synchronous only changes its timing.
   */
  function PreprocessAndSave(r: ReqId, req: CacheRequest, vars: CacheVars, networkData: Option<Bytes>,
                                dataPath: string, metaPath: string, store: Store, c: Coder, env: Env,
                                dataWritable: bool, archiveWritable: bool): (res: (seq<Event>, Store))
    requires dataPath != metaPath
    ensures res.0 == [CompletePreprocessor(r)]
    ensures vars.fromCache ==> res.1 == store
    ensures res.1 != store ==> SaveGate(req.policy, vars.fromCache, networkData)
  {
    ([CompletePreprocessor(r)],
     SaveResponseData(req, dataPath, metaPath, store, vars.fromCache, networkData, c, env, dataWritable, archiveWritable))
  }

  /** The callbacks a cache hit delivers, after marking the data as from the cache. */
  function HitTrace(r: ReqId, delegate: Option<Listener>, onSuccess: Option<HandlerId>): seq<Event>
  {
    [CompletePreprocessor(r), CompleteFilter(r)] + HitCallbacks(r, delegate, onSuccess) + [HandlersCleared(r)]
  }

  /** The delegate's `requestFinished`, then the success handler, each when present. */
  function HitCallbacks(r: ReqId, delegate: Option<Listener>, onSuccess: Option<HandlerId>): seq<Event>
  {
    (match delegate case Some(d) => [FinishedSent(d, r)] case None => [])
    + (match onSuccess case Some(h) => [SuccessHandlerCalled(h, r)] case None => [])
  }

  /**
   * `start()` given what `loadCache()` gave (`loaded`; it is not consulted
   * when `ignoreCache` is set). Only `Returned(true)` is a hit: a thrown
   * error is logged and treated like `false`.
   */
  function StartWith(r: ReqId, req: CacheRequest, loaded: Loaded, vars: CacheVars, store: Store,
                     delegate: Option<Listener>, onSuccess: Option<HandlerId>, networkData: Option<Bytes>,
                     dataPath: string, metaPath: string, c: Coder, env: Env): (s: Started)
    requires dataPath != metaPath
    ensures req.ignoreCache ==> s.path == WithoutCache
    ensures s.path == FromCache <==> !req.ignoreCache && loaded.out == Returned(true)
    ensures s.path == StartTrapped <==> !req.ignoreCache && loaded.out.Trapped?
    ensures s.path == WithoutCache ==> s.trace == [] && s.vars == ClearCacheVariables(vars) && s.store == store
    // a hit marks the data as from the cache, keeps what was loaded, and never rewrites the cache
    ensures s.path == FromCache ==> s.vars == loaded.vars.(fromCache := true) && s.store == store
  {
    if req.ignoreCache then Started(WithoutCache, [], ClearCacheVariables(vars), store)
    else match loaded.out
      case Trapped => Started(StartTrapped, [], loaded.vars, store)
      case Returned(true) =>
        var v := loaded.vars.(fromCache := true);
        var (_, s') := PreprocessAndSave(r, req, v, networkData, dataPath, metaPath, store, c, env, true, true);
        Started(FromCache, HitTrace(r, delegate, onSuccess), v, s')
      case _ => Started(WithoutCache, [], ClearCacheVariables(loaded.vars), store)
  }

  /** `start()` on the corrected cache pipeline. */
  function Start(r: ReqId, req: CacheRequest, vars: CacheVars, store: Store,
                 delegate: Option<Listener>, onSuccess: Option<HandlerId>, networkData: Option<Bytes>,
                 dataPath: string, metaPath: string, env: Env): (s: Started)
    requires dataPath != metaPath
    ensures req.ignoreCache ==> s.path == WithoutCache && s.vars == ClearCacheVariables(vars)
    ensures s.path == FromCache ==> s.store == store && s.vars.fromCache
  {
    StartWith(r, req, LoadCacheFixed(req, dataPath, metaPath, store, vars, WithEncoding, env), vars, store,
              delegate, onSuccess, networkData, dataPath, metaPath, WithEncoding, env)
  }

  /** `start()` with the library's `loadCache()` and metadata coder. */
  function StartAsWritten(r: ReqId, req: CacheRequest, vars: CacheVars, store: Store,
                          delegate: Option<Listener>, onSuccess: Option<HandlerId>, networkData: Option<Bytes>,
                          dataPath: string, metaPath: string, env: Env): (s: Started)
    requires dataPath != metaPath
    ensures req.ignoreCache ==> s.path == WithoutCache && s.vars == ClearCacheVariables(vars)
    ensures s.path == FromCache ==> s.store == store && s.vars.fromCache
  {
    StartWith(r, req, LoadCache(req, dataPath, metaPath, store, vars, AsWritten, env), vars, store,
              delegate, onSuccess, networkData, dataPath, metaPath, AsWritten, env)
  }

  /**
   * A cache hit runs the preprocessor, then the filter, then the delegate's
   * `requestFinished`, then the success handler, then clears the handlers;
   * it fires no accessory hook and never reaches the agent.
   */
  lemma HitTraceOrder(r: ReqId, delegate: Option<Listener>, onSuccess: Option<HandlerId>)
    ensures var t := HitTrace(r, delegate, onSuccess);
      && t[0] == CompletePreprocessor(r) && t[1] == CompleteFilter(r) && t[|t| - 1] == HandlersCleared(r)
      && NoAccessoryEvents(t) && NoAgentEvents(t)
      && (forall d: Listener :: FinishedSent(d, r) in t <==> delegate == Some(d))
      && (forall h: HandlerId :: SuccessHandlerCalled(h, r) in t <==> onSuccess == Some(h))
      && (delegate.Some? && onSuccess.Some? ==>
            Before(t, FinishedSent(delegate.value, r), SuccessHandlerCalled(onSuccess.value, r)))
      && Before(t, CompleteFilter(r), HandlersCleared(r))
  {
    HitTraceFrame(r, delegate, onSuccess);
    HitTraceCallbacks(r, delegate, onSuccess);
  }

  /** The fixed events at both ends, in order, and nothing for accessories or the agent. */
  lemma HitTraceFrame(r: ReqId, delegate: Option<Listener>, onSuccess: Option<HandlerId>)
    ensures var t := HitTrace(r, delegate, onSuccess);
      && t[0] == CompletePreprocessor(r) && t[1] == CompleteFilter(r) && t[|t| - 1] == HandlersCleared(r)
      && NoAccessoryEvents(t) && NoAgentEvents(t)
      && Before(t, CompleteFilter(r), HandlersCleared(r))
  {
    var head := [CompletePreprocessor(r), CompleteFilter(r)];
    var cb := HitCallbacks(r, delegate, onSuccess);
    HitCallbacksHold(r, delegate, onSuccess);
    var t := HitTrace(r, delegate, onSuccess);
    assert t == head + (cb + [HandlersCleared(r)]);
    forall i | 0 <= i < |t|
      ensures !t[i].Accessory? && !t[i].TaskResumed? && !t[i].TaskCancelled?
      ensures !t[i].RecordAdded? && !t[i].RecordRemoved?
    {
      if 2 <= i < 2 + |cb| {
        assert t[i] == cb[i - 2];
      }
    }
    BeforeAcross(head, cb + [HandlersCleared(r)], CompleteFilter(r), HandlersCleared(r));
  }

  /** The delegate and the handler are called exactly when set, the delegate first. */
  lemma HitTraceCallbacks(r: ReqId, delegate: Option<Listener>, onSuccess: Option<HandlerId>)
    ensures var t := HitTrace(r, delegate, onSuccess);
      && (forall d: Listener :: FinishedSent(d, r) in t <==> delegate == Some(d))
      && (forall h: HandlerId :: SuccessHandlerCalled(h, r) in t <==> onSuccess == Some(h))
      && (delegate.Some? && onSuccess.Some? ==>
            Before(t, FinishedSent(delegate.value, r), SuccessHandlerCalled(onSuccess.value, r)))
  {
    var head := [CompletePreprocessor(r), CompleteFilter(r)];
    var cb := HitCallbacks(r, delegate, onSuccess);
    HitCallbacksHold(r, delegate, onSuccess);
    var t := HitTrace(r, delegate, onSuccess);
    if delegate.Some? && onSuccess.Some? {
      var fin, succ := FinishedSent(delegate.value, r), SuccessHandlerCalled(onSuccess.value, r);
      assert t == (head + [fin]) + [succ, HandlersCleared(r)];
      BeforeAcross(head + [fin], [succ, HandlersCleared(r)], fin, succ);
    }
  }

  /** The callbacks of a hit are the delegate's and the handler's, exactly when each is set. */
  lemma HitCallbacksHold(r: ReqId, delegate: Option<Listener>, onSuccess: Option<HandlerId>)
    ensures var cb := HitCallbacks(r, delegate, onSuccess);
      && |cb| <= 2
      && (forall i :: 0 <= i < |cb| ==> cb[i].FinishedSent? || cb[i].SuccessHandlerCalled?)
      && (forall d: Listener :: FinishedSent(d, r) in cb <==> delegate == Some(d))
      && (forall h: HandlerId :: SuccessHandlerCalled(h, r) in cb <==> onSuccess == Some(h))
      && (delegate.Some? && onSuccess.Some? ==>
            cb == [FinishedSent(delegate.value, r), SuccessHandlerCalled(onSuccess.value, r)])
  {
  }

  /** The response getters of a request served from the cache answer with the cached data. */
  lemma HitServesCachedData(r: ReqId, req: CacheRequest, loaded: Loaded, vars: CacheVars, store: Store,
                            delegate: Option<Listener>, onSuccess: Option<HandlerId>, networkData: Option<Bytes>,
                            dataPath: string, metaPath: string, c: Coder, env: Env)
    requires dataPath != metaPath
    requires StartWith(r, req, loaded, vars, store, delegate, onSuccess, networkData, dataPath, metaPath, c, env).path == FromCache
    requires loaded.vars.data.Some?
    ensures var s := StartWith(r, req, loaded, vars, store, delegate, onSuccess, networkData, dataPath, metaPath, c, env);
      Preferred(s.vars.data, networkData) == loaded.vars.data
  {
  }

  /**
   * With the corrected pipeline, a request that does not ignore the cache
   * and finds a fresh response saved for it is served from the cache, with
   * the saved bytes.
   */
  lemma FreshSavedResponseIsServed(r: ReqId, req: CacheRequest, base: string, net: NetworkConfig.Config,
                                   store: Store, vars: CacheVars, data: Bytes, env: Env, saveTime: int,
                                   delegate: Option<Listener>, onSuccess: Option<HandlerId>, networkData: Option<Bytes>)
    requires !req.ignoreCache && req.policy.cacheTime > 0 && 0 <= env.now - saveTime <= req.policy.cacheTime
    requires req.config.responseSerializer != JsonResponseSerializer
    ensures
      var dp := DataPath(req, base, net, env);
      var mp := MetaPath(req, base, net, env);
      var saved := SaveResponseData(req, dp, mp, store, false, Some(data), WithEncoding, env.(now := saveTime), true, true);
      dp != mp &&
      var s := Start(r, req, vars, saved, delegate, onSuccess, networkData, dp, mp, env);
      s.path == FromCache && Preferred(s.vars.data, networkData) == Some(data) && s.store == saved
  {
    DataAndMetaPathsDiffer(req, base, net, env);
    SaveThenLoadFixed(req, base, net, store, vars, data, env, saveTime, env.now);
    assert env.(now := env.now) == env;
  }

  /** As written, the same request never gets its fresh cache: it goes to the network. */
  lemma FreshSavedResponseIsNotServedAsWritten(r: ReqId, req: CacheRequest, base: string, net: NetworkConfig.Config,
                                               store: Store, vars: CacheVars, data: Bytes, env: Env, saveTime: int,
                                               delegate: Option<Listener>, onSuccess: Option<HandlerId>, networkData: Option<Bytes>)
    requires !req.ignoreCache && req.policy.cacheTime > 0 && 0 <= env.now - saveTime <= req.policy.cacheTime
    ensures
      var dp := DataPath(req, base, net, env);
      var mp := MetaPath(req, base, net, env);
      var saved := SaveResponseData(req, dp, mp, store, false, Some(data), AsWritten, env.(now := saveTime), true, true);
      dp != mp &&
      StartAsWritten(r, req, vars, saved, delegate, onSuccess, networkData, dp, mp, env).path == WithoutCache
  {
    DataAndMetaPathsDiffer(req, base, net, env);
    SaveThenLoadAsWritten(req, base, net, store, vars, data, env, saveTime, env.now);
    assert env.(now := env.now) == env;
  }
}
