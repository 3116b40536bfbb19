/**
 * The cache pipeline of `LYRequest`: file naming, `validateCache`,
 * `loadCacheMetadata`, `loadCacheData`, `loadCache` and
 * `saveResponseDataToCacheFile`.
 *
 * Storage is a map from path to file. Clock readings, the app version and
 * the string decoding and JSON parsing of Foundation are inputs (`Env`).
 * Each step that can end in a Swift runtime trap (a force unwrap of `nil`)
 * reports it as an outcome of its own.
 */
module CacheEngine {
  import opened Common
  import opened RequestConfig
  import opened CacheMetadata
  import NetworkConfig
  import JsonValidator

  /** `LYRequestCacheError`. */
  datatype CacheError = InvalidCacheTime | InvalidMetaData | InvalidCacheData
  /** `LYValidateCacheError` (the source's spelling). */
  datatype ValidateError = CacheExpired | CacheVersionMismatch | CacheSenstiveDataMismatch

  /** What a throwing `Bool` function does: return, throw, or crash the process. */
  datatype Outcome<E> = Returned(b: bool) | Threw(err: E) | Trapped

  /** The cache answers an `LYRequest` subclass overrides. */
  datatype CachePolicy = CachePolicy(
    cacheTime: int,              // cacheTimeInSeconds(), default -1
    version: int,                // cacheVersion(), default 0
    sensitive: Option<string>,   // cacheSensitiveData()?.description, default nil
    writeAsync: bool)            // writeCacheAsynchronously(), default true

  function DefaultPolicy(): (p: CachePolicy)
    ensures p.cacheTime < 0 && p.version == 0 && p.sensitive.None? && p.writeAsync
  {
    CachePolicy(-1, 0, None, true)
  }

  /**
   * The cache side of a freshly created `LYRequest` that overrides no cache
   * answer: `ignoreCache` starts out `true`, so the cache is bypassed until
   * the caller turns it off.
   */
  function NewCacheRequest(config: Configuration, filteredArgument: Option<Args>, encoding: Encoding): (req: CacheRequest)
    ensures req.ignoreCache && req.policy == DefaultPolicy()
    ensures req.config == config && req.filteredArgument == filteredArgument && req.encoding == encoding
  {
    CacheRequest(config, DefaultPolicy(), true, filteredArgument, encoding)
  }

  /** What the pipeline needs to know of one request. */
  datatype CacheRequest = CacheRequest(
    config: Configuration,
    policy: CachePolicy,
    ignoreCache: bool,                  // default true
    filteredArgument: Option<Args>,     // cacheFileNameFilterForRequestArgument(requestArgument())
    encoding: Encoding)                 // LYNetworkUtils.stringEncodingWithRequest(self)

  /** Inputs from outside the library. */
  datatype Env = Env(
    now: int,                                   // the current time, in seconds
    appVersion: string,                         // LYNetworkUtils.appVersionString()
    describe: Args -> string,                   // `%@` formatting of an argument dictionary
    decodeString: (Bytes, Encoding) -> Option<string>,  // String(data:encoding:)
    parse: Bytes -> Option<JsonValidator.Json>)          // JSONSerialization.jsonObject(with:)

  /** A file: raw bytes, a keyed archive, or one that cannot be read as either. */
  datatype File = Blob(data: Bytes) | KeyedArchive(a: Archive) | Unreadable

  type Store = map<string, File>

  /** The private cache variables of an `LYRequest`. */
  datatype CacheVars = CacheVars(
    data: Option<Bytes>,
    str: Option<string>,
    json: Option<JsonValidator.Json>,
    meta: Option<Metadata>,
    fromCache: bool)

  // ---------------------------------------------------------------------
  // Paths

  /** `appendingPathComponent`, without Foundation's path normalisation. */
  function JoinPath(dir: string, component: string): (p: string)
    ensures |p| == |dir| + 1 + |component|
    ensures p[..|dir|] == dir && p[|dir| + 1..] == component
  {
    dir + "/" + component
  }

  const CacheDirectoryName: string := "LazyRequestCache"

  /**
   * `cacheBasePath()` as written: every cache-directory filter is called
   * and its result discarded (`_ = f.filterCacheDirPath(…)`), so the
   * filters never change the directory.
   */
  function CacheBasePath(library: string, filters: seq<NetworkConfig.DirFilterId>,
                         apply: (NetworkConfig.DirFilterId, string) -> string): (p: string)
    ensures p == JoinPath(library, CacheDirectoryName)
  {
    JoinPath(library, CacheDirectoryName)
  }

  /** `cacheBasePath()` with each filter's result fed to the next, as the filter protocol intends. */
  function CacheBasePathFixed(library: string, filters: seq<NetworkConfig.DirFilterId>,
                              apply: (NetworkConfig.DirFilterId, string) -> string): (p: string)
    ensures |filters| == 0 ==> p == JoinPath(library, CacheDirectoryName)
  {
    NetworkConfig.Fold(filters, JoinPath(library, CacheDirectoryName), apply)
  }

  /** A filter that changes the directory is ignored as written and honoured by the corrected path. */
  lemma CacheBasePathDiscardsFilters(library: string, f: NetworkConfig.DirFilterId)
    ensures var apply := (f: NetworkConfig.DirFilterId, s: string) => s + "/user";
      CacheBasePath(library, [f], apply) != CacheBasePathFixed(library, [f], apply)
  {
    var apply := (f: NetworkConfig.DirFilterId, s: string) => s + "/user";
    var base := JoinPath(library, CacheDirectoryName);
    var none: seq<NetworkConfig.DirFilterId> := [];
    assert [f][1..] == none;
    assert NetworkConfig.Fold([f], base, apply) == NetworkConfig.Fold(none, apply(f, base), apply);
    assert |CacheBasePathFixed(library, [f], apply)| == |base| + 5;
  }

  /** A directory filter added to the shared config runs last on the corrected path. */
  lemma AddedDirFilterChangesCorrectedPath(c: NetworkConfig.Config, f: NetworkConfig.DirFilterId, library: string,
                                           apply: (NetworkConfig.DirFilterId, string) -> string)
    ensures CacheBasePathFixed(library, NetworkConfig.AddCacheDirPathFilter(c, f).cacheDirPathFilters, apply)
         == apply(f, CacheBasePathFixed(library, c.cacheDirPathFilters, apply))
  {
    NetworkConfig.AddedDirFilterRunsLast(c, f, JoinPath(library, CacheDirectoryName), apply);
  }

  /** `%ld` of a method ordinal, a single decimal digit. */
  function DigitChar(n: nat): (ch: char)
    requires n < 10
  {
    (48 + n) as char
  }

  /** The `Argument:` part: the argument's description, or empty for `nil`. */
  function ArgumentText(arg: Option<Args>, describe: Args -> string): string
  {
    match arg
    case None => ""
    case Some(a) => describe(a)
  }

  /** `cacheFileName()`: `"Method:%ld Host:%@ Url:%@ Argument:%@"`. */
  function CacheFileName(m: Method, host: string, url: string, arg: Option<Args>,
                         describe: Args -> string): (name: string)
    ensures |name| == 8 + 6 + |host| + 5 + |url| + 10 + |ArgumentText(arg, describe)|
    ensures name[..7] == "Method:" && name[7] == DigitChar(MethodOrdinal(m))
    ensures name[|name| - |ArgumentText(arg, describe)|..] == ArgumentText(arg, describe)
  {
    "Method:" + [DigitChar(MethodOrdinal(m))] + " Host:" + host + " Url:" + url
      + " Argument:" + ArgumentText(arg, describe)
  }

  /** Two requests with different methods never share a cache file. */
  lemma CacheFileNameSeparatesMethods(m1: Method, m2: Method, h1: string, h2: string, u1: string, u2: string,
                                      a1: Option<Args>, a2: Option<Args>, describe: Args -> string)
    requires m1 != m2
    ensures CacheFileName(m1, h1, u1, a1, describe) != CacheFileName(m2, h2, u2, a2, describe)
  {
    var n1 := CacheFileName(m1, h1, u1, a1, describe);
    var n2 := CacheFileName(m2, h2, u2, a2, describe);
    MethodOrdinalInjective(m1, m2);
    assert n1[7] != n2[7];
  }

  /** A `nil` argument names the same file as an argument whose description is empty. */
  lemma NilArgumentIsEmpty(m: Method, host: string, url: string, a: Args, describe: Args -> string)
    requires describe(a) == ""
    ensures CacheFileName(m, host, url, None, describe) == CacheFileName(m, host, url, Some(a), describe)
  {
  }

  /** `cacheFileName()` of a request, against the shared config's base URL. */
  function RequestCacheFileName(req: CacheRequest, net: NetworkConfig.Config, env: Env): string
  {
    CacheFileName(req.config.httpMethod, net.baseUrl, req.config.requestUrl, req.filteredArgument, env.describe)
  }

  /** `cacheFilePath()`. */
  function DataPath(req: CacheRequest, base: string, net: NetworkConfig.Config, env: Env): string
  {
    JoinPath(base, RequestCacheFileName(req, net, env))
  }

  /** `cacheMetadataFilePath()`: the file name plus `.metadata`. */
  function MetaPath(req: CacheRequest, base: string, net: NetworkConfig.Config, env: Env): string
  {
    JoinPath(base, RequestCacheFileName(req, net, env) + ".metadata")
  }

  /** A request's data file and metadata file are distinct files in the same directory. */
  lemma DataAndMetaPathsDiffer(req: CacheRequest, base: string, net: NetworkConfig.Config, env: Env)
    ensures DataPath(req, base, net, env) != MetaPath(req, base, net, env)
    ensures MetaPath(req, base, net, env) == DataPath(req, base, net, env) + ".metadata"
  {
    assert |DataPath(req, base, net, env)| + 9 == |MetaPath(req, base, net, env)|;
  }

  // ---------------------------------------------------------------------
  // Validation

  /** An independent statement of a usable cache: every check of `validateCache` passes. */
  predicate UsableCache(meta: Option<Metadata>, p: CachePolicy, appVersion: string, now: int)
  {
    && meta.Some?
    && meta.value.creationDate.Some?
    && 0 <= now - meta.value.creationDate.value <= p.cacheTime
    && meta.value.version == p.version
    && meta.value.sensitiveDataString == p.sensitive
    && (meta.value.appVersionString.None? || meta.value.appVersionString.value == appVersion)
  }

  /** `validateCache()`: the checks in source order; the first that fails decides. */
  function ValidateCache(meta: Option<Metadata>, p: CachePolicy, appVersion: string, now: int): (o: Outcome<ValidateError>)
    ensures meta.None? ==> o == Returned(false)
    ensures meta.Some? && meta.value.creationDate.None? ==> o.Trapped?
    // expiry comes before every other check; an age equal to the cache time is not expired
    ensures meta.Some? && meta.value.creationDate.Some? &&
      (now - meta.value.creationDate.value < 0 || now - meta.value.creationDate.value > p.cacheTime)
      ==> o == Threw(CacheExpired)
    // a version mismatch throws the sensitive-data error
    ensures (meta.Some? && meta.value.creationDate.Some? && 0 <= now - meta.value.creationDate.value <= p.cacheTime
             && meta.value.version != p.version) ==> o == Threw(CacheSenstiveDataMismatch)
    // sensitive strings: exactly one `nil` crashes, two different strings return false
    ensures o.Trapped? <==>
      (meta.Some? && (meta.value.creationDate.None? ||
        (0 <= now - meta.value.creationDate.value <= p.cacheTime && meta.value.version == p.version &&
         meta.value.sensitiveDataString.Some? != p.sensitive.Some?)))
    // two different sensitive strings make a fresh cache of the right version unusable, without an error
    ensures o == Returned(false) <==>
      meta.None? || (meta.value.creationDate.Some? && 0 <= now - meta.value.creationDate.value <= p.cacheTime &&
                     meta.value.version == p.version &&
                     meta.value.sensitiveDataString.Some? && p.sensitive.Some? &&
                     meta.value.sensitiveDataString != p.sensitive)
    // a differing stored app version is checked last, once every other check has passed
    ensures o == Threw(CacheVersionMismatch) <==>
      meta.Some? && meta.value.creationDate.Some? && 0 <= now - meta.value.creationDate.value <= p.cacheTime &&
      meta.value.version == p.version && meta.value.sensitiveDataString == p.sensitive &&
      meta.value.appVersionString.Some? && meta.value.appVersionString.value != appVersion
  {
    match meta
    case None => Returned(false)
    case Some(m) =>
      if m.creationDate.None? then Trapped
      else
        var elapsed := now - m.creationDate.value;
        if elapsed < 0 || elapsed > p.cacheTime then Threw(CacheExpired)
        else if m.version != p.version then Threw(CacheSenstiveDataMismatch)
        else if (m.sensitiveDataString.Some? || p.sensitive.Some?) &&
                (m.sensitiveDataString.None? || p.sensitive.None?) then Trapped
        else if m.sensitiveDataString.Some? &&
                (|m.sensitiveDataString.value| != |p.sensitive.value| ||
                 m.sensitiveDataString.value != p.sensitive.value) then Returned(false)
        else if m.appVersionString.Some? &&
                (|m.appVersionString.value| != |appVersion| || m.appVersionString.value != appVersion)
          then Threw(CacheVersionMismatch)
        else Returned(true)
  }

  /** `validateCache()` returns `true` exactly for a usable cache. */
  lemma ValidateCacheTrueIffUsable(meta: Option<Metadata>, p: CachePolicy, appVersion: string, now: int)
    ensures ValidateCache(meta, p, appVersion, now) == Returned(true) <==> UsableCache(meta, p, appVersion, now)
  {
  }

  /** A stored app version of `nil` skips the app-version check. */
  lemma NilAppVersionSkipsCheck(m: Metadata, p: CachePolicy, appVersion: string, other: string, now: int)
    requires m.appVersionString.None?
    ensures ValidateCache(Some(m), p, appVersion, now) == ValidateCache(Some(m), p, other, now)
  {
  }

  // ---------------------------------------------------------------------
  // Loading

  /** The two metadata coders: as the library writes it, and with the encoding key. */
  datatype Coder = AsWritten | WithEncoding

  function EncodeWith(c: Coder, m: Metadata): Archive
  {
    match c
    case AsWritten => Encode(m)
    case WithEncoding => EncodeFixed(m)
  }

  function DecodeWith(c: Coder, a: Archive): Decoded
  {
    match c
    case AsWritten => Decode(a)
    case WithEncoding => DecodeFixed(a)
  }

  /** A private loading step: its `Bool` answer and the cache variables after it, or a crash. */
  datatype Step = Step(ok: bool, vars: CacheVars) | StepTrap

  /**
   * `loadCacheMetadata()`. `NSKeyedUnarchiver.unarchiveObject(withFile:)`
   * answers `nil` for a file it cannot read and raises (a crash here) on
   * bytes that are not a keyed archive.
   */
  function LoadCacheMetadata(store: Store, path: string, vars: CacheVars, c: Coder): (s: Step)
    ensures path !in store ==> s == Step(false, vars)
    ensures s.Step? ==> s.vars.(meta := vars.meta) == vars
    ensures s.Step? ==> (s.ok <==> path in store && s.vars.meta.Some?)
    ensures s.Step? && s.ok ==> store[path].KeyedArchive? && DecodeWith(c, store[path].a) == Decoded(s.vars.meta.value)
    ensures path in store && store[path].Unreadable? ==> s == Step(false, vars.(meta := None))
    ensures s.StepTrap? <==>
      (path in store &&
       (store[path].Blob? || (store[path].KeyedArchive? && DecodeWith(c, store[path].a).DecodeTrap?)))
  {
    if path !in store then Step(false, vars)
    else match store[path]
      case KeyedArchive(a) =>
        (match DecodeWith(c, a)
         case DecodeTrap => StepTrap
         case Decoded(m) => Step(true, vars.(meta := Some(m))))
      case Blob(_) => StepTrap
      case Unreadable => Step(false, vars.(meta := None))
  }

  /**
   * `loadCacheData()`. Reading the file replaces the cached data and
   * decodes it as a string with the metadata's encoding, force-unwrapping
   * both the metadata and its encoding; a failed read keeps the previous
   * data. The JSON serializer then parses the cached data (force-unwrapped
   * as well).
   */
  function LoadCacheData(store: Store, path: string, vars: CacheVars, serializer: ResponseSerializer, env: Env): (s: Step)
    ensures path !in store ==> s == Step(false, vars)
    ensures (path in store && store[path].Blob? &&
             (vars.meta.None? || vars.meta.value.stringEncoding.None?)) ==> s.StepTrap?
    ensures s.Step? && path in store && store[path].Blob? ==>
      s.vars.data == Some(store[path].data) &&
      s.vars.str == env.decodeString(store[path].data, vars.meta.value.stringEncoding.value)
    ensures s.Step? ==> s.vars.meta == vars.meta && s.vars.fromCache == vars.fromCache
    ensures s.Step? && s.ok ==> path in store
    ensures s.Step? && !s.ok ==> path !in store || serializer == JsonResponseSerializer
    // a readable file with an encoding to decode it never crashes
    ensures path in store && store[path].Blob? && vars.meta.Some? && vars.meta.value.stringEncoding.Some? ==> s.Step?
    // a failed read keeps the previous data, and the JSON parse crashes only when there is none
    ensures path in store && !store[path].Blob? ==>
      (s.StepTrap? <==> serializer == JsonResponseSerializer && vars.data.None?)
    ensures s.Step? && path in store && !store[path].Blob? ==> s.vars.data == vars.data && s.vars.str == vars.str
    // the JSON serializer succeeds exactly when the cached data parses, and stores the parsed value
    ensures s.Step? && path in store && serializer == JsonResponseSerializer ==>
      && s.vars.data.Some?
      && (s.ok <==> env.parse(s.vars.data.value).Some?)
      && s.vars.json == (if s.ok then env.parse(s.vars.data.value) else vars.json)
    ensures s.Step? && serializer != JsonResponseSerializer ==> s.vars.json == vars.json
  {
    if path !in store then Step(false, vars)
    else
      var read :=
        match store[path]
        case Blob(d) =>
          if vars.meta.None? || vars.meta.value.stringEncoding.None? then StepTrap
          else Step(true, vars.(data := Some(d), str := env.decodeString(d, vars.meta.value.stringEncoding.value)))
        case _ => Step(true, vars);
      match read
      case StepTrap => StepTrap
      case Step(_, v) =>
        match serializer
        case JsonResponseSerializer =>
          if v.data.None? then StepTrap
          else
            (match env.parse(v.data.value)
             case Some(j) => Step(true, v.(json := Some(j)))
             case None => Step(false, v))
        case _ => Step(true, v)
  }

  /** `loadCache()`'s outcome and the cache variables it leaves behind. */
  datatype Loaded = Loaded(out: Outcome<CacheError>, vars: CacheVars)

  /** The part both versions of `loadCache()` share: cache time, then metadata. */
  function LoadPrefix(req: CacheRequest, metaPath: string, store: Store, vars: CacheVars, c: Coder): Option<Loaded>
  {
    if req.policy.cacheTime < 0 then Some(Loaded(Threw(InvalidCacheTime), vars))
    else match LoadCacheMetadata(store, metaPath, vars, c)
      case StepTrap => Some(Loaded(Trapped, vars))
      case Step(ok, v) => if !ok then Some(Loaded(Threw(InvalidMetaData), v)) else None
  }

  /** The last step of both versions: read the data, `InvalidCacheData` when that fails. */
  function LoadData(dataPath: string, store: Store, vars: CacheVars, serializer: ResponseSerializer, env: Env): Loaded
  {
    match LoadCacheData(store, dataPath, vars, serializer, env)
    case StepTrap => Loaded(Trapped, vars)
    case Step(ok, v) => if ok then Loaded(Returned(true), v) else Loaded(Threw(InvalidCacheData), v)
  }

  /**
   * `loadCache()` as written: a cache that passes validation makes it
   * return `false` without reading the data, and a cache that fails
   * validation (by `false` or by a throw, which is swallowed) goes on to
   * be loaded.
   */
  function LoadCache(req: CacheRequest, dataPath: string, metaPath: string, store: Store, vars: CacheVars,
                     c: Coder, env: Env): (l: Loaded)
    ensures l.out == Threw(InvalidCacheTime) <==> req.policy.cacheTime < 0
    ensures req.policy.cacheTime < 0 ==> l.vars == vars
    ensures req.policy.cacheTime >= 0 && metaPath !in store ==> l.out == Threw(InvalidMetaData)
    ensures l.out == Returned(true) ==>
      (dataPath in store && LoadCacheMetadata(store, metaPath, vars, c).Step? &&
       !UsableCache(LoadCacheMetadata(store, metaPath, vars, c).vars.meta, req.policy, env.appVersion, env.now))
    ensures l.out == Returned(false) ==>
      (LoadCacheMetadata(store, metaPath, vars, c).Step? &&
       UsableCache(LoadCacheMetadata(store, metaPath, vars, c).vars.meta, req.policy, env.appVersion, env.now) &&
       l.vars == LoadCacheMetadata(store, metaPath, vars, c).vars)
    // once the metadata is loaded: a usable cache returns `false`, an unusable one is loaded anyway
    ensures req.policy.cacheTime >= 0 ==>
      var m := LoadCacheMetadata(store, metaPath, vars, c);
      && (m.StepTrap? ==> l.out.Trapped?)
      && (m.Step? && !m.ok ==> l.out == Threw(InvalidMetaData))
      && (m.Step? && m.ok && UsableCache(m.vars.meta, req.policy, env.appVersion, env.now) ==>
            l == Loaded(Returned(false), m.vars))
      && (m.Step? && m.ok && !UsableCache(m.vars.meta, req.policy, env.appVersion, env.now) &&
          !ValidateCache(m.vars.meta, req.policy, env.appVersion, env.now).Trapped? ==>
            l == LoadData(dataPath, store, m.vars, req.config.responseSerializer, env))
      && (m.Step? && m.ok && ValidateCache(m.vars.meta, req.policy, env.appVersion, env.now).Trapped? ==>
            l.out.Trapped?)
  {
    match LoadPrefix(req, metaPath, store, vars, c)
    case Some(early) => early
    case None =>
      var v := LoadCacheMetadata(store, metaPath, vars, c).vars;
      match ValidateCache(v.meta, req.policy, env.appVersion, env.now)
      case Trapped => Loaded(Trapped, v)
      case Returned(true) => Loaded(Returned(false), v)
      case _ => LoadData(dataPath, store, v, req.config.responseSerializer, env)
  }

  /** `loadCache()` as intended: only a cache that passes validation is loaded. */
  function LoadCacheFixed(req: CacheRequest, dataPath: string, metaPath: string, store: Store, vars: CacheVars,
                          c: Coder, env: Env): (l: Loaded)
    ensures l.out == Threw(InvalidCacheTime) <==> req.policy.cacheTime < 0
    ensures req.policy.cacheTime >= 0 && metaPath !in store ==> l.out == Threw(InvalidMetaData)
    ensures l.out == Returned(true) ==>
      (dataPath in store && LoadCacheMetadata(store, metaPath, vars, c).Step? &&
       UsableCache(LoadCacheMetadata(store, metaPath, vars, c).vars.meta, req.policy, env.appVersion, env.now))
    ensures l.out == Returned(true) && store[dataPath].Blob? ==> l.vars.data == Some(store[dataPath].data)
    // once the metadata is loaded: only a usable cache is loaded, an unusable one returns `false`
    ensures req.policy.cacheTime >= 0 ==>
      var m := LoadCacheMetadata(store, metaPath, vars, c);
      && (m.StepTrap? ==> l.out.Trapped?)
      && (m.Step? && !m.ok ==> l.out == Threw(InvalidMetaData))
      && (m.Step? && m.ok && UsableCache(m.vars.meta, req.policy, env.appVersion, env.now) ==>
            l == LoadData(dataPath, store, m.vars, req.config.responseSerializer, env))
      && (m.Step? && m.ok && !UsableCache(m.vars.meta, req.policy, env.appVersion, env.now) &&
          !ValidateCache(m.vars.meta, req.policy, env.appVersion, env.now).Trapped? ==>
            l == Loaded(Returned(false), m.vars))
      && (m.Step? && m.ok && ValidateCache(m.vars.meta, req.policy, env.appVersion, env.now).Trapped? ==>
            l.out.Trapped?)
  {
    match LoadPrefix(req, metaPath, store, vars, c)
    case Some(early) => early
    case None =>
      var v := LoadCacheMetadata(store, metaPath, vars, c).vars;
      match ValidateCache(v.meta, req.policy, env.appVersion, env.now)
      case Trapped => Loaded(Trapped, v)
      case Returned(true) => LoadData(dataPath, store, v, req.config.responseSerializer, env)
      case _ => Loaded(Returned(false), v)
  }

  // ---------------------------------------------------------------------
  // Saving

  /** The metadata `saveResponseDataToCacheFile` records at time `now`. */
  function FreshMetadata(req: CacheRequest, env: Env): (m: Metadata)
    ensures m.version == req.policy.version && m.sensitiveDataString == req.policy.sensitive
    ensures m.stringEncoding == Some(req.encoding)
    ensures m.creationDate == Some(env.now) && m.appVersionString == Some(env.appVersion)
  {
    Metadata(req.policy.version, req.policy.sensitive, Some(req.encoding), Some(env.now), Some(env.appVersion))
  }

  /** The three conditions under which saving writes anything. */
  predicate SaveGate(p: CachePolicy, fromCache: bool, data: Option<Bytes>)
  {
    p.cacheTime > 0 && !fromCache && data.Some?
  }

  /**
   * `saveResponseDataToCacheFile(_:)`: write the data, then archive the
   * metadata next to it. A failed data write skips the metadata;
   * a failed archive leaves the data written.
   */
  function SaveResponseData(req: CacheRequest, dataPath: string, metaPath: string, store: Store,
                            fromCache: bool, data: Option<Bytes>, c: Coder, env: Env,
                            dataWritable: bool, archiveWritable: bool): (s: Store)
    requires dataPath != metaPath
    ensures !SaveGate(req.policy, fromCache, data) || !dataWritable ==> s == store
    ensures SaveGate(req.policy, fromCache, data) && dataWritable ==>
      && s.Keys == store.Keys + {dataPath} + (if archiveWritable then {metaPath} else {})
      && s[dataPath] == Blob(data.value)
      && (archiveWritable ==> s[metaPath] == KeyedArchive(EncodeWith(c, FreshMetadata(req, env))))
    ensures forall p :: p in store && p != dataPath && p != metaPath ==> p in s && s[p] == store[p]
  {
    if !SaveGate(req.policy, fromCache, data) || !dataWritable then store
    else
      var s1 := store[dataPath := Blob(data.value)];
      if archiveWritable then s1[metaPath := KeyedArchive(EncodeWith(c, FreshMetadata(req, env)))] else s1
  }

  /** Data taken from the cache is never written back to it. */
  lemma FromCacheNeverWrites(req: CacheRequest, dataPath: string, metaPath: string, store: Store,
                             data: Option<Bytes>, c: Coder, env: Env, w1: bool, w2: bool)
    requires dataPath != metaPath
    ensures SaveResponseData(req, dataPath, metaPath, store, true, data, c, env, w1, w2) == store
  {
  }

  /** The response getters: a cached value, when there is one, hides the network response. */
  function Preferred<T>(cached: Option<T>, network: Option<T>): (r: Option<T>)
    ensures cached.Some? ==> r == cached
    ensures cached.None? ==> r == network
  {
    if cached.None? then network else cached
  }

  /** `clearCacheVariables()`. */
  function ClearCacheVariables(v: CacheVars): (v': CacheVars)
    ensures v'.data.None? && v'.str.None? && v'.json.None? && v'.meta.None? && !v'.fromCache
  {
    CacheVars(None, None, None, None, false)
  }

  /** After the cache variables are cleared, every response getter answers from the network response. */
  lemma ClearedGettersUseNetwork(v: CacheVars, data: Option<Bytes>, str: Option<string>, json: Option<JsonValidator.Json>)
    ensures var c := ClearCacheVariables(v);
      Preferred(c.data, data) == data && Preferred(c.str, str) == str && Preferred(c.json, json) == json
  {
  }

  // ---------------------------------------------------------------------
  // Save, then load

  /**
   * With the corrected pipeline, a response saved at `saveTime` passes
   * validation at a load within the cache time, so the load reads the
   * saved data with the saved metadata in place.
   */
  lemma SavedFixedReachesData(req: CacheRequest, base: string, net: NetworkConfig.Config, store: Store, vars: CacheVars,
                              data: Bytes, env: Env, saveTime: int, loadTime: int)
    requires req.policy.cacheTime > 0 && 0 <= loadTime - saveTime <= req.policy.cacheTime
    ensures
      var dp := DataPath(req, base, net, env);
      var mp := MetaPath(req, base, net, env);
      var saved := SaveResponseData(req, dp, mp, store, false, Some(data), WithEncoding, env.(now := saveTime), true, true);
      && dp in saved && saved[dp] == Blob(data)
      && LoadCacheFixed(req, dp, mp, saved, vars, WithEncoding, env.(now := loadTime)) ==
         LoadData(dp, saved, vars.(meta := Some(FreshMetadata(req, env.(now := saveTime)))),
                  req.config.responseSerializer, env.(now := loadTime))
  {
    var dp := DataPath(req, base, net, env);
    var mp := MetaPath(req, base, net, env);
    DataAndMetaPathsDiffer(req, base, net, env);
    var m := FreshMetadata(req, env.(now := saveTime));
    DecodeFixedEncodeFixed(m);
    var saved := SaveResponseData(req, dp, mp, store, false, Some(data), WithEncoding, env.(now := saveTime), true, true);
    assert saved[mp] == KeyedArchive(EncodeFixed(m));
    var meta := LoadCacheMetadata(saved, mp, vars, WithEncoding);
    assert meta == Step(true, vars.(meta := Some(m)));
    assert ValidateCache(Some(m), req.policy, env.appVersion, loadTime) == Returned(true);
  }

  /**
   * With the corrected pipeline, a response saved at `saveTime` is served
   * back, byte for byte, by a load within the cache time.
   */
  lemma SaveThenLoadFixed(req: CacheRequest, base: string, net: NetworkConfig.Config, store: Store, vars: CacheVars,
                          data: Bytes, env: Env, saveTime: int, loadTime: int)
    requires req.policy.cacheTime > 0 && 0 <= loadTime - saveTime <= req.policy.cacheTime
    requires req.config.responseSerializer != JsonResponseSerializer
    ensures
      var dp := DataPath(req, base, net, env);
      var mp := MetaPath(req, base, net, env);
      var saved := SaveResponseData(req, dp, mp, store, false, Some(data), WithEncoding, env.(now := saveTime), true, true);
      var l := LoadCacheFixed(req, dp, mp, saved, vars, WithEncoding, env.(now := loadTime));
      l.out == Returned(true) && l.vars.data == Some(data) &&
      l.vars.str == env.decodeString(data, req.encoding) && l.vars.meta == Some(FreshMetadata(req, env.(now := saveTime)))
  {
    SavedFixedReachesData(req, base, net, store, vars, data, env, saveTime, loadTime);
  }

  /**
   * The same round trip with the JSON serializer: the load succeeds
   * exactly when the saved bytes parse, and then serves the parsed value;
   * otherwise it throws `InvalidCacheData`.
   */
  lemma SaveThenLoadFixedJson(req: CacheRequest, base: string, net: NetworkConfig.Config, store: Store, vars: CacheVars,
                              data: Bytes, env: Env, saveTime: int, loadTime: int)
    requires req.policy.cacheTime > 0 && 0 <= loadTime - saveTime <= req.policy.cacheTime
    requires req.config.responseSerializer == JsonResponseSerializer
    ensures
      var dp := DataPath(req, base, net, env);
      var mp := MetaPath(req, base, net, env);
      var saved := SaveResponseData(req, dp, mp, store, false, Some(data), WithEncoding, env.(now := saveTime), true, true);
      var l := LoadCacheFixed(req, dp, mp, saved, vars, WithEncoding, env.(now := loadTime));
      && l.vars.data == Some(data)
      && (l.out == Returned(true) <==> env.parse(data).Some?)
      && (env.parse(data).Some? ==> l.vars.json == env.parse(data))
      && (env.parse(data).None? ==> l.out == Threw(InvalidCacheData))
  {
    SavedFixedReachesData(req, base, net, store, vars, data, env, saveTime, loadTime);
  }

  /** As written, a fresh cache saved by the library is never loaded: `loadCache()` returns false. */
  lemma SaveThenLoadAsWritten(req: CacheRequest, base: string, net: NetworkConfig.Config, store: Store, vars: CacheVars,
                              data: Bytes, env: Env, saveTime: int, loadTime: int)
    requires req.policy.cacheTime > 0 && 0 <= loadTime - saveTime <= req.policy.cacheTime
    ensures
      var dp := DataPath(req, base, net, env);
      var mp := MetaPath(req, base, net, env);
      var saved := SaveResponseData(req, dp, mp, store, false, Some(data), AsWritten, env.(now := saveTime), true, true);
      LoadCache(req, dp, mp, saved, vars, AsWritten, env.(now := loadTime)).out == Returned(false)
  {
    var dp := DataPath(req, base, net, env);
    var mp := MetaPath(req, base, net, env);
    DataAndMetaPathsDiffer(req, base, net, env);
    var m := FreshMetadata(req, env.(now := saveTime));
    DecodeEncode(m);
    var saved := SaveResponseData(req, dp, mp, store, false, Some(data), AsWritten, env.(now := saveTime), true, true);
    assert saved[mp] == KeyedArchive(Encode(m));
    assert LoadCacheMetadata(saved, mp, vars, AsWritten) == Step(true, vars.(meta := Some(m.(stringEncoding := None))));
  }

  /**
   * As written, an expired cache saved by the library crashes the load:
   * validation fails, the data is read, and the decoded metadata has no
   * string encoding to unwrap.
   */
  lemma ExpiredLoadAsWrittenTraps(req: CacheRequest, base: string, net: NetworkConfig.Config, store: Store, vars: CacheVars,
                                  data: Bytes, env: Env, saveTime: int, loadTime: int)
    requires req.policy.cacheTime > 0 && loadTime - saveTime > req.policy.cacheTime
    ensures
      var dp := DataPath(req, base, net, env);
      var mp := MetaPath(req, base, net, env);
      var saved := SaveResponseData(req, dp, mp, store, false, Some(data), AsWritten, env.(now := saveTime), true, true);
      LoadCache(req, dp, mp, saved, vars, AsWritten, env.(now := loadTime)).out == Trapped
  {
    var dp := DataPath(req, base, net, env);
    var mp := MetaPath(req, base, net, env);
    DataAndMetaPathsDiffer(req, base, net, env);
    var m := FreshMetadata(req, env.(now := saveTime));
    DecodeEncode(m);
    var saved := SaveResponseData(req, dp, mp, store, false, Some(data), AsWritten, env.(now := saveTime), true, true);
    assert saved[mp] == KeyedArchive(Encode(m));
    assert saved[dp] == Blob(data);
    var v := vars.(meta := Some(m.(stringEncoding := None)));
    assert LoadCacheMetadata(saved, mp, vars, AsWritten) == Step(true, v);
    assert LoadCacheData(saved, dp, v, req.config.responseSerializer, env.(now := loadTime)).StepTrap?;
  }

  /**
   * Even with the corrected `loadCache()`, the library's own coder makes
   * every load of a fresh cache crash on the missing string encoding.
   */
  lemma FreshLoadWithoutEncodingTraps(req: CacheRequest, base: string, net: NetworkConfig.Config, store: Store, vars: CacheVars,
                                      data: Bytes, env: Env, saveTime: int, loadTime: int)
    requires req.policy.cacheTime > 0 && 0 <= loadTime - saveTime <= req.policy.cacheTime
    ensures
      var dp := DataPath(req, base, net, env);
      var mp := MetaPath(req, base, net, env);
      var saved := SaveResponseData(req, dp, mp, store, false, Some(data), AsWritten, env.(now := saveTime), true, true);
      LoadCacheFixed(req, dp, mp, saved, vars, AsWritten, env.(now := loadTime)).out == Trapped
  {
    var dp := DataPath(req, base, net, env);
    var mp := MetaPath(req, base, net, env);
    DataAndMetaPathsDiffer(req, base, net, env);
    var m := FreshMetadata(req, env.(now := saveTime));
    DecodeEncode(m);
    var saved := SaveResponseData(req, dp, mp, store, false, Some(data), AsWritten, env.(now := saveTime), true, true);
    assert saved[mp] == KeyedArchive(Encode(m));
    assert saved[dp] == Blob(data);
    var v := vars.(meta := Some(m.(stringEncoding := None)));
    assert LoadCacheMetadata(saved, mp, vars, AsWritten) == Step(true, v);
    assert LoadCacheData(saved, dp, v, req.config.responseSerializer, env.(now := loadTime)).StepTrap?;
  }
}
