# LYNetwork in Dafny

A model of the bookkeeping core of LYNetwork, a Swift networking library
built on Alamofire.

- **Single requests.** The model covers a request's life: the base `start`/`stop` pair and the shared agent's record of running tasks. It also covers `cancelAllRequest` and the delivery of results to delegates, completion handlers and accessories.
- **Cache.** `LYRequest` adds a response cache: file naming, metadata archiving, `validateCache`, `loadCache`, saving and the cache-aware `start`.
- **Composite requests.** Batch requests (run all at once, fail fast) and chain requests (run one after another) are modelled, with their registries.
- **Utilities.** The model includes the user-facing error classifier, the JSON shape validator and the URL/cache-directory filter lists of the shared configuration.

How it is modelled:
- **Transitions.** Every operation is a pure function from a state record to a new state. It also returns the ordered trace of observable events it caused.
  - Observable events are delegate calls, completion-handler calls, accessory hooks, registrations, task and record changes, and members started or stopped.
- **Crashes.** Where the Swift code would crash, the model returns an explicit trap outcome. This covers a force unwrap of `nil`, an out-of-range subscript and a failed `as!` cast.
- **Dispatch queues.** Every hop onto the main or a background queue is treated as running next, in program order.
- **External inputs.** Whatever the library asks of Foundation or of user code becomes a parameter. This covers file contents, the clock, the app version, string decoding, JSON parsing, URL resolution, `isKind(of:)` and filter objects.

Modules, one per concern:

| module | file | models |
|---|---|---|
| `Common` | common.dfy | identities, `Option`, the event vocabulary, "before" on traces |
| `Accessories` | accessories.dfy | the accessory fan-outs and `addAccessory` |
| `Registries` | registries.dfy | `Array.remove`, the batch and chain agents |
| `RequestConfig` | request_config.dfy | enums, raw values, the configuration defaults |
| `NetworkConfig` | network_config.dfy | `LYNetworkConfig` and its filter lists |
| `UrlBuilding` | url_building.dfy | `buildRequestUrl`, the method switch of `sessionTaskForRequest` |
| `JsonValidator` | json_validator.dfy | `validateJSON` |
| `ErrorSummary` | error_summary.dfy | `summaryFrom`, `lyDescription` |
| `CacheMetadata` | cache_metadata.dfy | `LYCacheMetaData` and its coder |
| `CacheEngine` | cache_engine.dfy | cache paths, validation, loading, saving, response getters |
| `CachedRequest` | cached_request.dfy | `LYRequest.start()` and `requestCompletePreprocessor()` |
| `RequestLifecycle` | lifecycle.dfy | `LYBaseRequest` and `LYNetworkAgent` on a heap of requests |
| `Batch` | batch.dfy | `LYBatchRequest` |
| `Chain` | chain.dfy | `LYChainRequest` |

## Model

| member | source | states |
|---|---|---|
| Accessories.Fanout | LYNetwork/Source/LYNetworkPrivate.swift:41-64 | a nil accessory list produces no call; otherwise exactly one call per accessory, in array order, with the given hook and owner |
| Accessories.FanoutCallsEachOnce | LYNetwork/Source/LYNetworkPrivate.swift:42-48 | a fan-out holds only calls of its hook on its owner, and calls each accessory exactly as often as it occurs in the list |
| Accessories.FanoutAppend | LYNetwork/Source/LYNetworkPrivate.swift:42-48 | fanning out over two lists joined is fanning out over the first and then the second, so registration order is call order |
| Accessories.FanoutMembers | LYNetwork/Source/LYNetworkPrivate.swift:68-117 | the toggles of batch and chain requests, like those of base requests, produce accessory callbacks and nothing else |
| Accessories.AddAccessory | LYNetwork/Source/LYBatchRequest.swift:170-175 | a nil list becomes the one-element list; otherwise the accessory is appended at the end |
| Accessories.AddedAccessoryCalledLast | LYNetwork/Source/LYBatchRequest.swift:170-175 | after `addAccessory(a)` every toggle calls the earlier accessories as before and then `a`, last |
| Registries.FirstIndex | LYNetwork/Source/LYNetworkPrivate.swift:126 | `index(of:)` is the first position holding the element, and is past the end exactly when the element is absent |
| Registries.RemoveFirst | LYNetwork/Source/LYNetworkPrivate.swift:125-129 | removing an absent element leaves the array unchanged; removing a present one shortens it by one, taking out its first occurrence: elements before it stay in place and those after it move down by one |
| Registries.RemoveFirstKeepsOrder | LYNetwork/Source/LYNetworkPrivate.swift:125-129 | `remove` deletes one occurrence (multiset minus one), the first: no equal element precedes the gap, the prefix before it is kept and the rest follows unchanged; the other elements keep their relative order |
| Registries.RemoveAfterAppend | LYNetwork/Source/LYNetworkPrivate.swift:125-129 | appending an absent element and removing it restores the array |
| Registries.NewBatchAgent | LYNetwork/Source/LYBatchRequestAgent.swift:54-56 | the batch agent starts with an empty list |
| Registries.AddBatchRequest | LYNetwork/Source/LYBatchRequestAgent.swift:40-44 | the batch is appended at the end and the earlier entries are kept |
| Registries.RemoveBatchRequest | LYNetwork/Source/LYBatchRequestAgent.swift:47-51 | removing an absent batch is a no-op; otherwise exactly one entry equal to it is removed |
| Registries.BatchAddThenRemove | LYNetwork/Source/LYBatchRequestAgent.swift:40-51 | adding a batch that is not registered and removing it restores the agent |
| Registries.BatchRemoveKeepsOrder | LYNetwork/Source/LYBatchRequestAgent.swift:47-51 | removal keeps every other batch, in its relative order |
| Registries.NewChainAgent | LYNetwork/Source/LYChainRequestAgent.swift:35 | the chain agent starts with an empty list |
| Registries.AddChainRequest | LYNetwork/Source/LYChainRequestAgent.swift:40-44 | the chain is appended at the end and the earlier entries are kept |
| Registries.RemoveChainRequest | LYNetwork/Source/LYChainRequestAgent.swift:47-51 | removing an absent chain is a no-op; otherwise exactly one entry equal to it is removed |
| Registries.ChainAddThenRemove | LYNetwork/Source/LYChainRequestAgent.swift:40-51 | adding a chain that is not registered and removing it restores the agent |
| Registries.ChainRemoveKeepsOrder | LYNetwork/Source/LYChainRequestAgent.swift:47-51 | removal keeps every other chain, in its relative order |
| RequestConfig.MethodOrdinal | LYNetwork/Source/LYBaseRequest.swift:32-39 | the six methods are numbered below 6 |
| RequestConfig.MethodOrdinalInjective | LYNetwork/Source/LYBaseRequest.swift:32-39 | distinct methods have distinct numbers, so the number identifies the method |
| RequestConfig.PriorityFromRawValue | LYNetwork/Source/LYBaseRequest.swift:56-60 | `LYRequestPriority(rawValue:)` succeeds exactly for -4, 0 and 4 |
| RequestConfig.PriorityRawValueRoundTrip | LYNetwork/Source/LYBaseRequest.swift:56-60 | raw value and initializer are inverse, and the raw values order Low < Default < High |
| RequestConfig.ValidationErrorFromCode | LYNetwork/Source/LYBaseRequest.swift:26-29 | `LYRequestValidationErrorType(rawValue:)` succeeds exactly for -8 and -9 |
| RequestConfig.ValidationErrorCodeRoundTrip | LYNetwork/Source/LYBaseRequest.swift:26-29 | code and initializer are inverse |
| RequestConfig.DefaultStatusCodes | LYNetwork/Source/LYBaseRequest.swift:340-342 | the default validator accepts exactly the codes 200 through 299, in ascending order |
| RequestConfig.Defaults | LYNetwork/Source/LYBaseRequest.swift:321-346 | defaults: GET, HTTP serializers both ways, no CDN, cellular allowed, empty URLs, nil argument, 200..<300, no custom request |
| NetworkConfig.NewConfig | LYNetwork/Source/LYNetworkConfig.swift:74-81 | the shared config starts with empty URLs, logging off and both filter lists empty |
| NetworkConfig.AddUrlFilter | LYNetwork/Source/LYNetworkConfig.swift:85-87 | the filter is appended after the existing ones, and nothing else changes |
| NetworkConfig.ClearUrlFilter | LYNetwork/Source/LYNetworkConfig.swift:90-92 | the URL filters are emptied; the cache-path filters and all else are kept |
| NetworkConfig.AddCacheDirPathFilter | LYNetwork/Source/LYNetworkConfig.swift:95-97 | the filter is appended to the cache-path filters only |
| NetworkConfig.ClearCacheDirPathFilters | LYNetwork/Source/LYNetworkConfig.swift:100-102 | only the cache-path filters are emptied |
| NetworkConfig.FoldAppend | LYNetwork/Source/LYNetworkAgent.swift:132-134 | running a filter list with `f` appended is running the list, then `f` on its output |
| NetworkConfig.AddedUrlFilterRunsLast | LYNetwork/Source/LYNetworkAgent.swift:132-134 | after `addUrlFilter(f)` every URL goes through the old filters and then through `f` |
| NetworkConfig.ClearedUrlFiltersAreIdentity | LYNetwork/Source/LYNetworkConfig.swift:90-92 | after `clearUrlFilter` URLs pass through unchanged, and cache paths are filtered as before |
| NetworkConfig.AddedDirFilterRunsLast | LYNetwork/Source/LYNetworkConfig.swift:95-97 | after `addCacheDirPathFilter(f)` a cache path goes through the old filters and then `f` |
| UrlBuilding.ChooseBaseUrl | LYNetwork/Source/LYNetworkAgent.swift:136-152 | with CDN: the request's CDN URL when non-empty, else the config's; without: the request's base URL when non-empty, else the config's |
| UrlBuilding.EmptyBaseOnlyWhenUnset | LYNetwork/Source/LYNetworkAgent.swift:136-152 | the chosen base is empty exactly when neither the request nor the config supplies one for the chosen kind |
| UrlBuilding.WithTrailingSlash | LYNetwork/Source/LYNetworkAgent.swift:154-158 | a non-empty base ends with "/" afterwards, and is extended by at most that slash |
| UrlBuilding.BuildRequestUrl | LYNetwork/Source/LYNetworkAgent.swift:123-160 | an absolute request URL is returned unfiltered; otherwise the filtered path is resolved against the slash-terminated base, and a failed resolution is a crash |
| UrlBuilding.TaskVerb | LYNetwork/Source/LYNetworkAgent.swift:171-184 | every method but HEAD gets a task with its own verb; HEAD falls to `default` and gets none |
| UrlBuilding.DefaultRequestUsesSharedBase | LYNetwork/Source/LYNetworkAgent.swift:136-184 | a request that overrides nothing resolves against the shared base URL and gets a GET task |
| JsonValidator.FindKey | LYNetwork/Source/LYNetworkUtils.swift:35 | the dictionary lookup finds the key's entry, or reports that no entry has that key |
| JsonValidator.ValidateIffConforms | LYNetwork/Source/LYNetworkUtils.swift:28-69 | `validateJSON` returns true exactly for values that conform to the validator, by an independent recursive definition |
| JsonValidator.FieldsIffConform | LYNetwork/Source/LYNetworkUtils.swift:34-49 | the key loop succeeds exactly when every remaining validator key is satisfied; the first failure stops it |
| JsonValidator.ItemsIffConform | LYNetwork/Source/LYNetworkUtils.swift:56-61 | the item loop succeeds exactly when every remaining item conforms to the first validator element |
| JsonValidator.EmptyObjectValidatorAccepts | LYNetwork/Source/LYNetworkUtils.swift:29-50 | an object validator with no keys accepts every object |
| JsonValidator.ScalarOrMissingKeyRejects | LYNetwork/Source/LYNetworkUtils.swift:42-47 | a validator key whose value is missing, or is a scalar other than null, fails the whole object |
| JsonValidator.MismatchedShapesUseIsKind | LYNetwork/Source/LYNetworkUtils.swift:64-68 | when the shapes differ the answer is exactly the `isKind(of:)` test |
| ErrorSummary.LyDescription | LYNetwork/Source/LYNetworkPrivate.swift:183-263 | first case wins: -999…-1007 are silent although the later -1008..<(-999) range contains them; only -1008 gets the generic message from that range; -1009 gets the connectivity message; -1…109 get the generic message; other domains use the localized description |
| ErrorSummary.CodeSetsDisjoint | LYNetwork/Source/LYNetworkPrivate.swift:186-256 | the silent, retry and reinstall code sets are pairwise disjoint, and miss -1009 and -4000 |
| ErrorSummary.DescriptionByCodeSets | LYNetwork/Source/LYNetworkPrivate.swift:183-263 | for URL-domain errors the first-match switch agrees, in both directions, with an order-free description by code sets |
| ErrorSummary.SummaryFrom | LYNetwork/Source/LYNetworkPrivate.swift:146-159 | status 400-499 gives the client-error message, 500-599 the server-error message; any other status or no response defers to `lyDescription` |
| CacheMetadata.Encode | LYNetwork/Source/LYRequest.swift:422-427 | the archive holds `version` always, each optional field exactly when it is set, and no other key; the string encoding is not stored |
| CacheMetadata.Decode | LYNetwork/Source/LYRequest.swift:415-420 | a missing or non-integer `version` crashes; otherwise the four fields are read back and the string encoding is always nil |
| CacheMetadata.DecodeEncode | LYNetwork/Source/LYRequest.swift:415-427 | decoding an encoded record gives back every field except the string encoding |
| CacheMetadata.EncodingLostInRoundTrip | LYNetwork/Source/LYRequest.swift:405-427 | the round trip is the identity exactly for records without a string encoding |
| CacheMetadata.EncodeFixed | LYNetwork/Source/LYRequest.swift:422-427 | the corrected encoder adds the string encoding under its own key and is otherwise the library's encoder |
| CacheMetadata.DecodeFixed | LYNetwork/Source/LYRequest.swift:415-420 | the corrected decoder crashes exactly when the library's does, and reads the encoding back when it is stored |
| CacheMetadata.DecodeFixedEncodeFixed | LYNetwork/Source/LYRequest.swift:405-427 | with the fifth key every record round-trips |
| CacheEngine.DefaultPolicy | LYNetwork/Source/LYRequest.swift:110-129 | by default the cache time is negative (-1), the version 0, no sensitive data, asynchronous writing |
| CacheEngine.NewCacheRequest | LYNetwork/Source/LYRequest.swift:54 | a new request ignores the cache (`ignoreCache` is true) and has the default cache answers |
| CacheEngine.CacheBasePath | LYNetwork/Source/LYRequest.swift:344-358 | as written, the directory is the library directory plus the cache folder, whatever the filters return |
| CacheEngine.CacheBasePathFixed | LYNetwork/Source/LYRequest.swift:344-358 | corrected: each filter's output is fed to the next; no filters leaves the plain directory |
| CacheEngine.CacheBasePathDiscardsFilters | LYNetwork/Source/LYRequest.swift:349-354 | a filter that appends a component is ignored as written and changes the corrected path |
| CacheEngine.AddedDirFilterChangesCorrectedPath | LYNetwork/Source/LYRequest.swift:349-354 | on the corrected path, a filter added to the shared config runs after the earlier ones |
| CacheEngine.CacheFileName | LYNetwork/Source/LYRequest.swift:360-373 | the name has the fixed `Method:…Host:…Url:…Argument:` layout, with the method digit first and the argument text last |
| CacheEngine.CacheFileNameSeparatesMethods | LYNetwork/Source/LYRequest.swift:360-373 | requests with different methods never share a cache file |
| CacheEngine.NilArgumentIsEmpty | LYNetwork/Source/LYRequest.swift:366-370 | a nil argument names the same file as an argument that formats as the empty string |
| CacheEngine.DataAndMetaPathsDiffer | LYNetwork/Source/LYRequest.swift:376-388 | the metadata path is the data path plus `.metadata`, so the two files are distinct |
| CacheEngine.ValidateCache | LYNetwork/Source/LYRequest.swift:229-266 | nil metadata returns false; no creation date crashes; expiry is checked first and an age equal to the cache time is fresh; a version mismatch throws the sensitive-data error; exactly one nil sensitive string crashes; two different ones return false, and that is the only other `false`; a differing stored app version throws the version error exactly when every earlier check passed |
| CacheEngine.ValidateCacheTrueIffUsable | LYNetwork/Source/LYRequest.swift:229-266 | `validateCache` returns true exactly when every check passes, as an independent predicate states them |
| CacheEngine.NilAppVersionSkipsCheck | LYNetwork/Source/LYRequest.swift:258-264 | a stored app version of nil makes the answer independent of the current app version |
| CacheEngine.LoadCacheMetadata | LYNetwork/Source/LYRequest.swift:268-276 | no file returns false; an unreadable file returns false with the metadata cleared; bytes that are not an archive, or a crashing decode, crash; otherwise the answer is true and the decoded record is stored; only the metadata variable changes |
| CacheEngine.LoadCacheData | LYNetwork/Source/LYRequest.swift:278-306 | no file returns false; reading with nil metadata or nil encoding crashes, and a readable file with an encoding never crashes; otherwise the data and its decoded string are stored; a failed read keeps the previous data, and the JSON step then crashes exactly when there is none; with the JSON serializer the load succeeds exactly when the data parses, storing the parsed value; only a failed JSON parse returns false for an existing file |
| CacheEngine.LoadCache | LYNetwork/Source/LYRequest.swift:176-202 | as written: a negative cache time throws first, metadata that crashes crashes, missing metadata throws next; a usable cache returns false without reading the data; a failing validation is swallowed and the data load decides (true, `InvalidCacheData`, or a crash); a validation that crashes crashes the load |
| CacheEngine.LoadCacheFixed | LYNetwork/Source/LYRequest.swift:176-202 | corrected: the same first errors; a usable cache is loaded and the data load decides, with the stored bytes in the data variable; an unusable one returns false; a validation that crashes crashes the load |
| CacheEngine.FreshMetadata | LYNetwork/Source/LYRequest.swift:212-217 | saved metadata records the current version, sensitive string, encoding, time and app version |
| CacheEngine.SaveResponseData | LYNetwork/Source/LYRequest.swift:205-226 | nothing is written unless the cache time is positive, the data is not from the cache and there is data; then the data file is written, and the metadata only after it succeeds; no other file changes |
| CacheEngine.FromCacheNeverWrites | LYNetwork/Source/LYRequest.swift:206 | data taken from the cache is never written back |
| CacheEngine.Preferred | LYNetwork/Source/LYRequest.swift:57-94 | each response getter answers the cached value when there is one, else the network value |
| CacheEngine.ClearCacheVariables | LYNetwork/Source/LYRequest.swift:308-314 | all cached values and the metadata become nil and the from-cache flag false |
| CacheEngine.ClearedGettersUseNetwork | LYNetwork/Source/LYRequest.swift:57-94 | after clearing, every getter answers from the network response |
| CacheEngine.SavedFixedReachesData | LYNetwork/Source/LYRequest.swift:176-226 | corrected: a response saved and loaded within the cache time passes validation, so the load reads the saved bytes with the saved metadata in place |
| CacheEngine.SaveThenLoadFixedJson | LYNetwork/Source/LYRequest.swift:176-226 | corrected, JSON serializer: the saved bytes come back, and the load succeeds exactly when they parse, serving the parsed value; otherwise it throws `InvalidCacheData` |
| CacheEngine.SaveThenLoadFixed | LYNetwork/Source/LYRequest.swift:176-226 | corrected: a response saved and loaded within the cache time comes back byte for byte, with its string and metadata |
| CacheEngine.SaveThenLoadAsWritten | LYNetwork/Source/LYRequest.swift:188-191 | as written: loading a fresh cache the library saved returns false |
| CacheEngine.ExpiredLoadAsWrittenTraps | LYNetwork/Source/LYRequest.swift:284-286 | as written: loading an expired cache the library saved crashes on the missing string encoding |
| CacheEngine.FreshLoadWithoutEncodingTraps | LYNetwork/Source/LYRequest.swift:284-286 | with the corrected `loadCache` but the library's coder, loading a fresh cache crashes |
| CachedRequest.PreprocessAndSave | LYNetwork/Source/LYRequest.swift:391-401 | the preprocessor runs the base hook and then the save; from-cache data never changes the store, and any change passed the save gate |
| CachedRequest.StartWith | LYNetwork/Source/LYRequest.swift:143-173 | `ignoreCache` bypasses the cache; only a load returning true is a hit, and a thrown error counts as a miss; a miss clears the cache variables and starts over the network; a hit marks the data as from the cache |
| CachedRequest.Start | LYNetwork/Source/LYRequest.swift:143-173 | on the corrected pipeline, `ignoreCache` bypasses the cache, and a hit keeps the store and marks the data as cached |
| CachedRequest.StartAsWritten | LYNetwork/Source/LYRequest.swift:143-173 | the same, with the library's `loadCache` and coder |
| CachedRequest.HitTraceOrder | LYNetwork/Source/LYRequest.swift:163-172 | a hit runs preprocessor, filter, delegate, success handler, clear, in that order; each callback fires exactly when set; no accessory hook and no agent call |
| CachedRequest.HitTraceFrame | LYNetwork/Source/LYRequest.swift:163-172 | a hit opens with the preprocessor and the filter, closes with the clear, and touches neither accessories nor the agent |
| CachedRequest.HitTraceCallbacks | LYNetwork/Source/LYRequest.swift:166-171 | on a hit the delegate and the success handler are each called exactly when set, the delegate first |
| CachedRequest.HitServesCachedData | LYNetwork/Source/LYRequest.swift:57-68 | after a hit the data getter answers the loaded bytes |
| CachedRequest.FreshSavedResponseIsServed | LYNetwork/Source/LYRequest.swift:143-226 | corrected: a request that does not ignore the cache and finds a fresh saved response is served it from the cache |
| CachedRequest.FreshSavedResponseIsNotServedAsWritten | LYNetwork/Source/LYRequest.swift:188-191 | as written: the same request goes to the network |
| RequestLifecycle.CancelTask | LYNetwork/Source/LYNetworkAgent.swift:87 | cancelling a task that has not completed makes it canceling; its identity and response stay |
| RequestLifecycle.IsCancelled | LYNetwork/Source/LYBaseRequest.swift:241-248 | false without a task, otherwise true exactly when the task is canceling |
| RequestLifecycle.IsExecuting | LYNetwork/Source/LYBaseRequest.swift:251-258 | false without a task, otherwise true exactly when the task is running |
| RequestLifecycle.NotCancelledAndExecuting | LYNetwork/Source/LYBaseRequest.swift:241-258 | a request is never both cancelled and executing |
| RequestLifecycle.ClearCompletionHandler | LYNetwork/Source/LYBaseRequest.swift:314-317 | both handlers become nil and nothing else changes |
| RequestLifecycle.ClearCompletionHandlerKeepsDelegate | LYNetwork/Source/LYBaseRequest.swift:314-317 | clearing keeps the delegate and is idempotent |
| RequestLifecycle.AddRequestToRecord | LYNetwork/Source/LYNetworkAgent.swift:111-115 | crashes without a task; otherwise the task id maps to the request, replacing any entry for it, and other entries stay |
| RequestLifecycle.RemoveRequestFromRecord | LYNetwork/Source/LYNetworkAgent.swift:117-121 | crashes without a task; otherwise exactly the task id's entry is removed |
| RequestLifecycle.RecordAddThenRemove | LYNetwork/Source/LYNetworkAgent.swift:111-121 | recording a request under a new id and removing it restores the agent |
| RequestLifecycle.CreateTask | LYNetwork/Source/LYNetworkAgent.swift:57-65 | a custom URL request always gets a task; otherwise there is no task exactly for HEAD with a buildable URL |
| RequestLifecycle.AgentAddRequest | LYNetwork/Source/LYNetworkAgent.swift:57-84 | on success the request is recorded under its new task, which is resumed; a custom request always succeeds; a plain HEAD request crashes |
| RequestLifecycle.Start | LYNetwork/Source/LYBaseRequest.swift:293-296 | the will-start hooks run and then the agent records and resumes the task; the request is then executing and not cancelled |
| RequestLifecycle.StartHooksBeforeAgent | LYNetwork/Source/LYBaseRequest.swift:293-296 | every will-start hook runs before the agent records the request |
| RequestLifecycle.StartKeepsConsistent | LYNetwork/Source/LYBaseRequest.swift:293-296 | starting a request with a fresh task id keeps every record key equal to its request's task id |
| RequestLifecycle.StartWithCompletionHandler | LYNetwork/Source/LYBaseRequest.swift:307-311 | both handlers are installed, then `start` runs with the same outcome and events |
| RequestLifecycle.CancelRequest | LYNetwork/Source/LYNetworkAgent.swift:86-91 | the task is cancelled, its record entry removed, both handlers cleared; crashes without a task |
| RequestLifecycle.Stop | LYNetwork/Source/LYBaseRequest.swift:299-304 | the delegate and handlers are cleared, the task cancelled, the record entry removed, and nothing else changes |
| RequestLifecycle.StopOrder | LYNetwork/Source/LYBaseRequest.swift:299-304 | order: every will-stop hook, delegate cleared, task cancelled, record removed, handlers cleared, every did-stop hook |
| RequestLifecycle.StopCancels | LYNetwork/Source/LYBaseRequest.swift:299-304 | stopping an executing request leaves it cancelled and no longer executing |
| RequestLifecycle.StopKeepsConsistent | LYNetwork/Source/LYBaseRequest.swift:299-304 | stopping keeps the record consistent |
| RequestLifecycle.CancelStep | LYNetwork/Source/LYNetworkAgent.swift:100-107 | one visit of a key still recorded stops its request and removes exactly that key |
| RequestLifecycle.CancelAllRequests | LYNetwork/Source/LYNetworkAgent.swift:93-109 | keys an earlier stop removed are skipped; on a consistent record every request is stopped at most once and has its callbacks cleared; with a full snapshot every recorded request is stopped and the record is emptied |
| RequestLifecycle.RequestDidSucceed | LYNetwork/Source/LYNetworkAgent.swift:263-279 | success changes no state and delivers no failure callback |
| RequestLifecycle.RequestDidFailed | LYNetwork/Source/LYNetworkAgent.swift:281-301 | the error is stored before anything runs; the log line's status code crashes without an HTTP response; no success callback is delivered |
| RequestLifecycle.DeliveryOrder | LYNetwork/Source/LYNetworkAgent.swift:263-301 | preprocessor, every will-stop hook, filter, delegate (exactly when set), handler (exactly when set), every did-stop hook |
| RequestLifecycle.DeliveryCallbacks | LYNetwork/Source/LYNetworkAgent.swift:263-301 | a success delivery holds no failure callback and a failure delivery no success callback |
| RequestLifecycle.HandleRequestResult | LYNetwork/Source/LYNetworkAgent.swift:243-250 | exactly one delivery runs in full, the success one without an error and the failure one with it (storing the error); then the record entry is removed and the handlers cleared, last; the delegate is kept |
| RequestLifecycle.HandleRequestResultKeepsConsistent | LYNetwork/Source/LYNetworkAgent.swift:243-250 | delivering a result keeps the record consistent |
| RequestLifecycle.StartCached | LYNetwork/Source/LYRequest.swift:143-173 | `start()` with the library's `loadCache` and coder: with `ignoreCache` it is the base start; a cache hit leaves the agent's record alone, fires no hook and only clears the handlers |
| RequestLifecycle.StartCachedFrom | LYNetwork/Source/LYRequest.swift:156-172 | a miss is exactly the base start (`startWithoutCache`); a hit never crashes, keeps the record and clears only the handlers |
| RequestLifecycle.StartCachedFixed | LYNetwork/Source/LYRequest.swift:143-173 | the same guarantees for `start()` on the corrected cache pipeline |
| RequestLifecycle.FreshSaveStartsOverNetworkAsWritten | LYNetwork/Source/LYRequest.swift:188-191 | as written: a request with a fresh saved response starts exactly as the base start does, through the agent |
| RequestLifecycle.FreshSaveServedFromCacheFixed | LYNetwork/Source/LYRequest.swift:143-226 | corrected: the same request is served from the cache, leaving the agent's record alone and creating no task |
| Batch.NewBatch | LYNetwork/Source/LYBatchRequest.swift:48-56 | a new batch has no members, no delegate, handlers or accessories, a zero count and no failed request |
| Batch.SetRequests | LYNetwork/Source/LYBatchRequest.swift:59-61 | the method named `init` replaces the member list and nothing else |
| Batch.SetCompletionHandler | LYNetwork/Source/LYBatchRequest.swift:68-71 | both handlers are set and nothing else changes |
| Batch.ClearCompletionHandler | LYNetwork/Source/LYBatchRequest.swift:73-77 | both handlers become nil and nothing else changes |
| Batch.ClearUndoesSet | LYNetwork/Source/LYBatchRequest.swift:68-77 | setting and then clearing the handlers is clearing them |
| Batch.MemberStarts | LYNetwork/Source/LYBatchRequest.swift:87-91 | three events per member; every member is redirected to the batch and started, and only members are started |
| Batch.MemberStartsOrder | LYNetwork/Source/LYBatchRequest.swift:87-91 | the i-th member is redirected, cleared and started in that order, in the i-th slot, so members start in list order |
| Batch.MemberStops | LYNetwork/Source/LYBatchRequest.swift:121-123 | every member is stopped once, in list order |
| Batch.Start | LYNetwork/Source/LYBatchRequest.swift:79-93 | after any finish it does nothing; otherwise it resets the failed request, registers first and starts every member |
| Batch.StartHooksFirst | LYNetwork/Source/LYBatchRequest.swift:84-86 | `start()` registers first, then runs every willStart hook, and no member starts before the last hook |
| Batch.StartMembersInOrder | LYNetwork/Source/LYBatchRequest.swift:87-91 | after the hooks, member i is redirected to the batch, cleared and started at its own position, in list order |
| Batch.StartWithCompletionHandler | LYNetwork/Source/LYBatchRequest.swift:103-106 | the handlers are installed whether or not the start is refused |
| Batch.Stop | LYNetwork/Source/LYBatchRequest.swift:95-101 | the delegate and handlers are cleared, every member stopped, and the batch deregisters last |
| Batch.StopOrder | LYNetwork/Source/LYBatchRequest.swift:95-101 | the full order of `stop()`: the willStop hooks, the members stopped in list order, the handlers cleared, the didStop hooks, the deregistration |
| Batch.StopMemberAt | LYNetwork/Source/LYBatchRequest.swift:120-123 | member i is stopped at position k + i, right after the k willStop hooks |
| Batch.IsDataFromCache | LYNetwork/Source/LYBatchRequest.swift:108-117 | true exactly when every member reports cached data, so true for no members |
| Batch.RequestFinished | LYNetwork/Source/LYBatchRequest.swift:128-143 | the count grows by exactly one; the batch reports (and clears its handlers) only when the count reaches the member count |
| Batch.RequestFailed | LYNetwork/Source/LYBatchRequest.swift:146-166 | the failed member is recorded when it is an `LYRequest` and nil otherwise (`as? LYRequest`), and the handlers are cleared; nothing else changes |
| Batch.ReportCounts | LYNetwork/Source/LYBatchRequest.swift:128-166 | a report deregisters once and calls the delegate and the handler of its outcome once each, exactly when set, and never those of the other outcome |
| Batch.FailureStopsMembersFirst | LYNetwork/Source/LYBatchRequest.swift:146-160 | every member is stopped before the delegate or the failure handler hears of the failure |
| Batch.FailureReportOrder | LYNetwork/Source/LYBatchRequest.swift:146-166 | on failure the delegate comes before the failure handler, the handler before the clear, and deregistration is last |
| Batch.ReportOrder | LYNetwork/Source/LYBatchRequest.swift:128-166 | the full order of a report of either kind: willStop hooks, the member stops (on failure), the delegate call, the handler call, the handlers cleared, didStop hooks, the deregistration |
| Batch.SuccessReportOrder | LYNetwork/Source/LYBatchRequest.swift:131-142 | on completion the delegate comes before the success handler, the handler before the clear, and deregistration is last |
| Batch.DelegateBeforeHandler | LYNetwork/Source/LYBatchRequest.swift:132-138 | on completion or failure the delegate hears of it before the handler of that kind runs |
| Batch.HandlerBeforeClear | LYNetwork/Source/LYBatchRequest.swift:136-140 | on completion or failure the handler of that kind runs before the handlers are cleared |
| Batch.CompletesExactlyOnce | LYNetwork/Source/LYBatchRequest.swift:128-143 | over any number of successes the batch completes once, on the delivery that reaches the member count; later deliveries produce nothing |
| Batch.StartAfterFinishIsNoOp | LYNetwork/Source/LYBatchRequest.swift:80-83 | once a success has been counted, `start` does nothing |
| Batch.StartRegisters | LYNetwork/Source/LYBatchRequest.swift:79-93 | `start` registers the batch once and touches no other registration |
| Batch.StopDeregisters | LYNetwork/Source/LYBatchRequest.swift:95-101 | `stop` deregisters the batch once and touches no other registration |
| Batch.StartThenStopRestoresRegistry | LYNetwork/Source/LYBatchRequest.swift:79-101 | starting and then stopping a batch leaves the batch agent as it was |
| Chain.NewChain | LYNetwork/Source/LYChainRequest.swift:99-106 | a new chain has no members, parallel lists and the cursor at 0 |
| Chain.AddRequest | LYNetwork/Source/LYChainRequest.swift:89-96 | the member and its closure are appended to both lists; a nil closure is stored as the empty closure |
| Chain.AddRequestKeepsShape | LYNetwork/Source/LYChainRequest.swift:89-96 | appending keeps the lists parallel and the cursor in range, and does not move the cursor |
| Chain.AddAll | LYNetwork/Source/LYChainRequest.swift:89-96 | appending several members adds them at the end, in order, and keeps the lists parallel |
| Chain.StartNextRequest | LYNetwork/Source/LYChainRequest.swift:109-120 | below the end: redirects, clears and starts exactly the member at the cursor, moves the cursor by one and returns true; at the end: returns false and changes nothing |
| Chain.StartNextKeepsShape | LYNetwork/Source/LYChainRequest.swift:109-120 | advancing keeps the lists parallel and the cursor in range |
| Chain.Start | LYNetwork/Source/LYChainRequest.swift:64-77 | as written, a chain whose cursor is 0 (one that never ran) is left alone, as is a chain with no members |
| Chain.StartAsWrittenAfterCursorMoved | LYNetwork/Source/LYChainRequest.swift:70-73 | as written, once the cursor has moved: willStart hooks, at most the member at the cursor started, chain registered last |
| Chain.StartIntended | LYNetwork/Source/LYChainRequest.swift:64-77 | corrected: refuses once the cursor has moved; a fresh non-empty chain moves its cursor to 1 |
| Chain.StartIntendedEffect | LYNetwork/Source/LYChainRequest.swift:70-73 | corrected start: willStart hooks first, then exactly the first member started, then the chain registered |
| Chain.StartIntendedOnce | LYNetwork/Source/LYChainRequest.swift:64-68 | corrected start runs the first member once, and a second start is refused |
| Chain.BuiltChainNeverStartsAsWritten | LYNetwork/Source/LYChainRequest.swift:64-68 | as written, a chain built by `init` and `addRequest` produces nothing however often it is started |
| Chain.ClearRequest | LYNetwork/Source/LYChainRequest.swift:122-130 | crashes exactly when the cursor is 0; otherwise stops the member before the cursor when it exists and empties both lists, leaving the cursor |
| Chain.ClearRequestFixed | LYNetwork/Source/LYChainRequest.swift:122-130 | corrected: never crashes; stops the member before the cursor when there is one and empties both lists |
| Chain.StopWith | LYNetwork/Source/LYChainRequest.swift:81-86 | stop crashes exactly when clearing does; otherwise the lists are empty, the chain deregisters and no member starts |
| Chain.StopWithOrder | LYNetwork/Source/LYChainRequest.swift:81-86 | the full order of `stop()`: the willStop hooks, then exactly what `clearRequest()` did, then the deregistration, then the didStop hooks |
| Chain.StopMembers | LYNetwork/Source/LYChainRequest.swift:81-86 | the members `stop()` stops are exactly those `clearRequest()` stopped |
| Chain.Stop | LYNetwork/Source/LYChainRequest.swift:81-86 | as written, crashes exactly when the cursor is 0; otherwise empties the lists, deregisters and starts nothing; the member before the cursor is stopped, and none when the cursor is past the end |
| Chain.StopFixed | LYNetwork/Source/LYChainRequest.swift:81-86 | corrected: always empties the lists, deregisters and starts nothing; the member before the cursor is stopped when it exists, and none otherwise |
| Chain.StopBeforeStartTraps | LYNetwork/Source/LYChainRequest.swift:122-127 | as written, stopping a chain that never ran crashes; the corrected stop deregisters and stops no member |
| Chain.RequestFinished | LYNetwork/Source/LYChainRequest.swift:133-146 | crashes exactly when there is no closure before the cursor |
| Chain.RequestFinishedShape | LYNetwork/Source/LYChainRequest.swift:133-146 | the lists only grow at the end; with a member left it starts exactly the member at the cursor and advances by one, otherwise it starts nothing |
| Chain.RequestFinishedState | LYNetwork/Source/LYChainRequest.swift:133-146 | a delivery never crashes on a started chain, keeps the lists parallel and growing at the end, and moves the cursor one step exactly when a member is left |
| Chain.RequestFinishedNotifies | LYNetwork/Source/LYChainRequest.swift:138-145 | the delegate hears of completion, and the chain deregisters, exactly when no member is left and there is a delegate |
| Chain.RequestFinishedCallsClosure | LYNetwork/Source/LYChainRequest.swift:134-136 | the closure of the finished member is called, and no other closure |
| Chain.RequestFailed | LYNetwork/Source/LYChainRequest.swift:148-155 | a failure leaves the chain state, and its cursor, unchanged |
| Chain.RequestFailedNotifies | LYNetwork/Source/LYChainRequest.swift:148-155 | a failure starts no member; the delegate hears of it, and the chain deregisters, exactly when there is a delegate |
| Chain.RunStartsInListOrder | LYNetwork/Source/LYChainRequest.swift:109-146 | with the corrected start, any run of completions never crashes, and the members started are exactly those before the cursor, in list order, including members that closures append |

## Left out

- The Alamofire transport is not modelled: `SessionManager`, the response handlers of `createDataTask`, the request adapter and header wiring. A transport result enters only as the optional error given to `RequestLifecycle.HandleRequestResult`.
- `validateResult` is not modelled. Nothing in the modelled code calls it; `JsonValidator` models the validator it would use.
- Timeouts, header dictionaries and cellular access are not modelled. They are passed to the transport and never read back.
- Dispatch queues and the mutex are not modelled. Each asynchronous block runs next, in program order, and each critical section is atomic.
  - So `RequestLifecycle.HandleRequestResult` runs the delivery and then the record removal back to back.
  - A concurrent `cancelAllRequest` interleaving is not modelled.
- The file system and `NSKeyedArchiver` are reduced to a map from path to file. Directory creation (`createDirectoryIfNeeded`, `createBaseDirectory`) and the do-not-backup attribute are left out.
  - A failed data write and a failed archive are Boolean inputs of `CacheEngine.SaveResponseData`.
- Time is integer seconds, not `Date`/`Double`.
- `appendingPathComponent` is plain joining with "/", without Foundation's path normalisation.
- URL reference resolution (section 5.2 of RFC 3986) and the "has host and scheme" test are uninterpreted parameters of `UrlBuilding.BuildRequestUrl`.
- The MD5 helpers, `appVersionString`, `stringEncodingWithRequest`, `String(data:encoding:)`, `JSONSerialization` and the `%@` formatting of an argument dictionary are parameters. Their Foundation implementations are not part of this model.
- The mapping of `LYRequestPriority` to `URLSessionTask` priority constants is left out. It only sets Foundation's floating-point priority field.
- The debug logger is left out because it has no effect on state.
- The demo app is left out.
- `LYBatchRequest`'s `deinit` is not modelled: deallocation is outside a value model. Its body is the `clearRequest` that `Batch.Stop` covers.
- Object identity (`ObjectIdentifier` equality of batches and chains, and request identity) is modelled as equality of numeric ids.
- The `tag` and `userInfo` properties are never read by the library and are left out.
- `cacheFileNameFilterForRequestArgument` is taken as an input: the filtered argument of a `CacheEngine.CacheRequest`. Its default, the identity (`RequestConfig.DefaultArgumentFilter`), has no contract of its own.
- `RequestLifecycle.CancelAllRequests`: Swift does not specify the key order of a dictionary snapshot, so the order is a parameter. The exhaustive-stop guarantee is stated for snapshots that enumerate every key.
- Chain closures are not executed. A closure receives the chain itself (`LYChainCompletionHandler`, LYNetwork/Source/LYChainRequest.swift:36, called with `self` at line 136). What it does to the chain is modelled only as the members it appends (`Chain.AddAll`). A closure that re-enters `stop()` or `start()`, or sets `delegate` or `requestAccessories`, changes what `startNextRequest` and the notification then see. That re-entrance is not modelled.
- `JsonValidator`: dictionaries are field lists and validator keys are visited in list order. Swift leaves a dictionary's key order unspecified.
- CacheMetadata.Decode: assumes that `decodeObject(forKey: "version")` gives back the integer that `encode(_:forKey:)` stored. If Foundation stores an `Int` as a primitive that `decodeObject` does not return, the forced `as! Int` would crash on every load. Foundation's archive format is not part of this model.
- CacheEngine.LoadCacheData: a keyed archive found at the data path is treated like an unreadable file, because the archive's bytes are not modelled.
- `RequestLifecycle.RequestDidFailed`: the crash on a missing HTTP response in the log line is modelled, and it is unconditional in the source as well. The message is an ordinary argument of `lyDebugPrintLog`, not an `@autoclosure`, so the interpolation and its `responseStatusCode` unwrap run before the `#if DEBUG` check, in every build.
- CacheEngine.ValidateCache: the sensitive-data string and the app version are compared as sequences of code points. Swift's `String` `!=` compares by canonical equivalence, so "e\u{301}" and "\u{e9}" are equal in the source and different in the model. The `characters.count` comparison in front of each `!=` counts grapheme clusters, which canonically equivalent strings share, so it decides nothing that `!=` does not. Unicode normalisation is not part of this model.

## Findings

| source | as written | input that shows it | evidently intended | confidence | as-written member | corrected member |
|---|---|---|---|---|---|---|
| LYNetwork/Source/LYRequest.swift:188-200 | `loadCache` returns false when `validateCache` succeeds, and goes on to load the data when validation fails or throws | a response saved with cache time 180 and loaded 10 s later: `loadCache` returns false and the request goes to the network | load and return true only for a cache that validates | not executed | CachedRequest.FreshSavedResponseIsNotServedAsWritten | CachedRequest.FreshSavedResponseIsServed |
| LYNetwork/Source/LYChainRequest.swift:65 | `start` returns early when `nextRequestIndex == 0`, which is the state `init` leaves | a chain with one member, started: nothing happens, however often `start` is called | refuse only once the chain has started (its log message says "already started") | not executed | Chain.BuiltChainNeverStartsAsWritten | Chain.StartIntendedOnce |
| LYNetwork/Source/LYRequest.swift:349-354 | each cache-directory filter's result is discarded (`_ = f.filterCacheDirPath(…)`) | a filter appending "/user": the cache directory stays the unfiltered one | feed each filter's output to the next and use the last | not executed | CacheEngine.CacheBasePathDiscardsFilters | CacheEngine.AddedDirFilterChangesCorrectedPath |
| LYNetwork/Source/LYRequest.swift:415-427 | `stringEncoding` is neither encoded nor decoded, yet `loadCacheData` force-unwraps it (line 286) | any saved response loaded past its cache time (so that `loadCache` reaches `loadCacheData`): the load crashes | archive the encoding under its own key and read it back | not executed | CacheEngine.ExpiredLoadAsWrittenTraps | CacheMetadata.DecodeFixedEncodeFixed |
| LYNetwork/Source/LYChainRequest.swift:122-130 | `clearRequest` checks only the upper bound of `nextRequestIndex - 1` | `stop()` on a chain that has not run (cursor 0): the subscript is -1 and crashes | stop the current member only when the index is within bounds | not executed | Chain.StopBeforeStartTraps | Chain.StopFixed |
