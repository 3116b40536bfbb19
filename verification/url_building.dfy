/**
 * The URL side of `LYNetworkAgent`: `buildRequestUrl` (which base URL a
 * request is resolved against, and the URL filter fold) and the method
 * switch of `sessionTaskForRequest`.
 *
 * Reference resolution (`URL(string:relativeTo:)`, section 5.2 of RFC
 * 3986) is an uninterpreted partial function `resolve(detail, base)`;
 * `None` stands for either force-unwrapped `URL` initializer failing.
 * Whether a string parses as a URL with host and scheme is the
 * uninterpreted predicate `isAbsolute`.
 */
module UrlBuilding {
  import opened Common
  import opened RequestConfig
  import NetworkConfig

  /** The base-URL choice of `buildRequestUrl`. */
  function ChooseBaseUrl(r: Configuration, c: NetworkConfig.Config): (base: string)
    // the CDN flag picks the family, a non-empty per-request value wins over the shared one
    ensures r.useCDN ==> base == r.cdnUrl || base == c.cdnUrl
    ensures !r.useCDN ==> base == r.baseUrl || base == c.baseUrl
    ensures r.useCDN ==> (base == r.cdnUrl <==> |r.cdnUrl| > 0 || r.cdnUrl == c.cdnUrl)
    ensures !r.useCDN ==> (base == r.baseUrl <==> |r.baseUrl| > 0 || r.baseUrl == c.baseUrl)
  {
    if r.useCDN then
      if |r.cdnUrl| > 0 then r.cdnUrl else c.cdnUrl
    else
      if |r.baseUrl| > 0 then r.baseUrl else c.baseUrl
  }

  /** An empty base URL is chosen only when neither the request nor the config names one. */
  lemma EmptyBaseOnlyWhenUnset(r: Configuration, c: NetworkConfig.Config)
    ensures |ChooseBaseUrl(r, c)| == 0 <==>
      (if r.useCDN then |r.cdnUrl| == 0 && |c.cdnUrl| == 0 else |r.baseUrl| == 0 && |c.baseUrl| == 0)
  {
  }

  predicate EndsWithSlash(s: string) {
    |s| > 0 && s[|s| - 1] == '/'
  }

  /** "URL slash compatibility": a non-empty base gets a trailing slash if it lacks one. */
  function WithTrailingSlash(base: string): (b: string)
    ensures |base| == 0 ==> b == base
    ensures |base| > 0 ==> EndsWithSlash(b)
    ensures |base| <= |b| <= |base| + 1 && b[..|base|] == base
  {
    if |base| > 0 && !EndsWithSlash(base) then base + "/" else base
  }

  datatype Built = Url(url: string) | UrlTrap

  /** `buildRequestUrl(_:)`. */
  function BuildRequestUrl(r: Configuration, c: NetworkConfig.Config,
                           isAbsolute: string -> bool,
                           apply: (NetworkConfig.UrlFilterId, string) -> string,
                           resolve: (string, string) -> Option<string>): (b: Built)
    // an absolute request URL is used verbatim: no filter, no base
    ensures isAbsolute(r.requestUrl) ==> b == Url(r.requestUrl)
    // otherwise the filtered path is resolved against the chosen base
    ensures !isAbsolute(r.requestUrl) ==>
      var detail := NetworkConfig.Fold(c.urlFilters, r.requestUrl, apply);
      var base := WithTrailingSlash(ChooseBaseUrl(r, c));
      (b.Url? <==> resolve(detail, base).Some?) && (b.Url? ==> b.url == resolve(detail, base).value)
  {
    if isAbsolute(r.requestUrl) then Url(r.requestUrl)
    else
      var detail := NetworkConfig.Fold(c.urlFilters, r.requestUrl, apply);
      var base := WithTrailingSlash(ChooseBaseUrl(r, c));
      match resolve(detail, base)
      case Some(u) => Url(u)
      case None => UrlTrap
  }

  /** The HTTP verbs the transport is asked for. */
  datatype Verb = Get | Post | Put | Delete | Patch

  /** The `switch` of `sessionTaskForRequest`: HEAD falls to `default` and gets no task. */
  function TaskVerb(m: Method): (v: Option<Verb>)
    ensures v.None? <==> m == HEAD
  {
    match m
    case GET => Some(Get)
    case POST => Some(Post)
    case PUT => Some(Put)
    case DELETE => Some(Delete)
    case PATCH => Some(Patch)
    case HEAD => None
  }

  /** A request that overrides nothing is resolved against the shared base URL with a GET task. */
  lemma DefaultRequestUsesSharedBase(c: NetworkConfig.Config)
    ensures ChooseBaseUrl(Defaults(), c) == c.baseUrl
    ensures TaskVerb(Defaults().httpMethod) == Some(Get)
  {
  }
}
