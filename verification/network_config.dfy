/**
 * `LYNetworkConfig`: the shared configuration and its two ordered filter
 * lists. A filter object's `filterUrl` / `filterCacheDirPath` method is
 * an uninterpreted function `apply(filter, string)`; the request a filter
 * also receives is fixed by the caller and folded into `apply`.
 */
module NetworkConfig {

  type UrlFilterId = nat
  type DirFilterId = nat

  datatype Config = Config(
    baseUrl: string,
    cdnUrl: string,
    debugLogEnabled: bool,
    urlFilters: seq<UrlFilterId>,
    cacheDirPathFilters: seq<DirFilterId>)

  /** The private initializer of the shared instance. */
  function NewConfig(): (c: Config)
    ensures c.baseUrl == "" && c.cdnUrl == "" && !c.debugLogEnabled
    ensures |c.urlFilters| == 0 && |c.cacheDirPathFilters| == 0
  {
    Config("", "", false, [], [])
  }

  /**
   * Running a filter list over a string the way `for f in filters { s =
   * f.filter(s) }` does: the first filter sees the original string, each
   * later one the previous filter's output.
   */
  function Fold<F>(filters: seq<F>, s: string, apply: (F, string) -> string): string
  {
    if |filters| == 0 then s else Fold(filters[1..], apply(filters[0], s), apply)
  }

  /** A filter appended to a list runs after all filters already in it. */
  lemma {:induction false} FoldAppend<F>(filters: seq<F>, f: F, s: string, apply: (F, string) -> string)
    ensures Fold(filters + [f], s, apply) == apply(f, Fold(filters, s, apply))
    decreases |filters|
  {
    if |filters| == 0 {
      assert filters + [f] == [f];
    } else {
      assert (filters + [f])[1..] == filters[1..] + [f];
      FoldAppend(filters[1..], f, apply(filters[0], s), apply);
    }
  }

  /** `addUrlFilter`. */
  function AddUrlFilter(c: Config, f: UrlFilterId): (c': Config)
    ensures |c'.urlFilters| == |c.urlFilters| + 1
    ensures c'.urlFilters[..|c.urlFilters|] == c.urlFilters && c'.urlFilters[|c.urlFilters|] == f
    ensures c'.(urlFilters := c.urlFilters) == c
  {
    c.(urlFilters := c.urlFilters + [f])
  }

  /** `clearUrlFilter`. */
  function ClearUrlFilter(c: Config): (c': Config)
    ensures |c'.urlFilters| == 0
    ensures c'.(urlFilters := c.urlFilters) == c
  {
    c.(urlFilters := [])
  }

  /** `addCacheDirPathFilter`. */
  function AddCacheDirPathFilter(c: Config, f: DirFilterId): (c': Config)
    ensures |c'.cacheDirPathFilters| == |c.cacheDirPathFilters| + 1
    ensures c'.cacheDirPathFilters[..|c.cacheDirPathFilters|] == c.cacheDirPathFilters
    ensures c'.cacheDirPathFilters[|c.cacheDirPathFilters|] == f
    ensures c'.(cacheDirPathFilters := c.cacheDirPathFilters) == c
  {
    c.(cacheDirPathFilters := c.cacheDirPathFilters + [f])
  }

  /** `clearCacheDirPathFilters`. */
  function ClearCacheDirPathFilters(c: Config): (c': Config)
    ensures |c'.cacheDirPathFilters| == 0
    ensures c'.(cacheDirPathFilters := c.cacheDirPathFilters) == c
  {
    c.(cacheDirPathFilters := [])
  }

  /** After `addUrlFilter(f)` every URL goes through the old filters and then through `f`. */
  lemma AddedUrlFilterRunsLast(c: Config, f: UrlFilterId, url: string, apply: (UrlFilterId, string) -> string)
    ensures Fold(AddUrlFilter(c, f).urlFilters, url, apply) == apply(f, Fold(c.urlFilters, url, apply))
  {
    FoldAppend(c.urlFilters, f, url, apply);
  }

  /** After `clearUrlFilter` URLs pass through unchanged, and cache paths are filtered as before. */
  lemma ClearedUrlFiltersAreIdentity(c: Config, url: string, dir: string,
                                     applyUrl: (UrlFilterId, string) -> string,
                                     applyDir: (DirFilterId, string) -> string)
    ensures Fold(ClearUrlFilter(c).urlFilters, url, applyUrl) == url
    ensures Fold(ClearUrlFilter(c).cacheDirPathFilters, dir, applyDir) == Fold(c.cacheDirPathFilters, dir, applyDir)
  {
  }

  /** After `addCacheDirPathFilter(f)` every cache path goes through the old filters and then through `f`. */
  lemma AddedDirFilterRunsLast(c: Config, f: DirFilterId, dir: string, apply: (DirFilterId, string) -> string)
    ensures Fold(AddCacheDirPathFilter(c, f).cacheDirPathFilters, dir, apply) == apply(f, Fold(c.cacheDirPathFilters, dir, apply))
  {
    FoldAppend(c.cacheDirPathFilters, f, dir, apply);
  }
}
