/** The cache store and the fetch client of final_project.py: the request
    fingerprint `construct_unique_key`, the cache file that `open_cache` and
    `save_cache` read and rewrite whole, and the cache-first `get_data`. The
    network (`requests.get` followed by `json.loads`) is a function parameter. */
module Fetch {
  import opened Wrappers
  import opened Text
  import opened Sorting
  import opened PyDict
  import opened Json

  /** A request parameter value: the code passes ints (`limit=10`) and strings
      (the search text, the API key). */
  datatype Scalar = SInt(i: int) | SStr(s: string)

  /** What `requests.get` or `json.loads` raise. */
  datatype FetchError = NetworkError(reason: string) | ParseError(reason: string)

  const Connector: string := "_"
  const BaseUrl: string := "http://api.opendota.com/api/"
  const ApiKeyParam: string := "api_key"

  /** `str(v)`, which an f-string applies to a parameter value. */
  function Str(v: Scalar): string {
    match v
    case SInt(i) => IntToDecimal(i)
    case SStr(s) => s
  }

  /** `f'{k}_{params[k]}'`. */
  function ParamString(p: (string, Scalar)): string {
    p.0 + Connector + Str(p.1)
  }

  /** The list of `f'{k}_{params[k]}'` strings, one per parameter in dict order. */
  function ParamStrings(params: Dict<string, Scalar>): seq<string> {
    seq(|params|, i requires 0 <= i < |params| => ParamString(params[i]))
  }

  /** The fingerprint of a request: the category, the connector, and the
      sorted parameter strings joined by the connector. */
  function CacheKey(category: string, params: Dict<string, Scalar>): string {
    category + Connector + Join(Connector, Sort(ParamStrings(params), StrLe))
  }

  /** `construct_unique_key(category, params)`. */
  method UniqueKey(category: string, params: Dict<string, Scalar>) returns (key: string)
    ensures key == CacheKey(category, params)
    ensures |params| == 0 ==> key == category + Connector
    ensures |params| == 1 ==> key == category + Connector + params[0].0 + Connector + Str(params[0].1)
  {
    var paramStrings: seq<string> := [];
    for i := 0 to |params|
      invariant paramStrings == ParamStrings(params[..i])
    {
      paramStrings := paramStrings + [params[i].0 + Connector + Str(params[i].1)];
    }
    assert params[..|params|] == params;
    paramStrings := Sort(paramStrings, StrLe);
    key := category + Connector + Join(Connector, paramStrings);
  }

  /** Python's `<=` on strs is a linear order. */
  lemma StrLeIsLinear()
    ensures Total(StrLe) && Transitive(StrLe) && Antisymmetric(StrLe)
  {
    forall a, b ensures StrLe(a, b) || StrLe(b, a) {
      StrLeTotal(a, b);
    }
    forall a, b, c | StrLe(a, b) && StrLe(b, c) ensures StrLe(a, c) {
      StrLeTransitive(a, b, c);
    }
    forall a, b | StrLe(a, b) && StrLe(b, a) ensures a == b {
      StrLeAntisymmetric(a, b);
    }
  }

  lemma ParamStringsConcat(a: Dict<string, Scalar>, b: Dict<string, Scalar>)
    ensures ParamStrings(a + b) == ParamStrings(a) + ParamStrings(b)
  {
  }

  /** Reordering the parameters reorders their strings. */
  lemma {:induction false} ParamStringsPermute(p: Dict<string, Scalar>, q: Dict<string, Scalar>)
    requires multiset(p) == multiset(q)
    ensures multiset(ParamStrings(p)) == multiset(ParamStrings(q))
    decreases |p|
  {
    if |p| == 0 {
      assert |multiset(q)| == 0;
    } else {
      var x := p[0];
      assert x in multiset(q);
      var j :| 0 <= j < |q| && q[j] == x;
      var rest := q[..j] + q[j + 1..];
      assert q == q[..j] + [x] + q[j + 1..];
      assert p == [x] + p[1..];
      assert multiset(p[1..]) == multiset(p) - multiset{x};
      assert multiset(rest) == multiset(q) - multiset{x};
      ParamStringsPermute(p[1..], rest);
      ParamStringsConcat([x], p[1..]);
      ParamStringsConcat(q[..j] + [x], q[j + 1..]);
      ParamStringsConcat(q[..j], [x]);
      ParamStringsConcat(q[..j], q[j + 1..]);
    }
  }

  /** The fingerprint does not depend on the order in which the parameters
      were inserted into the dict. */
  lemma CacheKeyIgnoresOrder(category: string, p: Dict<string, Scalar>, q: Dict<string, Scalar>)
    requires multiset(p) == multiset(q)
    ensures CacheKey(category, p) == CacheKey(category, q)
  {
    StrLeIsLinear();
    ParamStringsPermute(p, q);
    SortDeterminedByMultiset(ParamStrings(p), ParamStrings(q), StrLe);
  }

  /** Two requests of one category whose single parameters render to the
      same strings collide although their keys differ: the fingerprint is not
      injective, unlike what its documentation claims. */
  lemma CacheKeyCollides()
    ensures CacheKey("search", [("a_b", SStr("c"))]) == CacheKey("search", [("a", SStr("b_c"))])
  {
    assert ParamStrings([("a_b", SStr("c"))])[0] == "a_b_c";
    assert ParamStrings([("a", SStr("b_c"))])[0] == "a_b_c";
  }

  // ---------------------------------------------------------------------
  // The cache file and get_data
  // ---------------------------------------------------------------------

  /** The cache file `cache.json`: one JSON object from fingerprints to
      cached responses, read whole by `open_cache` and written whole by
      `save_cache`. */
  class CacheFile {
    var entries: map<string, Json>

    /** `open_cache()`: the stored object, or an empty cache when the file
        is missing or does not hold valid JSON (`stored` is `None`). */
    constructor Open(stored: Option<map<string, Json>>)
      ensures entries == if stored.Some? then stored.value else map[]
    {
      entries := if stored.Some? then stored.value else map[];
    }
  }

  /** A caller's `params` dict, which `get_data` changes in place. */
  class ParamDict {
    var items: Dict<string, Scalar>

    constructor (items: Dict<string, Scalar>)
      ensures this.items == items
    {
      this.items := items;
    }
  }

  /** `get_data(category, params)`. The fingerprint is taken from the params
      as the caller passed them; on a hit the cached payload is returned and
      nothing changes. On a miss the API key is assigned into the caller's
      dict, the network is asked once, and a parsed payload is written
      through to the cache under the fingerprint taken before. `fetched`
      tells which of the two log lines is printed. */
  method GetData(cache: CacheFile, category: string, params: ParamDict, apiKey: string,
                 net: (string, Dict<string, Scalar>) -> Result<Json, FetchError>)
    returns (r: Result<Json, FetchError>, fetched: bool)
    modifies cache, params
    ensures var key := CacheKey(category, old(params.items));
      if key in old(cache.entries) then
        && r == Success(old(cache.entries)[key]) && !fetched
        && cache.entries == old(cache.entries) && params.items == old(params.items)
      else
        && fetched
        && params.items == Put(old(params.items), ApiKeyParam, SStr(apiKey))
        && r == net(BaseUrl + category, params.items)
        && cache.entries == (if r.Success? then old(cache.entries)[key := r.value] else old(cache.entries))
  {
    var key := UniqueKey(category, params.items);
    if key in cache.entries {
      return Success(cache.entries[key]), false;
    }
    fetched := true;
    params.items := Put(params.items, ApiKeyParam, SStr(apiKey));
    r := net(BaseUrl + category, params.items);
    if r.Success? {
      cache.entries := cache.entries[key := r.value];
    }
  }

  /** Two `get_data` calls, each with a dict literal of the same parameters as
      the call sites write them: once the first has cached a payload, the
      second serves it without going to the network. */
  method FetchTwiceWithFreshDicts(cache: CacheFile, category: string, items: Dict<string, Scalar>,
                                  apiKey: string, net: (string, Dict<string, Scalar>) -> Result<Json, FetchError>)
    returns (r1: Result<Json, FetchError>, r2: Result<Json, FetchError>, fetched2: bool)
    modifies cache
    ensures r1.Success? ==> r2 == r1 && !fetched2
  {
    var p1 := new ParamDict(items);
    var fetched1;
    r1, fetched1 := GetData(cache, category, p1, apiKey, net);
    var p2 := new ParamDict(items);
    r2, fetched2 := GetData(cache, category, p2, apiKey, net);
  }

  lemma SearchKey()
    ensures CacheKey("search", [("q", SStr("x"))]) == "search_q_x"
  {
    assert ParamStrings([("q", SStr("x"))])[0] == "q_x";
  }

  lemma SearchParamsWithApiKey()
    ensures Put([("q", SStr("x"))], ApiKeyParam, SStr("K")) == [("q", SStr("x")), ("api_key", SStr("K"))]
  {
    assert Put([], ApiKeyParam, SStr("K")) == [("api_key", SStr("K"))];
  }

  lemma SortedWithApiKey()
    ensures Sort(["q_x", "api_key_K"], StrLe) == ["api_key_K", "q_x"]
  {
    assert "q_x"[0] == 'q' && "api_key_K"[0] == 'a';
    assert !StrLe("q_x", "api_key_K");
    assert Sort(["api_key_K"], StrLe) == ["api_key_K"];
    assert Insert("q_x", [], StrLe) == ["q_x"];
    assert Insert("q_x", ["api_key_K"], StrLe) == ["api_key_K", "q_x"];
  }

  lemma JoinedWithApiKey()
    ensures Join(Connector, ["api_key_K", "q_x"]) == "api_key_K_q_x"
  {
    var parts := ["api_key_K", "q_x"];
    assert parts[1..] == ["q_x"];
    assert Join(Connector, parts[1..]) == "q_x";
  }

  lemma ParamStringsWithApiKey()
    ensures ParamStrings([("q", SStr("x")), ("api_key", SStr("K"))]) == ["q_x", "api_key_K"]
  {
    var strs := ParamStrings([("q", SStr("x")), ("api_key", SStr("K"))]);
    assert strs[0] == "q_x" && strs[1] == "api_key_K";
  }

  lemma SearchKeyWithApiKey()
    ensures CacheKey("search", [("q", SStr("x")), ("api_key", SStr("K"))]) == "search_api_key_K_q_x"
  {
    ParamStringsWithApiKey();
    SortedWithApiKey();
    JoinedWithApiKey();
  }

  /** Re-using one dict for a second `get_data` call after a miss: the API
      key now sits in the dict, so the second fingerprint differs, the
      network is asked again, and the API key is written into the cache
      file as part of a key. */
  method ReusedDictRefetches() returns (fetched2: bool, keys: set<string>)
    ensures fetched2
    ensures keys == {"search_q_x", "search_api_key_K_q_x"}
  {
    var cache := new CacheFile.Open(None);
    var params := new ParamDict([("q", SStr("x"))]);
    var net := (url: string, p: Dict<string, Scalar>) => Success(JInt(1));
    SearchKey();
    SearchParamsWithApiKey();
    SearchKeyWithApiKey();
    var r1, fetched1 := GetData(cache, "search", params, "K", net);
    var r2;
    r2, fetched2 := GetData(cache, "search", params, "K", net);
    keys := cache.entries.Keys;
  }

  /** `get_data` as its documentation means it ("params ... without
      API_KEY"): the key is injected into a copy of the caller's parameters,
      so the caller's dict is left as it was. */
  method GetDataKeepingParams(cache: CacheFile, category: string, params: Dict<string, Scalar>, apiKey: string,
                              net: (string, Dict<string, Scalar>) -> Result<Json, FetchError>)
    returns (r: Result<Json, FetchError>, fetched: bool)
    modifies cache
    ensures var key := CacheKey(category, params);
      if key in old(cache.entries) then
        r == Success(old(cache.entries)[key]) && !fetched && cache.entries == old(cache.entries)
      else
        && fetched
        && r == net(BaseUrl + category, Put(params, ApiKeyParam, SStr(apiKey)))
        && cache.entries == (if r.Success? then old(cache.entries)[key := r.value] else old(cache.entries))
  {
    var key := UniqueKey(category, params);
    if key in cache.entries {
      return Success(cache.entries[key]), false;
    }
    fetched := true;
    var request := Put(params, ApiKeyParam, SStr(apiKey));
    r := net(BaseUrl + category, request);
    if r.Success? {
      cache.entries := cache.entries[key := r.value];
    }
  }

  /** With the corrected fetch, asking twice with the same dict is served
      from the cache the second time, whatever the caller does with it. */
  method FetchTwiceKeepingParams(cache: CacheFile, category: string, params: Dict<string, Scalar>,
                                 apiKey: string, net: (string, Dict<string, Scalar>) -> Result<Json, FetchError>)
    returns (r1: Result<Json, FetchError>, r2: Result<Json, FetchError>, fetched2: bool)
    modifies cache
    ensures r1.Success? ==> r2 == r1 && !fetched2
  {
    var fetched1;
    r1, fetched1 := GetDataKeepingParams(cache, category, params, apiKey, net);
    r2, fetched2 := GetDataKeepingParams(cache, category, params, apiKey, net);
  }
}
