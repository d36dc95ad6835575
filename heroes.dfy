/** The hero side of the ingestion: `get_hero_links` and `get_hero_detail`,
    which scrape the hero pages through the cache file; `get_hero_info_api`,
    which re-keys the hero constants by display name; and `Heroes_helper`,
    which ranks each hero's matchups into its three best and three worst
    opponents for the `Heroes` table. */
module Heroes {
  import opened Wrappers
  import opened Sorting
  import opened PyDict
  import opened Json
  import opened Fetch

  // ---------------------------------------------------------------------
  // get_hero_links and get_hero_detail
  // ---------------------------------------------------------------------

  /** `{name, img, bio}` as `get_hero_detail` reads it from a hero page. */
  datatype HeroDetail = HeroDetail(name: string, img: string, bio: string)

  function HeroJson(d: HeroDetail): Json {
    JObj([("name", JStr(d.name)), ("img", JStr(d.img)), ("bio", JStr(d.bio))])
  }

  /** Reading a cached hero dict back; `None` for a payload of another shape. */
  function DecodeHero(j: Json): Option<HeroDetail> {
    match j
    case JObj(fields) =>
      var name := Get(fields, "name");
      var img := Get(fields, "img");
      var bio := Get(fields, "bio");
      if name.Some? && name.value.JStr? && img.Some? && img.value.JStr? && bio.Some? && bio.value.JStr?
      then Some(HeroDetail(name.value.s, img.value.s, bio.value.s))
      else None
    case _ => None
  }

  /** A hero dict written to the cache reads back as the same hero. */
  lemma DecodeHeroJson(d: HeroDetail)
    ensures DecodeHero(HeroJson(d)) == Some(d)
  {
    var fields := HeroJson(d).fields;
    assert "name" != "img" && "name" != "bio" && "img" != "bio" by {
      assert "img"[0] != "name"[0] && "bio"[0] != "name"[0] && "bio"[0] != "img"[0];
    }
    assert Get(fields, "name") == Some(JStr(d.name));
    assert IndexFrom(fields, "img", 0) == Some(1);
    assert Get(fields, "img") == Some(JStr(d.img));
    assert IndexFrom(fields, "bio", 1) == Some(2);
    assert Get(fields, "bio") == Some(JStr(d.bio));
  }

  /** `get_hero_links()`: the cached list when the fingerprint `heroes_` is
      present; otherwise the `href` of each hero icon link on the heroes
      page, `hrefs`, written through to the cache. */
  method GetHeroLinks(cache: CacheFile, hrefs: seq<string>) returns (r: Json)
    modifies cache
    ensures "heroes_" in old(cache.entries) ==> r == old(cache.entries)["heroes_"] && cache.entries == old(cache.entries)
    ensures "heroes_" !in old(cache.entries) ==> r == StringsJson(hrefs) && cache.entries == old(cache.entries)["heroes_" := r]
  {
    var cacheKey := UniqueKey("heroes", []);
    assert cacheKey == "heroes_";
    if cacheKey in cache.entries {
      return cache.entries[cacheKey];
    }
    var heroLinks: seq<string> := [];
    for i := 0 to |hrefs|
      invariant heroLinks == hrefs[..i]
    {
      heroLinks := heroLinks + [hrefs[i]];
    }
    assert hrefs[..|hrefs|] == hrefs;
    r := StringsJson(heroLinks);
    cache.entries := cache.entries[cacheKey := r];
  }

  /** The fingerprint of one hero page, `construct_unique_key("Hero-" + url, {})`. */
  function DetailKey(url: string): string {
    CacheKey("Hero-" + url, [])
  }

  /** Different hero pages have different fingerprints. */
  lemma DetailKeyInjective(a: string, b: string)
    requires DetailKey(a) == DetailKey(b)
    ensures a == b
  {
    assert DetailKey(a) == "Hero-" + a + "_";
    assert DetailKey(b) == "Hero-" + b + "_";
    assert a == DetailKey(a)[5..|DetailKey(a)| - 1];
    assert b == DetailKey(b)[5..|DetailKey(b)| - 1];
  }

  /** The cache once the hero pages of `links` have been visited in order:
      a page whose fingerprint is present is left as it is, any other is
      fetched and written through. */
  function FetchedCache(entries: map<string, Json>, links: seq<string>, page: string -> HeroDetail): map<string, Json> {
    if |links| == 0 then entries
    else
      var before := FetchedCache(entries, links[..|links| - 1], page);
      var url := links[|links| - 1];
      if DetailKey(url) in before then before else before[DetailKey(url) := HeroJson(page(url))]
  }

  /** The list `get_hero_detail` returns: the cached hero of each link. */
  function DetailsOf(entries: map<string, Json>, links: seq<string>, page: string -> HeroDetail): seq<Json>
    requires forall i :: 0 <= i < |links| ==> DetailKey(links[i]) in FetchedCache(entries, links, page)
  {
    seq(|links|, i requires 0 <= i < |links| => FetchedCache(entries, links, page)[DetailKey(links[i])])
  }

  /** Visiting the pages never drops or changes an entry already cached. */
  lemma {:induction false} FetchedCacheKeeps(entries: map<string, Json>, links: seq<string>, page: string -> HeroDetail, k: string)
    requires k in entries
    ensures k in FetchedCache(entries, links, page) && FetchedCache(entries, links, page)[k] == entries[k]
  {
    if |links| > 0 {
      FetchedCacheKeeps(entries, links[..|links| - 1], page, k);
    }
  }

  /** After the visit every link's page is cached: with the old entry when it
      was cached before, and with the hero of that page otherwise. */
  lemma {:induction false} FetchedCacheHolds(entries: map<string, Json>, links: seq<string>, page: string -> HeroDetail, i: int)
    requires 0 <= i < |links|
    ensures DetailKey(links[i]) in FetchedCache(entries, links, page)
    ensures FetchedCache(entries, links, page)[DetailKey(links[i])]
         == if DetailKey(links[i]) in entries then entries[DetailKey(links[i])] else HeroJson(page(links[i]))
  {
    var n := |links| - 1;
    var key := DetailKey(links[i]);
    if key in entries {
      FetchedCacheKeeps(entries, links, page, key);
    } else if i < n {
      FetchedCacheHolds(entries, links[..n], page, i);
      assert links[..n][i] == links[i];
    } else {
      var before := FetchedCache(entries, links[..n], page);
      if key in before {
        var j := FetchedCacheNew(entries, links[..n], page, key);
        DetailKeyInjective(links[..n][j], links[i]);
      }
    }
  }

  /** Every entry the visit adds is the hero of one of the links. */
  lemma {:induction false} FetchedCacheNew(entries: map<string, Json>, links: seq<string>, page: string -> HeroDetail, k: string)
    returns (j: int)
    requires k in FetchedCache(entries, links, page) && k !in entries
    ensures 0 <= j < |links| && k == DetailKey(links[j]) && FetchedCache(entries, links, page)[k] == HeroJson(page(links[j]))
  {
    var n := |links| - 1;
    var before := FetchedCache(entries, links[..n], page);
    if k in before {
      j := FetchedCacheNew(entries, links[..n], page, k);
      assert links[..n][j] == links[j];
    } else {
      j := n;
    }
  }

  /** One list item per link: the entry cached before the call if there was
      one, the hero of the page otherwise. */
  lemma DetailsOfLinks(entries: map<string, Json>, links: seq<string>, page: string -> HeroDetail)
    ensures forall i :: 0 <= i < |links| ==> DetailKey(links[i]) in FetchedCache(entries, links, page)
    ensures var details := DetailsOf(entries, links, page);
      |details| == |links|
      && forall i :: 0 <= i < |links| ==>
           details[i] == if DetailKey(links[i]) in entries then entries[DetailKey(links[i])] else HeroJson(page(links[i]))
  {
    forall i | 0 <= i < |links| ensures DetailKey(links[i]) in FetchedCache(entries, links, page) {
      FetchedCacheHolds(entries, links, page, i);
    }
    forall i | 0 <= i < |links|
      ensures DetailsOf(entries, links, page)[i]
           == if DetailKey(links[i]) in entries then entries[DetailKey(links[i])] else HeroJson(page(links[i]))
    {
      FetchedCacheHolds(entries, links, page, i);
    }
  }

  /** The cache after one more page. */
  lemma FetchedCacheStep(entries: map<string, Json>, links: seq<string>, page: string -> HeroDetail, i: int)
    requires 0 <= i < |links|
    ensures FetchedCache(entries, links[..i + 1], page)
         == var before := FetchedCache(entries, links[..i], page);
            if DetailKey(links[i]) in before then before else before[DetailKey(links[i]) := HeroJson(page(links[i]))]
  {
    assert links[..i + 1][..i] == links[..i];
  }

  /** The first `n` links are served in `list` from `cache`. */
  ghost predicate Served(cache: map<string, Json>, links: seq<string>, n: int, list: seq<Json>)
    requires 0 <= n <= |links|
  {
    |list| == n && forall j :: 0 <= j < n ==> DetailKey(links[j]) in cache && list[j] == cache[DetailKey(links[j])]
  }

  /** Serving one more link from a cache that at most gained that link. */
  lemma ServedStep(before: map<string, Json>, after: map<string, Json>, links: seq<string>, i: int,
                   list: seq<Json>, item: Json)
    requires 0 <= i < |links| && Served(before, links, i, list)
    requires after == before || (DetailKey(links[i]) !in before && after == before[DetailKey(links[i]) := item])
    requires DetailKey(links[i]) in after && after[DetailKey(links[i])] == item
    ensures Served(after, links, i + 1, list + [item])
  {
  }

  /** A list serving every link from the final cache is the list of details. */
  lemma ServedAll(entries: map<string, Json>, links: seq<string>, page: string -> HeroDetail, list: seq<Json>)
    requires Served(FetchedCache(entries, links, page), links, |links|, list)
    ensures forall i :: 0 <= i < |links| ==> DetailKey(links[i]) in FetchedCache(entries, links, page)
    ensures list == DetailsOf(entries, links, page)
  {
  }

  /** `get_hero_detail(hero_links)`; `page(url)` is the hero read from the
      page at `url`. Each link is served from the cache when its fingerprint
      is present and read from its page and written through otherwise, so a
      link already cached, including one repeated earlier, is read from the
      cache. */
  method GetHeroDetail(cache: CacheFile, heroLinks: seq<string>, page: string -> HeroDetail)
    returns (returnList: seq<Json>)
    modifies cache
    ensures forall i :: 0 <= i < |heroLinks| ==> DetailKey(heroLinks[i]) in FetchedCache(old(cache.entries), heroLinks, page)
    ensures cache.entries == FetchedCache(old(cache.entries), heroLinks, page)
    ensures returnList == DetailsOf(old(cache.entries), heroLinks, page)
  {
    ghost var entries := cache.entries;
    returnList := [];
    for i := 0 to |heroLinks|
      invariant cache.entries == FetchedCache(entries, heroLinks[..i], page)
      invariant Served(cache.entries, heroLinks, i, returnList)
    {
      var baseUrl := heroLinks[i];
      var cacheKey := UniqueKey("Hero-" + baseUrl, []);
      FetchedCacheStep(entries, heroLinks, page, i);
      if cacheKey in cache.entries {
        ServedStep(cache.entries, cache.entries, heroLinks, i, returnList, cache.entries[cacheKey]);
        returnList := returnList + [cache.entries[cacheKey]];
        continue;
      }
      var heroDict := HeroJson(page(baseUrl));
      ghost var before := cache.entries;
      returnList := returnList + [heroDict];
      cache.entries := cache.entries[cacheKey := heroDict];
      ServedStep(before, cache.entries, heroLinks, i, returnList[..i], heroDict);
      assert returnList[..i] + [heroDict] == returnList;
    }
    assert heroLinks[..|heroLinks|] == heroLinks;
    ServedAll(entries, heroLinks, page, returnList);
  }

  // ---------------------------------------------------------------------
  // get_hero_info_api
  // ---------------------------------------------------------------------

  /** An entry of the `constants/heroes` response: the fields the code uses. */
  datatype HeroConstant = HeroConstant(id: int, localizedName: string)

  /** The patch for a hero missing from the constants. */
  const PatchName: string := "Hoodwink"
  const PatchId: int := 123

  /** The assignments `new_dict[hero["localized_name"]] = hero`, in key order. */
  function NamePairs(heroDict: Dict<string, HeroConstant>): Dict<string, int> {
    seq(|heroDict|, i requires 0 <= i < |heroDict| => (heroDict[i].1.localizedName, heroDict[i].1.id))
  }

  /** The dict `get_hero_info_api` returns, reduced to the hero ids. */
  function HeroIds(heroDict: Dict<string, HeroConstant>): Dict<string, int> {
    Put(PutAll(NamePairs(heroDict)), PatchName, PatchId)
  }

  /** `get_hero_info_api()` on the decoded `constants/heroes` response. */
  method HeroInfoApi(heroDict: Dict<string, HeroConstant>) returns (newDict: Dict<string, int>)
    ensures newDict == HeroIds(heroDict)
  {
    newDict := [];
    for i := 0 to |heroDict|
      invariant newDict == PutAll(NamePairs(heroDict[..i]))
    {
      var hero := heroDict[i].1;
      assert NamePairs(heroDict[..i + 1])[..i] == NamePairs(heroDict[..i]);
      newDict := Put(newDict, hero.localizedName, hero.id);
    }
    assert heroDict[..|heroDict|] == heroDict;
    newDict := Put(newDict, PatchName, PatchId);
  }

  /** The patched hero is always present with its patched id. */
  lemma HeroIdsPatched(heroDict: Dict<string, HeroConstant>)
    ensures Get(HeroIds(heroDict), PatchName) == Some(PatchId)
  {
  }

  /** The keys are the display names in the order of their first hero, then
      the patched name if no hero had it. */
  lemma HeroIdsKeys(heroDict: Dict<string, HeroConstant>)
    ensures forall i :: 0 <= i < |heroDict| ==> Keys(NamePairs(heroDict))[i] == heroDict[i].1.localizedName
    ensures var names := Dedup(Keys(NamePairs(heroDict)));
      Keys(HeroIds(heroDict)) == if PatchName in names then names else names + [PatchName]
  {
    PutAllKeys(NamePairs(heroDict));
    forall i | 0 <= i < |heroDict| ensures Keys(NamePairs(heroDict))[i] == heroDict[i].1.localizedName {
      KeysAt(NamePairs(heroDict), i);
    }
  }

  /** Among heroes sharing a display name the last one wins. */
  lemma HeroIdsLastWins(heroDict: Dict<string, HeroConstant>, i: int)
    requires 0 <= i < |heroDict| && heroDict[i].1.localizedName != PatchName
    requires forall j :: i < j < |heroDict| ==> heroDict[j].1.localizedName != heroDict[i].1.localizedName
    ensures Get(HeroIds(heroDict), heroDict[i].1.localizedName) == Some(heroDict[i].1.id)
  {
    PutAllLast(NamePairs(heroDict), i);
  }

  /** A name that is no hero's display name, other than the patched one, is
      absent, and `Heroes_helper` then uses hero id 0. */
  lemma HeroIdsAbsent(heroDict: Dict<string, HeroConstant>, name: string)
    requires name != PatchName
    requires forall j :: 0 <= j < |heroDict| ==> heroDict[j].1.localizedName != name
    ensures Get(HeroIds(heroDict), name) == None
  {
    PutAllAbsent(NamePairs(heroDict), name);
  }

  // ---------------------------------------------------------------------
  // Ranking the matchups
  // ---------------------------------------------------------------------

  /** An element of `heroes/{hero_id}/matchups`: an opponent, the games
      played against it and the games won. */
  datatype MatchupSample = MatchupSample(heroId: int, gamesPlayed: int, wins: int)

  /** Matchups with fewer games than this are not ranked. */
  const MinGames: int := 10

  type Games = g: int | g > 0 witness 1

  /** The item `{"rate": wins / games_played, "hero_id": ...}` of a kept
      matchup, with the rate held as the exact fraction `wins / games`. */
  datatype Rated = Rated(heroId: int, wins: int, games: Games)

  /** `a["rate"] >= b["rate"]`, compared exactly by cross-multiplication. */
  predicate RateAtLeast(a: Rated, b: Rated) {
    a.wins * b.games >= b.wins * a.games
  }

  /** The cross-multiplied comparison agrees with the comparison of the
      rates as rational numbers. */
  lemma RateAtLeastMeansRate(a: Rated, b: Rated)
    ensures RateAtLeast(a, b) <==> a.wins as real / a.games as real >= b.wins as real / b.games as real
  {
    var x := a.wins as real / a.games as real;
    var y := b.wins as real / b.games as real;
    assert x * a.games as real == a.wins as real;
    assert y * b.games as real == b.wins as real;
    var g := (a.games * b.games) as real;
    assert g > 0.0;
    assert a.wins as real * b.games as real == x * g;
    assert b.wins as real * a.games as real == y * g;
    if x >= y {
      assert x * g >= y * g;
    } else {
      assert x * g < y * g;
    }
  }

  lemma RateAtLeastTransitive(a: Rated, b: Rated, c: Rated)
    requires RateAtLeast(a, b) && RateAtLeast(b, c)
    ensures RateAtLeast(a, c)
  {
    assert a.wins * b.games * c.games >= b.wins * a.games * c.games;
    assert b.wins * c.games * a.games >= c.wins * b.games * a.games;
    assert b.games * (a.wins * c.games - c.wins * a.games) >= 0;
  }

  /** Comparing rates is a total preorder, so the sort is well defined. */
  lemma RateAtLeastIsOrder()
    ensures Total(RateAtLeast) && Transitive(RateAtLeast)
  {
    forall a, b, c | RateAtLeast(a, b) && RateAtLeast(b, c) ensures RateAtLeast(a, c) {
      RateAtLeastTransitive(a, b, c);
    }
  }

  /** The kept matchups of `samples` as items, in input order. */
  function Qualifying(samples: seq<MatchupSample>): (kept: seq<Rated>)
    ensures forall x :: x in kept ==> x.games >= MinGames
  {
    if |samples| == 0 then []
    else
      var m := samples[|samples| - 1];
      Qualifying(samples[..|samples| - 1])
      + (if m.gamesPlayed < MinGames then [] else [Rated(m.heroId, m.wins, m.gamesPlayed)])
  }

  /** Every matchup with enough games is kept. */
  lemma {:induction false} QualifyingComplete(samples: seq<MatchupSample>, i: int)
    requires 0 <= i < |samples| && samples[i].gamesPlayed >= MinGames
    ensures Rated(samples[i].heroId, samples[i].wins, samples[i].gamesPlayed) in Qualifying(samples)
  {
    var n := |samples| - 1;
    if i < n {
      QualifyingComplete(samples[..n], i);
    }
  }

  /** Every kept item comes from a matchup with enough games. */
  lemma {:induction false} QualifyingSound(samples: seq<MatchupSample>, x: Rated)
    requires x in Qualifying(samples)
    ensures exists i :: 0 <= i < |samples| && samples[i].gamesPlayed >= MinGames
                     && x == Rated(samples[i].heroId, samples[i].wins, samples[i].gamesPlayed)
  {
    var n := |samples| - 1;
    if x in Qualifying(samples[..n]) {
      QualifyingSound(samples[..n], x);
      var i :| 0 <= i < n && samples[..n][i].gamesPlayed >= MinGames
             && x == Rated(samples[..n][i].heroId, samples[..n][i].wins, samples[..n][i].gamesPlayed);
      assert samples[i] == samples[..n][i];
    }
  }

  /** `rate_data.sort(reverse=True, key=sort_helper)`: descending by rate,
      ties in input order. */
  function Ranked(samples: seq<MatchupSample>): seq<Rated> {
    Sort(Qualifying(samples), RateAtLeast)
  }

  /** The ranking is a permutation of the kept items, in descending rate
      order, and items of equal rate keep their input order. */
  lemma RankedIsStableDescending(samples: seq<MatchupSample>, x: Rated)
    ensures multiset(Ranked(samples)) == multiset(Qualifying(samples))
    ensures forall i, j :: 0 <= i < j < |Ranked(samples)| ==> RateAtLeast(Ranked(samples)[i], Ranked(samples)[j])
    ensures ClassOf(Ranked(samples), x, RateAtLeast) == ClassOf(Qualifying(samples), x, RateAtLeast)
  {
    RateAtLeastIsOrder();
    SortSorted(Qualifying(samples), RateAtLeast);
    SortStable(Qualifying(samples), x, RateAtLeast);
  }

  /** What `rate_data[...]` raises when fewer than three items are kept. */
  datatype Fault = IndexFault

  /** A row of the `Heroes` table: the hero, then `matchup1..3, rate1..3`
      as `best` and `matchup_1..3, rate_1..3` as `worst`. */
  datatype HeroRow = HeroRow(heroId: int, name: string, img: string, bio: string, best: seq<Rated>, worst: seq<Rated>)

  /** The zero `(matchup, rate)` pair used when a hero has no matchup data. */
  const NoMatchup: Rated := Rated(0, 0, 1)

  /** The picks of a ranking: elements 0, 1, 2 as the best and elements -1,
      -2, -3 as the worst. */
  function RankRow(heroId: int, hero: HeroDetail, ranked: seq<Rated>): Result<HeroRow, Fault> {
    if |ranked| < 3 then Failure(IndexFault)
    else
      var n := |ranked|;
      Success(HeroRow(heroId, hero.name, hero.img, hero.bio,
                      [ranked[0], ranked[1], ranked[2]], [ranked[n - 1], ranked[n - 2], ranked[n - 3]]))
  }

  /** The id `Heroes_helper` uses for a hero: the id of its display name, or
      0 when the constants do not know the name. */
  function HeroIdOf(heroIds: Dict<string, int>, name: string): int {
    match Get(heroIds, name) case Some(id) => id case None => 0
  }

  /** The row of one hero; `matchups(id)` is the decoded response of
      `heroes/{id}/matchups`. */
  function HeroEntry(hero: HeroDetail, heroIds: Dict<string, int>, matchups: int -> seq<MatchupSample>): Result<HeroRow, Fault> {
    var heroId := HeroIdOf(heroIds, hero.name);
    var raw := matchups(heroId);
    if raw == [] then
      Success(HeroRow(heroId, hero.name, hero.img, hero.bio, [NoMatchup, NoMatchup, NoMatchup], [NoMatchup, NoMatchup, NoMatchup]))
    else RankRow(heroId, hero, Ranked(raw))
  }

  /** The rows of `heroList`, or the fault of the first hero that has one. */
  function HeroesRows(heroList: seq<HeroDetail>, heroIds: Dict<string, int>, matchups: int -> seq<MatchupSample>): Result<seq<HeroRow>, Fault> {
    if |heroList| == 0 then Success([])
    else
      match HeroesRows(heroList[..|heroList| - 1], heroIds, matchups)
      case Failure(e) => Failure(e)
      case Success(rows) =>
        match HeroEntry(heroList[|heroList| - 1], heroIds, matchups)
        case Failure(e) => Failure(e)
        case Success(row) => Success(rows + [row])
  }

  /** A fault of one hero is a fault of the whole run. */
  lemma {:induction false} HeroesRowsFault(heroList: seq<HeroDetail>, heroIds: Dict<string, int>,
                                          matchups: int -> seq<MatchupSample>, i: int)
    requires 0 <= i <= |heroList| && HeroesRows(heroList[..i], heroIds, matchups).Failure?
    ensures HeroesRows(heroList, heroIds, matchups) == Failure(IndexFault)
    decreases |heroList| - i
  {
    if i == |heroList| {
      assert heroList[..i] == heroList;
      assert HeroesRows(heroList, heroIds, matchups).error.IndexFault?;
    } else {
      assert heroList[..i + 1][..i] == heroList[..i];
      HeroesRowsFault(heroList, heroIds, matchups, i + 1);
    }
  }

  lemma HeroesRowsStep(heroList: seq<HeroDetail>, heroIds: Dict<string, int>, matchups: int -> seq<MatchupSample>,
                       i: int, rows: seq<HeroRow>, row: HeroRow)
    requires 0 <= i < |heroList| && HeroesRows(heroList[..i], heroIds, matchups) == Success(rows)
    requires HeroEntry(heroList[i], heroIds, matchups) == Success(row)
    ensures HeroesRows(heroList[..i + 1], heroIds, matchups) == Success(rows + [row])
  {
    assert heroList[..i + 1][..i] == heroList[..i];
  }

  /** The inner loop of `Heroes_helper` and the sort after it: the kept
      matchups of one hero, ranked. */
  method RateData(rawData: seq<MatchupSample>) returns (rateData: seq<Rated>)
    ensures rateData == Ranked(rawData)
  {
    rateData := [];
    for k := 0 to |rawData|
      invariant rateData == Qualifying(rawData[..k])
    {
      assert rawData[..k + 1][..k] == rawData[..k];
      var matchup := rawData[k];
      if matchup.gamesPlayed < MinGames {
        continue;
      }
      rateData := rateData + [Rated(matchup.heroId, matchup.wins, matchup.gamesPlayed)];
    }
    assert rawData[..|rawData|] == rawData;
    rateData := Sort(rateData, RateAtLeast);
  }

  /** A hero with matchup data gets the row of its ranking. */
  lemma EntryOfRanking(hero: HeroDetail, heroIds: Dict<string, int>, matchups: int -> seq<MatchupSample>,
                       heroId: int, ranked: seq<Rated>)
    requires heroId == HeroIdOf(heroIds, hero.name) && matchups(heroId) != []
    requires ranked == Ranked(matchups(heroId))
    ensures HeroEntry(hero, heroIds, matchups) == RankRow(heroId, hero, ranked)
  {
  }

  /** One pass of the loop of `Heroes_helper`: the row of `hero`, or the
      fault its ranking raises. */
  method RowOfHero(hero: HeroDetail, heroIds: Dict<string, int>, matchups: int -> seq<MatchupSample>)
    returns (r: Result<HeroRow, Fault>)
    ensures r == HeroEntry(hero, heroIds, matchups)
  {
    var name := hero.name;
    var img := hero.img;
    var bio := hero.bio;
    var heroId;
    if name !in Keys(heroIds) {
      heroId := 0;
    } else {
      heroId := Get(heroIds, name).value;
    }
    assert heroId == HeroIdOf(heroIds, hero.name);
    var rawData := matchups(heroId);
    if rawData == [] {
      return Success(HeroRow(heroId, name, img, bio, [NoMatchup, NoMatchup, NoMatchup], [NoMatchup, NoMatchup, NoMatchup]));
    }
    var rateData := RateData(rawData);
    EntryOfRanking(hero, heroIds, matchups, heroId, rateData);
    if |rateData| < 3 {
      return Failure(IndexFault);
    }
    var n := |rateData|;
    var row := HeroRow(heroId, name, img, bio, [rateData[0], rateData[1], rateData[2]],
                       [rateData[n - 1], rateData[n - 2], rateData[n - 3]]);
    assert RankRow(heroId, hero, rateData) == Success(row);
    return Success(row);
  }

  /** `Heroes_helper(hero_list)`; `heroDict` is the `constants/heroes`
      response that `get_hero_info_api` re-keys. */
  method HeroesHelper(heroList: seq<HeroDetail>, heroDict: Dict<string, HeroConstant>, matchups: int -> seq<MatchupSample>)
    returns (r: Result<seq<HeroRow>, Fault>)
    ensures r == HeroesRows(heroList, HeroIds(heroDict), matchups)
  {
    var heroIds := HeroInfoApi(heroDict);
    var entryList: seq<HeroRow> := [];
    for i := 0 to |heroList|
      invariant HeroesRows(heroList[..i], heroIds, matchups) == Success(entryList)
    {
      var entry := RowOfHero(heroList[i], heroIds, matchups);
      if entry.Failure? {
        assert heroList[..i + 1][..i] == heroList[..i];
        HeroesRowsFault(heroList, heroIds, matchups, i + 1);
        return Failure(IndexFault);
      }
      HeroesRowsStep(heroList, heroIds, matchups, i, entryList, entry.value);
      entryList := entryList + [entry.value];
    }
    assert heroList[..|heroList|] == heroList;
    return Success(entryList);
  }

  // ---------------------------------------------------------------------
  // What a row promises
  // ---------------------------------------------------------------------

  /** Ranking keeps every kept matchup. */
  lemma RankedLength(samples: seq<MatchupSample>)
    ensures |Ranked(samples)| == |Qualifying(samples)|
  {
    var kept := Qualifying(samples);
    var ranked := Sort(kept, RateAtLeast);
    assert |ranked| == |multiset(ranked)| == |multiset(kept)| == |kept|;
  }

  /** A hero without matchup data gets the all-zero row. */
  lemma NoDataRow(hero: HeroDetail, heroIds: Dict<string, int>, matchups: int -> seq<MatchupSample>)
    requires matchups(HeroIdOf(heroIds, hero.name)) == []
    ensures HeroEntry(hero, heroIds, matchups).Success?
    ensures var row := HeroEntry(hero, heroIds, matchups).value;
      && row.heroId == HeroIdOf(heroIds, hero.name) && row.name == hero.name
      && row.img == hero.img && row.bio == hero.bio
      && |row.best| == 3 && |row.worst| == 3
      && forall k :: 0 <= k < 3 ==> row.best[k] == NoMatchup && row.worst[k] == NoMatchup
  {
  }

  /** With matchup data, the row exists exactly when at least three
      matchups have enough games. */
  lemma RowExistsIff(hero: HeroDetail, heroIds: Dict<string, int>, matchups: int -> seq<MatchupSample>)
    requires matchups(HeroIdOf(heroIds, hero.name)) != []
    ensures HeroEntry(hero, heroIds, matchups).Success? <==> |Qualifying(matchups(HeroIdOf(heroIds, hero.name)))| >= 3
  {
    RankedLength(matchups(HeroIdOf(heroIds, hero.name)));
  }

  /** The three best are kept matchups in descending rate order, at or
      above every kept matchup after them; the three worst are kept
      matchups in ascending rate order, at or below every kept matchup
      before them. */
  lemma PicksAreExtremes(heroId: int, hero: HeroDetail, samples: seq<MatchupSample>)
    requires RankRow(heroId, hero, Ranked(samples)).Success?
    ensures var row := RankRow(heroId, hero, Ranked(samples)).value;
      var ranked := Ranked(samples);
      && (forall k :: 0 <= k < 3 ==> row.best[k] in Qualifying(samples) && row.worst[k] in Qualifying(samples))
      && RateAtLeast(row.best[0], row.best[1]) && RateAtLeast(row.best[1], row.best[2])
      && RateAtLeast(row.worst[2], row.worst[1]) && RateAtLeast(row.worst[1], row.worst[0])
      && (forall x :: x in Qualifying(samples) ==> RateAtLeast(row.best[0], x) && RateAtLeast(x, row.worst[0]))
      && (forall j :: 3 <= j < |ranked| ==> RateAtLeast(row.best[2], ranked[j]))
      && (forall j :: 0 <= j < |ranked| - 3 ==> RateAtLeast(ranked[j], row.worst[2]))
  {
    var ranked := Ranked(samples);
    RankedExtremes(samples);
    assert RateAtLeast(ranked[0], ranked[1]) && RateAtLeast(ranked[1], ranked[2]);
    var n := |ranked|;
    assert RateAtLeast(ranked[n - 3], ranked[n - 2]) && RateAtLeast(ranked[n - 2], ranked[n - 1]);
  }

  /** Every element of a ranking is a kept matchup, the ranking descends,
      and its first and last elements bound every kept matchup. */
  lemma RankedExtremes(samples: seq<MatchupSample>)
    requires |Ranked(samples)| > 0
    ensures var ranked := Ranked(samples);
      && (forall k :: 0 <= k < |ranked| ==> ranked[k] in Qualifying(samples))
      && (forall i, j :: 0 <= i < j < |ranked| ==> RateAtLeast(ranked[i], ranked[j]))
      && (forall x :: x in Qualifying(samples) ==> RateAtLeast(ranked[0], x) && RateAtLeast(x, ranked[|ranked| - 1]))
  {
    var kept := Qualifying(samples);
    var ranked := Sort(kept, RateAtLeast);
    RateAtLeastIsOrder();
    SortSorted(kept, RateAtLeast);
    forall k | 0 <= k < |ranked| ensures ranked[k] in kept {
      assert ranked[k] in multiset(ranked);
    }
    forall x | x in kept ensures RateAtLeast(ranked[0], x) && RateAtLeast(x, ranked[|ranked| - 1]) {
      assert x in multiset(kept);
      HeadFirst(ranked, x, RateAtLeast);
      LastAfter(ranked, x, RateAtLeast);
    }
  }

  /** With exactly three kept matchups the worst three are the best three
      reversed: the six picks are three opponents, not six. */
  lemma PicksOverlapWhenThree(heroId: int, hero: HeroDetail, samples: seq<MatchupSample>)
    requires |Qualifying(samples)| == 3
    ensures RankRow(heroId, hero, Ranked(samples)).Success?
    ensures var row := RankRow(heroId, hero, Ranked(samples)).value;
      row.worst == [row.best[2], row.best[1], row.best[0]]
  {
    RankedLength(samples);
  }

  /** With six or more kept matchups the picks are six different positions
      of the ranking. */
  lemma PicksDisjointFromSix(heroId: int, hero: HeroDetail, samples: seq<MatchupSample>)
    requires |Qualifying(samples)| >= 6
    ensures RankRow(heroId, hero, Ranked(samples)).Success?
    ensures var row := RankRow(heroId, hero, Ranked(samples)).value;
      var ranked := Ranked(samples); var n := |ranked|;
      row.best == ranked[..3] && row.worst == [ranked[n - 1], ranked[n - 2], ranked[n - 3]] && 3 <= n - 3
  {
    RankedLength(samples);
  }

  /** Twenty games with fifteen wins, five games, and twelve games with three
      wins: the five-game matchup is dropped, the other two rank 1 before 3,
      and two kept matchups are too few for a row. */
  lemma TwoKeptIsAFault(hero: HeroDetail)
    ensures var samples := [MatchupSample(1, 20, 15), MatchupSample(2, 5, 4), MatchupSample(3, 12, 3)];
      && Ranked(samples) == [Rated(1, 15, 20), Rated(3, 3, 12)]
      && RankRow(0, hero, Ranked(samples)) == Failure(IndexFault)
  {
    var samples := [MatchupSample(1, 20, 15), MatchupSample(2, 5, 4), MatchupSample(3, 12, 3)];
    assert samples[..2][..1] == [MatchupSample(1, 20, 15)];
    assert samples[..2] == [MatchupSample(1, 20, 15), MatchupSample(2, 5, 4)];
    assert Qualifying(samples[..1]) == [Rated(1, 15, 20)] by {
      assert samples[..1][..0] == [];
    }
    assert Qualifying(samples[..2]) == [Rated(1, 15, 20)];
    assert Qualifying(samples) == [Rated(1, 15, 20), Rated(3, 3, 12)];
    var q := [Rated(1, 15, 20), Rated(3, 3, 12)];
    assert q[1..] == [Rated(3, 3, 12)];
    assert Sort(q[1..], RateAtLeast) == [Rated(3, 3, 12)];
    assert RateAtLeast(Rated(1, 15, 20), Rated(3, 3, 12));
  }
}
