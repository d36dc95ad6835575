# Dota2 ingestion core, modelled in Dafny

`final_project.py` is a small Dota2 statistics application. It fetches data
from the OpenDota API and scrapes the Dota2 hero pages and the Liquipedia
team portal. It keeps every response in a JSON cache file and fills a
sqlite database with four tables: professional players, active
affiliations, recent matches and hero profiles. A Flask front end then
reads those tables back. This project models the sequential logic between
the network and the database, and proves what that logic returns.

The modules follow the parts of the program:

- `Fetch` (`fetch.dfy`): the request fingerprint `construct_unique_key` and
  the cache-first fetch `get_data`. The cache file is a class holding a
  `map` from fingerprints to JSON values; the caller's `params` dict is a
  class as well, because `get_data` writes the API key into it.
- `Teams` (`teams.dfy`): `get_teams`, which groups the rows of the
  `ActiveProPlayers` table by region, and `get_active_teams`, which turns
  the scraped region boxes into a region-to-teams dict through the cache.
- `Resolve` (`resolve.dfy`): `ActiveProPlayers_helper`. For each region and
  team it runs the three-step lookup against the `ProPlayers` registry:
  exact case-insensitive match, then the text after the last `"Team "`, then
  the alias table. It emits one affiliation tuple per matching player.
- `Matches` (`matches.dfy`): `PlayerMatches_helper`, which turns the API's
  recent-match list into table rows. Also `format_match_info_helper` and
  `find_hero_name`, which read the rows back into display lists.
- `Search` (`search.dfy`): `user_search`, which keeps the hits with a last
  match time, at most ten of them.
- `Heroes` (`heroes.dfy`): `get_hero_links` and `get_hero_detail`, which
  scrape the hero pages through the cache. Also `get_hero_info_api`, which
  re-keys the hero constants by display name, and `Heroes_helper` with
  `sort_helper`, which ranks each hero's matchups into three best and three
  worst opponents.
- Support modules: `Text` (ASCII `lower`, `split`, `join`, `str(int)`, the
  code-point order on `str`), `PyDict` (an insertion-ordered Python dict as
  a sequence of pairs), `Sorting` (`list.sort` as a stable sort), `Json`
  (the payloads) and `Wrappers` (`Option`, `Result`).

Every loop of the modelled functions is a method with a loop. Its
postcondition ties the result, or the new state of the cache, to a
specification function, and lemmas state what that function means. External
effects are parameters:

- The network is a function `net` from URL and params to a result.
- A scraped page is the value parsed from it: `boxes`, `hrefs`, `page(url)`.
- The matchup API is `matchups(heroId)`.
- The clock formatting of `epoch_conv` is `localTime(stamp)`.
- A database table is a sequence of rows in query order.

Two places where the code does not do what its own text says; the model
follows the code:

- The docstring of `construct_unique_key` (`final_project.py:394-395`)
  calls the fingerprint unique. It is not: `Fetch.CacheKeyCollides`
  exhibits two parameter sets with the same key.
- The comment at `final_project.py:723` says to try again without
  `"Team "`. The code takes the text after the last `"Team "` anywhere in
  the name. It does not strip a prefix.

Further facts about the code that the model keeps:

- The fingerprint sorts the `k_v` strings, not the keys
  (`final_project.py:411-414`).
- Fewer than three kept matchups is an index fault (`Failure(IndexFault)`)
  raised by the first of `rate_data[0]`, `[1]`, `[2]` that is out of range
  (`final_project.py:1162-1166`).
- With exactly three kept matchups, the worst three are the best three
  reversed (`Heroes.PicksOverlapWhenThree`).

## Model

| member | source | states |
|---|---|---|
| Fetch.UniqueKey | final_project.py:393-415 | the key is `CacheKey`: the category, `"_"`, and the sorted `k_v` strings joined by `"_"`; no params give `category + "_"`, one param gives `category_k_v` |
| Fetch.StrLeIsLinear | final_project.py:413 | `<=` on strs is total, transitive and antisymmetric, so `param_strings.sort()` has exactly one outcome |
| Fetch.ParamStringsPermute | final_project.py:411-412 | reordering the params reorders their `k_v` strings and changes nothing else |
| Fetch.CacheKeyIgnoresOrder | final_project.py:409-414 | two parameter lists holding the same pairs in any order give the same key |
| Fetch.CacheKeyCollides | final_project.py:393-415 | `{"a_b": "c"}` and `{"a": "b_c"}` under one category give the same key, although the documentation promises a unique key |
| Fetch.CacheFile.Open | final_project.py:355-376 | the cache is the stored object, or empty when the file is missing or unreadable |
| Fetch.GetData | final_project.py:417-454 | hit: the cached payload, cache and params unchanged; miss: params gain `api_key`, the network is asked with them, and a parsed payload is stored under the key computed before the injection |
| Fetch.FetchTwiceWithFreshDicts | final_project.py:417-454 | two calls with fresh dicts of the same params: after a successful first call, the second is a hit returning the same payload |
| Fetch.SearchKeyWithApiKey | final_project.py:409-414 | the key of `search` with `{q: x, api_key: K}` is `search_api_key_K_q_x` |
| Fetch.ReusedDictRefetches | final_project.py:438-451 | reusing one dict after a miss: the second call fetches again and the cache ends with a key containing the API key |
| Fetch.GetDataKeepingParams | final_project.py:417-454 | the corrected fetch: the same hit and miss behaviour, but the API key goes into a copy and the caller's params are unchanged |
| Fetch.FetchTwiceKeepingParams | final_project.py:417-454 | with the corrected fetch, asking twice with the same params is a hit the second time |
| Teams.GetTeams | final_project.py:92-118 | the keys are the distinct regions in order of first row; each region maps to the teams of its rows in row order without the first |
| Teams.GetTeamsHidesOnlyTeam | final_project.py:111-116 | a region with a single team row maps to the empty list |
| Teams.GetAllTeams | final_project.py:111-116 | the corrected grouping: each region maps to all the teams of its rows, in row order |
| Teams.TeamsInComplete | final_project.py:111-116 | every row's team is listed under that row's region by the corrected grouping |
| Teams.TeamNameIsPrefix | final_project.py:822 | `split(' (')[0]` is a prefix of the scraped name with no `" ("` in it; a name without one is kept whole |
| Teams.ActiveTeamsKeys | final_project.py:810-825 | every region appears once, in the order of its first box |
| Teams.ActiveTeamsOfRegion | final_project.py:810-825 | a region maps to the cleaned team names of its last box, in span order |
| Teams.ActiveTeamsAbsent | final_project.py:810-825 | a region with no box is absent |
| Teams.DecodeTeamsJson | final_project.py:828 | the dict written to the cache reads back unchanged |
| Teams.GetActiveTeams | final_project.py:781-831 | the key is `active_teams_`; a hit returns the cached object unchanged; a miss returns the dict of the boxes and writes it through |
| Teams.ActiveProPlayersOfPortal | final_project.py:833-847 | the affiliations of the scraped boxes on a first run; on later runs, those of the cached dict read back |
| Resolve.QueryComplete | final_project.py:718-722 | every registry player whose lower-cased team equals the needle is found |
| Resolve.QuerySound | final_project.py:718-722 | only such players are found |
| Resolve.QueryAppend | final_project.py:718-722 | the query keeps registry order |
| Resolve.ExactMatchWins | final_project.py:716-724 | when some team matches the scraped name up to case, those rows are used and the name is kept as scraped |
| Resolve.StrippedNameWins | final_project.py:724-730 | when the name as written matches nobody and the text after its last `"Team "` matches someone, that text is the lookup and the name in the tuples, and no alias is tried (an unfolding of `Resolve`) |
| Resolve.TeamPrefixStripped | final_project.py:724-730 | `"Team " + rest` that matches nobody is looked up as `rest`, which becomes the name in the tuples |
| Resolve.AliasOnlyAsLastResort | final_project.py:731-737 | the alias is queried only when both earlier lookups found nobody, with the alias spelled as in the table (an unfolding of `Resolve`) |
| Resolve.ResolvedLabel | final_project.py:724-740 | the name in the tuples is the scraped name when step one wins, otherwise a suffix of it with no `"Team "` left |
| Resolve.ResolvedRowsSound | final_project.py:716-737 | every row found is a registry player matching one of the names the chain queries |
| Resolve.UnmatchedTeamContributesNothing | final_project.py:716-740 | a team matching nobody at any step yields no tuple |
| Resolve.TeamAffiliationsFound | final_project.py:738-740 | a tuple is produced for a team exactly when its player was found, with the resolved name and the region |
| Resolve.TeamsAffiliationsMember | final_project.py:716-740 | the tuples of a region are those of its teams, in team order |
| Resolve.RegionsAffiliationsMember | final_project.py:713-740 | the tuples of the run are those of its regions, in region order |
| Resolve.ActiveProPlayersHelper | final_project.py:693-741 | the result is the concatenation, in region order, team order and row order, of one tuple per player found |
| Resolve.AffiliationSound | final_project.py:693-741 | every tuple was produced for a team listed under its region |
| Resolve.AffiliationComplete | final_project.py:693-741 | every tuple produced for a listed team is in the result |
| Resolve.AffiliationMember | final_project.py:693-741 | both directions together: membership in the result is exactly being found for some listed team |
| Matches.WinFlag | final_project.py:896-907 | the flag is 0 or 1, and 1 exactly when `radiant_win` agrees with the player being in slot 0 |
| Matches.RoundHalfEven | final_project.py:909 | `round(n / d)`: within half a unit of `n / d`, and even on a tie |
| Matches.Records | final_project.py:890-893 | only match records remain, with tuple-shaped items dropped, and every match record of the input is kept |
| Matches.PlayerMatchesHelper | final_project.py:873-919 | the rows are `Normalize` of the list |
| Matches.NormalizeAppend | final_project.py:890-893 | a skipped item does not stop the loop: the rows of two lists are the rows of each, in order |
| Matches.NormalizeRows | final_project.py:890-917 | one row per match record, in input order, each the record's row |
| Matches.NormalizeAccount | final_project.py:917 | every row carries the given account id |
| Matches.HeroName | final_project.py:342-352 | a name found is a `(Id, name)` row of the table; none is found only when no row has that id |
| Matches.FindHeroNames | final_project.py:324-353 | one name per id, `"NULL"` for a `"NULL"` id or an unknown id |
| Matches.DisplayNameOfId | final_project.py:339-352 | an id in no hero row shows as `"NULL"`; an id in some row shows as a name that row's id has |
| Matches.WinTextOfRecord | final_project.py:175-178 | the page shows `"Won"` exactly when the player's side won, and `"Lost"` otherwise |
| Matches.RowsOf | final_project.py:159-164 | the selected rows carry the queried account and come from the table |
| Matches.RowsOfNormalized | final_project.py:849-871 | after the player's matches are stored, the display query returns all of them, in order |
| Matches.FormatMatchInfoHelper | final_project.py:144-187 | the eight lists hold, position by position, the fields of the player's rows, with the win text and the hero name |
| Matches.DisplayedOutcome | final_project.py:172-187 | stored and read back, the k-th match record shows `"Won"` exactly when the player's side won |
| Search.KeptAppend | final_project.py:957-966 | the hits keep input order across the list |
| Search.KeptSound | final_project.py:957-966 | every hit comes from an item with a last match time, with its id, name and time |
| Search.KeptComplete | final_project.py:957-966 | no item with a last match time is dropped before the cap |
| Search.UserSearch | final_project.py:937-972 | at most ten hits: the first ten of the kept items, or all of them when there are fewer |
| Heroes.DecodeHeroJson | final_project.py:1048-1055 | a hero dict written to the cache reads back as the same hero |
| Heroes.GetHeroLinks | final_project.py:974-1010 | the key is `heroes_`; a hit returns the cached list unchanged; a miss stores and returns the scraped hrefs |
| Heroes.DetailKeyInjective | final_project.py:1029 | different hero pages have different fingerprints |
| Heroes.FetchedCacheKeeps | final_project.py:1026-1056 | visiting the pages never changes an entry cached before |
| Heroes.FetchedCacheHolds | final_project.py:1026-1056 | afterwards every link is cached: with its old entry if it had one, and with the hero of its page otherwise |
| Heroes.FetchedCacheNew | final_project.py:1026-1056 | every added entry is the hero of one of the links |
| Heroes.DetailsOfLinks | final_project.py:1012-1057 | one item per link: the entry cached before if there was one, the hero of its page otherwise |
| Heroes.GetHeroDetail | final_project.py:1012-1057 | the new cache and the list are those of visiting the links in order; a link already cached, including one repeated earlier in the list, is read from the cache instead of its page |
| Heroes.HeroInfoApi | final_project.py:1059-1084 | the dict is the constants re-keyed by display name, with the patch applied last |
| Heroes.HeroIdsPatched | final_project.py:1080-1082 | `Hoodwink` is present with id 123 |
| Heroes.HeroIdsKeys | final_project.py:1076-1082 | the keys are the display names in order of first hero, then `Hoodwink` if no hero had that name |
| Heroes.HeroIdsLastWins | final_project.py:1076-1078 | among heroes sharing a display name, the last one's id is kept |
| Heroes.HeroIdsAbsent | final_project.py:1076-1082 | a name that is no hero's display name, other than `Hoodwink`, is absent |
| Heroes.RateAtLeastMeansRate | final_project.py:1086-1099 | the cross-multiplied comparison agrees with comparing `wins / games_played` as rationals |
| Heroes.RateAtLeastTransitive | final_project.py:1161 | comparing rates is transitive |
| Heroes.RateAtLeastIsOrder | final_project.py:1161 | comparing rates is a total preorder, so the sort is well defined |
| Heroes.Qualifying | final_project.py:1148-1159 | every kept matchup has at least ten games |
| Heroes.QualifyingComplete | final_project.py:1148-1159 | every matchup with at least ten games is kept |
| Heroes.QualifyingSound | final_project.py:1148-1159 | every kept item is a matchup with at least ten games, with its id, wins and games |
| Heroes.RankedIsStableDescending | final_project.py:1161 | the ranking is a permutation of the kept items, descending by rate, with ties in input order |
| Heroes.RankedLength | final_project.py:1161 | ranking keeps every kept item |
| Heroes.RankedExtremes | final_project.py:1161 | the ranking descends, holds only kept items, and its first and last elements bound every kept item |
| Heroes.RateData | final_project.py:1146-1161 | the inner loop and the sort give the ranking of the hero's matchups |
| Heroes.EntryOfRanking | final_project.py:1146-1175 | a hero with matchup data gets the row of its ranking (an unfolding of `HeroEntry`, used by `RowOfHero`) |
| Heroes.RowOfHero | final_project.py:1119-1175 | one pass of the loop gives the hero's row or its fault |
| Heroes.HeroesRowsFault | final_project.py:1118-1176 | a fault of one hero is a fault of the whole run |
| Heroes.HeroesHelper | final_project.py:1101-1176 | the rows of the heroes in order, or the index fault of the first hero with fewer than three kept matchups |
| Heroes.NoDataRow | final_project.py:1131-1145 | a hero without matchup data gets a row with its id (0 for an unknown name), name, image and bio, and twelve zeros |
| Heroes.RowExistsIff | final_project.py:1146-1173 | with matchup data, a row exists exactly when at least three matchups have ten or more games |
| Heroes.PicksAreExtremes | final_project.py:1161-1173 | the best three are kept items in descending order, at or above every later item; the worst three ascend and are at or below every earlier item |
| Heroes.PicksOverlapWhenThree | final_project.py:1162-1173 | with exactly three kept items, the worst three are the best three reversed |
| Heroes.PicksDisjointFromSix | final_project.py:1162-1173 | with six or more kept items, the picks are six different positions of the ranking |
| Heroes.TwoKeptIsAFault | final_project.py:1148-1173 | samples (1: 20 games, 15 wins), (2: 5, 4) and (3: 12, 3): matchup 2 is dropped, 1 ranks before 3, and two kept items are an index fault |
| Text.LowerIdempotent | final_project.py:720 | lower-casing twice is lower-casing once, so the needle compares with `LOWER(team_name)` consistently |
| Text.FindSpec | final_project.py:725 | the separator is found at its leftmost occurrence, and not found exactly when absent |
| Text.JoinSplit | final_project.py:725 | joining the pieces of a split with the separator gives the string back |
| Text.SplitWithoutSeparator | final_project.py:725 | a string without the separator splits into itself |
| Text.LastPiece | final_project.py:725 | `split(sep)[-1]` is a suffix of the string with no separator in it |
| Text.FirstPiece | final_project.py:822 | `split(sep)[0]` is a prefix of the string with no separator in it |
| Text.SplitAfterPrefix | final_project.py:725 | `(sep + rest).split(sep)[-1]` is `rest` when `rest` has no separator |
| Text.DecimalRoundTrip | final_project.py:909 | the digits `str` prints for a natural number read back as that number |
| Text.IntToDecimalInjective | final_project.py:412 | `str` is injective on ints |
| Text.StrLeTotal | final_project.py:413 | any two strs compare one way or the other |
| Text.StrLeTransitive | final_project.py:413 | the str order is transitive |
| Text.StrLeAntisymmetric | final_project.py:413 | two strs each at most the other are equal |
| PyDict.Index | final_project.py:1123 | a key is found exactly when it is a key of the dict, at its position |
| PyDict.Get | final_project.py:1126 | `d[k]` exists exactly when `k` is a key, and it is the value paired with `k` |
| PyDict.Put | final_project.py:1078 | `d[k] = v` makes `k` map to `v`, changes no other key, and appends `k` to the key order only if it is new |
| PyDict.Dedup | final_project.py:1076-1078 | the distinct keys in order of first appearance |
| PyDict.PutAllKeys | final_project.py:1076-1078 | the keys of a dict built by assignments are the assigned keys in order of first assignment |
| PyDict.PutAllLast | final_project.py:1076-1078 | a key holds the value of its last assignment |
| PyDict.PutAllAbsent | final_project.py:1076-1078 | a key never assigned is absent |
| Sorting.Insert | final_project.py:1161 | inserting adds exactly one element |
| Sorting.Sort | final_project.py:1161 | the sort is a permutation of its input |
| Sorting.SortSorted | final_project.py:1161 | under a total preorder the result is ordered |
| Sorting.SortStable | final_project.py:1161 | equivalent elements keep their input order |
| Sorting.HeadFirst | final_project.py:1162 | the first element of an ordered list comes before every element |
| Sorting.LastAfter | final_project.py:1168 | every element of an ordered list comes before its last one |
| Sorting.SortedUnique | final_project.py:413 | under a linear order an ordered arrangement of a multiset is unique |
| Sorting.SortDeterminedByMultiset | final_project.py:413 | under a linear order, two rearrangements of the same elements sort to the same list |
| Json.DecodeStringsJson | final_project.py:1007 | a list of strs stored in the cache reads back unchanged |

## Left out

- The Flask routes, templates and matplotlib charts (`final_project.py:24-90`, `189-322`) are presentation, not part of this model.
- `search_hero` and `hero_search_parser` serve the hero search page and are not part of this model. So are `get_players_by_team`, `get_n_store_ProPlayers` and `get_n_store_Heroes`, which only move data to and from the database.
- Creating, dropping and inserting into the sqlite tables, and `DB_query`, are left out. A table is the sequence of its rows in query order. The f-string SQL and its quoting are not modelled.
- `open_cache` and `save_cache` do file I/O and JSON (de)serialisation. The cache file is the in-memory map `CacheFile.entries`, and an unreadable file is the empty map. `get_hero_detail` re-opens the cache on every iteration; because each save writes the whole map, this is the same as one map.
- `requests.get` is the parameter `net`, and BeautifulSoup parsing is the parsed values given as parameters. Only `split(' (')[0]` on the scraped names is modelled; `.strip()` on the hero bio is left to the page parameter.
- `epoch_conv` depends on the time zone through `time.localtime`. It is the parameter `localTime`, plus the `" GMT"` suffix.
- Floating point is not modelled. Rates are exact fractions compared by cross-multiplication, and duration rounding is integer half-even rounding, which agrees with Python's `round` for an int divided by 60.
- `str.lower()` and SQLite `LOWER` fold ASCII letters only. Python's Unicode case mapping for non-ASCII letters is not modelled.
- API entries are typed records. The `KeyError` a missing field would raise is not modelled. The one optional field, `last_match_time` of a search item, keeps apart an absent key (the item is skipped) and a JSON `null` (the hit is kept with `None`).
- Inside `Heroes_helper`, the `get_data` call for matchups is the parameter `matchups`. The dict values of `get_hero_info_api` are reduced to the hero ids, the only field `Heroes_helper` reads.
- Search.UserSearch: takes the decoded response of `get_data("search", {'q': player_name})` as the parameter `resultList` instead of fetching it through the cache.
- Heroes.HeroesHelper: takes the decoded `constants/heroes` response as a parameter instead of fetching it through the cache.
- Printing the "Using cache"/"Fetching" lines is the `fetched` result of `Fetch.GetData`. The same log lines of `get_active_teams` (`final_project.py:799`, `802`), `get_hero_links` (`992`, `995`) and `get_hero_detail` (`1032`, `1036`) are left out: `Teams.GetActiveTeams`, `Heroes.GetHeroLinks` and `Heroes.GetHeroDetail` have no such flag.

## Findings

| source | as written | input that shows it | evidently intended | confidence | as-written member | corrected member |
|---|---|---|---|---|---|---|
| final_project.py:445 | on a miss, `get_data` writes `api_key` into the caller's own `params` dict | one dict `{"q": "x"}` passed twice to `get_data("search", ...)` with an empty cache: the second fingerprint is `search_api_key_K_q_x`, so the API is asked again and the key is stored in the cache file | the documentation says the key is not cached and params come without it: the key goes into a copy and the second call is a hit; no caller in `final_project.py` reuses a dict, so the fault is latent | not executed | Fetch.GetData, Fetch.ReusedDictRefetches | Fetch.GetDataKeepingParams, Fetch.FetchTwiceKeepingParams |
| final_project.py:111-116 | a region seen for the first time gets an empty list, and that row's team is never appended | rows `[("OG", "Europe")]` give `{"Europe": []}` | the comment describes initialising the list; the team of that row belongs in it: `{"Europe": ["OG"]}` | not executed | Teams.GetTeams, Teams.GetTeamsHidesOnlyTeam | Teams.GetAllTeams, Teams.TeamsInComplete |
