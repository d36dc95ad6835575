/** The region-to-teams dicts of final_project.py: `get_teams`, which groups
    the rows of the `ActiveProPlayers` table by region for the teams page,
    and `get_active_teams`, which scrapes the regional team lists once and
    keeps them in the cache file under the fingerprint `active_teams_`. */
module Teams {
  import opened Wrappers
  import opened Text
  import opened PyDict
  import opened Json
  import opened Fetch
  import opened Resolve

  // ---------------------------------------------------------------------
  // get_teams
  // ---------------------------------------------------------------------

  /** The regions of `SELECT DISTINCT team_name, region` rows, row by row. */
  function Regions(rows: seq<(string, string)>): (r: seq<string>)
    ensures |r| == |rows|
  {
    if |rows| == 0 then [] else Regions(rows[..|rows| - 1]) + [rows[|rows| - 1].1]
  }

  /** The teams of the rows of `region`, in row order. */
  function TeamsIn(rows: seq<(string, string)>, region: string): (teams: seq<string>)
    ensures |teams| > 0 <==> region in Regions(rows)
  {
    if |rows| == 0 then []
    else
      var last := rows[|rows| - 1];
      TeamsIn(rows[..|rows| - 1], region) + (if last.1 == region then [last.0] else [])
  }

  lemma RowsStep(rows: seq<(string, string)>, i: int)
    requires 0 <= i < |rows|
    ensures Regions(rows[..i + 1]) == Regions(rows[..i]) + [rows[i].1]
  {
    assert rows[..i + 1][..i] == rows[..i];
  }

  lemma TeamsInStep(rows: seq<(string, string)>, i: int, region: string)
    requires 0 <= i < |rows|
    ensures TeamsIn(rows[..i + 1], region)
         == TeamsIn(rows[..i], region) + (if rows[i].1 == region then [rows[i].0] else [])
  {
    assert rows[..i + 1][..i] == rows[..i];
  }

  lemma DropFirstAppend(s: seq<string>, x: string)
    requires |s| > 0
    ensures (s + [x])[1..] == s[1..] + [x]
  {
  }

  /** The list a region is given: the teams of its rows, without the first
      one when `dropFirst` holds. */
  function Listed(teams: seq<string>, dropFirst: bool): seq<string> {
    if dropFirst && |teams| > 0 then teams[1..] else teams
  }

  /** `d` is the grouping of `rows`: a key per region in the order the
      regions first occur, each mapped to its listed teams. */
  ghost predicate Grouped(d: Dict<string, seq<string>>, rows: seq<(string, string)>, dropFirst: bool) {
    && Keys(d) == Dedup(Regions(rows))
    && forall region {:trigger Get(d, region)} :: Get(d, region) == if region in Regions(rows) then Some(Listed(TeamsIn(rows, region), dropFirst)) else None
  }

  /** The value the loop body assigns to the region of `row`. */
  function NextList(d: Dict<string, seq<string>>, row: (string, string), dropFirst: bool): seq<string> {
    if row.1 !in Keys(d) then (if dropFirst then [] else [row.0])
    else Get(d, row.1).value + [row.0]
  }

  /** One row of the loop keeps the grouping. */
  lemma GroupedStep(rows: seq<(string, string)>, i: int, prev: Dict<string, seq<string>>, dropFirst: bool)
    requires 0 <= i < |rows| && Grouped(prev, rows[..i], dropFirst)
    ensures Grouped(Put(prev, rows[i].1, NextList(prev, rows[i], dropFirst)), rows[..i + 1], dropFirst)
  {
    var next := Put(prev, rows[i].1, NextList(prev, rows[i], dropFirst));
    GroupedKeysStep(rows, i, prev, next);
    GroupedValuesStep(rows, i, prev, next, dropFirst);
  }

  lemma GroupedKeysStep(rows: seq<(string, string)>, i: int, prev: Dict<string, seq<string>>, next: Dict<string, seq<string>>)
    requires 0 <= i < |rows| && Keys(prev) == Dedup(Regions(rows[..i]))
    requires Keys(next) == if rows[i].1 in Keys(prev) then Keys(prev) else Keys(prev) + [rows[i].1]
    ensures Keys(next) == Dedup(Regions(rows[..i + 1]))
  {
    RowsStep(rows, i);
    DedupStep(Regions(rows[..i]), rows[i].1);
  }

  lemma GroupedValuesStep(rows: seq<(string, string)>, i: int, prev: Dict<string, seq<string>>,
                          next: Dict<string, seq<string>>, dropFirst: bool)
    requires 0 <= i < |rows| && Grouped(prev, rows[..i], dropFirst)
    requires next == Put(prev, rows[i].1, NextList(prev, rows[i], dropFirst))
    ensures forall r {:trigger Get(next, r)} :: Get(next, r) == if r in Regions(rows[..i + 1]) then Some(Listed(TeamsIn(rows[..i + 1], r), dropFirst)) else None
  {
    forall r ensures Get(next, r) == if r in Regions(rows[..i + 1]) then Some(Listed(TeamsIn(rows[..i + 1], r), dropFirst)) else None {
      GroupedAt(rows, i, prev, next, r, dropFirst);
    }
  }

  lemma GroupedAt(rows: seq<(string, string)>, i: int, prev: Dict<string, seq<string>>,
                  next: Dict<string, seq<string>>, r: string, dropFirst: bool)
    requires 0 <= i < |rows|
    requires Keys(prev) == Dedup(Regions(rows[..i]))
    requires Get(prev, r) == if r in Regions(rows[..i]) then Some(Listed(TeamsIn(rows[..i], r), dropFirst)) else None
    requires next == Put(prev, rows[i].1, NextList(prev, rows[i], dropFirst))
    ensures Get(next, r) == if r in Regions(rows[..i + 1]) then Some(Listed(TeamsIn(rows[..i + 1], r), dropFirst)) else None
  {
    RowsStep(rows, i);
    TeamsInStep(rows, i, r);
    if r != rows[i].1 {
      GroupedOther(rows, i, prev, next, r, dropFirst);
    } else if r !in Keys(prev) {
      GroupedNew(rows, i, prev, next, dropFirst);
    } else {
      GroupedSeen(rows, i, prev, next, dropFirst);
    }
  }

  /** Another region's list is untouched. */
  lemma GroupedOther(rows: seq<(string, string)>, i: int, prev: Dict<string, seq<string>>,
                     next: Dict<string, seq<string>>, r: string, dropFirst: bool)
    requires 0 <= i < |rows| && r != rows[i].1
    requires Regions(rows[..i + 1]) == Regions(rows[..i]) + [rows[i].1]
    requires TeamsIn(rows[..i + 1], r) == TeamsIn(rows[..i], r)
    requires Get(prev, r) == if r in Regions(rows[..i]) then Some(Listed(TeamsIn(rows[..i], r), dropFirst)) else None
    requires next == Put(prev, rows[i].1, NextList(prev, rows[i], dropFirst))
    ensures Get(next, r) == if r in Regions(rows[..i + 1]) then Some(Listed(TeamsIn(rows[..i + 1], r), dropFirst)) else None
  {
    assert r in Regions(rows[..i + 1]) <==> r in Regions(rows[..i]);
  }

  /** A region seen for the first time starts its list. */
  lemma GroupedNew(rows: seq<(string, string)>, i: int, prev: Dict<string, seq<string>>,
                   next: Dict<string, seq<string>>, dropFirst: bool)
    requires 0 <= i < |rows| && rows[i].1 !in Keys(prev)
    requires Keys(prev) == Dedup(Regions(rows[..i]))
    requires Regions(rows[..i + 1]) == Regions(rows[..i]) + [rows[i].1]
    requires TeamsIn(rows[..i + 1], rows[i].1) == TeamsIn(rows[..i], rows[i].1) + [rows[i].0]
    requires next == Put(prev, rows[i].1, NextList(prev, rows[i], dropFirst))
    ensures Get(next, rows[i].1) == Some(Listed(TeamsIn(rows[..i + 1], rows[i].1), dropFirst))
  {
    var (team, region) := rows[i];
    assert region !in Regions(rows[..i]);
    assert TeamsIn(rows[..i], region) == [];
    assert TeamsIn(rows[..i + 1], region) == [team];
    assert [team][1..] == [];
    assert NextList(prev, rows[i], dropFirst) == Listed([team], dropFirst);
  }

  /** A region seen before gets the row's team appended. */
  lemma GroupedSeen(rows: seq<(string, string)>, i: int, prev: Dict<string, seq<string>>,
                    next: Dict<string, seq<string>>, dropFirst: bool)
    requires 0 <= i < |rows| && rows[i].1 in Keys(prev)
    requires Keys(prev) == Dedup(Regions(rows[..i]))
    requires Get(prev, rows[i].1) == if rows[i].1 in Regions(rows[..i]) then Some(Listed(TeamsIn(rows[..i], rows[i].1), dropFirst)) else None
    requires TeamsIn(rows[..i + 1], rows[i].1) == TeamsIn(rows[..i], rows[i].1) + [rows[i].0]
    requires next == Put(prev, rows[i].1, NextList(prev, rows[i], dropFirst))
    ensures Get(next, rows[i].1) == Some(Listed(TeamsIn(rows[..i + 1], rows[i].1), dropFirst))
  {
    assert rows[i].1 in Regions(rows[..i]);
    var teams := TeamsIn(rows[..i], rows[i].1);
    assert |teams| > 0;
    DropFirstAppend(teams, rows[i].0);
  }

  /** `get_teams()` over the rows `rows` of the query, in the order returned.
      A region seen for the first time is given an empty list and its team
      is not added: each region lists every team of its rows but the first. */
  method GetTeams(rows: seq<(string, string)>) returns (teamDict: Dict<string, seq<string>>)
    ensures Keys(teamDict) == Dedup(Regions(rows))
    ensures forall region {:trigger Get(teamDict, region)} :: Get(teamDict, region)
                          == if region in Regions(rows) then Some(TeamsIn(rows, region)[1..]) else None
  {
    teamDict := [];
    for i := 0 to |rows|
      invariant Grouped(teamDict, rows[..i], true)
    {
      var (team, region) := rows[i];
      GroupedStep(rows, i, teamDict, true);
      if region !in Keys(teamDict) {
        teamDict := Put(teamDict, region, []);
      } else {
        teamDict := Put(teamDict, region, Get(teamDict, region).value + [team]);
      }
    }
    assert rows[..|rows|] == rows;
  }

  /** A region with a single team shows no team at all. */
  method GetTeamsHidesOnlyTeam() returns (teamDict: Dict<string, seq<string>>)
    ensures Get(teamDict, "Europe") == Some([])
  {
    var rows := [("OG", "Europe")];
    assert TeamsIn(rows, "Europe") == ["OG"] by {
      assert rows[..0] == [];
      assert TeamsIn(rows, "Europe") == TeamsIn([], "Europe") + ["OG"];
    }
    assert "Europe" in Regions(rows) by {
      assert Regions(rows) == Regions([]) + ["Europe"] by {
        assert rows[..0] == [];
      }
    }
    teamDict := GetTeams(rows);
    assert ["OG"][1..] == [];
  }

  /** `get_teams()` as its comment means it: a region seen for the first time
      starts its list with that row's team. */
  method GetAllTeams(rows: seq<(string, string)>) returns (teamDict: Dict<string, seq<string>>)
    ensures Keys(teamDict) == Dedup(Regions(rows))
    ensures forall region {:trigger Get(teamDict, region)} :: Get(teamDict, region)
                          == if region in Regions(rows) then Some(TeamsIn(rows, region)) else None
  {
    teamDict := [];
    for i := 0 to |rows|
      invariant Grouped(teamDict, rows[..i], false)
    {
      var (team, region) := rows[i];
      GroupedStep(rows, i, teamDict, false);
      if region !in Keys(teamDict) {
        teamDict := Put(teamDict, region, [team]);
      } else {
        teamDict := Put(teamDict, region, Get(teamDict, region).value + [team]);
      }
    }
    assert rows[..|rows|] == rows;
  }

  /** Every team of a row is listed under the row's region by the corrected
      grouping. */
  lemma {:induction false} TeamsInComplete(rows: seq<(string, string)>, i: int)
    requires 0 <= i < |rows|
    ensures rows[i].0 in TeamsIn(rows, rows[i].1)
  {
    var n := |rows| - 1;
    if i < n {
      TeamsInComplete(rows[..n], i);
    }
  }

  // ---------------------------------------------------------------------
  // get_active_teams
  // ---------------------------------------------------------------------

  /** One `panel-box` of the teams portal: the text of its heading link and
      the `data-highlightingclass` of each team span in its body. */
  datatype RegionBox = RegionBox(heading: string, teamClasses: seq<string>)

  const ParenSeparator: string := " ("

  /** `name.split(' (')[0]`: the team name without a parenthesised remark. */
  function TeamName(raw: string): string {
    Split(raw, ParenSeparator)[0]
  }

  /** The cleaned name is a prefix of the scraped one with no `" ("` in it,
      and a name without a remark is kept whole. */
  lemma TeamNameIsPrefix(raw: string)
    ensures var t := TeamName(raw); |t| <= |raw| && t == raw[..|t|] && !Contains(t, ParenSeparator)
    ensures !Contains(raw, ParenSeparator) ==> TeamName(raw) == raw
  {
    FirstPiece(raw, ParenSeparator);
  }

  function TeamNames(classes: seq<string>): (names: seq<string>)
    ensures |names| == |classes|
  {
    if |classes| == 0 then [] else TeamNames(classes[..|classes| - 1]) + [TeamName(classes[|classes| - 1])]
  }

  /** The assignments `active_teams[region_name] = region_team`, one per box. */
  function RegionPairs(boxes: seq<RegionBox>): Dict<string, seq<string>> {
    seq(|boxes|, i requires 0 <= i < |boxes| => (boxes[i].heading, TeamNames(boxes[i].teamClasses)))
  }

  /** The dict `get_active_teams` builds from the boxes. */
  function ActiveTeams(boxes: seq<RegionBox>): Dict<string, seq<string>> {
    PutAll(RegionPairs(boxes))
  }

  /** The regions appear once each, in the order of their first box. */
  lemma ActiveTeamsKeys(boxes: seq<RegionBox>)
    ensures Keys(ActiveTeams(boxes)) == Dedup(Keys(RegionPairs(boxes)))
    ensures forall i :: 0 <= i < |boxes| ==> Keys(RegionPairs(boxes))[i] == boxes[i].heading
  {
    PutAllKeys(RegionPairs(boxes));
    forall i | 0 <= i < |boxes| ensures Keys(RegionPairs(boxes))[i] == boxes[i].heading {
      KeysAt(RegionPairs(boxes), i);
    }
  }

  /** A region maps to the cleaned names of its last box, in span order. */
  lemma ActiveTeamsOfRegion(boxes: seq<RegionBox>, i: int)
    requires 0 <= i < |boxes|
    requires forall j :: i < j < |boxes| ==> boxes[j].heading != boxes[i].heading
    ensures Get(ActiveTeams(boxes), boxes[i].heading) == Some(TeamNames(boxes[i].teamClasses))
  {
    PutAllLast(RegionPairs(boxes), i);
  }

  /** A heading of no box is not a key. */
  lemma ActiveTeamsAbsent(boxes: seq<RegionBox>, region: string)
    requires forall j :: 0 <= j < |boxes| ==> boxes[j].heading != region
    ensures Get(ActiveTeams(boxes), region) == None
  {
    PutAllAbsent(RegionPairs(boxes), region);
  }

  // ---------------------------------------------------------------------
  // The dict as it is stored in the cache file
  // ---------------------------------------------------------------------

  function TeamsJson(teamDict: Dict<string, seq<string>>): Json {
    JObj(seq(|teamDict|, i requires 0 <= i < |teamDict| => (teamDict[i].0, StringsJson(teamDict[i].1))))
  }

  function DecodeFields(fields: Dict<string, Json>): Option<Dict<string, seq<string>>> {
    if |fields| == 0 then Some([])
    else match (fields[0].1, DecodeFields(fields[1..]))
      case (JArr(items), Some(rest)) =>
        (match DecodeStrings(items)
         case Some(names) => Some([(fields[0].0, names)] + rest)
         case None => None)
      case _ => None
  }

  /** Reading a cached region-to-teams object back as a dict; `None` for a
      payload of another shape. */
  function DecodeTeams(j: Json): Option<Dict<string, seq<string>>> {
    match j
    case JObj(fields) => DecodeFields(fields)
    case _ => None
  }

  /** What is written to the cache file reads back as the same dict. */
  lemma {:induction false} DecodeTeamsJson(teamDict: Dict<string, seq<string>>)
    ensures DecodeTeams(TeamsJson(teamDict)) == Some(teamDict)
  {
    if |teamDict| > 0 {
      DecodeTeamsJson(teamDict[1..]);
      DecodeStringsJson(teamDict[0].1);
      assert TeamsJson(teamDict).fields[1..] == TeamsJson(teamDict[1..]).fields;
      assert teamDict == [teamDict[0]] + teamDict[1..];
    }
  }

  lemma TeamNamesStep(spans: seq<string>, k: int)
    requires 0 <= k < |spans|
    ensures TeamNames(spans[..k + 1]) == TeamNames(spans[..k]) + [Split(spans[k], ParenSeparator)[0]]
  {
    assert spans[..k + 1][..k] == spans[..k];
  }

  lemma ActiveTeamsStep(boxes: seq<RegionBox>, i: int)
    requires 0 <= i < |boxes|
    ensures ActiveTeams(boxes[..i + 1]) == Put(ActiveTeams(boxes[..i]), boxes[i].heading, TeamNames(boxes[i].teamClasses))
  {
    assert RegionPairs(boxes[..i + 1])[..i] == RegionPairs(boxes[..i]);
  }

  /** `get_active_teams()`: the cached object when the fingerprint
      `active_teams_` is present; otherwise the dict built from the scraped
      boxes `boxes`, written through to the cache. */
  method GetActiveTeams(cache: CacheFile, boxes: seq<RegionBox>) returns (r: Json)
    modifies cache
    ensures "active_teams_" in old(cache.entries) ==> r == old(cache.entries)["active_teams_"] && cache.entries == old(cache.entries)
    ensures "active_teams_" !in old(cache.entries) ==> r == TeamsJson(ActiveTeams(boxes)) && cache.entries == old(cache.entries)["active_teams_" := r]
  {
    var cacheKey := UniqueKey("active_teams", []);
    assert cacheKey == "active_teams_";
    if cacheKey in cache.entries {
      return cache.entries[cacheKey];
    }
    var activeTeams: Dict<string, seq<string>> := [];
    for i := 0 to |boxes|
      invariant activeTeams == ActiveTeams(boxes[..i])
      invariant cache.entries == old(cache.entries)
    {
      var regionName := boxes[i].heading;
      var regionTeam: seq<string> := [];
      var spans := boxes[i].teamClasses;
      for k := 0 to |spans|
        invariant regionTeam == TeamNames(spans[..k])
        invariant cache.entries == old(cache.entries)
      {
        var regionTeamName := Split(spans[k], ParenSeparator)[0];
        TeamNamesStep(spans, k);
        regionTeam := regionTeam + [regionTeamName];
      }
      assert spans[..|spans|] == spans;
      ActiveTeamsStep(boxes, i);
      activeTeams := Put(activeTeams, regionName, regionTeam);
    }
    assert boxes[..|boxes|] == boxes;
    r := TeamsJson(activeTeams);
    cache.entries := cache.entries[cacheKey := r];
  }

  /** `get_n_store_ActiveProPlayers()` up to the database insert: the
      affiliations of the teams `get_active_teams` returns. On a first run
      they are those of the scraped boxes; on later runs, the cached object
      is read back, and a cached object of another shape gives `None`. */
  method ActiveProPlayersOfPortal(cache: CacheFile, boxes: seq<RegionBox>, registry: seq<ProPlayer>)
    returns (affiliations: Option<seq<Affiliation>>)
    modifies cache
    ensures "active_teams_" !in old(cache.entries) ==> affiliations == Some(AllAffiliations(ActiveTeams(boxes), registry))
    ensures "active_teams_" in old(cache.entries) ==>
      affiliations == match DecodeTeams(old(cache.entries)["active_teams_"])
                      case Some(d) => Some(AllAffiliations(d, registry))
                      case None => None
  {
    var teams := GetActiveTeams(cache, boxes);
    DecodeTeamsJson(ActiveTeams(boxes));
    match DecodeTeams(teams)
    case None =>
      affiliations := None;
    case Some(teamDict) =>
      var found := ActiveProPlayersHelper(teamDict, registry);
      affiliations := Some(found);
  }
}
