/** `ActiveProPlayers_helper`: matching the team names scraped per region
    against the player registry (the `ProPlayers` table). Each team is looked
    up by a case-insensitive exact match on the registry's team column; when
    that finds nobody, the text after the last `"Team "` is tried, and when
    that finds nobody either, a fixed alias table gives one more name. */
module Resolve {
  import opened Wrappers
  import opened Text
  import opened PyDict

  /** A row of the `ProPlayers` table: its surrogate key `Id`, the player's
      name and the team column, which may be NULL. */
  datatype ProPlayer = ProPlayer(id: int, name: string, teamName: Option<string>)

  /** A row for the `ActiveProPlayers` table:
      `(Proplayer_name, team_name, region, table_id)`. */
  datatype Affiliation = Affiliation(playerName: string, teamName: string, region: string, tableId: int)

  const TeamPrefix: string := "Team "

  /** `alias_dict`: an organisation whose scraped name is written with ASCII
      letters while the registry spells it with a Greek capital omega. */
  const AliasTable: Dict<string, string> := [("omega gaming", "\U{03A9}mega gaming")]

  /** `LOWER(team_name) = needle`; a NULL team column matches nothing. */
  predicate TeamIs(p: ProPlayer, needle: string) {
    p.teamName.Some? && Lower(p.teamName.value) == needle
  }

  /** `SELECT name, Id FROM ProPlayers WHERE LOWER(team_name) = needle`,
      in registry order. */
  function Query(registry: seq<ProPlayer>, needle: string): (rows: seq<(string, int)>)
    ensures |rows| <= |registry|
  {
    if |registry| == 0 then []
    else
      (if TeamIs(registry[0], needle) then [(registry[0].name, registry[0].id)] else [])
      + Query(registry[1..], needle)
  }

  /** Every player whose team matches is found. */
  lemma {:induction false} QueryComplete(registry: seq<ProPlayer>, needle: string, p: ProPlayer)
    requires p in registry && TeamIs(p, needle)
    ensures (p.name, p.id) in Query(registry, needle)
  {
    if registry[0] != p {
      QueryComplete(registry[1..], needle, p);
    }
  }

  /** Only players whose team matches are found. */
  lemma {:induction false} QuerySound(registry: seq<ProPlayer>, needle: string, x: (string, int))
    requires x in Query(registry, needle)
    ensures exists p :: p in registry && TeamIs(p, needle) && x == (p.name, p.id)
  {
    if !(TeamIs(registry[0], needle) && x == (registry[0].name, registry[0].id)) {
      QuerySound(registry[1..], needle, x);
      var p :| p in registry[1..] && TeamIs(p, needle) && x == (p.name, p.id);
      assert p in registry;
    }
  }

  /** The query keeps registry order: the rows of a concatenated registry are
      the rows of the first part followed by those of the second. */
  lemma {:induction false} QueryAppend(a: seq<ProPlayer>, b: seq<ProPlayer>, needle: string)
    ensures Query(a + b, needle) == Query(a, needle) + Query(b, needle)
  {
    if |a| == 0 {
      assert a + b == b;
    } else {
      QueryAppend(a[1..], b, needle);
      QueryCons(a + b, a[0], a[1..] + b, needle);
      QueryCons(a, a[0], a[1..], needle);
      var head := Query([a[0]], needle);
      AppendAssoc(head, Query(a[1..], needle), Query(b, needle));
    }
  }

  lemma QueryCons(s: seq<ProPlayer>, p: ProPlayer, rest: seq<ProPlayer>, needle: string)
    requires s == [p] + rest
    ensures Query(s, needle) == Query([p], needle) + Query(rest, needle)
  {
    assert s[0] == p && s[1..] == rest;
    assert [p][1..] == [];
  }

  /** The outcome of the fallback chain for one team: the name written into
      the affiliation tuples and the registry rows found. */
  datatype Resolution = Resolution(teamLabel: string, rows: seq<(string, int)>)

  /** The three lookups for one scraped team name, in order. Only the first
      keeps the name as scraped; after it fails, the name is replaced by its
      last `"Team "`-separated piece, also for the alias lookup and in the
      output. */
  function Resolve(registry: seq<ProPlayer>, team: string): Resolution {
    var exact := Query(registry, Lower(team));
    if exact != [] then Resolution(team, exact)
    else
      var stripped := Last(Split(team, TeamPrefix));
      var second := Query(registry, Lower(stripped));
      var alias := Get(AliasTable, Lower(stripped));
      if second == [] && alias.Some? then Resolution(stripped, Query(registry, alias.value))
      else Resolution(stripped, second)
  }

  /** One tuple per row found, in the order found, all carrying the
      resolved name and the region. */
  function Tuples(region: string, teamLabel: string, rows: seq<(string, int)>): seq<Affiliation> {
    seq(|rows|, k requires 0 <= k < |rows| => Affiliation(rows[k].0, teamLabel, region, rows[k].1))
  }

  function TeamAffiliations(region: string, team: string, registry: seq<ProPlayer>): seq<Affiliation> {
    var res := Resolve(registry, team);
    Tuples(region, res.teamLabel, res.rows)
  }

  /** The sequences `f(x)` of the elements `x` of `xs`, concatenated in order. */
  function Concat<T, U>(f: T -> seq<U>, xs: seq<T>): seq<U> {
    if |xs| == 0 then [] else Concat(f, xs[..|xs| - 1]) + f(xs[|xs| - 1])
  }

  lemma ConcatStep<T, U>(f: T -> seq<U>, xs: seq<T>, j: int)
    requires 0 <= j < |xs|
    ensures Concat(f, xs[..j + 1]) == Concat(f, xs[..j]) + f(xs[j])
  {
    assert xs[..j + 1][..j] == xs[..j];
  }

  /** An element is in the concatenation exactly when one of the parts has it. */
  lemma {:induction false} ConcatMember<T, U>(f: T -> seq<U>, xs: seq<T>, a: U)
    ensures a in Concat(f, xs) <==> exists j :: 0 <= j < |xs| && a in f(xs[j])
  {
    if |xs| > 0 {
      var n := |xs| - 1;
      ConcatMember(f, xs[..n], a);
      if a in Concat(f, xs[..n]) {
        var j :| 0 <= j < n && a in f(xs[..n][j]);
        assert xs[j] == xs[..n][j];
      }
      if exists j :: 0 <= j < |xs| && a in f(xs[j]) {
        var j :| 0 <= j < |xs| && a in f(xs[j]);
        if j < n {
          assert xs[..n][j] == xs[j];
        }
      }
    }
  }

  /** The tuples of the teams `teams` of one region, in team order. */
  function TeamsAffiliations(region: string, teams: seq<string>, registry: seq<ProPlayer>): seq<Affiliation> {
    Concat(team => TeamAffiliations(region, team, registry), teams)
  }

  /** The tuples of one region of `teamDict`; none when it is not a key. */
  function RegionAffiliations(teamDict: Dict<string, seq<string>>, region: string, registry: seq<ProPlayer>): seq<Affiliation> {
    match Get(teamDict, region)
    case None => []
    case Some(teams) => TeamsAffiliations(region, teams, registry)
  }

  /** The tuples of the listed regions of `teamDict`, in region order. */
  function RegionsAffiliations(teamDict: Dict<string, seq<string>>, regions: seq<string>, registry: seq<ProPlayer>): seq<Affiliation> {
    Concat(region => RegionAffiliations(teamDict, region, registry), regions)
  }

  /** Everything `ActiveProPlayers_helper` returns for `teamDict`. */
  function AllAffiliations(teamDict: Dict<string, seq<string>>, registry: seq<ProPlayer>): seq<Affiliation> {
    RegionsAffiliations(teamDict, Keys(teamDict), registry)
  }

  lemma AppendAssoc<T>(a: seq<T>, b: seq<T>, c: seq<T>)
    ensures (a + b) + c == a + (b + c)
  {
  }

  lemma TuplesStep(region: string, teamLabel: string, rows: seq<(string, int)>, k: int)
    requires 0 <= k < |rows|
    ensures Tuples(region, teamLabel, rows[..k + 1])
         == Tuples(region, teamLabel, rows[..k]) + [Affiliation(rows[k].0, teamLabel, region, rows[k].1)]
  {
    assert rows[..k + 1][..k] == rows[..k];
  }

  lemma TeamsStep(region: string, teams: seq<string>, registry: seq<ProPlayer>, j: int)
    requires 0 <= j < |teams|
    ensures TeamsAffiliations(region, teams[..j + 1], registry)
         == TeamsAffiliations(region, teams[..j], registry) + TeamAffiliations(region, teams[j], registry)
  {
    ConcatStep(team => TeamAffiliations(region, team, registry), teams, j);
  }

  lemma RegionsStep(teamDict: Dict<string, seq<string>>, regions: seq<string>, registry: seq<ProPlayer>, i: int)
    requires 0 <= i < |regions| && Get(teamDict, regions[i]).Some?
    ensures RegionsAffiliations(teamDict, regions[..i + 1], registry)
         == RegionsAffiliations(teamDict, regions[..i], registry)
            + TeamsAffiliations(regions[i], Get(teamDict, regions[i]).value, registry)
  {
    ConcatStep(region => RegionAffiliations(teamDict, region, registry), regions, i);
  }

  /** `ActiveProPlayers_helper(team_dict)` over the registry `registry`. */
  method ActiveProPlayersHelper(teamDict: Dict<string, seq<string>>, registry: seq<ProPlayer>)
    returns (affiliations: seq<Affiliation>)
    ensures affiliations == AllAffiliations(teamDict, registry)
  {
    affiliations := [];
    var regionList := Keys(teamDict);
    for i := 0 to |regionList|
      invariant affiliations == RegionsAffiliations(teamDict, regionList[..i], registry)
    {
      var region := regionList[i];
      var teams := Get(teamDict, region).value;
      ghost var before := affiliations;
      for j := 0 to |teams|
        invariant affiliations == before + TeamsAffiliations(region, teams[..j], registry)
      {
        var teamName := teams[j];
        var result := Query(registry, Lower(teamName));
        if result == [] {
          teamName := Last(Split(teamName, TeamPrefix));
          result := Query(registry, Lower(teamName));
        }
        if result == [] && Get(AliasTable, Lower(teamName)).Some? {
          result := Query(registry, Get(AliasTable, Lower(teamName)).value);
        }
        assert Resolve(registry, teams[j]) == Resolution(teamName, result);
        ghost var mid := affiliations;
        for k := 0 to |result|
          invariant affiliations == mid + Tuples(region, teamName, result[..k])
        {
          TuplesStep(region, teamName, result, k);
          AppendAssoc(mid, Tuples(region, teamName, result[..k]), [Affiliation(result[k].0, teamName, region, result[k].1)]);
          affiliations := affiliations + [Affiliation(result[k].0, teamName, region, result[k].1)];
        }
        assert result[..|result|] == result;
        assert TeamAffiliations(region, teams[j], registry) == Tuples(region, teamName, result);
        TeamsStep(region, teams, registry, j);
        AppendAssoc(before, TeamsAffiliations(region, teams[..j], registry), Tuples(region, teamName, result));
      }
      assert teams[..|teams|] == teams;
      RegionsStep(teamDict, regionList, registry, i);
    }
    assert regionList[..|regionList|] == regionList;
  }

  // ---------------------------------------------------------------------
  // The fallback chain
  // ---------------------------------------------------------------------

  /** Step one wins: when some registry team equals the scraped name up to
      case, those rows are used and the name is kept as scraped. */
  lemma ExactMatchWins(registry: seq<ProPlayer>, team: string, p: ProPlayer)
    requires p in registry && TeamIs(p, Lower(team))
    ensures Resolve(registry, team) == Resolution(team, Query(registry, Lower(team)))
  {
    QueryComplete(registry, Lower(team), p);
  }

  /** Step two: a roster name `"Team " + rest` that matches nobody as written
      is looked up as `rest`, and `rest` is the name in the output. */
  lemma TeamPrefixStripped(registry: seq<ProPlayer>, rest: string, p: ProPlayer)
    requires !Contains(rest, TeamPrefix)
    requires Query(registry, Lower(TeamPrefix + rest)) == []
    requires p in registry && TeamIs(p, Lower(rest))
    ensures Resolve(registry, TeamPrefix + rest) == Resolution(rest, Query(registry, Lower(rest)))
  {
    SplitAfterPrefix(TeamPrefix, rest);
    QueryComplete(registry, Lower(rest), p);
  }

  /** Step two for any name: when the name as written matches nobody and
      the text after its last `"Team "` matches someone, that text is both
      the lookup and the name in the output, and the alias table is not
      consulted. */
  lemma StrippedNameWins(registry: seq<ProPlayer>, team: string)
    requires Query(registry, Lower(team)) == []
    requires Query(registry, Lower(Last(Split(team, TeamPrefix)))) != []
    ensures Resolve(registry, team)
         == Resolution(Last(Split(team, TeamPrefix)), Query(registry, Lower(Last(Split(team, TeamPrefix)))))
  {
  }

  /** The alias table is consulted only when both earlier lookups found
      nobody, and it is queried with the alias exactly as the table spells it. */
  lemma AliasOnlyAsLastResort(registry: seq<ProPlayer>, team: string)
    requires Query(registry, Lower(team)) == []
    requires Query(registry, Lower(Last(Split(team, TeamPrefix)))) == []
    requires Get(AliasTable, Lower(Last(Split(team, TeamPrefix)))).Some?
    ensures Resolve(registry, team)
         == Resolution(Last(Split(team, TeamPrefix)),
                       Query(registry, Get(AliasTable, Lower(Last(Split(team, TeamPrefix)))).value))
  {
  }

  /** The teamLabel written into the tuples is the scraped name when step one
      wins, and otherwise a suffix of it with no `"Team "` left in it. */
  lemma ResolvedLabel(registry: seq<ProPlayer>, team: string)
    ensures var res := Resolve(registry, team);
      && |res.teamLabel| <= |team| && res.teamLabel == team[|team| - |res.teamLabel|..]
      && (Query(registry, Lower(team)) != [] ==> res.teamLabel == team)
      && (Query(registry, Lower(team)) == [] ==> !Contains(res.teamLabel, TeamPrefix))
  {
    LastPiece(team, TeamPrefix);
  }

  /** The names the chain queries for `team`, in the order it tries them. */
  function Needles(team: string): seq<string> {
    var stripped := Last(Split(team, TeamPrefix));
    var alias := Get(AliasTable, Lower(stripped));
    [Lower(team), Lower(stripped)] + (if alias.Some? then [alias.value] else [])
  }

  /** Every row found belongs to a registry player whose team matches one of
      the names the chain queries. */
  lemma ResolvedRowsSound(registry: seq<ProPlayer>, team: string, x: (string, int))
    requires x in Resolve(registry, team).rows
    ensures exists p, needle :: (p in registry && needle in Needles(team) && TeamIs(p, needle) && x == (p.name, p.id))
  {
    var stripped := Last(Split(team, TeamPrefix));
    var alias := Get(AliasTable, Lower(stripped));
    if Query(registry, Lower(team)) != [] {
      QuerySound(registry, Lower(team), x);
      var p :| p in registry && TeamIs(p, Lower(team)) && x == (p.name, p.id);
      assert Lower(team) in Needles(team);
    } else if Query(registry, Lower(stripped)) == [] && alias.Some? {
      QuerySound(registry, alias.value, x);
      var p :| p in registry && TeamIs(p, alias.value) && x == (p.name, p.id);
      assert alias.value in Needles(team);
    } else {
      QuerySound(registry, Lower(stripped), x);
      var p :| p in registry && TeamIs(p, Lower(stripped)) && x == (p.name, p.id);
      assert Lower(stripped) in Needles(team);
    }
  }

  // ---------------------------------------------------------------------
  // What the whole run returns
  // ---------------------------------------------------------------------

  lemma TeamsAffiliationsMember(region: string, teams: seq<string>, registry: seq<ProPlayer>, a: Affiliation)
    ensures a in TeamsAffiliations(region, teams, registry)
        <==> exists j :: 0 <= j < |teams| && a in TeamAffiliations(region, teams[j], registry)
  {
    ConcatMember(team => TeamAffiliations(region, team, registry), teams, a);
  }

  lemma RegionsAffiliationsMember(teamDict: Dict<string, seq<string>>, regions: seq<string>,
                                  registry: seq<ProPlayer>, a: Affiliation)
    ensures a in RegionsAffiliations(teamDict, regions, registry)
        <==> exists i :: 0 <= i < |regions| && Get(teamDict, regions[i]).Some?
                      && a in TeamsAffiliations(regions[i], Get(teamDict, regions[i]).value, registry)
  {
    ConcatMember(region => RegionAffiliations(teamDict, region, registry), regions, a);
  }

  /** `a` is one of the tuples the chain produces for `team` in `region`. */
  predicate FoundBy(registry: seq<ProPlayer>, region: string, team: string, a: Affiliation) {
    var res := Resolve(registry, team);
    a.region == region && a.teamName == res.teamLabel && (a.playerName, a.tableId) in res.rows
  }

  lemma TeamAffiliationsFound(registry: seq<ProPlayer>, region: string, team: string, a: Affiliation)
    ensures a in TeamAffiliations(region, team, registry) <==> FoundBy(registry, region, team, a)
  {
    var res := Resolve(registry, team);
    var t := Tuples(region, res.teamLabel, res.rows);
    if a in t {
      var k :| 0 <= k < |t| && t[k] == a;
      assert (a.playerName, a.tableId) == res.rows[k];
    }
    if FoundBy(registry, region, team, a) {
      var k :| 0 <= k < |res.rows| && res.rows[k] == (a.playerName, a.tableId);
      assert t[k] == a;
    }
  }

  /** Every tuple of the output was produced for a team listed under its region. */
  lemma AffiliationSound(teamDict: Dict<string, seq<string>>, registry: seq<ProPlayer>, a: Affiliation)
    requires a in AllAffiliations(teamDict, registry)
    ensures exists region, team :: region in Keys(teamDict) && team in Get(teamDict, region).value
                                 && FoundBy(registry, region, team, a)
  {
    var regions := Keys(teamDict);
    RegionsAffiliationsMember(teamDict, regions, registry, a);
    var i :| 0 <= i < |regions| && Get(teamDict, regions[i]).Some?
           && a in TeamsAffiliations(regions[i], Get(teamDict, regions[i]).value, registry);
    var teams := Get(teamDict, regions[i]).value;
    TeamsAffiliationsMember(regions[i], teams, registry, a);
    var j :| 0 <= j < |teams| && a in TeamAffiliations(regions[i], teams[j], registry);
    TeamAffiliationsFound(registry, regions[i], teams[j], a);
    assert regions[i] in Keys(teamDict) && teams[j] in Get(teamDict, regions[i]).value;
  }

  /** Every tuple the chain produces for a listed team is in the output. */
  lemma AffiliationComplete(teamDict: Dict<string, seq<string>>, registry: seq<ProPlayer>, a: Affiliation,
                            region: string, team: string)
    requires region in Keys(teamDict) && team in Get(teamDict, region).value
    requires FoundBy(registry, region, team, a)
    ensures a in AllAffiliations(teamDict, registry)
  {
    var regions := Keys(teamDict);
    var i :| 0 <= i < |regions| && regions[i] == region;
    var teams := Get(teamDict, region).value;
    var j :| 0 <= j < |teams| && teams[j] == team;
    TeamAffiliationsFound(registry, region, team, a);
    TeamsAffiliationsMember(region, teams, registry, a);
    RegionsAffiliationsMember(teamDict, regions, registry, a);
  }

  /** An affiliation is in the output exactly when some region of the dict
      lists some team whose resolution found that player, and it carries
      that region, the resolved name and the player's table id. */
  lemma AffiliationMember(teamDict: Dict<string, seq<string>>, registry: seq<ProPlayer>, a: Affiliation)
    ensures a in AllAffiliations(teamDict, registry)
        <==> exists region, team :: region in Keys(teamDict) && team in Get(teamDict, region).value
                                  && FoundBy(registry, region, team, a)
  {
    if a in AllAffiliations(teamDict, registry) {
      AffiliationSound(teamDict, registry, a);
    }
    if exists region, team :: region in Keys(teamDict) && team in Get(teamDict, region).value
                            && FoundBy(registry, region, team, a) {
      var region, team :| region in Keys(teamDict) && team in Get(teamDict, region).value
                          && FoundBy(registry, region, team, a);
      AffiliationComplete(teamDict, registry, a, region, team);
    }
  }

  /** A team that matches nobody at any step contributes no tuple. */
  lemma UnmatchedTeamContributesNothing(region: string, team: string, registry: seq<ProPlayer>)
    requires Query(registry, Lower(team)) == []
    requires Query(registry, Lower(Last(Split(team, TeamPrefix)))) == []
    requires var alias := Get(AliasTable, Lower(Last(Split(team, TeamPrefix))));
      alias.Some? ==> Query(registry, alias.value) == []
    ensures TeamAffiliations(region, team, registry) == []
  {
  }
}
