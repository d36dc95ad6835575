/** A player's recent matches: `PlayerMatches_helper`, which turns the list
    the match API returns into rows of the `PlayerMatches` table, and the
    display side, `format_match_info_helper` and `find_hero_name`, which
    read those rows back into the lists the match page shows. */
module Matches {
  import opened Wrappers
  import opened Text

  /** An element of the list `players/{account_id}/matches` returns: a match
      record, or one of the tuple-shaped placeholders the API is seen to
      send, which the helper skips. */
  datatype RawMatch =
    | TuplePlaceholder
    | MatchRecord(matchId: int, radiantWin: bool, playerSlot: int, duration: int, heroId: int,
                  startTime: int, kills: int, deaths: int, assists: int)

  /** A row of the `PlayerMatches` table:
      `(account_id, match_id, win, duration, hero_id, start_time, kills, deaths, assists)`. */
  datatype MatchRow = MatchRow(accountId: int, matchId: int, win: int, duration: string, heroId: int,
                               startTime: string, kills: int, deaths: int, assists: int)

  const SecondsPerMinute: int := 60
  const MinutesSuffix: string := " mins"
  const TimeZoneSuffix: string := " GMT"

  /** The win flag of the queried player: slot 0 is on the Radiant side and
      every other slot on the Dire side, and the player won when their side
      is the side that won. */
  function WinFlag(radiantWin: bool, playerSlot: int): (win: int)
    ensures win == 0 || win == 1
    ensures win == 1 <==> (radiantWin <==> playerSlot == 0)
  {
    var radiant := if radiantWin then 1 else 0;
    if playerSlot == 0 then radiant else if radiant == 1 then 0 else 1
  }

  /** Python's `round(n / d)` for ints and a positive divisor: the nearest
      integer, and the even one of two equally near. */
  function RoundHalfEven(n: int, d: int): (q: int)
    requires d > 0
    ensures 2 * (q * d - n) <= d && 2 * (n - q * d) <= d
    ensures 2 * (q * d - n) == d || 2 * (n - q * d) == d ==> q % 2 == 0
  {
    var fl := n / d;
    var rem := n % d;
    if 2 * rem < d then fl
    else if 2 * rem > d then fl + 1
    else if fl % 2 == 0 then fl else fl + 1
  }

  /** `str(round(duration / 60)) + " mins"`. */
  function DurationText(seconds: int): string {
    IntToDecimal(RoundHalfEven(seconds, SecondsPerMinute)) + MinutesSuffix
  }

  /** `epoch_conv(stamp)`; `localTime` stands for
      `time.strftime('%Y-%m-%d %H:%M:%S', time.localtime(stamp))`. */
  function StartTimeText(localTime: int -> string, stamp: int): string {
    localTime(stamp) + TimeZoneSuffix
  }

  /** The row one match record becomes. */
  function RowOf(accountId: int, m: RawMatch, localTime: int -> string): MatchRow
    requires m.MatchRecord?
  {
    MatchRow(accountId, m.matchId, WinFlag(m.radiantWin, m.playerSlot), DurationText(m.duration), m.heroId,
             StartTimeText(localTime, m.startTime), m.kills, m.deaths, m.assists)
  }

  /** The match records of `raw`, in order, without the placeholders. */
  function Records(raw: seq<RawMatch>): (recs: seq<RawMatch>)
    ensures forall k :: 0 <= k < |recs| ==> recs[k].MatchRecord?
    ensures forall k :: 0 <= k < |raw| && raw[k].MatchRecord? ==> raw[k] in recs
  {
    if |raw| == 0 then []
    else Records(raw[..|raw| - 1]) + (if raw[|raw| - 1].MatchRecord? then [raw[|raw| - 1]] else [])
  }

  /** What `PlayerMatches_helper(raw_list, account_id)` returns. */
  function Normalize(raw: seq<RawMatch>, accountId: int, localTime: int -> string): seq<MatchRow> {
    if |raw| == 0 then []
    else
      var m := raw[|raw| - 1];
      Normalize(raw[..|raw| - 1], accountId, localTime) + (if m.MatchRecord? then [RowOf(accountId, m, localTime)] else [])
  }

  /** `PlayerMatches_helper(raw_list, account_id)`. */
  method PlayerMatchesHelper(rawList: seq<RawMatch>, accountId: int, localTime: int -> string)
    returns (returnList: seq<MatchRow>)
    ensures returnList == Normalize(rawList, accountId, localTime)
  {
    returnList := [];
    for i := 0 to |rawList|
      invariant returnList == Normalize(rawList[..i], accountId, localTime)
    {
      assert rawList[..i + 1][..i] == rawList[..i];
      var item := rawList[i];
      if item.TuplePlaceholder? {
        continue;
      }
      var matchId := item.matchId;
      var radiantWin := if item.radiantWin then 1 else 0;
      var win;
      if item.playerSlot == 0 {
        win := radiantWin;
      } else {
        if radiantWin == 1 {
          win := 0;
        } else {
          win := 1;
        }
      }
      var duration := IntToDecimal(RoundHalfEven(item.duration, SecondsPerMinute)) + MinutesSuffix;
      var heroId := item.heroId;
      var startTime := StartTimeText(localTime, item.startTime);
      returnList := returnList + [MatchRow(accountId, matchId, win, duration, heroId, startTime,
                                           item.kills, item.deaths, item.assists)];
    }
    assert rawList[..|rawList|] == rawList;
  }

  /** Placeholders are skipped without stopping the run: the rows of two
      concatenated lists are the rows of each, in order. */
  lemma {:induction false} NormalizeAppend(a: seq<RawMatch>, b: seq<RawMatch>, accountId: int, localTime: int -> string)
    ensures Normalize(a + b, accountId, localTime) == Normalize(a, accountId, localTime) + Normalize(b, accountId, localTime)
    decreases |b|
  {
    if |b| > 0 {
      var n := |b| - 1;
      assert (a + b)[..|a + b| - 1] == a + b[..n];
      NormalizeAppend(a, b[..n], accountId, localTime);
    } else {
      assert a + b == a;
    }
  }

  /** One row per match record, in input order, each carrying the given
      account and the record's match, hero, kills, deaths and assists. */
  lemma {:induction false} NormalizeRows(raw: seq<RawMatch>, accountId: int, localTime: int -> string)
    ensures |Normalize(raw, accountId, localTime)| == |Records(raw)|
    ensures forall k :: 0 <= k < |Records(raw)| ==>
      Normalize(raw, accountId, localTime)[k] == RowOf(accountId, Records(raw)[k], localTime)
  {
    if |raw| > 0 {
      NormalizeRows(raw[..|raw| - 1], accountId, localTime);
    }
  }

  /** Every row carries the queried account. */
  lemma NormalizeAccount(raw: seq<RawMatch>, accountId: int, localTime: int -> string, k: int)
    requires 0 <= k < |Normalize(raw, accountId, localTime)|
    ensures Normalize(raw, accountId, localTime)[k].accountId == accountId
  {
    NormalizeRows(raw, accountId, localTime);
  }

  // ---------------------------------------------------------------------
  // The display side
  // ---------------------------------------------------------------------

  /** A hero id as `find_hero_name` receives it: a stored id, or the text
      `"NULL"`. */
  datatype HeroRef = NullRef | HeroId(id: int)

  const NullName: string := "NULL"

  /** `SELECT name FROM Heroes WHERE Id = id`, first row: the name of the
      first hero row with that id, as the `Heroes` table holds `(Id, name)`. */
  function HeroName(heroes: seq<(int, string)>, id: int): (r: Option<string>)
    ensures r.Some? ==> (id, r.value) in heroes
    ensures r.None? ==> forall k :: 0 <= k < |heroes| ==> heroes[k].0 != id
  {
    if |heroes| == 0 then None
    else if heroes[0].0 == id then Some(heroes[0].1)
    else HeroName(heroes[1..], id)
  }

  /** The displayed name of one reference: `"NULL"` for a `"NULL"` id and for
      an id no hero row has. */
  function DisplayName(heroes: seq<(int, string)>, ref: HeroRef): string {
    match ref
    case NullRef => NullName
    case HeroId(id) => match HeroName(heroes, id) case Some(name) => name case None => NullName
  }

  /** `find_hero_name(id_list)`. */
  method FindHeroNames(idList: seq<HeroRef>, heroes: seq<(int, string)>) returns (nameList: seq<string>)
    ensures |nameList| == |idList|
    ensures forall k :: 0 <= k < |idList| ==> nameList[k] == DisplayName(heroes, idList[k])
  {
    nameList := [];
    for i := 0 to |idList|
      invariant |nameList| == i
      invariant forall k :: 0 <= k < i ==> nameList[k] == DisplayName(heroes, idList[k])
    {
      var id := idList[i];
      if id.NullRef? {
        nameList := nameList + [NullName];
        continue;
      }
      var name := HeroName(heroes, id.id);
      if name.None? {
        nameList := nameList + [NullName];
        continue;
      }
      nameList := nameList + [name.value];
    }
  }

  /** A hero id missing from the table is shown as `"NULL"`, a present one
      by its first name in the table. */
  lemma DisplayNameOfId(heroes: seq<(int, string)>, id: int)
    ensures (forall k :: 0 <= k < |heroes| ==> heroes[k].0 != id) ==> DisplayName(heroes, HeroId(id)) == NullName
    ensures forall k :: 0 <= k < |heroes| && heroes[k].0 == id ==> (id, DisplayName(heroes, HeroId(id))) in heroes
  {
  }

  /** `"Won"` for a stored 1, `"Lost"` for anything else. */
  function WinText(win: int): string {
    if win == 1 then "Won" else "Lost"
  }

  /** The page shows "Won" exactly when the player's side won the match. */
  lemma WinTextOfRecord(radiantWin: bool, playerSlot: int)
    ensures WinText(WinFlag(radiantWin, playerSlot)) == "Won" <==> (radiantWin <==> playerSlot == 0)
    ensures WinText(WinFlag(radiantWin, playerSlot)) == "Lost" <==> !(radiantWin <==> playerSlot == 0)
  {
  }

  /** `SELECT * FROM PlayerMatches WHERE account_id = id`, in table order. */
  function RowsOf(table: seq<MatchRow>, accountId: int): (rows: seq<MatchRow>)
    ensures |rows| <= |table|
    ensures forall k :: 0 <= k < |rows| ==> rows[k].accountId == accountId && rows[k] in table
  {
    if |table| == 0 then []
    else RowsOf(table[..|table| - 1], accountId) + (if table[|table| - 1].accountId == accountId then [table[|table| - 1]] else [])
  }

  /** After `get_n_store_recent_matches(id)` the table holds exactly the
      normalized rows of that player, so the display query gets all of
      them back, in order. */
  lemma {:induction false} RowsOfNormalized(raw: seq<RawMatch>, accountId: int, localTime: int -> string)
    ensures RowsOf(Normalize(raw, accountId, localTime), accountId) == Normalize(raw, accountId, localTime)
  {
    if |raw| > 0 {
      var n := |raw| - 1;
      RowsOfNormalized(raw[..n], accountId, localTime);
      var t := Normalize(raw, accountId, localTime);
      if raw[n].MatchRecord? {
        assert t[..|t| - 1] == Normalize(raw[..n], accountId, localTime);
      } else {
        assert t == Normalize(raw[..n], accountId, localTime);
      }
    }
  }

  /** The eight parallel lists of the match page. */
  datatype MatchInfo = MatchInfo(winList: seq<string>, matchList: seq<int>, durationList: seq<string>,
                                 heroList: seq<string>, startList: seq<string>,
                                 kList: seq<int>, dList: seq<int>, aList: seq<int>)

  /** The lists hold, position by position, the fields of the player's rows. */
  ghost predicate ShowsRows(info: MatchInfo, rows: seq<MatchRow>, heroes: seq<(int, string)>) {
    && |info.winList| == |rows| && |info.matchList| == |rows| && |info.durationList| == |rows|
    && |info.heroList| == |rows| && |info.startList| == |rows|
    && |info.kList| == |rows| && |info.dList| == |rows| && |info.aList| == |rows|
    && forall k :: 0 <= k < |rows| ==>
         && info.winList[k] == WinText(rows[k].win) && info.matchList[k] == rows[k].matchId
         && info.durationList[k] == rows[k].duration && info.heroList[k] == DisplayName(heroes, HeroId(rows[k].heroId))
         && info.startList[k] == rows[k].startTime
         && info.kList[k] == rows[k].kills && info.dList[k] == rows[k].deaths && info.aList[k] == rows[k].assists
  }

  /** Showing one more row appends its fields to each list. */
  lemma ShowsRowsStep(info: MatchInfo, rows: seq<MatchRow>, heroes: seq<(int, string)>, row: MatchRow, hero: string, winT: string)
    requires ShowsRows(info, rows, heroes)
    requires hero == DisplayName(heroes, HeroId(row.heroId)) && winT == WinText(row.win)
    ensures ShowsRows(MatchInfo(info.winList + [winT], info.matchList + [row.matchId], info.durationList + [row.duration],
                                info.heroList + [hero], info.startList + [row.startTime],
                                info.kList + [row.kills], info.dList + [row.deaths], info.aList + [row.assists]),
                      rows + [row], heroes)
  {
  }

  /** `format_match_info_helper(id_)` over the `PlayerMatches` table `table`
      and the `(Id, name)` rows of the `Heroes` table. */
  method FormatMatchInfoHelper(table: seq<MatchRow>, accountId: int, heroes: seq<(int, string)>)
    returns (info: MatchInfo)
    ensures ShowsRows(info, RowsOf(table, accountId), heroes)
  {
    var entries := RowsOf(table, accountId);
    var winList: seq<string> := [];
    var matchList: seq<int> := [];
    var durationList: seq<string> := [];
    var heroList: seq<string> := [];
    var startList: seq<string> := [];
    var kList: seq<int> := [];
    var dList: seq<int> := [];
    var aList: seq<int> := [];
    for i := 0 to |entries|
      invariant ShowsRows(MatchInfo(winList, matchList, durationList, heroList, startList, kList, dList, aList),
                          entries[..i], heroes)
    {
      var entry := entries[i];
      var names := FindHeroNames([HeroId(entry.heroId)], heroes);
      var hero := names[0];
      var winT;
      if entry.win == 1 {
        winT := "Won";
      } else {
        winT := "Lost";
      }
      ShowsRowsStep(MatchInfo(winList, matchList, durationList, heroList, startList, kList, dList, aList),
                    entries[..i], heroes, entry, hero, winT);
      assert entries[..i + 1] == entries[..i] + [entry];
      winList := winList + [winT];
      matchList := matchList + [entry.matchId];
      durationList := durationList + [entry.duration];
      heroList := heroList + [hero];
      startList := startList + [entry.startTime];
      kList := kList + [entry.kills];
      dList := dList + [entry.deaths];
      aList := aList + [entry.assists];
    }
    assert entries[..|entries|] == entries;
    info := MatchInfo(winList, matchList, durationList, heroList, startList, kList, dList, aList);
  }

  /** Storing a player's normalized matches and reading them for display
      shows, for each match record in order, "Won" exactly when the
      player's side won. */
  lemma DisplayedOutcome(raw: seq<RawMatch>, accountId: int, localTime: int -> string, heroes: seq<(int, string)>,
                         info: MatchInfo, k: int)
    requires ShowsRows(info, RowsOf(Normalize(raw, accountId, localTime), accountId), heroes)
    requires 0 <= k < |Records(raw)|
    ensures k < |info.winList|
    ensures info.winList[k] == "Won" <==> (Records(raw)[k].radiantWin <==> Records(raw)[k].playerSlot == 0)
  {
    RowsOfNormalized(raw, accountId, localTime);
    NormalizeRows(raw, accountId, localTime);
    WinTextOfRecord(Records(raw)[k].radiantWin, Records(raw)[k].playerSlot);
  }
}
