/** `user_search`: the player-name search, which keeps the hits that have
    played a match and stops after the first ten of them. */
module Search {
  import opened Wrappers

  /** An element of the `search` response: the fields the helper reads.
      `lastMatchTime` is `None` when the key is absent (a player without a
      recorded match) and `Some(None)` when the key is present with a JSON
      `null`, which the helper keeps. */
  datatype SearchItem = SearchItem(accountId: int, personaname: string, lastMatchTime: Option<Option<string>>)

  /** The dict `{account_id, name, last_match_time}` the helper returns per
      hit; a `null` time is kept as `None`. */
  datatype SearchHit = SearchHit(accountId: int, name: string, lastMatchTime: Option<string>)

  const Limit: nat := 10

  /** Every item with a last match time, as a hit, in response order. */
  function Kept(items: seq<SearchItem>): seq<SearchHit> {
    if |items| == 0 then []
    else
      var item := items[|items| - 1];
      Kept(items[..|items| - 1])
      + match item.lastMatchTime
        case None => []
        case Some(t) => [SearchHit(item.accountId, item.personaname, t)]
  }

  lemma {:induction false} KeptAppend(a: seq<SearchItem>, b: seq<SearchItem>)
    ensures Kept(a + b) == Kept(a) + Kept(b)
    decreases |b|
  {
    if |b| == 0 {
      assert a + b == a;
    } else {
      var n := |b| - 1;
      assert (a + b)[..|a + b| - 1] == a + b[..n];
      KeptAppend(a, b[..n]);
    }
  }

  /** Each hit comes from an item of the response that has a last match
      time, and carries that item's id, name and time. */
  lemma {:induction false} KeptSound(items: seq<SearchItem>, h: SearchHit)
    requires h in Kept(items)
    ensures exists i :: 0 <= i < |items| && items[i].lastMatchTime == Some(h.lastMatchTime)
                     && items[i].accountId == h.accountId && items[i].personaname == h.name
  {
    var n := |items| - 1;
    if h in Kept(items[..n]) {
      KeptSound(items[..n], h);
      var i :| 0 <= i < n && items[..n][i].lastMatchTime == Some(h.lastMatchTime)
               && items[..n][i].accountId == h.accountId && items[..n][i].personaname == h.name;
      assert items[i] == items[..n][i];
    } else {
      assert items[n].lastMatchTime == Some(h.lastMatchTime);
    }
  }

  /** No item with a last match time is dropped before the cap. */
  lemma {:induction false} KeptComplete(items: seq<SearchItem>, i: int)
    requires 0 <= i < |items| && items[i].lastMatchTime.Some?
    ensures SearchHit(items[i].accountId, items[i].personaname, items[i].lastMatchTime.value) in Kept(items)
  {
    var n := |items| - 1;
    if i < n {
      KeptComplete(items[..n], i);
    }
  }

  /** `user_search(player_name)` over the parsed response `resultList`. */
  method UserSearch(resultList: seq<SearchItem>) returns (returnList: seq<SearchHit>)
    ensures |returnList| <= Limit
    ensures returnList == if |Kept(resultList)| <= Limit then Kept(resultList) else Kept(resultList)[..Limit]
  {
    var ct := 0;
    returnList := [];
    ghost var stop := |resultList|;
    for i := 0 to |resultList|
      invariant returnList == Kept(resultList[..i]) && ct == |returnList| && ct < Limit
    {
      assert resultList[..i + 1][..i] == resultList[..i];
      var item := resultList[i];
      if item.lastMatchTime.None? {
        continue;
      }
      returnList := returnList + [SearchHit(item.accountId, item.personaname, item.lastMatchTime.value)];
      ct := ct + 1;
      if ct == Limit {
        stop := i + 1;
        break;
      }
    }
    assert resultList == resultList[..stop] + resultList[stop..];
    KeptAppend(resultList[..stop], resultList[stop..]);
    if stop == |resultList| {
      assert resultList[stop..] == [];
    }
  }
}
