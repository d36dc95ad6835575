/** The JSON documents the remote API answers with, that `json.loads`
    turns into Python values and that the cache file stores. Numbers are
    integers here: the fields the core reads are integer counts and ids. */
module Json {
  import opened Wrappers
  import opened PyDict

  datatype Json =
    | JNull
    | JBool(b: bool)
    | JInt(i: int)
    | JStr(s: string)
    | JArr(items: seq<Json>)
    | JObj(fields: Dict<string, Json>)

  /** A list of strs as a JSON array. */
  function StringsJson(names: seq<string>): Json {
    JArr(seq(|names|, i requires 0 <= i < |names| => JStr(names[i])))
  }

  /** Reading a JSON array of strings back; `None` for anything else in it. */
  function DecodeStrings(items: seq<Json>): Option<seq<string>> {
    if |items| == 0 then Some([])
    else match (items[0], DecodeStrings(items[1..]))
      case (JStr(s), Some(rest)) => Some([s] + rest)
      case _ => None
  }

  /** A list of strings reads back from its JSON array. */
  lemma {:induction false} DecodeStringsJson(names: seq<string>)
    ensures DecodeStrings(StringsJson(names).items) == Some(names)
  {
    if |names| > 0 {
      DecodeStringsJson(names[1..]);
      assert StringsJson(names).items[1..] == StringsJson(names[1..]).items;
      assert names == [names[0]] + names[1..];
    }
  }
}
