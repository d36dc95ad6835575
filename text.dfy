/** The handful of Python string operations the ingestion code relies on:
    `str.lower()` (ASCII folding, the way SQLite's LOWER folds), `str.split(sep)`,
    `sep.join(parts)`, `str(int)` and the code-point order that `list.sort()`
    uses on strings. */
module Text {
  import opened Wrappers

  /** ASCII lower-casing of one character; every other character is kept. */
  function LowerChar(c: char): char {
    if 'A' <= c <= 'Z' then (c as int + 32) as char else c
  }

  /** `s.lower()` restricted to ASCII folding. */
  function Lower(s: string): string {
    seq(|s|, i requires 0 <= i < |s| => LowerChar(s[i]))
  }

  /** Lower-casing is idempotent, so a needle that is already lower-cased
      compares with `LOWER(column)` the same way after a second fold. */
  lemma LowerIdempotent(s: string)
    ensures Lower(Lower(s)) == Lower(s)
  {
    forall i | 0 <= i < |s| ensures Lower(Lower(s))[i] == Lower(s)[i] {
      assert LowerChar(LowerChar(s[i])) == LowerChar(s[i]);
    }
  }

  // ---------------------------------------------------------------------
  // Occurrences, str.split and str.join
  // ---------------------------------------------------------------------

  /** `sep` occurs in `s` starting at index `i`. */
  predicate OccursAt(s: string, sep: string, i: int) {
    0 <= i && i + |sep| <= |s| && s[i..i + |sep|] == sep
  }

  predicate Contains(s: string, sep: string) {
    exists i | 0 <= i <= |s| :: OccursAt(s, sep, i)
  }

  /** The first occurrence of a non-empty separator at or after index `k`. */
  function FindFrom(s: string, sep: string, k: nat): (r: Option<nat>)
    requires |sep| > 0 && k <= |s|
    ensures r.Some? ==> k <= r.value && OccursAt(s, sep, r.value)
    decreases |s| - k
  {
    if |s| < k + |sep| then None
    else if s[k..k + |sep|] == sep then Some(k)
    else FindFrom(s, sep, k + 1)
  }

  /** The leftmost occurrence of a non-empty separator, as `str.find` gives it. */
  function Find(s: string, sep: string): (r: Option<nat>)
    requires |sep| > 0
    ensures r.Some? ==> OccursAt(s, sep, r.value)
  {
    FindFrom(s, sep, 0)
  }

  lemma {:induction false} FindFromSpec(s: string, sep: string, k: nat)
    requires |sep| > 0 && k <= |s|
    ensures FindFrom(s, sep, k).Some? ==> forall j :: k <= j < FindFrom(s, sep, k).value ==> !OccursAt(s, sep, j)
    ensures FindFrom(s, sep, k).None? ==> forall j :: k <= j ==> !OccursAt(s, sep, j)
    decreases |s| - k
  {
    if |s| >= k + |sep| && s[k..k + |sep|] != sep {
      FindFromSpec(s, sep, k + 1);
    }
  }

  /** `Find` gives the leftmost occurrence, and `None` exactly when there is
      none. */
  lemma FindSpec(s: string, sep: string)
    requires |sep| > 0
    ensures Find(s, sep).Some? ==> forall j :: 0 <= j < Find(s, sep).value ==> !OccursAt(s, sep, j)
    ensures Find(s, sep).None? <==> !Contains(s, sep)
  {
    FindFromSpec(s, sep, 0);
    if Find(s, sep).Some? {
      assert OccursAt(s, sep, Find(s, sep).value);
    }
  }

  /** Python's `s.split(sep)` for a non-empty separator: the pieces between
      the non-overlapping occurrences found scanning left to right. */
  function Split(s: string, sep: string): (parts: seq<string>)
    requires |sep| > 0
    ensures |parts| >= 1
    decreases |s|
  {
    match Find(s, sep)
    case None => [s]
    case Some(i) => [s[..i]] + Split(s[i + |sep|..], sep)
  }

  /** Python's `sep.join(parts)`. */
  function Join(sep: string, parts: seq<string>): string
    decreases |parts|
  {
    if |parts| == 0 then ""
    else if |parts| == 1 then parts[0]
    else parts[0] + sep + Join(sep, parts[1..])
  }

  function Last<T>(s: seq<T>): T
    requires |s| > 0
  {
    s[|s| - 1]
  }

  /** Splitting at the first occurrence: the piece before it, then the
      pieces of the rest. */
  lemma SplitStep(s: string, sep: string)
    requires |sep| > 0 && Find(s, sep).Some?
    ensures Find(s, sep).value + |sep| <= |s|
    ensures Split(s, sep) == [s[..Find(s, sep).value]] + Split(s[Find(s, sep).value + |sep|..], sep)
  {
  }

  lemma JoinCons(sep: string, a: string, parts: seq<string>, whole: seq<string>)
    requires |parts| >= 1 && whole == [a] + parts
    ensures Join(sep, whole) == a + sep + Join(sep, parts)
  {
    assert whole[1..] == parts;
  }

  lemma LastCons(a: string, parts: seq<string>, whole: seq<string>)
    requires |parts| >= 1 && whole == [a] + parts
    ensures Last(whole) == Last(parts)
  {
  }

  /** A string is the text before an occurrence, the separator, and the
      text after it. */
  lemma AroundOccurrence(s: string, sep: string, i: int)
    requires OccursAt(s, sep, i)
    ensures s == s[..i] + sep + s[i + |sep|..]
  {
    assert s == s[..i] + s[i..i + |sep|] + s[i + |sep|..];
  }

  /** Joining the pieces of a split with the same separator gives the
      original string back. */
  lemma {:induction false} JoinSplit(s: string, sep: string)
    requires |sep| > 0
    ensures Join(sep, Split(s, sep)) == s
    decreases |s|
  {
    if Find(s, sep).Some? {
      var i := Find(s, sep).value;
      SplitStep(s, sep);
      JoinSplit(s[i + |sep|..], sep);
      JoinCons(sep, s[..i], Split(s[i + |sep|..], sep), Split(s, sep));
      AroundOccurrence(s, sep, i);
    }
  }

  /** A string without the separator splits into itself alone. */
  lemma SplitWithoutSeparator(s: string, sep: string)
    requires |sep| > 0 && !Contains(s, sep)
    ensures Split(s, sep) == [s]
  {
    FindSpec(s, sep);
  }

  /** `s.split(sep)[-1]`: the last piece is a suffix of `s` and holds no
      occurrence of the separator. */
  lemma LastPiece(s: string, sep: string)
    requires |sep| > 0
    ensures var p := Last(Split(s, sep)); |p| <= |s| && p == s[|s| - |p|..] && !Contains(p, sep)
  {
    LastPieceSuffix(s, sep);
    LastPieceClean(s, sep);
    FindSpec(Last(Split(s, sep)), sep);
  }

  lemma {:induction false} LastPieceSuffix(s: string, sep: string)
    requires |sep| > 0
    ensures |Last(Split(s, sep))| <= |s| && Last(Split(s, sep)) == s[|s| - |Last(Split(s, sep))|..]
    decreases |s|
  {
    if Find(s, sep).Some? {
      var i := Find(s, sep).value;
      SplitStep(s, sep);
      LastPieceSuffix(s[i + |sep|..], sep);
      LastCons(s[..i], Split(s[i + |sep|..], sep), Split(s, sep));
      SuffixOfSuffix(s, i + |sep|, |Last(Split(s[i + |sep|..], sep))|);
    }
  }

  lemma {:induction false} LastPieceClean(s: string, sep: string)
    requires |sep| > 0
    ensures Find(Last(Split(s, sep)), sep).None?
    decreases |s|
  {
    if Find(s, sep).Some? {
      var i := Find(s, sep).value;
      SplitStep(s, sep);
      LastPieceClean(s[i + |sep|..], sep);
      LastCons(s[..i], Split(s[i + |sep|..], sep), Split(s, sep));
    }
  }

  lemma SuffixOfSuffix(s: string, k: int, m: int)
    requires 0 <= k <= |s| && 0 <= m <= |s| - k
    ensures s[k..][|s| - k - m..] == s[|s| - m..]
  {
  }

  /** `s.split(sep)[0]`: the first piece is a prefix of `s` with no
      occurrence of the separator; it is `s` itself when `s` has none. */
  lemma FirstPiece(s: string, sep: string)
    requires |sep| > 0
    ensures var p := Split(s, sep)[0]; |p| <= |s| && p == s[..|p|] && !Contains(p, sep)
    ensures !Contains(s, sep) ==> Split(s, sep)[0] == s
  {
    FindSpec(s, sep);
    if Find(s, sep).Some? {
      var i := Find(s, sep).value;
      SplitStep(s, sep);
      var p := s[..i];
      forall j ensures !OccursAt(p, sep, j) {
        if OccursAt(p, sep, j) {
          assert p[j..j + |sep|] == s[j..j + |sep|];
          assert OccursAt(s, sep, j);
        }
      }
    }
  }

  /** Splitting `sep + rest`, where `rest` has no separator, leaves `rest`
      as the last piece. */
  lemma SplitAfterPrefix(sep: string, rest: string)
    requires |sep| > 0 && !Contains(rest, sep)
    ensures Last(Split(sep + rest, sep)) == rest
  {
    var s := sep + rest;
    assert s[0..|sep|] == sep;
    assert Find(s, sep) == Some(0);
    SplitStep(s, sep);
    assert s[|sep|..] == rest;
    SplitWithoutSeparator(rest, sep);
    LastCons("", [rest], Split(s, sep));
  }

  // ---------------------------------------------------------------------
  // str(int)
  // ---------------------------------------------------------------------

  predicate IsDigit(c: char) {
    '0' <= c <= '9'
  }

  function DigitChar(d: int): (c: char)
    requires 0 <= d < 10
    ensures IsDigit(c) && c as int - '0' as int == d
  {
    ('0' as int + d) as char
  }

  /** The decimal digits of `n`, most significant first, as `str(n)` prints
      a non-negative int. */
  function NatToDecimal(n: nat): (r: string)
    ensures |r| >= 1
    ensures forall i :: 0 <= i < |r| ==> IsDigit(r[i])
    ensures r[0] == '0' ==> n == 0
  {
    if n < 10 then [DigitChar(n)] else NatToDecimal(n / 10) + [DigitChar(n % 10)]
  }

  /** `str(i)` for any Python int. */
  function IntToDecimal(i: int): string {
    if i < 0 then "-" + NatToDecimal(-i) else NatToDecimal(i)
  }

  /** The number a string of decimal digits denotes. */
  function DecimalValue(r: string): nat
    requires forall i :: 0 <= i < |r| ==> IsDigit(r[i])
  {
    if |r| == 0 then 0
    else
      assert IsDigit(r[|r| - 1]);
      DecimalValue(r[..|r| - 1]) * 10 + (r[|r| - 1] as int - '0' as int)
  }

  /** Reading back the digits `str` printed gives the number again, so
      `str` is injective on ints. */
  lemma {:induction false} DecimalRoundTrip(n: nat)
    ensures DecimalValue(NatToDecimal(n)) == n
  {
    if n >= 10 {
      DecimalRoundTrip(n / 10);
      var r := NatToDecimal(n);
      assert r[..|r| - 1] == NatToDecimal(n / 10);
    }
  }

  /** A negative int prints as a minus sign and its magnitude, any other
      as its digits. */
  lemma DecimalHead(i: int)
    ensures i < 0 ==> IntToDecimal(i)[0] == '-' && IntToDecimal(i)[1..] == NatToDecimal(-i)
    ensures i >= 0 ==> IsDigit(IntToDecimal(i)[0])
  {
  }

  lemma IntToDecimalInjective(i: int, j: int)
    requires IntToDecimal(i) == IntToDecimal(j)
    ensures i == j
  {
    DecimalHead(i);
    DecimalHead(j);
    if i < 0 && j < 0 {
      DecimalRoundTrip(-i);
      DecimalRoundTrip(-j);
    } else if i >= 0 && j >= 0 {
      DecimalRoundTrip(i);
      DecimalRoundTrip(j);
    }
  }

  // ---------------------------------------------------------------------
  // The order Python's list.sort() uses on strings
  // ---------------------------------------------------------------------

  /** Lexicographic order on code points: `a <= b` between two Python strs. */
  predicate StrLe(a: string, b: string) {
    |a| == 0 || (|b| > 0 && (a[0] < b[0] || (a[0] == b[0] && StrLe(a[1..], b[1..]))))
  }

  lemma {:induction false} StrLeTotal(a: string, b: string)
    ensures StrLe(a, b) || StrLe(b, a)
  {
    if |a| > 0 && |b| > 0 && a[0] == b[0] {
      StrLeTotal(a[1..], b[1..]);
    }
  }

  lemma {:induction false} StrLeTransitive(a: string, b: string, c: string)
    requires StrLe(a, b) && StrLe(b, c)
    ensures StrLe(a, c)
  {
    if |a| > 0 && a[0] == b[0] && b[0] == c[0] {
      StrLeTransitive(a[1..], b[1..], c[1..]);
    }
  }

  lemma {:induction false} StrLeAntisymmetric(a: string, b: string)
    requires StrLe(a, b) && StrLe(b, a)
    ensures a == b
  {
    if |a| > 0 {
      StrLeAntisymmetric(a[1..], b[1..]);
      assert a == [a[0]] + a[1..];
      assert b == [b[0]] + b[1..];
    }
  }
}
