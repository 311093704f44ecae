/** The string operations the service relies on: JavaScript's
    `String.prototype.trim` (used when shaping rows) and SQL Server's `RTRIM`
    (used in the dimension filter). */
module JsText {

  /** ECMAScript WhiteSpace and LineTerminator code points: the set that both
      `trim` and `parseInt` skip. */
  predicate IsWhitespace(c: char) {
    || c == '\t' || c == '\n' || c == '\U{B}' || c == '\U{C}' || c == '\r'
    || c == ' ' || c == '\U{A0}' || c == '\U{1680}'
    || ('\U{2000}' <= c <= '\U{200A}')
    || c == '\U{2028}' || c == '\U{2029}' || c == '\U{202F}' || c == '\U{205F}'
    || c == '\U{3000}' || c == '\U{FEFF}'
  }

  predicate AllWhitespace(s: string) {
    forall i :: 0 <= i < |s| ==> IsWhitespace(s[i])
  }

  /** Neither the first nor the last character is whitespace. */
  predicate NoEdgeWhitespace(t: string) {
    t == [] || (!IsWhitespace(t[0]) && !IsWhitespace(t[|t| - 1]))
  }

  /** `s` splits as `s[..i]`, `t == s[i..j]`, `s[j..]`: whitespace, then `t`,
      then whitespace, with `t` itself free of whitespace at either end. */
  predicate Splits(s: string, t: string, i: int, j: int) {
    0 <= i <= j <= |s| && s[i..j] == t
    && AllWhitespace(s[..i]) && AllWhitespace(s[j..]) && NoEdgeWhitespace(t)
  }

  /** `t` is what remains of `s` once its leading and trailing whitespace is
      cut off. */
  ghost predicate IsTrimmingOf(t: string, s: string) {
    exists i, j :: Splits(s, t, i, j)
  }

  /** JavaScript `trimStart`: a suffix of `s`, whose cut-off prefix is all
      whitespace and which does not itself start with whitespace. */
  function TrimStart(s: string): (r: string)
    ensures |r| <= |s| && r == s[|s| - |r|..]
    ensures AllWhitespace(s[..|s| - |r|])
    ensures r == [] || !IsWhitespace(r[0])
  {
    if |s| > 0 && IsWhitespace(s[0]) then
      var r := TrimStart(s[1..]);
      assert s[..|s| - |r|] == [s[0]] + s[1..][..|s| - 1 - |r|];
      r
    else s
  }

  /** Text that does not start with whitespace is left as it is. */
  lemma TrimStartKeeps(s: string)
    requires s == [] || !IsWhitespace(s[0])
    ensures TrimStart(s) == s
  {
  }

  /** JavaScript `trimEnd`: a prefix of `s`, whose cut-off suffix is all
      whitespace and which does not itself end with whitespace. */
  function TrimEnd(s: string): (r: string)
    ensures |r| <= |s| && r == s[..|r|]
    ensures AllWhitespace(s[|r|..])
    ensures r == [] || !IsWhitespace(r[|r| - 1])
  {
    if |s| > 0 && IsWhitespace(s[|s| - 1]) then
      var r := TrimEnd(s[..|s| - 1]);
      assert s[|r|..] == s[..|s| - 1][|r|..] + [s[|s| - 1]];
      r
    else s
  }

  /** JavaScript `trim`. */
  function Trim(s: string): (r: string)
    ensures |r| <= |s|
    ensures NoEdgeWhitespace(r)
    ensures IsTrimmingOf(r, s)
  {
    var u := TrimStart(s);
    var r := TrimEnd(u);
    SplitsFromEnds(s, u, r);
    r
  }

  /** Cutting whitespace off the front, then off the back, splits `s`. */
  lemma SplitsFromEnds(s: string, u: string, r: string)
    requires |u| <= |s| && u == s[|s| - |u|..] && AllWhitespace(s[..|s| - |u|])
    requires u == [] || !IsWhitespace(u[0])
    requires |r| <= |u| && r == u[..|r|] && AllWhitespace(u[|r|..])
    requires r == [] || !IsWhitespace(r[|r| - 1])
    ensures Splits(s, r, |s| - |u|, |s| - |u| + |r|)
  {
    var i := |s| - |u|;
    assert s[i..i + |r|] == r;
    assert s[i + |r|..] == u[|r|..];
    assert r == [] || r[0] == u[0];
  }

  /** What a split says about single characters of `s`. */
  lemma SplitsAt(s: string, t: string, i: int, j: int)
    requires Splits(s, t, i, j)
    ensures forall k :: 0 <= k < i ==> IsWhitespace(s[k])
    ensures forall k :: j <= k < |s| ==> IsWhitespace(s[k])
    ensures forall k :: i <= k < j ==> s[k] == t[k - i]
    ensures t != [] ==> !IsWhitespace(s[i]) && !IsWhitespace(s[j - 1])
  {
    assert forall k :: 0 <= k < i ==> s[..i][k] == s[k];
    assert forall k :: j <= k < |s| ==> s[j..][k - j] == s[k];
  }

  /** The trimming of a string is unique, so `Trim` is the only function
      meeting `IsTrimmingOf`. */
  lemma TrimUnique(s: string, t: string)
    requires IsTrimmingOf(t, s)
    ensures t == Trim(s)
  {
    var i, j :| Splits(s, t, i, j);
    var r := Trim(s);
    var i', j' :| Splits(s, r, i', j');
    SplitsAt(s, t, i, j);
    SplitsAt(s, r, i', j');
    if t != [] && r != [] {
      // Both start at the first and end at the last non-whitespace character.
      assert i == i' && j == j';
    }
  }

  /** Trimming twice is trimming once. */
  lemma TrimIdempotent(s: string)
    ensures Trim(Trim(s)) == Trim(s)
  {
    var t := Trim(s);
    assert Splits(t, t, 0, |t|);
    TrimUnique(t, t);
  }

  /** A string trims to nothing exactly when it is all whitespace. */
  lemma TrimEmptyIff(s: string)
    ensures Trim(s) == [] <==> AllWhitespace(s)
  {
    var t := Trim(s);
    var i, j :| Splits(s, t, i, j);
    SplitsAt(s, t, i, j);
    if AllWhitespace(s) {
      assert Splits(s, [], 0, 0);
      TrimUnique(s, []);
    } else {
      var k :| 0 <= k < |s| && !IsWhitespace(s[k]);
      assert i <= k < j;
    }
  }

  /** SQL Server `RTRIM`: removes trailing space characters (only U+0020). */
  function SqlRTrim(s: string): (r: string)
    ensures |r| <= |s| && s == r + s[|r|..]
    ensures forall k :: |r| <= k < |s| ==> s[k] == ' '
    ensures r == [] || r[|r| - 1] != ' '
  {
    if |s| > 0 && s[|s| - 1] == ' ' then SqlRTrim(s[..|s| - 1]) else s
  }

  /** `s` is `t` followed by nothing but spaces. */
  predicate PaddedWithSpaces(s: string, t: string) {
    |t| <= |s| && s[..|t|] == t && forall k :: |t| <= k < |s| ==> s[k] == ' '
  }

  /** `RTRIM` gives back exactly the text a value was padded from, as long
      as that text does not itself end in a space. */
  lemma SqlRTrimOfPadded(s: string, t: string)
    requires PaddedWithSpaces(s, t)
    requires t == [] || t[|t| - 1] != ' '
    ensures SqlRTrim(s) == t
  {
    var r := SqlRTrim(s);
    assert r == s[..|r|];
    if |r| > |t| {
      assert false;
    } else if |r| < |t| {
      assert false;
    }
  }

  /** When `RTRIM` leaves a value without whitespace at either end, `trim`
      gives the same value: the two trims agree on what the filter lets
      through. */
  lemma TrimAfterSqlRTrim(s: string)
    requires NoEdgeWhitespace(SqlRTrim(s))
    ensures Trim(s) == SqlRTrim(s)
  {
    var t := SqlRTrim(s);
    assert s[0..|t|] == t && s[..0] == [];
    assert AllWhitespace(s[|t|..]) by {
      forall k | 0 <= k < |s| - |t| ensures IsWhitespace(s[|t|..][k]) {
        assert s[|t|..][k] == s[|t| + k];
      }
    }
    assert Splits(s, t, 0, |t|);
    TrimUnique(s, t);
  }
}
