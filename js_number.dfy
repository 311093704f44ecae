/** The number handling of the request handlers: JavaScript's `parseInt` on a
    query-string value, the `parseInt(x) || d` default idiom, the decimal
    rendering of an integer (how a client writes `?page=3`), and
    `Math.ceil(total / top)`. */
module JsNumber {
  import opened Wrappers
  import JsText

  /** The value of `c` as a digit in bases up to 36 ('0'..'9', then 'a'/'A'
      for 10 up to 'z'/'Z' for 35); 36 for a character that is no digit. */
  function DigitValue(c: char): (v: nat)
    ensures v <= 36
  {
    if '0' <= c <= '9' then c as int - '0' as int
    else if 'a' <= c <= 'z' then c as int - 'a' as int + 10
    else if 'A' <= c <= 'Z' then c as int - 'A' as int + 10
    else 36
  }

  predicate IsDigit(c: char, radix: nat) {
    DigitValue(c) < radix
  }

  predicate AllDigits(s: string, radix: nat) {
    forall i :: 0 <= i < |s| ==> IsDigit(s[i], radix)
  }

  /** Length of the longest prefix of `s` made of digits in `radix`. */
  function DigitRun(s: string, radix: nat): (n: nat)
    ensures n <= |s|
    ensures AllDigits(s[..n], radix)
    ensures n < |s| ==> !IsDigit(s[n], radix)
  {
    if |s| > 0 && IsDigit(s[0], radix) then
      var n := 1 + DigitRun(s[1..], radix);
      assert s[..n] == [s[0]] + s[1..][..n - 1];
      n
    else 0
  }

  /** The number that a string of digits denotes in `radix`, most
      significant digit first. */
  function DigitsValue(s: string, radix: nat): nat
    requires AllDigits(s, radix)
  {
    if s == [] then 0 else DigitsValue(s[..|s| - 1], radix) * radix + DigitValue(s[|s| - 1])
  }

  /** JavaScript `parseInt(s)` without a radix argument: leading whitespace
      is skipped, one `+` or `-` sign is taken, a following `0x` or `0X`
      selects base 16 (base 10 otherwise), and the value is that of the
      longest run of digits after that; no digit at all gives NaN, here
      `None`. Whatever follows the digits is ignored. */
  function ParseInt(s: string): (r: Option<int>)
    ensures var t := JsText.TrimStart(s);
      r.Some? ==> |t| > 0 && (t[0] == '-' || t[0] == '+' || IsDigit(t[0], 10))
    ensures var t := JsText.TrimStart(s);
      r.Some? && r.value < 0 ==> t[0] == '-'
    ensures var t := JsText.TrimStart(s);
      |t| > 0 && IsDigit(t[0], 10) && !(|t| >= 2 && (t[1] == 'x' || t[1] == 'X')) ==> r.Some?
  {
    ParseSigned(JsText.TrimStart(s))
  }

  /** `parseInt` once the leading whitespace is gone: the sign. */
  function ParseSigned(t: string): (r: Option<int>)
    ensures r.Some? ==> |t| > 0 && (t[0] == '-' || t[0] == '+' || IsDigit(t[0], 10))
    ensures r.Some? && r.value < 0 ==> t[0] == '-'
    ensures |t| > 0 && IsDigit(t[0], 10) && !(|t| >= 2 && (t[1] == 'x' || t[1] == 'X')) ==> r.Some?
  {
    var signed := |t| > 0 && (t[0] == '-' || t[0] == '+');
    match ParseMagnitude(if signed then t[1..] else t)
    case None => None
    case Some(v) => Some(if signed && t[0] == '-' then -(v as int) else v)
  }

  /** `parseInt` once the sign is gone: the base prefix and the digits. */
  function ParseMagnitude(u: string): (r: Option<nat>)
    ensures r.Some? ==> |u| > 0 && IsDigit(u[0], 10)
    ensures |u| > 0 && IsDigit(u[0], 10) && !(|u| >= 2 && (u[1] == 'x' || u[1] == 'X')) ==> r.Some?
  {
    var hex := |u| >= 2 && u[0] == '0' && (u[1] == 'x' || u[1] == 'X');
    var radix := if hex then 16 else 10;
    var d := if hex then u[2..] else u;
    var n := DigitRun(d, radix);
    if n == 0 then None else Some(DigitsValue(d[..n], radix))
  }

  function DigitChar(d: nat): char
    requires d < 10
  {
    "0123456789"[d]
  }

  /** Decimal rendering of a natural number, without leading zeros. */
  function NatToString(n: nat): (s: string)
    ensures |s| >= 1 && AllDigits(s, 10)
    ensures s[0] == '0' ==> n == 0
  {
    if n < 10 then [DigitChar(n)] else NatToString(n / 10) + [DigitChar(n % 10)]
  }

  /** Decimal rendering of an integer, with a `-` for a negative one: what a
      client puts in the query string. */
  function IntToString(n: int): string {
    if n < 0 then "-" + NatToString(-n) else NatToString(n)
  }

  /** Reading back the digits of `NatToString(n)` gives `n`. */
  lemma {:induction false} NatToStringValue(n: nat)
    ensures DigitsValue(NatToString(n), 10) == n
  {
    var s := NatToString(n);
    if n >= 10 {
      assert s[..|s| - 1] == NatToString(n / 10);
      NatToStringValue(n / 10);
    }
  }

  /** A digit run stops exactly where the digits stop. */
  lemma {:induction false} DigitRunOfDigits(a: string, rest: string, radix: nat)
    requires AllDigits(a, radix)
    requires rest == [] || !IsDigit(rest[0], radix)
    ensures DigitRun(a + rest, radix) == |a|
  {
    if a != [] {
      assert (a + rest)[1..] == a[1..] + rest;
      DigitRunOfDigits(a[1..], rest, radix);
    }
  }

  /** The digits of `NatToString(m)` read back as `m`, in base 10. */
  lemma MagnitudeReadsBack(m: nat, rest: string)
    requires rest == [] || (!IsDigit(rest[0], 10) && rest[0] != 'x' && rest[0] != 'X')
    ensures ParseMagnitude(NatToString(m) + rest) == Some(m)
  {
    var digits := NatToString(m);
    var u := digits + rest;
    assert !(|u| >= 2 && u[0] == '0' && (u[1] == 'x' || u[1] == 'X')) by {
      if |u| >= 2 && u[0] == '0' {
        assert m == 0 && |digits| == 1;
        assert u[1] == rest[0];
      }
    }
    DigitRunOfDigits(digits, rest, 10);
    assert u[..|digits|] == digits;
    NatToStringValue(m);
  }

  /** A rendered magnitude has no sign and reads back unchanged... */
  lemma UnsignedReadsBack(m: nat, rest: string)
    requires rest == [] || (!IsDigit(rest[0], 10) && rest[0] != 'x' && rest[0] != 'X')
    ensures ParseSigned(NatToString(m) + rest) == Some(m)
  {
    var u := NatToString(m) + rest;
    MagnitudeReadsBack(m, rest);
    assert u[0] == NatToString(m)[0] && IsDigit(u[0], 10);
  }

  /** ... and a minus sign in front negates it. */
  lemma NegatedReadsBack(m: nat, rest: string)
    requires rest == [] || (!IsDigit(rest[0], 10) && rest[0] != 'x' && rest[0] != 'X')
    ensures ParseSigned(['-'] + (NatToString(m) + rest)) == Some(-(m as int))
  {
    var u := NatToString(m) + rest;
    var t := ['-'] + u;
    MagnitudeReadsBack(m, rest);
    assert t[0] == '-' && t[1..] == u;
  }

  /** The sign is read back too. */
  lemma SignedReadsBack(n: int, rest: string)
    requires rest == [] || (!IsDigit(rest[0], 10) && rest[0] != 'x' && rest[0] != 'X')
    ensures ParseSigned(IntToString(n) + rest) == Some(n)
  {
    if n < 0 {
      var m: nat := -n;
      var digits := NatToString(m);
      assert IntToString(n) == ['-'] + digits;
      assert (['-'] + digits) + rest == ['-'] + (digits + rest);
      NegatedReadsBack(m, rest);
    } else {
      UnsignedReadsBack(n, rest);
    }
  }

  /** `parseInt` reads back what `IntToString` wrote, whatever follows it,
      provided what follows does not continue the number: no further decimal
      digit, and no `x` that would turn a lone `0` into a `0x` prefix. */
  lemma ParseIntReadsBack(n: int, rest: string)
    requires rest == [] || (!IsDigit(rest[0], 10) && rest[0] != 'x' && rest[0] != 'X')
    ensures ParseInt(IntToString(n) + rest) == Some(n)
  {
    var s := IntToString(n) + rest;
    assert s[0] == '-' || '0' <= s[0] <= '9' by {
      var m: nat := if n < 0 then -n else n;
      assert n >= 0 ==> s[0] == NatToString(m)[0] && IsDigit(s[0], 10);
    }
    JsText.TrimStartKeeps(s);
    SignedReadsBack(n, rest);
  }

  /** A query value made only of decimal digits is read as that number. */
  lemma ParseIntRoundTrip(n: int)
    ensures ParseInt(IntToString(n)) == Some(n)
  {
    ParseIntReadsBack(n, []);
    assert IntToString(n) + [] == IntToString(n);
  }

  /** Whitespace in front of the number is skipped. */
  lemma {:induction false} ParseIntSkipsWhitespace(ws: string, s: string)
    requires JsText.AllWhitespace(ws)
    ensures ParseInt(ws + s) == ParseInt(s)
  {
    TrimStartSkips(ws, s);
  }

  lemma {:induction false} TrimStartSkips(ws: string, s: string)
    requires JsText.AllWhitespace(ws)
    ensures JsText.TrimStart(ws + s) == JsText.TrimStart(s)
  {
    if ws != [] {
      assert (ws + s)[0] == ws[0] && JsText.IsWhitespace(ws[0]);
      assert JsText.AllWhitespace(ws[1..]) by {
        forall k | 0 <= k < |ws| - 1 ensures JsText.IsWhitespace(ws[1..][k]) {
          assert ws[1..][k] == ws[k + 1];
        }
      }
      assert (ws + s)[1..] == ws[1..] + s;
      TrimStartSkips(ws[1..], s);
    } else {
      assert ws + s == s;
    }
  }

  /** Values a client may send, read as JavaScript reads them: text with no
      digit is NaN, ... */
  lemma ParseIntNoDigits()
    ensures ParseInt("") == None
    ensures ParseInt("abc") == None
  {
    JsText.TrimStartKeeps("abc");
    assert DigitRun("abc", 10) == 0;
  }

  /** ... a `0x` prefix reads hexadecimal, ... */
  lemma ParseIntHex()
    ensures ParseInt("0x1F") == Some(31)
  {
    JsText.TrimStartKeeps("0x1F");
    assert ParseMagnitude("0x1F") == Some(31) by {
      assert "0x1F"[2..] == "1F";
      assert DigitRun("1F", 16) == 2;
      assert "1F"[..2] == "1F" && "1F"[..1] == "1" && "1"[..0] == "";
      assert DigitsValue("1F", 16) == 31;
    }
  }

  /** `parseInt(undefined)` reads the text "undefined", which is NaN. */
  lemma ParseIntUndefined()
    ensures ParseInt("undefined") == None
  {
    var u := "undefined";
    JsText.TrimStartKeeps(u);
    assert ParseSigned(u).None? by {
      assert u[0] == 'u' && !IsDigit(u[0], 10);
    }
  }

  /** ... and whatever follows the digits is dropped. */
  lemma ParseIntTrailingText()
    ensures ParseInt(" 12px") == Some(12)
  {
    assert IntToString(12) == "12";
    assert " 12px" == " " + (IntToString(12) + "px");
    ParseIntReadsBack(12, "px");
    ParseIntSkipsWhitespace(" ", IntToString(12) + "px");
  }

  /** `parseInt(x) || d`: NaN and zero are both falsy in JavaScript, so
      either gives way to the default `d`; any other value is kept, a
      negative one included. */
  function OrDefault(p: Option<int>, d: int): (r: int)
    ensures d != 0 ==> r != 0
    ensures p.Some? && p.value != 0 ==> r == p.value
    ensures p.None? || p.value == 0 ==> r == d
  {
    if p.None? || p.value == 0 then d else p.value
  }

  /** `Math.ceil(total / top)` for a non-zero page size: the least integer
      that is not below the quotient. */
  function CeilDiv(total: nat, top: int): (n: int)
    requires top != 0
    ensures top > 0 ==> (n - 1) * top < total <= n * top
    ensures top < 0 ==> n * top <= total < (n - 1) * top
  {
    if top > 0 then
      var q := (total + top - 1) / top;
      assert q * top == total + top - 1 - (total + top - 1) % top;
      assert (q - 1) * top == q * top - top;
      q
    else
      var q := total / -top;
      assert q * -top == total - total % -top;
      assert (-q) * top == q * -top;
      assert (-q - 1) * top == (-q) * top - top;
      -q
  }
}
