/**
 * The JavaScript string operations the screens rely on: `trim` (only
 * whether the result is empty matters) and the integer part of
 * `parseInt`/`parseFloat`, where `None` stands for `NaN`.
 */
module JsText {
  import opened Options

  /** The white-space and line-terminator characters `trim` and `parseInt` skip. */
  predicate IsWhitespace(c: char)
  {
    c == ' ' || c == '\t' || c == '\n' || c == '\r' || c == '\U{000B}' || c == '\U{000C}'
    || c == '\U{00A0}' || c == '\U{2028}' || c == '\U{2029}' || c == '\U{FEFF}'
  }

  function TrimStart(s: string): (r: string)
    ensures |r| <= |s|
    ensures r == [] || !IsWhitespace(r[0])
    ensures forall c :: c in r ==> c in s
  {
    if s != [] && IsWhitespace(s[0]) then TrimStart(s[1..]) else s
  }

  function TrimEnd(s: string): (r: string)
    ensures |r| <= |s|
    ensures r == [] || !IsWhitespace(r[|r| - 1])
    ensures r != [] ==> r[0] == s[0]
  {
    if s != [] && IsWhitespace(s[|s| - 1]) then TrimEnd(s[..|s| - 1]) else s
  }

  /** `s.trim()`: neither end of the result is white space. */
  function Trim(s: string): (r: string)
    ensures |r| <= |s|
    ensures r == [] || (!IsWhitespace(r[0]) && !IsWhitespace(r[|r| - 1]))
  {
    TrimEnd(TrimStart(s))
  }

  predicate AllWhitespace(s: string)
  {
    forall i :: 0 <= i < |s| ==> IsWhitespace(s[i])
  }

  /** `s.trim()` is empty exactly when `s` is made of white space only. */
  lemma {:induction false} TrimEmptyIffBlank(s: string)
    ensures Trim(s) == [] <==> AllWhitespace(s)
  {
    TrimStartEmptyIffBlank(s);
    if TrimStart(s) != [] {
      assert TrimEnd(TrimStart(s)) != [] by {
        var t := TrimStart(s);
        TrimEndKeepsFirst(t);
      }
    }
  }

  lemma {:induction false} TrimStartEmptyIffBlank(s: string)
    ensures TrimStart(s) == [] <==> AllWhitespace(s)
  {
    if s != [] && IsWhitespace(s[0]) {
      TrimStartEmptyIffBlank(s[1..]);
      if AllWhitespace(s[1..]) {
        assert forall i :: 0 <= i < |s| ==> IsWhitespace(s[i]) by {
          forall i | 0 <= i < |s| ensures IsWhitespace(s[i]) {
            if i > 0 { assert s[i] == s[1..][i - 1]; }
          }
        }
      }
    }
  }

  /** A string that does not start with white space keeps a nonempty trimmed end. */
  lemma {:induction false} TrimEndKeepsFirst(t: string)
    requires t != [] && !IsWhitespace(t[0])
    ensures TrimEnd(t) != []
  {
    if IsWhitespace(t[|t| - 1]) {
      TrimEndKeepsFirst(t[..|t| - 1]);
    }
  }

  // ---------------------------------------------------------------------
  // Numbers

  predicate IsDigit(c: char) { '0' <= c <= '9' }

  function DigitValue(c: char): (d: int)
    requires IsDigit(c)
    ensures 0 <= d < 10
  {
    c as int - '0' as int
  }

  predicate IsHexDigit(c: char) { IsDigit(c) || 'a' <= c <= 'f' || 'A' <= c <= 'F' }

  function HexDigitValue(c: char): (d: int)
    requires IsHexDigit(c)
    ensures 0 <= d < 16
  {
    if IsDigit(c) then DigitValue(c)
    else if 'a' <= c <= 'f' then c as int - 'a' as int + 10
    else c as int - 'A' as int + 10
  }

  /** The longest prefix of `s` whose characters satisfy `IsDigit` (or `IsHexDigit` when `hex`). */
  function DigitPrefix(s: string, hex: bool): (r: string)
    ensures |r| <= |s|
    ensures forall i :: 0 <= i < |r| ==> if hex then IsHexDigit(r[i]) else IsDigit(r[i])
  {
    if s != [] && (if hex then IsHexDigit(s[0]) else IsDigit(s[0]))
    then [s[0]] + DigitPrefix(s[1..], hex)
    else []
  }

  /** The value of a digit string in base 10, or base 16 when `hex`. */
  function DigitsValue(ds: string, hex: bool): (v: nat)
    requires forall i :: 0 <= i < |ds| ==> if hex then IsHexDigit(ds[i]) else IsDigit(ds[i])
  {
    if ds == [] then 0
    else
      var last := ds[|ds| - 1];
      DigitsValue(ds[..|ds| - 1], hex) * (if hex then 16 else 10)
        + (if hex then HexDigitValue(last) else DigitValue(last))
  }

  /** Splits an optional leading sign off `s`. */
  function SplitSign(s: string): (r: (int, string))
    ensures r.0 == 1 || r.0 == -1
    ensures forall c :: c in r.1 ==> c in s
  {
    if s != [] && s[0] == '-' then (-1, s[1..])
    else if s != [] && s[0] == '+' then (1, s[1..])
    else (1, s)
  }

  /**
   * `parseInt(text)` without a radix: leading white space is skipped, a
   * sign is read, a `0x`/`0X` prefix switches to base 16, and the longest
   * digit prefix is read; no digit at all gives `NaN` (`None`).
   */
  function ParseInt(text: string): (r: Option<int>)
    ensures (forall c :: c in text ==> !IsDigit(c)) ==> r.None?
  {
    var (sign, rest) := SplitSign(TrimStart(text));
    var hex := |rest| >= 2 && rest[0] == '0' && (rest[1] == 'x' || rest[1] == 'X');
    var ds := DigitPrefix(if hex then rest[2..] else rest, hex);
    if ds == [] then None
    else
      assert rest[0] in rest && IsDigit(rest[0]);
      Some(sign * DigitsValue(ds, hex))
  }

  /**
   * The integer part of `parseFloat(text)`: as `ParseInt`, but always base
   * 10 (`parseFloat` has no hexadecimal form).
   */
  function ParseAmount(text: string): (r: Option<int>)
    ensures (forall c :: c in text ==> !IsDigit(c)) ==> r.None?
  {
    var (sign, rest) := SplitSign(TrimStart(text));
    var ds := DigitPrefix(rest, false);
    if ds == [] then None
    else
      assert rest[0] in rest && IsDigit(rest[0]);
      Some(sign * DigitsValue(ds, false))
  }

  /** The decimal rendering of a natural number. */
  function ShowNat(n: nat): (s: string)
    ensures s != [] && forall i :: 0 <= i < |s| ==> IsDigit(s[i])
  {
    if n < 10 then [('0' as int + n) as char]
    else ShowNat(n / 10) + [('0' as int + n % 10) as char]
  }

  /** The decimal rendering of an integer, with a `-` for negative numbers. */
  function ShowInt(n: int): (s: string)
  {
    if n < 0 then "-" + ShowNat(-n) else ShowNat(n)
  }

  lemma {:induction false} DigitsValueShowNat(n: nat)
    ensures DigitsValue(ShowNat(n), false) == n
  {
    if n >= 10 {
      var s := ShowNat(n);
      assert s[..|s| - 1] == ShowNat(n / 10);
      DigitsValueShowNat(n / 10);
    }
  }

  lemma {:induction false} DigitPrefixAllDigits(s: string)
    requires forall i :: 0 <= i < |s| ==> IsDigit(s[i])
    ensures DigitPrefix(s, false) == s
  {
    if s != [] {
      DigitPrefixAllDigits(s[1..]);
    }
  }

  /** A sign followed by decimal digits parses to their signed value, in both parsers. */
  lemma ParseSignedDigits(text: string, sign: int, digits: string)
    requires TrimStart(text) == text && SplitSign(text) == (sign, digits)
    requires digits != [] && forall i :: 0 <= i < |digits| ==> IsDigit(digits[i])
    ensures ParseInt(text) == Some(sign * DigitsValue(digits, false))
    ensures ParseAmount(text) == Some(sign * DigitsValue(digits, false))
  {
    DigitPrefixAllDigits(digits);
    assert |digits| >= 2 ==> IsDigit(digits[1]);
  }

  /** Parsing the decimal rendering of any integer gives the integer back. */
  lemma ParseIntShowInt(n: int)
    ensures ParseInt(ShowInt(n)) == Some(n)
    ensures ParseAmount(ShowInt(n)) == Some(n)
  {
    var m: nat := if n < 0 then -n else n;
    var digits := ShowNat(m);
    DigitsValueShowNat(m);
    var s := ShowInt(n);
    assert !IsWhitespace(s[0]);
    assert TrimStart(s) == s;
    if n < 0 {
      assert s[1..] == digits;
      assert SplitSign(s) == (-1, digits);
      ParseSignedDigits(s, -1, digits);
    } else {
      assert SplitSign(s) == (1, digits);
      ParseSignedDigits(s, 1, digits);
    }
  }

  /** A string with no digit after the optional white space and sign is `NaN`. */
  lemma ParseIntNoDigits(text: string)
    requires var rest := SplitSign(TrimStart(text)).1; rest == [] || !IsDigit(rest[0])
    ensures ParseInt(text) == None && ParseAmount(text) == None
  {
  }
}
