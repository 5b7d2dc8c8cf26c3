/** The JavaScript string operations the core relies on, on `seq<char>`:
    the regular-expression class `\s`, ASCII case mapping, `trim`,
    `startsWith`, `join`, integer rendering and the `parseInt`, `Number`
    and `parseFloat` conversions as far as the core observes them. */
module Text {
  import opened Common

  /** The characters matched by `\s` and removed by `trim`. */
  predicate IsSpace(c: char) {
    || c == ' ' || c == '\t' || c == '\n' || c == '\r'
    || c == '\U{B}' || c == '\U{C}' || c == '\U{A0}' || c == '\U{1680}'
    || ('\U{2000}' <= c <= '\U{200A}')
    || c == '\U{2028}' || c == '\U{2029}' || c == '\U{202F}' || c == '\U{205F}'
    || c == '\U{3000}' || c == '\U{FEFF}'
  }

  /** The characters that the regular-expression `.` does not match. */
  predicate IsLineTerminator(c: char) {
    c == '\n' || c == '\r' || c == '\U{2028}' || c == '\U{2029}'
  }

  predicate IsDigit(c: char) { '0' <= c <= '9' }

  predicate IsAsciiLetter(c: char) { 'a' <= c <= 'z' || 'A' <= c <= 'Z' }

  predicate IsHexDigit(c: char) { IsDigit(c) || 'a' <= c <= 'f' || 'A' <= c <= 'F' }

  function LowerChar(c: char): char {
    if 'A' <= c <= 'Z' then (c as int + 32) as char else c
  }

  function UpperChar(c: char): char {
    if 'a' <= c <= 'z' then (c as int - 32) as char else c
  }

  /** `toLowerCase`, on ASCII letters. */
  function Lower(s: string): (r: string)
    ensures |r| == |s|
    ensures forall i :: 0 <= i < |s| ==> r[i] == LowerChar(s[i])
  {
    if s == [] then []
    else
      var rest := Lower(s[1..]);
      assert forall i :: 1 <= i < |s| ==> s[1..][i - 1] == s[i];
      [LowerChar(s[0])] + rest
  }

  function TrimStart(s: string): (r: string)
    ensures |r| <= |s| && r == s[|s| - |r|..]
    ensures forall i :: 0 <= i < |s| - |r| ==> IsSpace(s[i])
    ensures r == [] || !IsSpace(r[0])
  {
    if |s| > 0 && IsSpace(s[0]) then TrimStart(s[1..]) else s
  }

  function TrimEnd(s: string): (r: string)
    ensures |r| <= |s| && r == s[..|r|]
    ensures forall i :: |r| <= i < |s| ==> IsSpace(s[i])
    ensures r == [] || !IsSpace(r[|r| - 1])
  {
    if |s| > 0 && IsSpace(s[|s| - 1]) then TrimEnd(s[..|s| - 1]) else s
  }

  /** `trim`: skip the leading whitespace, then drop the trailing
      whitespace. */
  function Trim(s: string): (r: string)
    ensures |r| <= |s|
    ensures r == [] || (!IsSpace(r[0]) && !IsSpace(r[|r| - 1]))
  {
    if |s| > 0 && IsSpace(s[0]) then Trim(s[1..]) else TrimEnd(s)
  }

  /** `trim` removes the leading whitespace and then the trailing whitespace. */
  lemma {:induction false} TrimIsBothEnds(s: string)
    ensures Trim(s) == TrimEnd(TrimStart(s))
  {
    if |s| > 0 && IsSpace(s[0]) {
      TrimIsBothEnds(s[1..]);
    }
  }

  /** Trimming leaves nothing exactly when every character is whitespace. */
  lemma {:induction false} TrimAllSpace(s: string)
    ensures (forall i :: 0 <= i < |s| ==> IsSpace(s[i])) <==> Trim(s) == []
  {
    if |s| > 0 && IsSpace(s[0]) {
      TrimAllSpace(s[1..]);
      assert forall i :: 1 <= i < |s| ==> s[i] == s[1..][i - 1];
    } else if s != [] {
      assert !IsSpace(s[0]);
    }
  }

  /** Trimming twice is trimming once. */
  lemma TrimIdempotent(s: string)
    ensures Trim(Trim(s)) == Trim(s)
  {
    var t := Trim(s);
    if t != [] {
      assert TrimEnd(t) == t;
    }
  }

  /** The trimmed string is an infix of the original. */
  lemma TrimInfix(s: string) returns (start: nat)
    ensures start + |Trim(s)| <= |s|
    ensures Trim(s) == s[start..start + |Trim(s)|]
  {
    TrimIsBothEnds(s);
    var t := TrimStart(s);
    start := |s| - |t|;
    PrefixOfSuffix(s, start, TrimEnd(t));
  }

  lemma PrefixOfSuffix(s: string, start: nat, r: string)
    requires start <= |s| && |r| <= |s| - start && r == s[start..][..|r|]
    ensures r == s[start..start + |r|]
  {
  }

  predicate StartsWith(s: string, prefix: string) {
    |prefix| <= |s| && s[..|prefix|] == prefix
  }

  /** `Array.prototype.join(sep)`. */
  function Join(xs: seq<string>, sep: string): (r: string)
    ensures xs == [] ==> r == []
    ensures |xs| == 1 ==> r == xs[0]
    ensures |xs| > 0 ==> StartsWith(r, xs[0])
  {
    if |xs| == 0 then []
    else if |xs| == 1 then xs[0]
    else xs[0] + sep + Join(xs[1..], sep)
  }

  /** Joining one more element appends the separator and that element. */
  lemma {:induction false} JoinAppend(xs: seq<string>, x: string, sep: string)
    requires xs != []
    ensures Join(xs + [x], sep) == Join(xs, sep) + sep + x
  {
    if |xs| > 1 {
      assert (xs + [x])[1..] == xs[1..] + [x];
      JoinAppend(xs[1..], x, sep);
    } else {
      assert xs + [x] == [xs[0], x];
      assert [xs[0], x][1..] == [x];
    }
  }

  /** `length` of a string: the number of UTF-16 code units, two for each
      character outside the Basic Multilingual Plane. */
  function Utf16Length(s: string): (n: nat)
    ensures |s| <= n <= 2 * |s|
  {
    if s == [] then 0
    else (if s[0] as int > 0xFFFF then 2 else 1) + Utf16Length(s[1..])
  }

  /** A string of Basic Multilingual Plane characters has one code unit per
      character. */
  lemma {:induction false} Utf16LengthOfBmp(s: string)
    requires forall i :: 0 <= i < |s| ==> s[i] as int <= 0xFFFF
    ensures Utf16Length(s) == |s|
  {
    if s != [] {
      assert forall i :: 0 <= i < |s[1..]| ==> s[1..][i] == s[i + 1];
      Utf16LengthOfBmp(s[1..]);
    }
  }

  function DigitChar(d: nat): char
    requires d < 10
  {
    ('0' as int + d) as char
  }

  /** The value of one (hexadecimal or decimal) digit. */
  function DigitValue(c: char): nat
    requires IsHexDigit(c)
  {
    if IsDigit(c) then c as int - '0' as int
    else if 'a' <= c <= 'f' then c as int - 'a' as int + 10
    else c as int - 'A' as int + 10
  }

  /** The value of a digit string, most significant digit first. */
  function DigitsValue(ds: string, base: nat): nat
    requires forall i :: 0 <= i < |ds| ==> IsHexDigit(ds[i])
  {
    if ds == [] then 0
    else DigitsValue(ds[..|ds| - 1], base) * base + DigitValue(ds[|ds| - 1])
  }

  /** The decimal rendering of a natural number (`String(n)`). */
  function NatToString(n: nat): (r: string)
    ensures |r| > 0
    ensures forall i :: 0 <= i < |r| ==> IsDigit(r[i])
    ensures DigitsValue(r, 10) == n
  {
    if n < 10 then [DigitChar(n)]
    else
      var r := NatToString(n / 10) + [DigitChar(n % 10)];
      assert r[..|r| - 1] == NatToString(n / 10);
      r
  }

  /** The decimal rendering of an integer (`String(i)`). */
  function IntToString(i: int): (r: string)
    ensures |r| > 0
    ensures i >= 0 ==> r == NatToString(i)
    ensures i < 0 ==> r == "-" + NatToString(-i)
  {
    if i < 0 then "-" + NatToString(-i) else NatToString(i)
  }

  /** The length of the longest prefix of `s` whose characters satisfy `p`. */
  function LeadingCount(s: string, p: char -> bool): (n: nat)
    ensures n <= |s|
    ensures forall i :: 0 <= i < n ==> p(s[i])
    ensures n == |s| || !p(s[n])
  {
    if |s| > 0 && p(s[0]) then 1 + LeadingCount(s[1..], p) else 0
  }

  /** The value of the longest digit prefix in the given base, or NaN (None). */
  function PrefixValue(s: string, hex: bool): Option<nat> {
    var n := if hex then LeadingCount(s, IsHexDigit) else LeadingCount(s, IsDigit);
    if n == 0 then None
    else
      assert forall i :: 0 <= i < n ==> IsHexDigit(s[i]);
      Some(DigitsValue(s[..n], if hex then 16 else 10))
  }

  /** The unsigned part of `parseInt`: a `0x`/`0X` prefix selects base 16. */
  function ParseMagnitude(u: string): Option<nat> {
    if |u| >= 2 && u[0] == '0' && (u[1] == 'x' || u[1] == 'X') then PrefixValue(u[2..], true)
    else PrefixValue(u, false)
  }

  /** What follows one leading sign, if there is one. */
  function Unsigned(t: string): (u: string)
    ensures |u| <= |t|
  {
    if |t| > 0 && (t[0] == '-' || t[0] == '+') then t[1..] else t
  }

  /** Applies the sign of `t` to the magnitude `v`. */
  function Signed(t: string, v: nat): int {
    if |t| > 0 && t[0] == '-' then -(v as int) else v
  }

  /** `parseInt(s)` without a radix: leading spaces, one sign, a `0x`/`0X`
      prefix for base 16, then the longest run of digits; None is NaN. */
  function ParseInt(s: string): Option<int> {
    var t := TrimStart(s);
    match ParseMagnitude(Unsigned(t))
    case None => None
    case Some(v) => Some(Signed(t, v))
  }

  /** `parseInt` reads back what `String` writes for any integer. */
  lemma ParseIntOfIntToString(i: int)
    ensures ParseInt(IntToString(i)) == Some(i)
  {
    if i < 0 {
      ParseIntOfSignedDigits(NatToString(-i));
    } else {
      ParseIntOfDigits(NatToString(i));
    }
  }

  lemma ParseIntOfDigits(r: string)
    requires r != [] && forall i :: 0 <= i < |r| ==> IsDigit(r[i])
    ensures ParseInt(r) == Some(DigitsValue(r, 10))
  {
    PlainStart(r);
    MagnitudeOfDigits(r);
    ParseIntUnsigned(r, DigitsValue(r, 10));
  }

  lemma PlainStart(r: string)
    requires r != [] && IsDigit(r[0])
    ensures TrimStart(r) == r && Unsigned(r) == r && r[0] != '-'
  {
    assert !IsSpace(r[0]);
  }

  lemma ParseIntUnsigned(s: string, v: nat)
    requires TrimStart(s) == s && Unsigned(s) == s && ParseMagnitude(s) == Some(v)
    requires s != [] && s[0] != '-'
    ensures ParseInt(s) == Some(v)
  {
  }

  lemma ParseIntOfSignedDigits(r: string)
    requires r != [] && forall i :: 0 <= i < |r| ==> IsDigit(r[i])
    ensures ParseInt("-" + r) == Some(-(DigitsValue(r, 10) as int))
  {
    var s := "-" + r;
    TrimStartKeeps(s);
    assert Unsigned(s) == r;
    MagnitudeOfDigits(r);
  }

  lemma TrimStartKeeps(s: string)
    requires s != [] && !IsSpace(s[0])
    ensures TrimStart(s) == s
  {
  }

  lemma MagnitudeOfDigits(r: string)
    requires r != [] && forall i :: 0 <= i < |r| ==> IsDigit(r[i])
    ensures ParseMagnitude(r) == Some(DigitsValue(r, 10))
  {
    LeadingDigitsOfDigitString(r);
    assert r[..|r|] == r;
    assert !(|r| >= 2 && r[0] == '0' && (r[1] == 'x' || r[1] == 'X'));
  }

  lemma {:induction false} LeadingDigitsOfDigitString(r: string)
    requires forall i :: 0 <= i < |r| ==> IsDigit(r[i])
    ensures LeadingCount(r, IsDigit) == |r|
  {
    if |r| > 0 {
      LeadingDigitsOfDigitString(r[1..]);
    }
  }

  /** `Number(s)` as used to compare a form's id with stored integer ids:
      surrounding spaces are ignored, the empty string is 0, an optionally
      signed run of decimal digits is its value; anything else is None. */
  function IdNumber(s: string): Option<int> {
    var t := Trim(s);
    var u := Unsigned(t);
    if t == [] then Some(0)
    else if u != [] && LeadingCount(u, IsDigit) == |u| then
      assert u[..|u|] == u;
      Some(Signed(t, DigitsValue(u, 10)))
    else None
  }

  /** What `parseFloat` yields, as far as a truthiness test observes it. */
  datatype FloatClass = NaN | Zero | NonZero

  /** `parseFloat` of a form value (a missing value is the text "null"):
      leading spaces, one sign, then `Infinity` or a decimal mantissa;
      NaN without any mantissa digit, zero when every mantissa digit is 0. */
  function ParseFloatClass(v: Option<string>): FloatClass {
    match v
    case None => NaN
    case Some(s) =>
      var u := Unsigned(TrimStart(s));
      if StartsWith(u, "Infinity") then NonZero
      else
        var n := LeadingCount(u, IsDigit);
        var rest := u[n..];
        var m := if |rest| > 0 && rest[0] == '.' then LeadingCount(rest[1..], IsDigit) else 0;
        var mantissa := u[..n] + (if m > 0 then rest[1..1 + m] else []);
        if mantissa == [] then NaN
        else if forall i :: 0 <= i < |mantissa| ==> mantissa[i] == '0' then Zero
        else NonZero
  }
}
