/** The measurement-type page (src/routes/admin/measurement/+page.server.js):
    the name normalisation `toSentenceCase`, the decimal validator
    `validateNumeric`, the usage counts `load` attaches to each type, and the
    checks of the `create`, `update` and `delete` actions. */
module MeasurementTypes {
  import opened Common
  import opened Text
  import opened Forms
  import UniformConfiguration

  type MeasurementSpec = UniformConfiguration.MeasurementSpec

  const NameMaxLength := 40
  const MaxDecimalPlaces := 2
  /** MAX_NUMERIC_VALUE, 999999.99, in hundredths. */
  const MaxHundredths := 99999999
  const MaxNumericText := "999999.99"

  // -------------------------------------------------------- toSentenceCase

  predicate IsUpper(c: char) { 'A' <= c <= 'Z' }
  predicate IsLower(c: char) { 'a' <= c <= 'z' }

  /** `replace(/\s+/g, ' ')`: every run of whitespace becomes one space. */
  function CollapseSpaces(s: string): (r: string)
    ensures |r| <= |s|
    decreases |s|
  {
    if s == [] then []
    else if IsSpace(s[0]) then
      [' '] + CollapseSpaces(TrimStart(s[1..]))
    else
      [s[0]] + CollapseSpaces(s[1..])
  }

  /** After collapsing, whitespace is single spaces only, and the text starts
      with whitespace exactly when it did before. */
  lemma CollapseSpacesShape(s: string)
    ensures var r := CollapseSpaces(s);
      && (forall i :: 0 <= i < |r| && IsSpace(r[i]) ==> r[i] == ' ')
      && (forall i :: 0 < i < |r| && r[i - 1] == ' ' ==> r[i] != ' ')
      && (|s| > 0 ==> |r| > 0 && (IsSpace(r[0]) <==> IsSpace(s[0])))
  {
    CollapseSpacesOnlySpace(s);
    CollapseSpacesNoDouble(s);
    if |s| > 0 {
      CollapseSpacesStart(s);
    }
  }

  /** Collapsing keeps whether the text starts with whitespace. */
  lemma CollapseSpacesStart(s: string)
    requires |s| > 0
    ensures |CollapseSpaces(s)| > 0 && (IsSpace(CollapseSpaces(s)[0]) <==> IsSpace(s[0]))
  {
    assert CollapseSpaces(s)[0] == if IsSpace(s[0]) then ' ' else s[0];
  }

  /** The only whitespace left is the plain space. */
  lemma {:induction false} CollapseSpacesOnlySpace(s: string)
    ensures forall i :: 0 <= i < |CollapseSpaces(s)| && IsSpace(CollapseSpaces(s)[i]) ==> CollapseSpaces(s)[i] == ' '
    decreases |s|
  {
    if s != [] {
      var tail := if IsSpace(s[0]) then TrimStart(s[1..]) else s[1..];
      CollapseSpacesOnlySpace(tail);
      var r := CollapseSpaces(s);
      var rest := CollapseSpaces(tail);
      assert r == [if IsSpace(s[0]) then ' ' else s[0]] + rest;
      forall i | 0 <= i < |r| && IsSpace(r[i])
        ensures r[i] == ' '
      {
        if i == 0 {
          assert IsSpace(s[0]);
        } else {
          assert r[i] == rest[i - 1];
        }
      }
    }
  }

  /** No two spaces are adjacent. */
  lemma {:induction false} CollapseSpacesNoDouble(s: string)
    ensures forall i :: 0 < i < |CollapseSpaces(s)| && CollapseSpaces(s)[i - 1] == ' ' ==> CollapseSpaces(s)[i] != ' '
    decreases |s|
  {
    if s != [] {
      var tail := if IsSpace(s[0]) then TrimStart(s[1..]) else s[1..];
      CollapseSpacesNoDouble(tail);
      var r := CollapseSpaces(s);
      var rest := CollapseSpaces(tail);
      assert r == [if IsSpace(s[0]) then ' ' else s[0]] + rest;
      if IsSpace(s[0]) && tail != [] {
        CollapseSpacesStart(tail);
      }
      forall i | 0 < i < |r| && r[i - 1] == ' '
        ensures r[i] != ' '
      {
        assert r[i] == rest[i - 1];
        if i > 1 {
          assert r[i - 1] == rest[i - 2];
        }
      }
    }
  }

  /** The characters of a text that are not whitespace, in order. */
  function Visible(s: string): (r: string)
    ensures |r| <= |s|
    ensures forall i :: 0 <= i < |r| ==> !IsSpace(r[i])
  {
    if s == [] then []
    else (if IsSpace(s[0]) then [] else [s[0]]) + Visible(s[1..])
  }

  /** Skipping leading whitespace loses no visible character. */
  lemma {:induction false} VisibleTrimStart(s: string)
    ensures Visible(TrimStart(s)) == Visible(s)
  {
    if |s| > 0 && IsSpace(s[0]) {
      VisibleTrimStart(s[1..]);
    }
  }

  /** Collapsing keeps every character that is not whitespace, in order. */
  lemma {:induction false} CollapseKeepsVisible(s: string)
    ensures Visible(CollapseSpaces(s)) == Visible(s)
    decreases |s|
  {
    if s != [] {
      var r := CollapseSpaces(s);
      if IsSpace(s[0]) {
        var tail := TrimStart(s[1..]);
        CollapseKeepsVisible(tail);
        VisibleTrimStart(s[1..]);
        assert r[1..] == CollapseSpaces(tail);
      } else {
        CollapseKeepsVisible(s[1..]);
        assert r[1..] == CollapseSpaces(s[1..]);
      }
    }
  }

  /** A run of whitespace in front of text that does not start with
      whitespace is skipped entirely. */
  lemma {:induction false} TrimStartSpaces(sp: string, y: string)
    requires forall i :: 0 <= i < |sp| ==> IsSpace(sp[i])
    requires y == [] || !IsSpace(y[0])
    ensures TrimStart(sp + y) == y
  {
    if sp != [] {
      assert (sp + y)[1..] == sp[1..] + y;
      TrimStartSpaces(sp[1..], y);
    } else {
      assert sp + y == y;
    }
  }

  /** A whole run of whitespace becomes exactly one space. */
  lemma CollapseSpacesRun(sp: string, y: string)
    requires |sp| > 0 && forall i :: 0 <= i < |sp| ==> IsSpace(sp[i])
    requires y == [] || !IsSpace(y[0])
    ensures CollapseSpaces(sp + y) == [' '] + CollapseSpaces(y)
  {
    var z := sp + y;
    assert z[0] == sp[0] && z[1..] == sp[1..] + y;
    TrimStartSpaces(sp[1..], y);
    CollapseSpacesSpaceStep(z);
  }

  lemma CollapseSpacesSpaceStep(s: string)
    requires |s| > 0 && IsSpace(s[0])
    ensures CollapseSpaces(s) == [' '] + CollapseSpaces(TrimStart(s[1..]))
  {
  }

  lemma CollapseSpacesVisibleStep(s: string)
    requires |s| > 0 && !IsSpace(s[0])
    ensures CollapseSpaces(s) == [s[0]] + CollapseSpaces(s[1..])
  {
  }

  /** Skipping leading whitespace stops inside a text that ends with a
      visible character. */
  lemma {:induction false} TrimStartConcat(a: string, b: string)
    requires |a| > 0 && !IsSpace(a[|a| - 1])
    ensures TrimStart(a + b) == TrimStart(a) + b
  {
    if IsSpace(a[0]) {
      assert (a + b)[1..] == a[1..] + b;
      TrimStartConcat(a[1..], b);
    }
  }

  /** A text that ends with a visible character collapses on its own: the
      runs of whitespace after it are not joined with any of its own. */
  lemma {:induction false} CollapseSpacesConcat(x: string, y: string)
    requires x == [] || !IsSpace(x[|x| - 1])
    ensures CollapseSpaces(x + y) == CollapseSpaces(x) + CollapseSpaces(y)
    decreases |x|
  {
    if x == [] {
      assert x + y == y;
    } else if IsSpace(x[0]) {
      var t := TrimStart(x[1..]);
      assert t == [] || t[|t| - 1] == x[|x| - 1];
      CollapseSpacesConcat(t, y);
      ConcatSpaceStep(x, y);
    } else {
      CollapseSpacesConcat(x[1..], y);
      ConcatVisibleStep(x, y);
    }
  }

  lemma ConcatSpaceStep(x: string, y: string)
    requires |x| > 0 && IsSpace(x[0]) && !IsSpace(x[|x| - 1])
    requires CollapseSpaces(TrimStart(x[1..]) + y) == CollapseSpaces(TrimStart(x[1..])) + CollapseSpaces(y)
    ensures CollapseSpaces(x + y) == CollapseSpaces(x) + CollapseSpaces(y)
  {
    SpaceHeadOfConcat(x, y);
    TrimStartConcat(x[1..], y);
    CollapseSpacesSpaceStep(x);
    var t := TrimStart(x[1..]);
    Regroup(CollapseSpaces(x + y), CollapseSpaces(x), [' '], CollapseSpaces(t), CollapseSpaces(y));
  }

  lemma ConcatVisibleStep(x: string, y: string)
    requires |x| > 0 && !IsSpace(x[0])
    requires CollapseSpaces(x[1..] + y) == CollapseSpaces(x[1..]) + CollapseSpaces(y)
    ensures CollapseSpaces(x + y) == CollapseSpaces(x) + CollapseSpaces(y)
  {
    VisibleHeadOfConcat(x, y);
    CollapseSpacesVisibleStep(x);
    Regroup(CollapseSpaces(x + y), CollapseSpaces(x), [x[0]], CollapseSpaces(x[1..]), CollapseSpaces(y));
  }

  lemma Regroup(whole: string, left: string, head: string, a: string, b: string)
    requires whole == head + (a + b) && left == head + a
    ensures whole == left + b
  {
  }

  lemma SpaceHeadOfConcat(x: string, y: string)
    requires |x| > 0 && IsSpace(x[0])
    ensures CollapseSpaces(x + y) == [' '] + CollapseSpaces(TrimStart(x[1..] + y))
  {
    var z := x + y;
    assert z[0] == x[0] && z[1..] == x[1..] + y;
    CollapseSpacesSpaceStep(z);
  }

  lemma VisibleHeadOfConcat(x: string, y: string)
    requires |x| > 0 && !IsSpace(x[0])
    ensures CollapseSpaces(x + y) == [x[0]] + CollapseSpaces(x[1..] + y)
  {
    var z := x + y;
    assert z[0] == x[0] && z[1..] == x[1..] + y;
    CollapseSpacesVisibleStep(z);
  }

  /** Text without whitespace is left as it is. */
  lemma {:induction false} CollapseSpacesNoSpace(w: string)
    requires forall i :: 0 <= i < |w| ==> !IsSpace(w[i])
    ensures CollapseSpaces(w) == w
  {
    if w != [] {
      CollapseSpacesNoSpace(w[1..]);
    }
  }

  /** A word, a run of whitespace and the rest: the word is kept, the run
      becomes one space, and the rest collapses on its own. */
  lemma CollapseWordThenRun(w: string, sp: string, y: string)
    requires forall i :: 0 <= i < |w| ==> !IsSpace(w[i])
    requires |sp| > 0 && forall i :: 0 <= i < |sp| ==> IsSpace(sp[i])
    requires y == [] || !IsSpace(y[0])
    ensures CollapseSpaces(w + (sp + y)) == w + ([' '] + CollapseSpaces(y))
  {
    CollapseSpacesConcat(w, sp + y);
    CollapseSpacesNoSpace(w);
    CollapseSpacesRun(sp, y);
  }

  /** The scan of `\s\S` in `replace(/^.|\s\S/g, ...)` after the first
      match: each (space, non-space) pair is upper-cased as a whole. */
  function UpperAfterSpace(s: string): (r: string)
    ensures |r| == |s|
  {
    if |s| >= 2 && IsSpace(s[0]) && !IsSpace(s[1]) then
      [UpperChar(s[0]), UpperChar(s[1])] + UpperAfterSpace(s[2..])
    else if s == [] then []
    else [s[0]] + UpperAfterSpace(s[1..])
  }

  /** The character the scan leaves at position `i`: upper-cased when it is
      a non-space that follows a space. */
  function ScannedAt(s: string, i: nat): char
    requires i < |s|
  {
    if i > 0 && IsSpace(s[i - 1]) && !IsSpace(s[i]) then UpperChar(s[i]) else s[i]
  }

  /** The scan upper-cases exactly the non-spaces that follow a space: the
      matches cannot overlap, since each ends on a non-space. */
  lemma {:induction false} UpperAfterSpaceAt(s: string)
    ensures forall i :: 0 <= i < |s| ==> UpperAfterSpace(s)[i] == ScannedAt(s, i)
    decreases |s|, 1
  {
    if |s| >= 2 && IsSpace(s[0]) && !IsSpace(s[1]) {
      UpperAfterSpacePair(s);
    } else if s != [] {
      UpperAfterSpaceSingle(s);
    }
  }

  /** A space followed by a non-space: both are matched together. */
  lemma {:induction false} UpperAfterSpacePair(s: string)
    requires |s| >= 2 && IsSpace(s[0]) && !IsSpace(s[1])
    ensures forall i :: 0 <= i < |s| ==> UpperAfterSpace(s)[i] == ScannedAt(s, i)
    decreases |s|, 0
  {
    var tail := s[2..];
    UpperAfterSpaceAt(tail);
    var r := UpperAfterSpace(s);
    var rest := UpperAfterSpace(tail);
    assert r == [UpperChar(s[0]), UpperChar(s[1])] + rest;
    assert UpperChar(s[0]) == s[0];
    forall i | 2 <= i < |s|
      ensures r[i] == ScannedAt(s, i)
    {
      assert r[i] == rest[i - 2] == ScannedAt(tail, i - 2);
      assert tail[i - 2] == s[i];
      if i > 2 {
        assert tail[i - 3] == s[i - 1];
      }
    }
  }

  /** Any other first character is left as it is. */
  lemma {:induction false} UpperAfterSpaceSingle(s: string)
    requires s != [] && !(|s| >= 2 && IsSpace(s[0]) && !IsSpace(s[1]))
    ensures forall i :: 0 <= i < |s| ==> UpperAfterSpace(s)[i] == ScannedAt(s, i)
    decreases |s|, 0
  {
    var tail := s[1..];
    UpperAfterSpaceAt(tail);
    var r := UpperAfterSpace(s);
    var rest := UpperAfterSpace(tail);
    assert r == [s[0]] + rest;
    forall i | 1 <= i < |s|
      ensures r[i] == ScannedAt(s, i)
    {
      assert r[i] == rest[i - 1] == ScannedAt(tail, i - 1);
      assert tail[i - 1] == s[i];
      if i > 1 {
        assert tail[i - 2] == s[i - 1];
      }
    }
  }

  /** `replace(/^.|\s\S/g, letter => letter.toUpperCase())`: `^.` takes the
      first character unless it is a line terminator. */
  function CapitalizeWords(s: string): string {
    if s != [] && !IsLineTerminator(s[0]) then [UpperChar(s[0])] + UpperAfterSpace(s[1..])
    else UpperAfterSpace(s)
  }

  /** `toSentenceCase`: lower-case, collapse whitespace, trim, then upper-case
      the first character and each character after a space. */
  function SentenceCase(s: string): string {
    CapitalizeWords(Trim(CollapseSpaces(Lower(s))))
  }

  /** What `toSentenceCase` produces before capitalising: single spaces
      only, none at either end, and no upper-case letter. */
  ghost predicate Normalized(x: string) {
    && SingleSpacedLower(x)
    && (x == [] || (x[0] != ' ' && x[|x| - 1] != ' '))
  }

  /** Single spaces only, and no upper-case letter. */
  ghost predicate SingleSpacedLower(x: string) {
    && (forall i :: 0 <= i < |x| && IsSpace(x[i]) ==> x[i] == ' ')
    && (forall i :: 0 < i < |x| && x[i - 1] == ' ' ==> x[i] != ' ')
    && (forall i :: 0 <= i < |x| ==> !IsUpper(x[i]))
  }

  /** The capitalised form of a normalised string: the first character and
      every character after a space upper-cased. */
  function WordStartsUpper(x: string): (r: string)
    ensures |r| == |x|
  {
    seq(|x|, i requires 0 <= i < |x| => if i == 0 || x[i - 1] == ' ' then UpperChar(x[i]) else x[i])
  }

  lemma NormalizedPrefix(s: string)
    ensures Normalized(Trim(CollapseSpaces(Lower(s))))
  {
    var y := CollapseSpaces(Lower(s));
    CollapseSpacesShape(Lower(s));
    forall i | 0 <= i < |s|
      ensures !IsUpper(Lower(s)[i])
    {
      LowerCharNotUpper(s[i]);
    }
    CollapseKeepsCase(Lower(s));
    TrimNormalized(y);
  }

  lemma LowerCharNotUpper(c: char)
    ensures !IsUpper(LowerChar(c))
  {
  }

  /** Collapsing whitespace introduces no upper-case letter. */
  lemma {:induction false} CollapseKeepsCase(t: string)
    requires forall i :: 0 <= i < |t| ==> !IsUpper(t[i])
    ensures forall i :: 0 <= i < |CollapseSpaces(t)| ==> !IsUpper(CollapseSpaces(t)[i])
    decreases |t|
  {
    if t != [] {
      if IsSpace(t[0]) {
        var u := TrimStart(t[1..]);
        assert forall i :: 0 <= i < |u| ==> u[i] == t[|t| - |u| + i];
        CollapseKeepsCase(u);
      } else {
        CollapseKeepsCase(t[1..]);
      }
    }
  }

  lemma TrimNormalized(y: string)
    requires SingleSpacedLower(y)
    ensures Normalized(Trim(y))
  {
    var start := TrimInfix(y);
    SliceKeepsShape(y, Trim(y), start);
  }

  /** A slice keeps the single-space, no-upper-case shape of its text. */
  lemma SliceKeepsShape(y: string, x: string, start: nat)
    requires start + |x| <= |y| && x == y[start..start + |x|]
    requires SingleSpacedLower(y)
    ensures SingleSpacedLower(x)
  {
    forall i | 0 < i < |x| && x[i - 1] == ' '
      ensures x[i] != ' '
    {
      assert x[i - 1] == y[start + i - 1];
    }
  }

  lemma CapitalizeNormalized(x: string)
    requires Normalized(x)
    ensures CapitalizeWords(x) == WordStartsUpper(x)
  {
    if x != [] {
      assert !IsSpace(x[0]);
      var r := CapitalizeWords(x);
      var u := UpperAfterSpace(x[1..]);
      UpperAfterSpaceAt(x[1..]);
      forall i | 1 <= i < |x|
        ensures r[i] == WordStartsUpper(x)[i]
      {
        assert r[i] == u[i - 1];
        if i >= 2 && x[i - 1] == ' ' {
          assert IsSpace(x[1..][i - 2]) && !IsSpace(x[1..][i - 1]);
        }
      }
    }
  }

  /** `toSentenceCase` upper-cases exactly the first character and the
      characters after a space of the normalised name. */
  lemma SentenceCaseIsWordStartsUpper(s: string)
    ensures Normalized(Trim(CollapseSpaces(Lower(s))))
    ensures SentenceCase(s) == WordStartsUpper(Trim(CollapseSpaces(Lower(s))))
  {
    NormalizedPrefix(s);
    CapitalizeNormalized(Trim(CollapseSpaces(Lower(s))));
  }

  /** The shape of a `toSentenceCase` result: no whitespace at either end,
      no whitespace but single spaces, no upper-case letter except the first
      character and those after a space, and no lower-case letter in those
      places. */
  ghost predicate SentenceShaped(r: string) {
    && (r == [] || (!IsSpace(r[0]) && !IsSpace(r[|r| - 1])))
    && (forall i :: 0 <= i < |r| && IsSpace(r[i]) ==> r[i] == ' ')
    && (forall i :: 0 < i < |r| && r[i - 1] == ' ' ==> r[i] != ' ')
    && (forall i :: 0 < i < |r| && r[i - 1] != ' ' ==> !IsUpper(r[i]))
    && (forall i :: 0 <= i < |r| && (i == 0 || r[i - 1] == ' ') ==> !IsLower(r[i]))
  }

  lemma UpperCharKeeps(c: char)
    ensures IsSpace(UpperChar(c)) <==> IsSpace(c)
    ensures UpperChar(c) == ' ' <==> c == ' '
    ensures !IsLower(UpperChar(c))
  {
  }

  lemma WordStartsUpperShaped(x: string)
    requires Normalized(x)
    ensures SentenceShaped(WordStartsUpper(x))
  {
    var r := WordStartsUpper(x);
    forall i | 0 <= i < |r|
      ensures (IsSpace(r[i]) <==> IsSpace(x[i])) && (r[i] == ' ' <==> x[i] == ' ')
      ensures (i == 0 || x[i - 1] == ' ') ==> !IsLower(r[i])
      ensures !(i == 0 || x[i - 1] == ' ') ==> r[i] == x[i]
    {
      UpperCharKeeps(x[i]);
    }
    ShapedFromNormalized(x, r);
  }

  lemma ShapedFromNormalized(x: string, r: string)
    requires Normalized(x) && |r| == |x|
    requires forall i :: 0 <= i < |r| ==> (IsSpace(r[i]) <==> IsSpace(x[i])) && (r[i] == ' ' <==> x[i] == ' ')
    requires forall i :: 0 <= i < |r| && (i == 0 || x[i - 1] == ' ') ==> !IsLower(r[i])
    requires forall i :: 0 <= i < |r| && !(i == 0 || x[i - 1] == ' ') ==> r[i] == x[i]
    ensures SentenceShaped(r)
  {
    forall i | 0 < i < |r| && r[i - 1] != ' '
      ensures !IsUpper(r[i])
    {
      assert x[i - 1] != ' ';
    }
    forall i | 0 <= i < |r| && (i == 0 || r[i - 1] == ' ')
      ensures !IsLower(r[i])
    {
      assert i == 0 || x[i - 1] == ' ';
    }
  }

  /** Every `toSentenceCase` result has the sentence shape. */
  lemma SentenceCaseShape(s: string)
    ensures SentenceShaped(SentenceCase(s))
  {
    SentenceCaseIsWordStartsUpper(s);
    WordStartsUpperShaped(Trim(CollapseSpaces(Lower(s))));
  }

  /** Collapsing changes nothing once whitespace is single spaces. */
  lemma {:induction false} CollapseSingleSpaces(x: string)
    requires forall i :: 0 <= i < |x| && IsSpace(x[i]) ==> x[i] == ' '
    requires forall i :: 0 < i < |x| && x[i - 1] == ' ' ==> x[i] != ' '
    ensures CollapseSpaces(x) == x
    decreases |x|
  {
    if x != [] {
      CollapseSingleSpaces(x[1..]);
      if IsSpace(x[0]) {
        assert |x| > 1 ==> !IsSpace(x[1]);
        assert TrimStart(x[1..]) == x[1..];
      }
    }
  }

  /** Lower-casing undoes the capitalisation of a normalised string. */
  lemma LowerWordStartsUpper(x: string)
    requires Normalized(x)
    ensures Lower(WordStartsUpper(x)) == x
  {
  }

  lemma TrimNormalizedKeeps(x: string)
    requires Normalized(x)
    ensures Trim(x) == x
  {
    if x != [] {
      assert !IsSpace(x[0]) && !IsSpace(x[|x| - 1]);
      assert TrimEnd(x) == x;
    }
  }

  /** A normalised string, once capitalised, is left as it is. */
  lemma SentenceCaseFixes(x: string)
    requires Normalized(x)
    ensures SentenceCase(WordStartsUpper(x)) == WordStartsUpper(x)
  {
    LowerWordStartsUpper(x);
    CollapseSingleSpaces(x);
    TrimNormalizedKeeps(x);
    CapitalizeNormalized(x);
  }

  /** Applying `toSentenceCase` twice equals applying it once. */
  lemma SentenceCaseIdempotent(s: string)
    ensures SentenceCase(SentenceCase(s)) == SentenceCase(s)
  {
    SentenceCaseIsWordStartsUpper(s);
    SentenceCaseFixes(Trim(CollapseSpaces(Lower(s))));
  }

  // ------------------------------------------------------- validateNumeric

  /** Why `validateNumeric` rejects a value. */
  datatype NumericError = NotANumber | TooManyDecimals | ExceedsMaximum | Negative

  /** `NUMBER_PATTERN`, `^\d*\.?\d*$`: digits, at most one point, digits. */
  predicate MatchesNumberPattern(t: string) {
    var n := LeadingCount(t, IsDigit);
    n == |t| || (t[n] == '.' && LeadingCount(t[n + 1..], IsDigit) == |t| - n - 1)
  }

  /** `parts[1]` of `split('.')` on a value that matches the pattern: the
      digits after the point, if there is a point. */
  function Fraction(t: string): (r: Option<string>)
    requires MatchesNumberPattern(t)
    ensures r.Some? <==> '.' in t
    ensures r.Some? ==> forall i :: 0 <= i < |r.value| ==> IsDigit(r.value[i])
  {
    var n := LeadingCount(t, IsDigit);
    if n == |t| then
      assert forall i :: 0 <= i < |t| ==> t[i] != '.';
      None
    else
      assert t[n] == '.';
      var f := t[n + 1..];
      assert forall i :: 0 <= i < |f| ==> IsDigit(f[i]);
      Some(f)
  }

  /** The integer digits of a value that matches the pattern. */
  function Whole(t: string): (r: string)
    requires MatchesNumberPattern(t)
    ensures forall i :: 0 <= i < |r| ==> IsDigit(r[i])
  {
    t[..LeadingCount(t, IsDigit)]
  }

  /** The exact value, in hundredths, of a value that matches the pattern
      and has at most two decimals. */
  function Hundredths(t: string): nat
    requires MatchesNumberPattern(t)
    requires Fraction(t).None? || |Fraction(t).value| <= MaxDecimalPlaces
  {
    var whole := Whole(t);
    var frac := Fraction(t).GetOr([]);
    DigitsValue(whole, 10) * 100
      + (if |frac| == 1 then DigitsValue(frac, 10) * 10 else DigitsValue(frac, 10))
  }

  /** `validateNumeric`: None for a missing, empty or blank value; the
      trimmed text is checked otherwise. */
  function ValidateNumeric(value: Option<string>): Option<NumericError> {
    if value.None? || value.value == "" then None
    else CheckNumber(Trim(value.value))
  }

  /** The checks of `validateNumeric` on the trimmed text, in order: the
      pattern, the number of decimals, `parseFloat` (NaN only for "."), the
      maximum, the sign.  For at most two decimals the comparison with
      999999.99 is exact on hundredths. */
  function CheckNumber(t: string): Option<NumericError> {
    if t == "" then None
    else if !MatchesNumberPattern(t) then Some(NotANumber)
    else if Fraction(t).Some? && |Fraction(t).value| > MaxDecimalPlaces then Some(TooManyDecimals)
    else if ParseFloatClass(Some(t)) == NaN then Some(NotANumber)
    else if Hundredths(t) > MaxHundredths then Some(ExceedsMaximum)
    else if Hundredths(t) < 0 then Some(Negative)
    else None
  }

  /** The message `validateNumeric` returns for a field. */
  function NumericMessage(field: string, e: NumericError): string {
    match e
    case NotANumber => field + " must be a valid number"
    case TooManyDecimals => field + " cannot have more than 2 decimal places"
    case ExceedsMaximum => field + " cannot exceed " + MaxNumericText
    case Negative => field + " cannot be negative"
  }

  /** Missing, empty and blank values are accepted. */
  lemma BlankNumericAccepted(value: Option<string>)
    requires value.None? || Trim(value.value) == ""
    ensures ValidateNumeric(value) == None
  {
  }

  /** The sign check of `validateNumeric` can never fire. */
  lemma NeverNegative(t: string)
    ensures CheckNumber(t) != Some(Negative)
  {
  }

  /** A signed value fails the pattern, so the negative check never fires. */
  lemma SignRejected(t: string)
    requires t != [] && (t[0] == '-' || t[0] == '+')
    ensures CheckNumber(t) == Some(NotANumber)
  {
    assert LeadingCount(t, IsDigit) == 0;
  }

  /** Every value that is not rejected otherwise is within 0 to 999999.99
      and has at most two decimals. */
  lemma AcceptedRange(t: string)
    requires t != [] && CheckNumber(t).None?
    ensures MatchesNumberPattern(t)
    ensures Fraction(t).None? || |Fraction(t).value| <= MaxDecimalPlaces
    ensures 0 <= Hundredths(t) <= MaxHundredths
    ensures t != "."
  {
    FloatClassOfPattern(t);
  }

  /** A value that matches the pattern has a `parseFloat` mantissa unless
      it is "." alone: "." is the one pattern match rejected as NaN. */
  lemma FloatClassOfPattern(t: string)
    requires t != [] && MatchesNumberPattern(t)
    ensures ParseFloatClass(Some(t)) == NaN <==> t == "."
  {
    assert !IsSpace(t[0]) && t[0] != '-' && t[0] != '+';
    assert TrimStart(t) == t;
    assert Unsigned(t) == t;
    assert !StartsWith(t, "Infinity") by {
      if |t| >= 8 {
        assert t[0] != "Infinity"[0];
      }
    }
    var n := LeadingCount(t, IsDigit);
    if n == 0 {
      assert t[n..] == t;
      assert t == "." ==> t[1..] == [];
    }
  }

  /** "." matches the pattern and is still rejected, through `parseFloat`. */
  lemma LonePointRejected()
    ensures MatchesNumberPattern(".")
    ensures CheckNumber(".") == Some(NotANumber)
  {
    var t := ".";
    assert MatchesNumberPattern(t) by {
      assert LeadingCount(t, IsDigit) == 0;
      assert LeadingCount(t[1..], IsDigit) == 0;
    }
    assert Fraction(t) == Some([]) by {
      assert LeadingCount(t, IsDigit) == 0;
    }
    FloatClassOfPattern(t);
  }

  lemma {:induction false} LeadingDigitsPrefix(w: string, rest: string)
    requires forall i :: 0 <= i < |w| ==> IsDigit(w[i])
    requires rest != [] && !IsDigit(rest[0])
    ensures LeadingCount(w + rest, IsDigit) == |w|
  {
    if w != [] {
      assert (w + rest)[1..] == w[1..] + rest;
      LeadingDigitsPrefix(w[1..], rest);
    }
  }

  /** Digits, a point and digits split back into the two runs. */
  lemma PointedParts(w: string, f: string)
    requires forall i :: 0 <= i < |w| ==> IsDigit(w[i])
    requires forall i :: 0 <= i < |f| ==> IsDigit(f[i])
    ensures MatchesNumberPattern(w + "." + f)
    ensures Whole(w + "." + f) == w
    ensures Fraction(w + "." + f) == Some(f)
  {
    var t := w + "." + f;
    LeadingDigitsPrefix(w, "." + f);
    assert t[|w|] == '.';
    assert t[|w| + 1..] == f;
    LeadingDigitsOfDigitString(f);
  }

  lemma TrimKeepsDigitEnds(t: string)
    requires t != [] && IsDigit(t[0]) && IsDigit(t[|t| - 1])
    ensures Trim(t) == t
  {
    assert !IsSpace(t[0]) && !IsSpace(t[|t| - 1]);
    assert TrimStart(t) == t;
    assert TrimEnd(t) == t;
  }

  /** A value written as digits, a point and two digits is accepted exactly
      when its amount in hundredths is at most 999999.99. */
  lemma TwoDecimalCheck(w: string, f: string)
    requires w != [] && forall i :: 0 <= i < |w| ==> IsDigit(w[i])
    requires |f| == 2 && forall i :: 0 <= i < |f| ==> IsDigit(f[i])
    ensures var h := DigitsValue(w, 10) * 100 + DigitsValue(f, 10);
      CheckNumber(w + "." + f) == if h <= MaxHundredths then None else Some(ExceedsMaximum)
  {
    var t := w + "." + f;
    PointedParts(w, f);
    assert t[0] == w[0];
    FloatClassOfPattern(t);
  }

  /** Two digits for an amount below 100. */
  function Pad2(d: nat): (r: string)
    requires d < 100
    ensures |r| == 2 && forall i :: 0 <= i < 2 ==> IsDigit(r[i])
    ensures DigitsValue(r, 10) == d
  {
    var r := [DigitChar(d / 10), DigitChar(d % 10)];
    assert r[..1] == [DigitChar(d / 10)];
    assert r[..1][..0] == [];
    assert DigitsValue(r[..1], 10) == d / 10;
    assert DigitValue(r[0]) == d / 10;
    assert DigitValue(r[1]) == d % 10;
    r
  }

  /** The two-decimal rendering of an amount given in hundredths. */
  function CentsText(c: nat): string {
    NatToString(c / 100) + "." + Pad2(c % 100)
  }

  /** Every amount written with two decimals is accepted exactly when it is
      at most 999999.99, and otherwise reported as exceeding it. */
  lemma CentsTextValidation(c: nat)
    ensures ValidateNumeric(Some(CentsText(c)))
            == if c <= MaxHundredths then None else Some(ExceedsMaximum)
  {
    var w := NatToString(c / 100);
    var f := Pad2(c % 100);
    var t := CentsText(c);
    assert t[0] == w[0] && t[|t| - 1] == f[1];
    TrimKeepsDigitEnds(t);
    TwoDecimalCheck(w, f);
  }

  // ---------------------------------------------------------------- load

  /** A stored measurement type (the columns the checks read). */
  datatype TypeRow = TypeRow(id: int, name: string)

  /** A type with its `usage_count`. */
  datatype TypeUsage = TypeUsage(row: TypeRow, usageCount: nat)

  predicate UsesType(specs: seq<MeasurementSpec>, id: int) {
    exists j :: 0 <= j < |specs| && specs[j].measurementTypeId == Some(id)
  }

  /** The number of configurations with at least one spec for the type. */
  function UsageCount(id: int, configs: seq<seq<MeasurementSpec>>): (n: nat)
    ensures n <= |configs|
  {
    if configs == [] then 0
    else UsageCount(id, configs[..|configs| - 1]) + (if UsesType(configs[|configs| - 1], id) then 1 else 0)
  }

  /** How `load` ends: the types with their counts, or
      `error(500, 'Error fetching measurement types')`. */
  datatype LoadOutcome = Loaded(types: seq<TypeUsage>) | LoadFailed

  /** `load`, given the types query (None: it failed) and the
      configurations' `measurement_specs` (None: the query gave no data; a
      None inside: a null column).  Counting throws when it meets a null. */
  function Load(types: Option<seq<TypeRow>>, configs: Option<seq<Option<seq<MeasurementSpec>>>>): LoadOutcome {
    if types.None? then LoadFailed
    else if types.value == [] then Loaded([])
    else if configs.None? || exists i :: 0 <= i < |configs.value| && configs.value[i].None? then
      LoadFailed
    else
      var specs := seq(|configs.value|, i requires 0 <= i < |configs.value| => configs.value[i].value);
      Loaded(seq(|types.value|, i requires 0 <= i < |types.value| =>
        TypeUsage(types.value[i], UsageCount(types.value[i].id, specs))))
  }

  /** A type is used by some configuration exactly when its count is non-zero. */
  lemma {:induction false} UsageCountPositive(id: int, configs: seq<seq<MeasurementSpec>>)
    ensures UsageCount(id, configs) > 0 <==> exists i :: 0 <= i < |configs| && UsesType(configs[i], id)
  {
    if configs != [] {
      var init := configs[..|configs| - 1];
      UsageCountPositive(id, init);
      assert forall i :: 0 <= i < |init| ==> init[i] == configs[i];
      if exists i :: 0 <= i < |configs| && UsesType(configs[i], id) {
        var i :| 0 <= i < |configs| && UsesType(configs[i], id);
        if i < |init| {
          assert UsesType(init[i], id);
        }
      }
    }
  }

  /** Load keeps every type, in order, and attaches its usage count. */
  lemma LoadCounts(types: seq<TypeRow>, configs: seq<seq<MeasurementSpec>>)
    ensures var outcome := Load(Some(types), Some(seq(|configs|, i requires 0 <= i < |configs| => Some(configs[i]))));
      && outcome.Loaded?
      && |outcome.types| == |types|
      && forall i :: 0 <= i < |types| ==>
           outcome.types[i] == TypeUsage(types[i], UsageCount(types[i].id, configs))
  {
    var wrapped := seq(|configs|, i requires 0 <= i < |configs| => Some(configs[i]));
    if types != [] {
      var specs := seq(|wrapped|, i requires 0 <= i < |wrapped| => wrapped[i].value);
      assert specs == configs;
    }
  }

  // ------------------------------------------------------ action outcomes

  /** The two numeric fields of a measurement type. */
  datatype NumericField = BaseCm | AdditionalCostPerCm

  function FieldLabel(f: NumericField): string {
    match f
    case BaseCm => "Base (cm)"
    case AdditionalCostPerCm => "Additional cost per cm"
  }

  /** One problem found by the checks of `create` or `update`. */
  datatype Problem = NameMissing | NameTooLong | NameCharacters | BadNumber(field: NumericField, error: NumericError)

  /** A problem of the `entry`-th proposed type of `create` (counting from 1). */
  datatype EntryProblem = EntryProblem(entry: nat, problem: Problem)

  /** Why an action fails; `Status` and `Message` give what `fail` returns. */
  datatype Failure =
    | NamesMissing
    | NoValidName
    | InvalidEntries(problems: seq<EntryProblem>)
    | AlreadyExist(names: seq<string>)
    | CreateFailed
    | IdOrNameMissing
    | InvalidUpdate(issues: seq<Problem>)
    | NameTaken(name: string)
    | UpdateFailed
    | IdMissing
    | InUse
    | DeleteFailed

  /** How an action ends. */
  datatype Outcome = Failed(failure: Failure) | Inserted(rows: seq<NewType>) | Updated(row: NewType) | Deleted

  /** The status of a failure: 500 when the store failed, 400 otherwise. */
  function Status(f: Failure): int {
    if f.CreateFailed? || f.UpdateFailed? || f.DeleteFailed? then 500 else 400
  }

  /** A problem as `update` words it. */
  function ProblemText(p: Problem): string {
    match p
    case NameMissing => "Measurement name is required"
    case NameTooLong => "Name must not exceed 40 characters"
    case NameCharacters => "Measurement name can only contain letters, numbers, spaces, and dashes"
    case BadNumber(field, error) => NumericMessage(FieldLabel(field), error)
  }

  /** A problem as `create` words it, with its entry number. */
  function EntryProblemText(p: EntryProblem): string {
    var n := NatToString(p.entry);
    if p.problem.BadNumber? then "Entry " + n + ": " + ProblemText(p.problem)
    else ProblemText(p.problem) + " for entry " + n
  }

  /** The `error` text of a failure. */
  function Message(f: Failure): string {
    match f
    case NamesMissing => "At least one measurement name is required"
    case NoValidName => "At least one valid measurement name is required"
    case InvalidEntries(problems) =>
      Join(seq(|problems|, i requires 0 <= i < |problems| => EntryProblemText(problems[i])), "\n")
    case AlreadyExist(names) => "Measurement types already exist: " + Join(names, ", ")
    case CreateFailed => "Failed to create measurement types"
    case IdOrNameMissing => "Measurement ID and name are required"
    case InvalidUpdate(issues) =>
      Join(seq(|issues|, i requires 0 <= i < |issues| => ProblemText(issues[i])), "\n")
    case NameTaken(name) => "A measurement type with name \"" + name + "\" already exists"
    case UpdateFailed => "Failed to update measurement type"
    case IdMissing => "Measurement ID is required"
    case InUse => "Cannot delete this measurement type as it is being used in uniform configurations"
    case DeleteFailed => "Failed to delete measurement type"
  }

  // ---------------------------------------------------------------- create

  /** One row `create` or `update` writes: the normalised name and the two
      numbers as `String(formatNumericValue(...))` (None: null). */
  datatype NewType = NewType(name: string, baseCm: Option<string>, additionalCostPerCm: Option<string>)

  /** `NAME_PATTERN`, `^[A-Za-z0-9\s-]+$`. */
  predicate MatchesNamePattern(name: string) {
    |name| > 0 && forall i :: 0 <= i < |name| ==>
      IsAsciiLetter(name[i]) || IsDigit(name[i]) || IsSpace(name[i]) || name[i] == '-'
  }

  /** `name.length > NAME_MAX_LENGTH`, on UTF-16 code units. */
  predicate TooLong(name: string) {
    Utf16Length(name) > NameMaxLength
  }

  /** A name the pattern accepts is ASCII, so its `length` is its number
      of characters. */
  lemma NamePatternLength(name: string)
    requires MatchesNamePattern(name)
    ensures Utf16Length(name) == |name|
  {
    Utf16LengthOfBmp(name);
  }

  /** A string of characters outside the Basic Multilingual Plane has two
      code units per character. */
  lemma {:induction false} Utf16LengthOfAstral(s: string)
    requires forall i :: 0 <= i < |s| ==> s[i] as int > 0xFFFF
    ensures Utf16Length(s) == 2 * |s|
  {
    if s != [] {
      assert forall i :: 0 <= i < |s[1..]| ==> s[1..][i] == s[i + 1];
      Utf16LengthOfAstral(s[1..]);
    }
  }

  /** Twenty-one emoji are 42 code units, so `create` reports the name as too
      long, and `update` reports the length and the characters. */
  lemma EmojiNameTooLong(name: string)
    requires |name| == 21 && forall i :: 0 <= i < |name| ==> name[i] == '\U{1F600}'
    ensures NameProblems(name) == [NameTooLong]
    ensures UpdateNameProblems(name) == [NameTooLong, NameCharacters]
  {
    Utf16LengthOfAstral(name);
    assert !IsSpace(name[0]) && !IsAsciiLetter(name[0]);
  }

  /** `formatNumericValue`, with `render` standing for `parseFloat` followed
      by `String` (None: NaN). */
  function FormatNumeric(raw: Option<string>, render: string -> Option<string>): Option<string> {
    if raw.None? || raw.value == "" then None
    else
      var t := Trim(raw.value);
      if t == "" then None else render(t)
  }

  /** `values[index]` unless it is missing or empty. */
  function FieldAt(values: seq<string>, index: nat): (r: Option<string>)
    ensures r.Some? ==> index < |values| && r.value == values[index] && r.value != ""
  {
    if index < |values| && values[index] != "" then Some(values[index]) else None
  }

  /** The `map` callback of `create`: the entry for the `index`-th name is
      the name normalised, with the numbers from the same position of their
      lists. */
  function Draft(base: seq<string>, cost: seq<string>, render: string -> Option<string>): (string, nat) -> NewType {
    (name: string, index: nat) =>
      NewType(SentenceCase(Trim(name)),
              FormatNumeric(FieldAt(base, index), render),
              FormatNumeric(FieldAt(cost, index), render))
  }

  /** `names.map(...)`: the entries `create` builds from the form, one per
      name, before the empty names are dropped. */
  function Drafts(form: FormData, render: string -> Option<string>): (r: seq<NewType>)
    ensures |r| == |GetAll(form, "names")|
  {
    MapWithIndex(GetAll(form, "names"),
                 Draft(GetAll(form, "default_base_cm"), GetAll(form, "default_additional_cost_per_cm"), render))
  }

  /** The `i`-th entry carries the `i`-th submitted name, trimmed and
      normalised by `toSentenceCase`. */
  lemma DraftName(form: FormData, render: string -> Option<string>, i: nat)
    requires i < |GetAll(form, "names")|
    ensures Drafts(form, render)[i].name == SentenceCase(Trim(GetAll(form, "names")[i]))
  {
    MapWithIndexAt(GetAll(form, "names"),
                   Draft(GetAll(form, "default_base_cm"), GetAll(form, "default_additional_cost_per_cm"), render), i);
  }

  /** `filter(m => m.name.length > 0)`. */
  function KeepNamed(entries: seq<NewType>): (r: seq<NewType>)
    ensures |r| <= |entries|
    ensures forall e :: e in r <==> e in entries && e.name != []
  {
    if entries == [] then []
    else
      var rest := KeepNamed(entries[1..]);
      assert forall e :: e in entries <==> e == entries[0] || e in entries[1..];
      if entries[0].name != [] then [entries[0]] + rest else rest
  }

  /** The filter keeps the order of the entries: filtering two lists one
      after the other is filtering their concatenation. */
  lemma {:induction false} KeepNamedConcat(a: seq<NewType>, b: seq<NewType>)
    ensures KeepNamed(a + b) == KeepNamed(a) + KeepNamed(b)
  {
    if a == [] {
      assert a + b == b;
    } else {
      assert (a + b)[0] == a[0] && (a + b)[1..] == a[1..] + b;
      KeepNamedConcat(a[1..], b);
    }
  }

  /** One entry is kept exactly when its name is not empty. */
  lemma KeepNamedOne(e: NewType)
    ensures KeepNamed([e]) == if e.name != [] then [e] else []
  {
    assert [e][1..] == [];
  }

  /** An entry passes every check of `create`. */
  predicate EntryValid(e: NewType) {
    && e.name != []
    && !TooLong(e.name)
    && MatchesNamePattern(e.name)
    && ValidateNumeric(e.baseCm).None?
    && ValidateNumeric(e.additionalCostPerCm).None?
  }

  /** Every entry passes every check of `create`. */
  predicate AllValid(entries: seq<NewType>) {
    entries == [] || (EntryValid(entries[0]) && AllValid(entries[1..]))
  }

  /** `AllValid` is validity of each entry. */
  lemma {:induction false} AllValidEach(entries: seq<NewType>)
    ensures AllValid(entries) <==> forall i :: 0 <= i < |entries| ==> EntryValid(entries[i])
  {
    if entries != [] {
      AllValidEach(entries[1..]);
      assert forall i :: 1 <= i < |entries| ==> entries[i] == entries[1..][i - 1];
    }
  }

  /** The problems of a numeric field, none or one. */
  function NumberProblems(field: NumericField, value: Option<string>): (r: seq<Problem>)
    ensures r == [] <==> ValidateNumeric(value).None?
    ensures ValidateNumeric(value).Some? ==> r == [BadNumber(field, ValidateNumeric(value).value)]
    ensures forall i :: 0 <= i < |r| ==> r[i].BadNumber?
  {
    match ValidateNumeric(value)
    case Some(error) => [BadNumber(field, error)]
    case None => []
  }

  /** The name check of `create`: missing, then too long, then bad
      characters, reporting the first that applies. */
  function NameProblems(name: string): (r: seq<Problem>)
    ensures r == [] <==> name != [] && !TooLong(name) && MatchesNamePattern(name)
    ensures NameMissing in r <==> name == []
    ensures NameTooLong in r <==> name != [] && TooLong(name)
    ensures NameCharacters in r <==> name != [] && !TooLong(name) && !MatchesNamePattern(name)
    ensures |r| <= 1
  {
    if name == [] then [NameMissing]
    else if TooLong(name) then [NameTooLong]
    else if !MatchesNamePattern(name) then [NameCharacters]
    else []
  }

  /** The problems `create` reports for one entry: the name's first, then
      one per rejected number. */
  function EntryProblems(e: NewType): (r: seq<Problem>)
    ensures r == [] <==> EntryValid(e)
    ensures var n := |NameProblems(e.name)|;
      n <= |r| <= n + 2 && r[..n] == NameProblems(e.name) && forall i :: n <= i < |r| ==> r[i].BadNumber?
  {
    NameProblems(e.name) + NumberProblems(BaseCm, e.baseCm) + NumberProblems(AdditionalCostPerCm, e.additionalCostPerCm)
  }

  /** The body of the `flatMap` callback, which pushes each problem it finds
      onto a fresh list. */
  method CollectEntryProblems(e: NewType) returns (problems: seq<Problem>)
    ensures problems == EntryProblems(e)
  {
    problems := [];
    if e.name == [] {
      problems := problems + [NameMissing];
    } else if TooLong(e.name) {
      problems := problems + [NameTooLong];
    } else if !MatchesNamePattern(e.name) {
      problems := problems + [NameCharacters];
    }
    assert problems == NameProblems(e.name);
    var baseError := ValidateNumeric(e.baseCm);
    if baseError.Some? {
      problems := problems + [BadNumber(BaseCm, baseError.value)];
    }
    assert problems == NameProblems(e.name) + NumberProblems(BaseCm, e.baseCm);
    var costError := ValidateNumeric(e.additionalCostPerCm);
    if costError.Some? {
      problems := problems + [BadNumber(AdditionalCostPerCm, costError.value)];
    }
    assert problems == NameProblems(e.name) + NumberProblems(BaseCm, e.baseCm) + NumberProblems(AdditionalCostPerCm, e.additionalCostPerCm);
  }

  /** The problems of entries, numbered from 1. */
  function Numbered(problems: seq<Problem>, entry: nat): (r: seq<EntryProblem>)
    ensures |r| == |problems|
    ensures forall i :: 0 <= i < |r| ==> r[i] == EntryProblem(entry, problems[i])
  {
    seq(|problems|, i requires 0 <= i < |problems| => EntryProblem(entry, problems[i]))
  }

  /** The concatenation of per-entry problem lists, each problem tagged
      with its entry's number (counting from 1). */
  function NumberedConcat(lists: seq<seq<Problem>>): seq<EntryProblem> {
    if lists == [] then []
    else NumberedConcat(lists[..|lists| - 1]) + Numbered(lists[|lists| - 1], |lists|)
  }

  /** Nothing is collected exactly when every list is empty. */
  lemma {:induction false} NumberedConcatEmpty(lists: seq<seq<Problem>>)
    ensures NumberedConcat(lists) == [] <==> forall i :: 0 <= i < |lists| ==> lists[i] == []
  {
    if lists != [] {
      var init := lists[..|lists| - 1];
      NumberedConcatEmpty(init);
      assert forall i :: 0 <= i < |init| ==> init[i] == lists[i];
    }
  }

  /** Every collected problem names an existing list and comes from it. */
  lemma {:induction false} NumberedConcatMembers(lists: seq<seq<Problem>>)
    ensures forall p :: p in NumberedConcat(lists) ==> 1 <= p.entry <= |lists| && p.problem in lists[p.entry - 1]
  {
    if lists != [] {
      var init := lists[..|lists| - 1];
      NumberedConcatMembers(init);
      assert forall i :: 0 <= i < |init| ==> init[i] == lists[i];
      var last := Numbered(lists[|lists| - 1], |lists|);
      forall p | p in last
        ensures p.entry == |lists| && p.problem in lists[|lists| - 1]
      {
        var j :| 0 <= j < |last| && last[j] == p;
      }
    }
  }

  /** Every problem of every list is collected, tagged with its list's
      number. */
  lemma {:induction false} NumberedConcatComplete(lists: seq<seq<Problem>>)
    ensures forall i, p :: 0 <= i < |lists| && p in lists[i] ==> EntryProblem(i + 1, p) in NumberedConcat(lists)
  {
    if lists != [] {
      var n := |lists|;
      var init := lists[..n - 1];
      NumberedConcatComplete(init);
      assert forall i :: 0 <= i < |init| ==> init[i] == lists[i];
      var last := Numbered(lists[n - 1], n);
      forall p | p in lists[n - 1]
        ensures EntryProblem(n, p) in last
      {
        var j :| 0 <= j < |lists[n - 1]| && lists[n - 1][j] == p;
        assert last[j] == EntryProblem(n, p);
      }
    }
  }

  /** `flatMap` of the entry checks: each entry's problems in entry order. */
  function ValidationProblems(entries: seq<NewType>): (r: seq<EntryProblem>)
    ensures r == [] <==> AllValid(entries)
  {
    var lists := ProblemLists(entries);
    AllValidEach(entries);
    NumberedConcatEmpty(lists);
    NumberedConcat(lists)
  }

  /** Every reported problem names an entry, counting from 1, and is one of
      that entry's problems. */
  lemma ProblemsOfEntries(entries: seq<NewType>)
    ensures forall p :: p in ValidationProblems(entries) ==>
      1 <= p.entry <= |entries| && p.problem in EntryProblems(entries[p.entry - 1])
    ensures forall i, p :: 0 <= i < |entries| && p in EntryProblems(entries[i]) ==>
      EntryProblem(i + 1, p) in ValidationProblems(entries)
  {
    NumberedConcatMembers(ProblemLists(entries));
    NumberedConcatComplete(ProblemLists(entries));
  }

  /** The problems of one more entry come after all the earlier ones,
      numbered with the new entry's position. */
  lemma ValidationProblemsAppend(entries: seq<NewType>, e: NewType)
    ensures ValidationProblems(entries + [e]) == ValidationProblems(entries) + Numbered(EntryProblems(e), |entries| + 1)
  {
    var lists := ProblemLists(entries + [e]);
    assert lists == ProblemLists(entries) + [EntryProblems(e)] by {
      ProblemListsAppend(entries, e);
    }
    NumberedConcatAppend(ProblemLists(entries), EntryProblems(e));
  }

  lemma ProblemListsAppend(entries: seq<NewType>, e: NewType)
    ensures ProblemLists(entries + [e]) == ProblemLists(entries) + [EntryProblems(e)]
  {
    var all := entries + [e];
    assert forall i :: 0 <= i < |entries| ==> all[i] == entries[i];
  }

  lemma NumberedConcatAppend(lists: seq<seq<Problem>>, l: seq<Problem>)
    ensures NumberedConcat(lists + [l]) == NumberedConcat(lists) + Numbered(l, |lists| + 1)
  {
    assert (lists + [l])[..|lists|] == lists;
  }

  /** Each entry's problems, entry by entry. */
  function ProblemLists(entries: seq<NewType>): (r: seq<seq<Problem>>)
    ensures |r| == |entries|
    ensures forall i :: 0 <= i < |r| ==> r[i] == EntryProblems(entries[i])
  {
    if entries == [] then []
    else [EntryProblems(entries[0])] + ProblemLists(entries[1..])
  }

  /** The stored names that collide with the proposed ones, in stored order. */
  function Duplicates(stored: seq<string>, proposed: seq<NewType>): (r: seq<string>)
    ensures forall n :: n in r <==> n in stored && exists e :: e in proposed && e.name == n
  {
    if stored == [] then []
    else
      var rest := Duplicates(stored[1..], proposed);
      assert forall n :: n in stored <==> n == stored[0] || n in stored[1..];
      if exists e :: e in proposed && e.name == stored[0] then [stored[0]] + rest else rest
  }

  /** `actions.create`, given the stored names (None: the query gave no data)
      and whether the insert fails. */
  function Create(form: FormData, render: string -> Option<string>,
                  stored: Option<seq<string>>, insertFails: bool): Outcome
  {
    if GetAll(form, "names") == [] then Failed(NamesMissing)
    else Screen(KeepNamed(Drafts(form, render)), stored, insertFails)
  }

  /** What `create` does with the named entries: refuse an empty batch, then
      any invalid entry, then any stored name, then a failed insert. */
  function Screen(entries: seq<NewType>, stored: Option<seq<string>>, insertFails: bool): Outcome {
    if entries == [] then Failed(NoValidName)
    else
      var problems := ValidationProblems(entries);
      if problems != [] then Failed(InvalidEntries(problems))
      else
        var duplicates := if stored.Some? then Duplicates(stored.value, entries) else [];
        if duplicates != [] then Failed(AlreadyExist(duplicates))
        else if insertFails then Failed(CreateFailed)
        else Inserted(entries)
  }

  /** The batch is inserted, whole, exactly when it is not empty, every entry
      is valid, no entry's name is stored and the insert succeeds. */
  lemma ScreenAllOrNothing(entries: seq<NewType>, stored: Option<seq<string>>, insertFails: bool)
    ensures Screen(entries, stored, insertFails) == Inserted(entries)
      <==> && entries != []
           && AllValid(entries)
           && (stored.Some? ==> forall e :: e in entries ==> e.name !in stored.value)
           && !insertFails
    ensures Screen(entries, stored, insertFails).Inserted? ==> Screen(entries, stored, insertFails) == Inserted(entries)
  {
    if entries != [] && AllValid(entries) && stored.Some? {
      DuplicatesEmpty(stored.value, entries);
    }
  }

  /** No stored name collides exactly when the list of collisions is empty. */
  lemma DuplicatesEmpty(stored: seq<string>, entries: seq<NewType>)
    ensures Duplicates(stored, entries) == [] <==> forall e :: e in entries ==> e.name !in stored
  {
    var d := Duplicates(stored, entries);
    if d != [] {
      assert d[0] in d;
    }
  }

  /** Create inserts all entries or none: it inserts exactly the entries
      with a non-empty name, and only when every one of them is valid, none
      collides with a stored name and the insert succeeds. */
  lemma CreateAllOrNothing(form: FormData, render: string -> Option<string>,
                           stored: Option<seq<string>>, insertFails: bool)
    ensures var entries := KeepNamed(Drafts(form, render));
      Create(form, render, stored, insertFails) == Inserted(entries)
      <==> && entries != []
           && AllValid(entries)
           && (stored.Some? ==> forall e :: e in entries ==> e.name !in stored.value)
           && !insertFails
    ensures Create(form, render, stored, insertFails).Inserted? ==>
      Create(form, render, stored, insertFails) == Inserted(KeepNamed(Drafts(form, render)))
  {
    var entries := KeepNamed(Drafts(form, render));
    ScreenAllOrNothing(entries, stored, insertFails);
    if GetAll(form, "names") == [] {
      assert entries == [];
    }
  }

  /** An invalid entry blocks the whole batch with a 400 listing every
      problem of every entry. */
  lemma ScreenInvalidEntry(entries: seq<NewType>, stored: Option<seq<string>>, insertFails: bool, i: nat)
    requires i < |entries| && !EntryValid(entries[i])
    ensures Screen(entries, stored, insertFails) == Failed(InvalidEntries(ValidationProblems(entries)))
  {
    AllValidEach(entries);
  }

  lemma CreateInvalidEntry(form: FormData, render: string -> Option<string>,
                           stored: Option<seq<string>>, insertFails: bool, i: nat)
    requires GetAll(form, "names") != []
    requires i < |KeepNamed(Drafts(form, render))| && !EntryValid(KeepNamed(Drafts(form, render))[i])
    ensures Create(form, render, stored, insertFails)
            == Failed(InvalidEntries(ValidationProblems(KeepNamed(Drafts(form, render)))))
    ensures Status(Create(form, render, stored, insertFails).failure) == 400
  {
    ScreenInvalidEntry(KeepNamed(Drafts(form, render)), stored, insertFails, i);
  }

  /** Valid entries whose names are already stored are refused with a 400
      that lists exactly the stored names among them. */
  lemma CreateDuplicates(form: FormData, render: string -> Option<string>,
                         stored: seq<string>, insertFails: bool, e: NewType)
    requires GetAll(form, "names") != []
    requires AllValid(KeepNamed(Drafts(form, render)))
    requires e in KeepNamed(Drafts(form, render)) && e.name in stored
    ensures var d := Duplicates(stored, KeepNamed(Drafts(form, render)));
      && e.name in d
      && Create(form, render, Some(stored), insertFails) == Failed(AlreadyExist(d))
  {
    var entries := KeepNamed(Drafts(form, render));
    assert e.name in Duplicates(stored, entries);
    assert ValidationProblems(entries) == [];
  }

  /** Every row `create` inserts passes the name checks. */
  lemma ScreenInsertsValid(entries: seq<NewType>, stored: Option<seq<string>>, insertFails: bool)
    requires Screen(entries, stored, insertFails).Inserted?
    ensures forall e :: e in Screen(entries, stored, insertFails).rows ==>
      e.name != [] && !TooLong(e.name) && MatchesNamePattern(e.name)
  {
    ScreenAllOrNothing(entries, stored, insertFails);
    AllValidNames(entries);
  }

  /** Every entry of a valid batch has a well-formed name. */
  lemma AllValidNames(entries: seq<NewType>)
    requires AllValid(entries)
    ensures forall e :: e in entries ==> e.name != [] && !TooLong(e.name) && MatchesNamePattern(e.name)
  {
    AllValidEach(entries);
    forall e | e in entries
      ensures e.name != [] && !TooLong(e.name) && MatchesNamePattern(e.name)
    {
      var k :| 0 <= k < |entries| && entries[k] == e;
      assert EntryValid(entries[k]);
    }
  }

  /** The submitted names, each trimmed and normalised, in form order. */
  function NormalizedNames(form: FormData): (r: seq<string>)
    ensures |r| == |GetAll(form, "names")|
  {
    MapWithIndex(GetAll(form, "names"), NormalizeName)
  }

  /** The normalisation `create` applies to the name at any position. */
  function NormalizeName(name: string, index: nat): string {
    SentenceCase(Trim(name))
  }

  /** The name at position `i`, normalised. */
  lemma NormalizedNameAt(form: FormData, i: nat)
    requires i < |GetAll(form, "names")|
    ensures NormalizedNames(form)[i] == SentenceCase(Trim(GetAll(form, "names")[i]))
  {
    MapWithIndexAt(GetAll(form, "names"), NormalizeName, i);
  }

  /** Every entry built from the form carries one of the submitted names,
      trimmed and normalised. */
  lemma DraftsFromNames(form: FormData, render: string -> Option<string>)
    ensures forall e :: e in Drafts(form, render) ==> e.name in NormalizedNames(form)
  {
    var drafts := Drafts(form, render);
    var names := NormalizedNames(form);
    forall e | e in drafts
      ensures e.name in names
    {
      var i :| 0 <= i < |drafts| && drafts[i] == e;
      DraftName(form, render, i);
      NormalizedNameAt(form, i);
    }
  }

  /** Every inserted name is the `toSentenceCase` form of a submitted name,
      of 1 to 40 allowed characters. */
  lemma InsertedNames(form: FormData, render: string -> Option<string>,
                      stored: Option<seq<string>>, insertFails: bool)
    requires Create(form, render, stored, insertFails).Inserted?
    ensures forall e :: e in Create(form, render, stored, insertFails).rows ==>
      && e.name != [] && !TooLong(e.name) && |e.name| <= NameMaxLength
      && MatchesNamePattern(e.name)
      && e.name in NormalizedNames(form)
  {
    var drafts := Drafts(form, render);
    var entries := KeepNamed(drafts);
    assert Create(form, render, stored, insertFails) == Screen(entries, stored, insertFails);
    ScreenAllOrNothing(entries, stored, insertFails);
    ScreenInsertsValid(entries, stored, insertFails);
    DraftsFromNames(form, render);
    forall e | e in Create(form, render, stored, insertFails).rows
      ensures |e.name| <= NameMaxLength
    {
      NamePatternLength(e.name);
    }
  }

  // ---------------------------------------------------------------- update

  /** `toSentenceCase(formData.get('name')?.toString().trim() || '')`. */
  function UpdateName(form: FormData): string {
    SentenceCase(Trim(Get(form, "name").GetOr("")))
  }

  /** The row `update` would write. */
  function UpdateDraft(form: FormData, render: string -> Option<string>): NewType {
    NewType(UpdateName(form),
            FormatNumeric(Get(form, "default_base_cm"), render),
            FormatNumeric(Get(form, "default_additional_cost_per_cm"), render))
  }

  /** The name checks of `update`: unlike `create`, each reports on its own. */
  function UpdateNameProblems(name: string): (r: seq<Problem>)
    ensures r == [] <==> !TooLong(name) && MatchesNamePattern(name)
    ensures NameTooLong in r <==> TooLong(name)
    ensures NameCharacters in r <==> !MatchesNamePattern(name)
    ensures NameMissing !in r
  {
    (if TooLong(name) then [NameTooLong] else [])
    + (if !MatchesNamePattern(name) then [NameCharacters] else [])
  }

  /** The problems `update` reports: every failing name check, then one
      per rejected number. */
  function UpdateProblems(e: NewType): (r: seq<Problem>)
    ensures r == [] <==> !TooLong(e.name) && MatchesNamePattern(e.name)
                         && ValidateNumeric(e.baseCm).None? && ValidateNumeric(e.additionalCostPerCm).None?
    ensures var n := |UpdateNameProblems(e.name)|;
      n <= |r| <= n + 2 && r[..n] == UpdateNameProblems(e.name) && forall i :: n <= i < |r| ==> r[i].BadNumber?
  {
    var names := UpdateNameProblems(e.name);
    var numbers := NumberProblems(BaseCm, e.baseCm) + NumberProblems(AdditionalCostPerCm, e.additionalCostPerCm);
    assert (names + numbers)[..|names|] == names;
    names + numbers
  }

  /** The checks of `update`, pushing each problem onto `validationErrors`. */
  method CollectUpdateProblems(e: NewType) returns (problems: seq<Problem>)
    ensures problems == UpdateProblems(e)
  {
    problems := [];
    if TooLong(e.name) {
      problems := problems + [NameTooLong];
    }
    if !MatchesNamePattern(e.name) {
      problems := problems + [NameCharacters];
    }
    assert problems == UpdateNameProblems(e.name);
    var baseError := ValidateNumeric(e.baseCm);
    if baseError.Some? {
      problems := problems + [BadNumber(BaseCm, baseError.value)];
    }
    assert problems == UpdateNameProblems(e.name) + NumberProblems(BaseCm, e.baseCm);
    var costError := ValidateNumeric(e.additionalCostPerCm);
    if costError.Some? {
      problems := problems + [BadNumber(AdditionalCostPerCm, costError.value)];
    }
    assert problems == UpdateNameProblems(e.name) + NumberProblems(BaseCm, e.baseCm) + NumberProblems(AdditionalCostPerCm, e.additionalCostPerCm);
  }

  /** The whitespace PostgreSQL's integer input skips around a number. */
  predicate PgSpace(c: char) {
    c == ' ' || c == '\t' || c == '\n' || c == '\r' || c == '\U{B}' || c == '\U{C}'
  }

  /** The text without the `PgSpace` characters at either end. */
  function PgTrim(s: string): (r: string)
    ensures |r| <= |s|
    ensures r == [] || (!PgSpace(r[0]) && !PgSpace(r[|r| - 1]))
  {
    if |s| > 0 && PgSpace(s[0]) then PgTrim(s[1..])
    else if |s| > 0 && PgSpace(s[|s| - 1]) then PgTrim(s[..|s| - 1])
    else s
  }

  /** The store's cast of the id text to an integer column, as in
      `neq('id', id)`: surrounding whitespace, one optional sign and at least
      one decimal digit; anything else, the blank id included, makes the
      query fail (None). */
  function PgInteger(s: string): Option<int> {
    var t := PgTrim(s);
    var u := Unsigned(t);
    if u != [] && forall i :: 0 <= i < |u| ==> IsDigit(u[i]) then Some(Signed(t, DigitsValue(u, 10)))
    else None
  }

  /** A blank id is 0 to `Number` but fails the store's cast. */
  lemma {:induction false} BlankIdCastFails(s: string)
    requires forall i :: 0 <= i < |s| ==> PgSpace(s[i])
    ensures PgInteger(s) == None
    ensures IdNumber(s) == Some(0)
  {
    PgTrimAllSpace(s);
    TrimAllSpace(s);
  }

  lemma {:induction false} PgTrimAllSpace(s: string)
    requires forall i :: 0 <= i < |s| ==> PgSpace(s[i])
    ensures PgTrim(s) == []
  {
    if s != [] {
      PgTrimAllSpace(s[1..]);
    }
  }

  /** On a plain run of decimal digits the cast and `Number` agree. */
  lemma DigitIdCast(d: string)
    requires d != [] && forall i :: 0 <= i < |d| ==> IsDigit(d[i])
    ensures PgInteger(d) == Some(DigitsValue(d, 10))
    ensures IdNumber(d) == PgInteger(d)
  {
    assert PgTrim(d) == d by {
      assert !PgSpace(d[0]) && !PgSpace(d[|d| - 1]);
    }
    assert Trim(d) == d by {
      TrimKeepsDigitEnds(d);
    }
    assert Unsigned(d) == d && Signed(d, DigitsValue(d, 10)) == DigitsValue(d, 10) by {
      assert IsDigit(d[0]);
    }
  }

  /** The rows with this name and another id: what `eq('name').neq('id')`
      selects.  An id the store cannot read as an integer (None) fails the
      query, which then selects nothing. */
  function OtherHolders(stored: seq<TypeRow>, name: string, id: Option<int>): (r: seq<TypeRow>)
    ensures id.Some? ==> forall row :: row in r <==> row in stored && row.name == name && row.id != id.value
    ensures id.None? ==> r == []
  {
    if id.None? || stored == [] then []
    else
      var rest := OtherHolders(stored[1..], name, id);
      assert forall row :: row in stored <==> row == stored[0] || row in stored[1..];
      (if stored[0].name == name && stored[0].id != id.value then [stored[0]] else []) + rest
  }

  /** No two stored types share an id: `id` is the table's key. */
  predicate DistinctIds(stored: seq<TypeRow>) {
    forall i, j :: 0 <= i < j < |stored| ==> stored[i].id != stored[j].id
  }

  /** When one stored row is the only other holder of the name, the query
      selects exactly that row. */
  lemma {:induction false} OnlyOtherHolder(stored: seq<TypeRow>, name: string, id: int, other: TypeRow)
    requires DistinctIds(stored)
    requires other in stored && other.name == name && other.id != id
    requires forall row :: row in stored && row.name == name && row.id != id ==> row == other
    ensures OtherHolders(stored, name, Some(id)) == [other]
  {
    var tail := stored[1..];
    assert DistinctIds(tail) by {
      assert forall i :: 0 <= i < |tail| ==> tail[i] == stored[i + 1];
    }
    var rest := OtherHolders(tail, name, Some(id));
    if stored[0] == other {
      assert forall k :: 0 <= k < |tail| ==> tail[k].id != other.id by {
        assert forall k :: 0 <= k < |tail| ==> tail[k] == stored[k + 1];
      }
      assert forall row :: row in tail ==> !(row.name == name && row.id != id);
      NoOtherHolder(tail, name, id);
    } else {
      assert other in tail;
      assert forall row :: row in tail ==> row in stored;
      OnlyOtherHolder(tail, name, id, other);
    }
  }

  /** No stored row holds the name under another id: the query selects nothing. */
  lemma {:induction false} NoOtherHolder(stored: seq<TypeRow>, name: string, id: int)
    requires forall row :: row in stored ==> !(row.name == name && row.id != id)
    ensures OtherHolders(stored, name, Some(id)) == []
  {
    if stored != [] {
      assert stored[0] in stored;
      assert forall row :: row in stored[1..] ==> row in stored;
      NoOtherHolder(stored[1..], name, id);
    }
  }

  /** `actions.update`, given the stored types and whether the update fails
      for a reason other than the id (the store's own errors). */
  function Update(form: FormData, render: string -> Option<string>,
                  stored: seq<TypeRow>, updateFails: bool): Outcome
  {
    Review(Get(form, "id"), UpdateDraft(form, render), stored, updateFails)
  }

  /** What `update` does with the id and the row it would write: require
      both, refuse any invalid field, refuse a name that `maybeSingle` finds
      on exactly one other row, then write.  The write's `eq('id', id)`
      casts the id like the name query does, so an id the cast refuses
      fails the write too. */
  function Review(id: Option<string>, draft: NewType, stored: seq<TypeRow>, updateFails: bool): Outcome {
    if !Filled(id) || draft.name == [] then Failed(IdOrNameMissing)
    else
      var problems := UpdateProblems(draft);
      if problems != [] then Failed(InvalidUpdate(problems))
      else if |OtherHolders(stored, draft.name, PgInteger(id.value))| == 1 then Failed(NameTaken(draft.name))
      else if updateFails || PgInteger(id.value).None? then Failed(UpdateFailed)
      else Updated(draft)
  }

  /** A missing id or a name that normalises to nothing fails with 400. */
  lemma UpdateNeedsIdAndName(form: FormData, render: string -> Option<string>,
                             stored: seq<TypeRow>, updateFails: bool)
    requires !Filled(Get(form, "id")) || Trim(Get(form, "name").GetOr("")) == []
    ensures Update(form, render, stored, updateFails) == Failed(IdOrNameMissing)
  {
    if Trim(Get(form, "name").GetOr("")) == [] {
      assert Lower([]) == [];
      assert UpdateName(form) == [];
    }
  }

  /** A valid new name held by one row with another id is refused with 400
      naming it. */
  lemma UpdateNameTaken(form: FormData, render: string -> Option<string>,
                        stored: seq<TypeRow>, updateFails: bool, other: TypeRow)
    requires DistinctIds(stored)
    requires Filled(Get(form, "id")) && PgInteger(Get(form, "id").value).Some?
    requires UpdateName(form) != [] && UpdateProblems(UpdateDraft(form, render)) == []
    requires other in stored && other.name == UpdateName(form) && other.id != PgInteger(Get(form, "id").value).value
    requires forall row :: row in stored && row.name == UpdateName(form) ==> row == other || row.id == PgInteger(Get(form, "id").value).value
    ensures Update(form, render, stored, updateFails) == Failed(NameTaken(UpdateName(form)))
  {
    var draft := UpdateDraft(form, render);
    OnlyOtherHolder(stored, draft.name, PgInteger(Get(form, "id").value).value, other);
  }

  /** Update writes exactly when id and name are present, every check
      passes, the name is not held by exactly one other row, and the write
      succeeds; it writes the normalised name. */
  lemma UpdateOutcomes(form: FormData, render: string -> Option<string>,
                       stored: seq<TypeRow>, updateFails: bool)
    ensures Update(form, render, stored, updateFails) == Updated(UpdateDraft(form, render))
      <==> && Filled(Get(form, "id")) && UpdateName(form) != []
           && UpdateProblems(UpdateDraft(form, render)) == []
           && |OtherHolders(stored, UpdateName(form), PgInteger(Get(form, "id").value))| != 1
           && PgInteger(Get(form, "id").value).Some?
           && !updateFails
    ensures Update(form, render, stored, updateFails).Updated? ==>
      Update(form, render, stored, updateFails).row.name == UpdateName(form)
  {
  }

  /** A blank id passes `!id` but fails the store's cast: a valid update with
      it ends in the 500 of the `catch`, never in a write. */
  lemma BlankIdUpdateFails(form: FormData, render: string -> Option<string>,
                           stored: seq<TypeRow>, updateFails: bool)
    requires Filled(Get(form, "id")) && forall i :: 0 <= i < |Get(form, "id").value| ==> PgSpace(Get(form, "id").value[i])
    requires UpdateName(form) != [] && UpdateProblems(UpdateDraft(form, render)) == []
    ensures Update(form, render, stored, updateFails) == Failed(UpdateFailed)
  {
    BlankIdCastFails(Get(form, "id").value);
  }

  // ---------------------------------------------------------------- delete

  /** `configs.some(config => config.measurement_specs.some(...))`, which
      stops at the first user and throws (None) at a null column reached
      before it. */
  function AnyUses(configs: seq<Option<seq<MeasurementSpec>>>, id: Option<int>): Option<bool> {
    if configs == [] then Some(false)
    else if configs[0].None? then None
    else if id.Some? && UsesType(configs[0].value, id.value) then Some(true)
    else AnyUses(configs[1..], id)
  }

  /** `actions.delete`, given the configurations (None: the query failed)
      and whether the delete fails. */
  function Delete(form: FormData, configs: Option<seq<Option<seq<MeasurementSpec>>>>, deleteFails: bool): Outcome {
    var id := Get(form, "id");
    if !Filled(id) then Failed(IdMissing)
    else if configs.None? then Failed(DeleteFailed)
    else
      match AnyUses(configs.value, IdNumber(id.value))
      case None => Failed(DeleteFailed)
      case Some(true) => Failed(InUse)
      case Some(false) => if deleteFails then Failed(DeleteFailed) else Deleted
  }

  lemma {:induction false} AnyUsesCount(configs: seq<seq<MeasurementSpec>>, id: int)
    ensures AnyUses(seq(|configs|, i requires 0 <= i < |configs| => Some(configs[i])), Some(id))
            == Some(exists i :: 0 <= i < |configs| && UsesType(configs[i], id))
  {
    var wrapped := seq(|configs|, i requires 0 <= i < |configs| => Some(configs[i]));
    if configs != [] {
      var tail := seq(|configs[1..]|, i requires 0 <= i < |configs[1..]| => Some(configs[1..][i]));
      assert wrapped[1..] == tail;
      AnyUsesCount(configs[1..], id);
      assert forall i :: 1 <= i < |configs| ==> configs[i] == configs[1..][i - 1];
      if exists i :: 0 <= i < |configs| && UsesType(configs[i], id) {
        var i :| 0 <= i < |configs| && UsesType(configs[i], id);
        if i > 0 {
          assert UsesType(configs[1..][i - 1], id);
        }
      }
    }
  }

  /** The delete guard agrees with the usage count `load` shows: with every
      configuration's specs present, a type is refused exactly when its
      count is non-zero. */
  lemma DeleteGuardMatchesUsage(form: FormData, configs: seq<seq<MeasurementSpec>>, deleteFails: bool, id: int)
    requires Filled(Get(form, "id")) && IdNumber(Get(form, "id").value) == Some(id)
    ensures var outcome := Delete(form, Some(seq(|configs|, i requires 0 <= i < |configs| => Some(configs[i]))), deleteFails);
      && (outcome == Failed(InUse) <==> UsageCount(id, configs) > 0)
      && (outcome == Deleted <==> UsageCount(id, configs) == 0 && !deleteFails)
  {
    AnyUsesCount(configs, id);
    UsageCountPositive(id, configs);
  }

  /** Without an id, delete fails with 400 whatever the configurations. */
  lemma DeleteNeedsId(form: FormData, configs: Option<seq<Option<seq<MeasurementSpec>>>>, deleteFails: bool)
    requires !Filled(Get(form, "id"))
    ensures Delete(form, configs, deleteFails) == Failed(IdMissing)
    ensures Status(Delete(form, configs, deleteFails).failure) == 400
  {
  }
}
