/** Numbers as read off scanned documents, in French and English writing. Values are exact:
    the rounding of floating point is not modelled. */
module OcrNumbers {
  import opened Options
  import Text

  // ----- characters -----

  predicate IsDigit(c: char) {
    '0' <= c <= '9'
  }

  predicate Digits(s: string) {
    forall k :: 0 <= k < |s| ==> IsDigit(s[k])
  }

  function Without(s: string, c: char): string {
    if s == [] then [] else (if s[0] == c then [] else [s[0]]) + Without(s[1..], c)
  }

  function Replace(s: string, c: char, d: char): string {
    if s == [] then [] else [if s[0] == c then d else s[0]] + Replace(s[1..], c, d)
  }

  /** Digits and points only. */
  function Kept(s: string): string {
    if s == [] then [] else (if IsDigit(s[0]) || s[0] == '.' then [s[0]] else []) + Kept(s[1..])
  }

  /** Where the first point is, or the length when there is none. */
  function Point(s: string): (k: nat)
    ensures k <= |s| && (k < |s| ==> s[k] == '.')
  {
    if s == [] || s[0] == '.' then 0 else 1 + Point(s[1..])
  }

  /** All points but the last one taken out. */
  function LastPointOnly(s: string): string {
    if s == [] then []
    else if s[0] == '.' && '.' in s[1..] then LastPointOnly(s[1..])
    else [s[0]] + LastPointOnly(s[1..])
  }

  // ----- values -----

  function Pow10(n: nat): (p: nat)
    ensures p > 0
  {
    if n == 0 then 1 else 10 * Pow10(n - 1)
  }

  function DigitOf(c: char): nat {
    if IsDigit(c) then (c - '0') as int else 0
  }

  function NatOf(s: string): nat {
    if s == [] then 0 else 10 * NatOf(s[..|s| - 1]) + DigitOf(s[|s| - 1])
  }

  /** The number digits / 10^places. */
  datatype Decimal = Decimal(digits: nat, places: nat)

  /** A text of digits with at most one point as a number. */
  function FloatOf(s: string): Option<Decimal> {
    var k := Point(s);
    var whole, part := s[..k], if k < |s| then s[k + 1..] else [];
    if whole + part == [] then None else Some(Decimal(NatOf(whole + part), |part|))
  }

  // ----- the parser -----

  /** Groups of three digits, each after a point, then a comma and one or two digits. */
  predicate FrenchTail(s: string) {
    || (2 <= |s| <= 3 && s[0] == ',' && Digits(s[1..]))
    || (|s| >= 4 && s[0] == '.' && Digits(s[1..4]) && FrenchTail(s[4..]))
  }

  predicate IsFrench(s: string) {
    exists k :: 1 <= k <= 3 && k <= |s| && Digits(s[..k]) && FrenchTail(s[k..])
  }

  function Cleaned(text: string): string {
    Without(Without(Text.Strip(text), '\U{00A0}'), ' ')
  }

  function Pointed(clean: string): string {
    if IsFrench(clean) then Replace(Without(clean, '.'), ',', '.') else Replace(clean, ',', '.')
  }

  function ParseNumber(text: string): Option<Decimal> {
    FloatOf(LastPointOnly(Kept(Pointed(Cleaned(text)))))
  }

  // ----- writing numbers -----

  function DigitChar(d: nat): (c: char)
    requires d < 10
    ensures IsDigit(c) && DigitOf(c) == d
  {
    '0' + d as char
  }

  function TwoDigits(n: nat): string
    requires n < 100
  {
    [DigitChar(n / 10), DigitChar(n % 10)]
  }

  function ThreeDigits(n: nat): string
    requires n < 1000
  {
    [DigitChar(n / 100), DigitChar(n / 10 % 10), DigitChar(n % 10)]
  }

  function UpToThreeDigits(n: nat): string
    requires n < 1000
  {
    if n < 10 then [DigitChar(n)] else if n < 100 then TwoDigits(n) else ThreeDigits(n)
  }

  /** A whole number in groups of three digits with these separators in between. */
  function Grouped(n: nat, separator: string): string {
    if n < 1000 then UpToThreeDigits(n) else Grouped(n / 1000, separator) + separator + ThreeDigits(n % 1000)
  }

  /** An amount in cents, written with two decimals. */
  function Amount(cents: nat, separator: string, comma: char): string {
    Grouped(cents / 100, separator) + [comma] + TwoDigits(cents % 100)
  }

  // ----- what the cleaning does to digits -----

  function OnlyDigits(s: string): string {
    if s == [] then [] else (if IsDigit(s[0]) then [s[0]] else []) + OnlyDigits(s[1..])
  }

  predicate DigitsAndPoints(s: string) {
    forall k :: 0 <= k < |s| ==> IsDigit(s[k]) || s[k] == '.'
  }

  lemma {:induction false} WithoutAppend(a: string, b: string, c: char)
    ensures Without(a + b, c) == Without(a, c) + Without(b, c)
  {
    if a == [] {
      assert a + b == b;
    } else {
      assert (a + b)[1..] == a[1..] + b;
      WithoutAppend(a[1..], b, c);
    }
  }

  lemma {:induction false} ReplaceAppend(a: string, b: string, c: char, d: char)
    ensures Replace(a + b, c, d) == Replace(a, c, d) + Replace(b, c, d)
  {
    if a == [] {
      assert a + b == b;
    } else {
      assert (a + b)[1..] == a[1..] + b;
      ReplaceAppend(a[1..], b, c, d);
    }
  }

  lemma {:induction false} KeptAppend(a: string, b: string)
    ensures Kept(a + b) == Kept(a) + Kept(b)
  {
    if a == [] {
      assert a + b == b;
    } else {
      assert (a + b)[1..] == a[1..] + b;
      KeptAppend(a[1..], b);
    }
  }

  lemma {:induction false} OnlyDigitsAppend(a: string, b: string)
    ensures OnlyDigits(a + b) == OnlyDigits(a) + OnlyDigits(b)
  {
    if a == [] {
      assert a + b == b;
    } else {
      assert (a + b)[1..] == a[1..] + b;
      OnlyDigitsAppend(a[1..], b);
    }
  }

  /** Text that none of the steps has anything to do with. */
  lemma {:induction false} DigitsStay(s: string, c: char, d: char)
    requires Digits(s) && !IsDigit(c)
    ensures Without(s, c) == s && Replace(s, c, d) == s && Kept(s) == s && OnlyDigits(s) == s
  {
    if s != [] {
      DigitsStay(s[1..], c, d);
    }
  }

  lemma OnlyDigitsCons(c: char, s: string)
    ensures OnlyDigits([c] + s) == (if IsDigit(c) then [c] else []) + OnlyDigits(s)
  {
    assert ([c] + s)[1..] == s;
  }

  /** No step takes a digit away. */
  lemma {:induction false} StepsKeepDigits(s: string, c: char, d: char)
    requires !IsDigit(c) && !IsDigit(d)
    ensures OnlyDigits(Without(s, c)) == OnlyDigits(s)
    ensures OnlyDigits(Replace(s, c, d)) == OnlyDigits(s)
    ensures OnlyDigits(Kept(s)) == OnlyDigits(s)
  {
    if s != [] {
      StepsKeepDigits(s[1..], c, d);
      OnlyDigitsCons(s[0], Without(s[1..], c));
      OnlyDigitsCons(if s[0] == c then d else s[0], Replace(s[1..], c, d));
      OnlyDigitsCons(s[0], Kept(s[1..]));
      assert [] + Without(s[1..], c) == Without(s[1..], c) && [] + Kept(s[1..]) == Kept(s[1..]);
    }
  }

  lemma {:induction false} KeptChars(s: string)
    ensures DigitsAndPoints(Kept(s))
  {
    if s != [] {
      KeptChars(s[1..]);
    }
  }

  lemma {:induction false} WithoutPoints(s: string)
    requires DigitsAndPoints(s)
    ensures Without(s, '.') == OnlyDigits(s)
  {
    if s != [] {
      WithoutPoints(s[1..]);
    }
  }

  lemma {:induction false} OnlyDigitsDigits(s: string)
    ensures Digits(OnlyDigits(s))
  {
    if s != [] {
      OnlyDigitsDigits(s[1..]);
    }
  }

  /** Of all points the last one stays. */
  lemma {:induction false} PointsBefore(a: string, b: string)
    requires Digits(b)
    ensures LastPointOnly(a + "." + b) == Without(a, '.') + "." + b
  {
    if a == [] {
      assert a + "." + b == "." + b && ("." + b)[1..] == b;
      NoPoints(b);
    } else {
      assert (a + "." + b)[1..] == a[1..] + "." + b;
      assert (a[1..] + "." + b)[|a| - 1] == '.';
      PointsBefore(a[1..], b);
    }
  }

  lemma {:induction false} NoPoints(s: string)
    requires Digits(s)
    ensures LastPointOnly(s) == s && '.' !in s
  {
    if s != [] {
      NoPoints(s[1..]);
    }
  }

  // ----- values of digits -----

  lemma {:induction false} NatAppend(a: string, b: string)
    ensures NatOf(a + b) == NatOf(a) * Pow10(|b|) + NatOf(b)
  {
    if b == [] {
      assert a + b == a;
    } else {
      var c, d := b[..|b| - 1], b[|b| - 1];
      assert (a + b)[..|a + b| - 1] == a + c;
      assert NatOf(a + b) == 10 * NatOf(a + c) + DigitOf(d);
      NatAppend(a, c);
      OneDigitMore(NatOf(a), Pow10(|c|), NatOf(c), DigitOf(d));
    }
  }

  lemma OneDigitMore(x: nat, p: nat, y: nat, d: nat)
    ensures 10 * (x * p + y) + d == x * (10 * p) + (10 * y + d)
  {
  }

  lemma NatOfPair(c: char, d: char)
    ensures NatOf([c]) == DigitOf(c) && NatOf([c, d]) == 10 * DigitOf(c) + DigitOf(d)
  {
    assert [c][..0] == [] && [c, d][..1] == [c];
  }

  lemma NatOfTriple(c: char, d: char, e: char)
    ensures NatOf([c, d, e]) == 100 * DigitOf(c) + 10 * DigitOf(d) + DigitOf(e)
  {
    assert [c, d, e][..2] == [c, d];
    NatOfPair(c, d);
  }

  lemma NatOfThree(n: nat)
    requires n < 1000
    ensures NatOf(ThreeDigits(n)) == n && Digits(ThreeDigits(n))
  {
    NatOfTriple(DigitChar(n / 100), DigitChar(n / 10 % 10), DigitChar(n % 10));
  }

  lemma NatOfTwo(n: nat)
    requires n < 100
    ensures NatOf(TwoDigits(n)) == n && Digits(TwoDigits(n))
  {
    NatOfPair(DigitChar(n / 10), DigitChar(n % 10));
  }

  lemma NatOfUpToThree(n: nat)
    requires n < 1000
    ensures NatOf(UpToThreeDigits(n)) == n && Digits(UpToThreeDigits(n))
  {
    if n < 10 {
      NatOfPair(DigitChar(n), DigitChar(n));
    } else if n < 100 {
      NatOfTwo(n);
    } else {
      NatOfThree(n);
    }
  }

  /** Two or three digits at the end. */
  lemma NatOfTail(a: string, b: string)
    ensures |b| == 2 ==> NatOf(a + b) == 100 * NatOf(a) + NatOf(b)
    ensures |b| == 3 ==> NatOf(a + b) == 1000 * NatOf(a) + NatOf(b)
  {
    NatAppend(a, b);
    assert Pow10(1) == 10 && Pow10(2) == 100 && Pow10(3) == 1000;
  }

  /** Grouped digits start and end with a digit, and their digits are the number. */
  lemma {:induction false} GroupedDigits(n: nat, separator: string)
    requires OnlyDigits(separator) == []
    ensures var g := Grouped(n, separator); g != [] && IsDigit(g[0]) && IsDigit(g[|g| - 1])
    ensures NatOf(OnlyDigits(Grouped(n, separator))) == n
  {
    if n < 1000 {
      NatOfUpToThree(n);
      DigitsStay(UpToThreeDigits(n), ' ', ' ');
    } else {
      var front, last := Grouped(n / 1000, separator), ThreeDigits(n % 1000);
      GroupedDigits(n / 1000, separator);
      NatOfThree(n % 1000);
      DigitsStay(last, ' ', ' ');
      OnlyDigitsAppend(front + separator, last);
      OnlyDigitsAppend(front, separator);
      NatOfTail(OnlyDigits(front), last);
      assert OnlyDigits(Grouped(n, separator)) == OnlyDigits(front) + last;
    }
  }

  // ----- round trips -----

  /** Only digits come after the last character that is none. */
  lemma LastNonDigit(a: string, c: char, b: string, k: nat)
    requires Digits(b) && k < |a + [c] + b| && !IsDigit((a + [c] + b)[k])
    ensures k <= |a|
  {
    var s := a + [c] + b;
    forall j | |a| < j < |s|
      ensures IsDigit(s[j])
    {
      assert s[j] == b[j - |a| - 1];
    }
  }

  lemma TailHead(s: string)
    ensures FrenchTail(s) ==> s != [] && !IsDigit(s[0])
  {
  }

  /** A French tail ends with a comma and one or two digits. */
  lemma {:induction false} FrenchTailEnds(a: string, c: char, b: string)
    requires FrenchTail(a + [c] + b) && !IsDigit(c) && Digits(b)
    ensures c == ',' && 1 <= |b| <= 2
  {
    var s := a + [c] + b;
    if |s| >= 4 {
      TailHead(s[4..]);
      LastNonDigit(a, c, b, 4);
      assert s[4..] == a[4..] + [c] + b;
      FrenchTailEnds(a[4..], c, b);
    } else {
      forall j | 1 <= j < |s|
        ensures IsDigit(s[j])
      {
        assert s[j] == s[1..][j - 1];
      }
      assert s[|a|] == c;
    }
  }

  lemma FrenchEnds(a: string, c: char, b: string)
    requires IsFrench(a + [c] + b) && !IsDigit(c) && Digits(b)
    ensures c == ',' && 1 <= |b| <= 2
  {
    var s := a + [c] + b;
    var k :| 1 <= k <= 3 && k <= |s| && Digits(s[..k]) && FrenchTail(s[k..]);
    TailHead(s[k..]);
    LastNonDigit(a, c, b, k);
    assert s[k..] == a[k..] + [c] + b;
    FrenchTailEnds(a[k..], c, b);
  }

  lemma DigitVisible(c: char)
    requires IsDigit(c)
    ensures !Text.IsSpace(c)
  {
  }

  /** Nothing to trim from text that starts and ends with a digit. */
  lemma TrimNothing(s: string)
    requires s != [] && IsDigit(s[0]) && IsDigit(s[|s| - 1])
    ensures Text.Strip(s) == s
  {
    DigitVisible(s[0]);
    DigitVisible(s[|s| - 1]);
    assert Text.StripLeft(s) == s;
  }

  /** What the cleaning makes of a number with a decimal mark: the digits before the mark, with
      points among them, a point, and the decimals. */
  lemma MarkedText(g: string, mark: char, d: string) returns (h: string)
    requires g != [] && IsDigit(g[0]) && d != [] && Digits(d) && (mark == ',' || mark == '.')
    ensures Kept(Pointed(Cleaned(g + [mark] + d))) == h + "." + d
    ensures DigitsAndPoints(h) && OnlyDigits(h) == OnlyDigits(g)
  {
    var s := g + [mark] + d;
    TrimNothing(s);
    var g1 := Without(Without(g, '\U{00A0}'), ' ');
    WithoutParts(g, mark, d, '\U{00A0}');
    WithoutParts(Without(g, '\U{00A0}'), mark, d, ' ');
    var clean := g1 + [mark] + d;
    StepsKeepDigits(g, '\U{00A0}', ' ');
    StepsKeepDigits(Without(g, '\U{00A0}'), ' ', ' ');
    if IsFrench(clean) {
      FrenchEnds(g1, mark, d);
      var g2 := Without(g1, '.');
      WithoutParts(g1, mark, d, '.');
      StepsKeepDigits(g1, '.', '.');
      h := KeptParts(g2, mark, d);
    } else {
      h := KeptParts(g1, mark, d);
    }
  }

  lemma WithoutParts(g: string, mark: char, d: string, c: char)
    requires Digits(d) && mark != c && !IsDigit(c)
    ensures Without(g + [mark] + d, c) == Without(g, c) + [mark] + d
  {
    WithoutAppend(g + [mark], d, c);
    WithoutAppend(g, [mark], c);
    DigitsStay(d, c, c);
    assert Without([mark], c) == [mark];
  }

  lemma KeptParts(g: string, mark: char, d: string) returns (h: string)
    requires Digits(d) && (mark == ',' || mark == '.')
    ensures Kept(Replace(g + [mark] + d, ',', '.')) == h + "." + d
    ensures DigitsAndPoints(h) && OnlyDigits(h) == OnlyDigits(g)
  {
    ReplaceAppend(g + [mark], d, ',', '.');
    ReplaceAppend(g, [mark], ',', '.');
    DigitsStay(d, ',', '.');
    var g1 := Replace(g, ',', '.');
    assert Replace(g + [mark] + d, ',', '.') == g1 + ['.'] + d;
    KeptAppend(g1 + ['.'], d);
    KeptAppend(g1, ['.']);
    h := Kept(g1);
    StepsKeepDigits(g, ',', '.');
    StepsKeepDigits(g1, ',', '.');
    KeptChars(g1);
  }

  lemma FloatOfMarked(p: string, d: string)
    requires Digits(p) && d != []
    ensures FloatOf(p + "." + d) == Some(Decimal(NatOf(p + d), |d|))
  {
    PointAfter(p, d);
    var s := p + "." + d;
    assert s[..|p|] == p && s[|p| + 1..] == d;
  }

  lemma {:induction false} PointAfter(p: string, d: string)
    requires Digits(p)
    ensures Point(p + "." + d) == |p|
  {
    if p != [] {
      assert (p + "." + d)[1..] == p[1..] + "." + d;
      PointAfter(p[1..], d);
    }
  }

  /** A number with a decimal mark is read as its digits say, whatever separates its groups. */
  lemma ParseMarked(g: string, mark: char, d: string)
    requires g != [] && IsDigit(g[0]) && d != [] && Digits(d) && (mark == ',' || mark == '.')
    ensures ParseNumber(g + [mark] + d) == Some(Decimal(NatOf(OnlyDigits(g) + d), |d|))
  {
    var h := MarkedText(g, mark, d);
    PointsBefore(h, d);
    WithoutPoints(h);
    OnlyDigitsDigits(g);
    FloatOfMarked(OnlyDigits(g), d);
  }

  /** Round trip: every amount in cents, written with two decimals after a comma or a point and
      with any separator between its groups of three, or none, is read back exactly. */
  lemma AmountRoundTrip(cents: nat, separator: string, mark: char)
    requires separator == [] || (|separator| == 1 && !IsDigit(separator[0]))
    requires mark == ',' || mark == '.'
    ensures ParseNumber(Amount(cents, separator, mark)) == Some(Decimal(cents, 2))
  {
    AmountDigits(cents, separator);
    ParseMarked(Grouped(cents / 100, separator), mark, TwoDigits(cents % 100));
  }

  lemma AmountDigits(cents: nat, separator: string)
    requires OnlyDigits(separator) == []
    ensures var g, d := Grouped(cents / 100, separator), TwoDigits(cents % 100);
            g != [] && IsDigit(g[0]) && Digits(d) && NatOf(OnlyDigits(g) + d) == cents
  {
    GroupedDigits(cents / 100, separator);
    NatOfTwo(cents % 100);
    NatOfTail(OnlyDigits(Grouped(cents / 100, separator)), TwoDigits(cents % 100));
  }

  // ----- whole numbers -----

  lemma {:induction false} Unmarked(s: string)
    requires ',' !in s && '.' !in s
    ensures Kept(Replace(s, ',', '.')) == OnlyDigits(s)
  {
    if s != [] {
      Unmarked(s[1..]);
    }
  }

  lemma {:induction false} WithoutSubset(s: string, c: char, d: char)
    requires d !in s
    ensures d !in Without(s, c)
  {
    if s != [] {
      WithoutSubset(s[1..], c, d);
    }
  }

  /** Without comma and point only the digits count. */
  lemma ParseUnmarked(g: string)
    requires g != [] && IsDigit(g[0]) && IsDigit(g[|g| - 1]) && ',' !in g && '.' !in g
    ensures ParseNumber(g) == Some(Decimal(NatOf(OnlyDigits(g)), 0))
  {
    TrimNothing(g);
    var g0 := Without(g, '\U{00A0}');
    var clean := Without(g0, ' ');
    StepsKeepDigits(g, '\U{00A0}', ' ');
    StepsKeepDigits(g0, ' ', ' ');
    WithoutSubset(g, '\U{00A0}', ',');
    WithoutSubset(g0, ' ', ',');
    WithoutSubset(g, '\U{00A0}', '.');
    WithoutSubset(g0, ' ', '.');
    NoCommaNotFrench(clean);
    Unmarked(clean);
    var p := OnlyDigits(g);
    OnlyDigitsDigits(g);
    NoPoints(p);
    WholeFloat(p);
  }

  lemma {:induction false} TailComma(s: string)
    requires FrenchTail(s)
    ensures ',' in s
  {
    if !(2 <= |s| <= 3 && s[0] == ',' && Digits(s[1..])) {
      TailComma(s[4..]);
    }
  }

  lemma NoCommaNotFrench(s: string)
    requires ',' !in s
    ensures !IsFrench(s)
  {
    if IsFrench(s) {
      var k :| 1 <= k <= 3 && k <= |s| && Digits(s[..k]) && FrenchTail(s[k..]);
      TailComma(s[k..]);
    }
  }

  lemma {:induction false} NoPoint(p: string)
    requires Digits(p)
    ensures Point(p) == |p|
  {
    if p != [] {
      NoPoint(p[1..]);
    }
  }

  lemma WholeFloat(p: string)
    requires Digits(p) && p != []
    ensures FloatOf(p) == Some(Decimal(NatOf(p), 0))
  {
    NoPoint(p);
    assert p[..|p|] + [] == p;
  }

  lemma {:induction false} GroupedUnmarked(n: nat, separator: string)
    requires separator == [] || (|separator| == 1 && separator[0] != ',' && separator[0] != '.')
    ensures ',' !in Grouped(n, separator) && '.' !in Grouped(n, separator)
  {
    if n >= 1000 {
      GroupedUnmarked(n / 1000, separator);
    }
  }

  /** A text of digits is read as the number it shows. */
  lemma ParseDigits(s: string)
    requires s != [] && Digits(s)
    ensures ParseNumber(s) == Some(Decimal(NatOf(s), 0))
  {
    DigitsStay(s, ' ', ' ');
    ParseUnmarked(s);
  }

  /** A whole number without decimals is read back exactly when it has no groups or they are not
      set apart by a comma or a point; one that is comes back with its last group for decimals. */
  lemma WholeNumbers(n: nat, c: char)
    requires !IsDigit(c)
    ensures ParseNumber(Grouped(n, [c])) == Some(Decimal(n, if n < 1000 || (c != ',' && c != '.') then 0 else 3))
  {
    GroupedDigits(n, [c]);
    if c != ',' && c != '.' {
      GroupedUnmarked(n, [c]);
      ParseUnmarked(Grouped(n, [c]));
    } else if n < 1000 {
      NatOfUpToThree(n);
      ParseDigits(UpToThreeDigits(n));
    } else {
      MarkedGroups(n, c);
    }
  }

  lemma MarkedGroups(n: nat, c: char)
    requires n >= 1000 && (c == ',' || c == '.')
    ensures ParseNumber(Grouped(n, [c])) == Some(Decimal(n, 3))
  {
    GroupsDigits(n, c);
    ParseMarked(Grouped(n / 1000, [c]), c, ThreeDigits(n % 1000));
  }

  lemma GroupsDigits(n: nat, c: char)
    requires n >= 1000 && !IsDigit(c)
    ensures var g, d := Grouped(n / 1000, [c]), ThreeDigits(n % 1000);
            g != [] && IsDigit(g[0]) && Digits(d) && NatOf(OnlyDigits(g) + d) == n
  {
    GroupedDigits(n / 1000, [c]);
    NatOfThree(n % 1000);
    NatOfTail(OnlyDigits(Grouped(n / 1000, [c])), ThreeDigits(n % 1000));
  }

  /** For instance 1.680.000. */
  lemma PointGroupsMisread()
    ensures ParseNumber(Grouped(1_680_000, ".")) == Some(Decimal(1_680_000, 3))
  {
    WholeNumbers(1_680_000, '.');
  }

  // ----- any text at all -----

  lemma {:induction false} StripLeftKeepsDigits(s: string)
    ensures OnlyDigits(Text.StripLeft(s)) == OnlyDigits(s)
  {
    if s != [] && Text.IsSpace(s[0]) {
      StripLeftKeepsDigits(s[1..]);
    }
  }

  lemma {:induction false} StripRightKeepsDigits(s: string)
    ensures OnlyDigits(Text.StripRight(s)) == OnlyDigits(s)
  {
    if s != [] && Text.IsSpace(s[|s| - 1]) {
      StripRightKeepsDigits(s[..|s| - 1]);
      OnlyDigitsAppend(s[..|s| - 1], [s[|s| - 1]]);
      assert s == s[..|s| - 1] + [s[|s| - 1]];
    }
  }

  lemma CleaningKeepsDigits(text: string)
    ensures OnlyDigits(Cleaned(text)) == OnlyDigits(text)
  {
    StripLeftKeepsDigits(text);
    StripRightKeepsDigits(Text.StripLeft(text));
    StepsKeepDigits(Text.Strip(text), '\U{00A0}', ' ');
    StepsKeepDigits(Without(Text.Strip(text), '\U{00A0}'), ' ', ' ');
  }

  lemma PointingKeepsDigits(clean: string)
    ensures OnlyDigits(Kept(Pointed(clean))) == OnlyDigits(clean)
  {
    StepsKeepDigits(clean, '.', ' ');
    StepsKeepDigits(clean, ',', '.');
    StepsKeepDigits(Without(clean, '.'), ',', '.');
    StepsKeepDigits(Pointed(clean), ' ', ' ');
  }

  /** What is before and after the first point. */
  function Around(s: string): string {
    var k := Point(s);
    s[..k] + if k < |s| then s[k + 1..] else []
  }

  lemma AroundCons(c: char, s: string)
    ensures Around([c] + s) == if c == '.' then s else [c] + Around(s)
  {
    assert ([c] + s)[1..] == s;
    if c != '.' {
      var k := Point(s);
      assert ([c] + s)[..k + 1] == [c] + s[..k];
      assert k < |s| ==> ([c] + s)[k + 2..] == s[k + 1..];
    }
  }

  /** Around the last point lie all the digits. */
  lemma {:induction false} PartsAreDigits(s: string)
    requires DigitsAndPoints(s)
    ensures Around(LastPointOnly(s)) == OnlyDigits(s)
  {
    if s != [] {
      assert forall k :: 0 <= k < |s[1..]| ==> s[1..][k] == s[k + 1];
      PartsAreDigits(s[1..]);
      AroundCons(s[0], LastPointOnly(s[1..]));
      if '.' !in s[1..] {
        NoPoints(s[1..]);
        DigitsStay(s[1..], '.', '.');
      }
    }
  }

  /** Whatever the text, it is read as a number exactly when it has a digit, and the number then has all
      its digits in order; only where the decimals start is up to the marks. */
  lemma AllDigitsRead(text: string)
    ensures ParseNumber(text).Some? <==> exists k :: 0 <= k < |text| && IsDigit(text[k])
    ensures ParseNumber(text).Some? ==> ParseNumber(text).value.digits == NatOf(OnlyDigits(text))
  {
    CleaningKeepsDigits(text);
    PointingKeepsDigits(Cleaned(text));
    KeptChars(Pointed(Cleaned(text)));
    PartsAreDigits(Kept(Pointed(Cleaned(text))));
    SomeDigit(text);
  }

  lemma {:induction false} SomeDigit(s: string)
    ensures OnlyDigits(s) != [] <==> exists k :: 0 <= k < |s| && IsDigit(s[k])
  {
    if s != [] {
      SomeDigit(s[1..]);
      assert forall k :: 1 <= k < |s| ==> s[k] == s[1..][k - 1];
    }
  }
}
