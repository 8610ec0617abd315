/** The printer as it runs, building lists of text and joining them, and the amounts in words
    that invoices carry. */
module FrenchAmounts {
  import opened Options
  import opened FrenchWords
  import opened FrenchPrinter

  const UNITS: seq<string> := [
    "", "un", "deux", "trois", "quatre", "cinq", "six", "sept", "huit", "neuf",
    "dix", "onze", "douze", "treize", "quatorze", "quinze", "seize",
    "dix-sept", "dix-huit", "dix-neuf"]

  const TENS: seq<string> := [
    "", "", "vingt", "trente", "quarante", "cinquante", "soixante",
    "soixante", "quatre-vingt", "quatre-vingt"]

  // ----- the texts of the tables are those of the phrases -----

  lemma RenderOne(w: Word)
    ensures Render(Spaced([w])) == Spell(w)
  {
  }

  lemma RenderThen(w: Word, q: Phrase)
    requires Leads(q)
    ensures Render(After(Spaced([w]), q)) == Spell(w) + " " + Render(q)
  {
    RenderAfter(Spaced([w]), q);
  }

  lemma RenderTied(p: Phrase)
    ensures Render(Tied(p)) == Render(p)
  {
    if |p| > 1 {
      assert Tied(p)[1..] == p[1..];
    }
  }

  lemma RenderHyphenated(w: Word, v: Word)
    ensures Render(Hyphenated(w, v)) == Spell(w) + "-" + Spell(v)
  {
    RenderAfter([Token(false, w)], [Token(true, v)]);
  }

  lemma SmallUnits(n: nat)
    requires 1 <= n <= 16
    ensures Spell(UnitWord(n)) == UNITS[n]
  {
  }

  lemma UnitText(n: nat)
    requires 1 <= n < 20
    ensures Render(Unit(n)) == UNITS[n]
  {
    if n <= 16 {
      SmallUnits(n);
      RenderOne(UnitWord(n));
    } else {
      SmallUnits(n - 10);
      RenderHyphenated(Dix, UnitWord(n - 10));
    }
  }

  lemma TensText(t: nat)
    requires 2 <= t <= 6
    ensures Render(Spaced([TensWord(t)])) == Spell(TensWord(t)) == TENS[t]
  {
  }

  /** A phrase with a unit tied to it. */
  lemma TiedUnitText(p: Phrase, text: string, n: nat)
    requires 1 <= n < 20 && Render(p) == text
    ensures Render(After(p, Tied(Unit(n)))) == text + "-" + UNITS[n]
  {
    RenderAfter(p, Tied(Unit(n)));
    RenderTied(Unit(n));
    UnitText(n);
  }

  lemma EtThen(et: Word, v: Word)
    ensures Render(Spaced([et, v])) == Spell(et) + " " + Spell(v)
  {
    assert Spaced([et, v])[1..] == Spaced([v]);
    RenderOne(v);
  }

  lemma EtJoined(a: string, b: string)
    ensures a + " " + ("et" + " " + b) == a + " et " + b
  {
  }

  lemma EtText(w: Word, v: Word)
    ensures Render(Spaced([w, Et, v])) == Spell(w) + " et " + Spell(v)
  {
    assert [w, Et, v][1..] == [Et, v];
    assert Spaced([w, Et, v]) == After(Spaced([w]), Spaced([Et, v]));
    RenderThen(w, Spaced([Et, v]));
    EtThen(Et, v);
    EtJoined(Spell(w), Spell(v));
  }

  lemma SixtyText(n: nat)
    requires 1 <= n < 20
    ensures Render(After(Spaced([Soixante]), Tied(Unit(n)))) == "soixante-" + UNITS[n]
  {
    RenderOne(Soixante);
    TiedUnitText(Spaced([Soixante]), "soixante", n);
  }

  lemma SeventyText(u: nat)
    requires u < 10
    ensures Render(Seventies(u)) == if u == 1 then "soixante et onze" else if u == 0 then "soixante-dix"
                                    else "soixante-" + UNITS[10 + u]
  {
    if u == 1 {
      SixtyElevenText();
    } else if u == 0 {
      SixtyTenText();
    } else {
      SixtyText(10 + u);
    }
  }

  lemma SixtyTenText()
    ensures Render(Hyphenated(Soixante, Dix)) == "soixante-dix"
  {
    RenderHyphenated(Soixante, Dix);
  }

  lemma SixtyElevenText()
    ensures Render(Spaced([Soixante, Et, Onze])) == "soixante et onze"
  {
    EtText(Soixante, Onze);
  }

  lemma QuatreVingtText(n: nat)
    requires 1 <= n < 20
    ensures Render(After(Hyphenated(Quatre, Vingt), Tied(Unit(n)))) == "quatre-vingt-" + UNITS[n]
  {
    RenderHyphenated(Quatre, Vingt);
    TiedUnitText(Hyphenated(Quatre, Vingt), "quatre-vingt", n);
  }

  lemma EightyText(u: nat)
    requires u < 10
    ensures Render(Eighties(u)) == if u == 0 then "quatre-vingts" else "quatre-vingt-" + UNITS[u]
  {
    if u == 0 {
      RenderHyphenated(Quatre, Vingts);
    } else {
      QuatreVingtText(u);
    }
  }

  lemma NinetyPhrase(u: nat)
    requires u < 10
    ensures Nineties(u) == After(Hyphenated(Quatre, Vingt), Tied(Unit(10 + u)))
  {
    assert UnitWord(10) == Dix && UnitWord(11) == Onze;
  }

  lemma NinetyText(u: nat)
    requires u < 10
    ensures Render(Nineties(u)) == if u == 1 then "quatre-vingt-onze" else if u == 0 then "quatre-vingt-dix"
                                    else "quatre-vingt-" + UNITS[10 + u]
  {
    NinetyPhrase(u);
    QuatreVingtText(10 + u);
  }

  lemma LowTensText(t: nat, u: nat)
    requires 2 <= t <= 6 && u < 10
    ensures Render(LowTens(t, u)) == if u == 0 then TENS[t] else if u == 1 then TENS[t] + " et un"
                                        else TENS[t] + "-" + UNITS[u]
  {
    TensText(t);
    if u == 1 {
      EtText(TensWord(t), Un);
    } else if u > 1 {
      TiedUnitText(Spaced([TensWord(t)]), TENS[t], u);
    }
  }

  // ----- joining with spaces -----

  function Join(parts: seq<string>): string {
    if parts == [] then "" else if |parts| == 1 then parts[0] else parts[0] + " " + Join(parts[1..])
  }

  lemma {:induction false} JoinLast(parts: seq<string>, text: string)
    requires parts != []
    ensures Join(parts + [text]) == Join(parts) + " " + text
  {
    assert (parts + [text])[1..] == parts[1..] + [text];
    if |parts| > 1 {
      JoinLast(parts[1..], text);
    }
  }

  /** The parts collected so far are the text of the phrase so far. */
  predicate Prints(parts: seq<string>, p: seq<Token>) {
    (parts == [] <==> p == []) && (p != [] ==> Join(parts) == Render(p))
  }

  lemma PrintsFirst(text: string, p: Phrase)
    requires text == Render(p)
    ensures Prints([text], p)
  {
  }

  lemma PrintsMore(parts: seq<string>, p: seq<Token>, text: string, q: Phrase)
    requires Prints(parts, p) && Leads(q) && text == Render(q)
    ensures Prints(parts + [text], p + q)
  {
    if p == [] {
      assert p + q == q;
      assert Join([text]) == text;
    } else {
      JoinLast(parts, text);
      RenderAfter(p, q);
    }
  }

  // ----- the printer -----

  /** Tens and units, each case as a text of its own. */
  method PrintTens(n: nat) returns (text: string)
    requires 20 <= n < 100
    ensures text == Render(Tens(n))
  {
    var t, u := n / 10, n % 10;
    if t == 7 {
      SeventyText(u);
      text := if u == 1 then "soixante et onze" else if u == 0 then "soixante-dix" else "soixante-" + UNITS[10 + u];
    } else if t == 8 {
      EightyText(u);
      text := if u == 0 then "quatre-vingts" else "quatre-vingt-" + UNITS[u];
    } else if t == 9 {
      NinetyText(u);
      text := if u == 1 then "quatre-vingt-onze" else if u == 0 then "quatre-vingt-dix" else "quatre-vingt-" + UNITS[10 + u];
    } else {
      LowTensText(t, u);
      text := if u == 0 then TENS[t] else if u == 1 then TENS[t] + " et un" else TENS[t] + "-" + UNITS[u];
    }
  }

  /** A round number of hundreds takes an s, one hundred included. */
  lemma HundredText(h: nat, r: nat)
    requires 1 <= h <= 9
    ensures var cent := if r == 0 then "cents" else "cent";
            Render(Hundreds(h, r)) == if h == 1 then cent else UNITS[h] + " " + cent
  {
    var word := if r == 0 then Cents else Cent;
    RenderOne(word);
    if h > 1 {
      RenderAfter(Unit(h), Spaced([word]));
      UnitText(h);
    }
  }

  method PrintHundreds(h: nat, r: nat) returns (text: string)
    requires 1 <= h <= 9
    ensures text == Render(Hundreds(h, r))
  {
    var cent := if r == 0 then "cents" else "cent";
    HundredText(h, r);
    text := if h == 1 then cent else UNITS[h] + " " + cent;
  }

  method PrintBelow1000(number: nat) returns (text: string)
    requires 0 < number < 1000
    ensures text == Render(Below1000(number))
  {
    var n, parts := number, [];
    ghost var printed: seq<Token> := [];
    if n >= 100 {
      var h, r := n / 100, n % 100;
      var part := PrintHundreds(h, r);
      printed := Hundreds(h, r);
      PrintsFirst(part, printed);
      parts := [part];
      n := r;
    }
    assert Prints(parts, printed) && n < 100 && printed + Below100(n) == Below1000(number);
    if n > 0 {
      var part := PrintBelow100(n);
      PrintsMore(parts, printed, part, Below100(n));
      parts := parts + [part];
    }
    text := Join(parts);
  }

  method PrintBelow100(n: nat) returns (text: string)
    requires 0 < n < 100
    ensures Below100(n) != [] && Leads(Below100(n)) && text == Render(Below100(n))
  {
    if n >= 20 {
      text := PrintTens(n);
    } else {
      UnitText(n);
      text := UNITS[n];
    }
  }

  // ----- groups -----

  lemma MultipleText(q: nat, one: Phrase, unit: Word)
    requires q > 1
    ensures Render(Multiple(q, one, unit)) == Render(Positive(q)) + " " + Spell(unit)
  {
    RenderAfter(Positive(q), Spaced([unit]));
    RenderOne(unit);
  }

  /** For instance "un milliard". */
  function OneOf(w: Word): string {
    "un" + " " + Spell(w)
  }

  lemma OneText(w: Word)
    ensures Render(Spaced([Un, w])) == OneOf(w)
  {
    assert Spaced([Un, w])[1..] == Spaced([w]);
    RenderOne(w);
  }

  lemma GroupsPhrase(n: nat)
    requires n > 0
    ensures var g := GroupsOf(n);
            Positive(n) == MilliardPart(g.milliards) + MillionPart(g.millions)
                           + ThousandPart(g.thousands) + RestPart(g.rest)
  {
    assert Positive(n) == Large(GroupsOf(n));
  }

  /** A part that is there is printed after the ones before it; one that is not adds nothing. */
  lemma PrintsNext(parts: seq<string>, p: seq<Token>, q: seq<Token>, text: string, next: seq<string>)
    requires Prints(parts, p)
    requires next == if q == [] then parts else parts + [text]
    requires q != [] ==> Leads(q) && text == Render(q)
    ensures Prints(next, p + q)
  {
    if q == [] {
      assert p + q == p;
    } else {
      PrintsMore(parts, p, text, q);
    }
  }

  /** One of a unit has its own text, several are counted. */
  method PrintMultiple(q: nat, single: string, unit: Word, ghost one: Phrase) returns (text: string)
    requires q > 0 && single == Render(one)
    ensures text == Render(Multiple(q, one, unit))
    decreases false, q, 2
  {
    if q == 1 {
      text := single;
    } else {
      var count := PrintFrench(q);
      MultipleText(q, one, unit);
      text := count + " " + Spell(unit);
    }
  }

  /** Prints the units of one size, if there are any, and goes on with what is left. */
  method PrintGroup(number: nat, size: nat, parts: seq<string>, single: string, unit: Word,
                    ghost printed: seq<Token>, ghost one: Phrase)
    returns (n: nat, next: seq<string>)
    requires size > 0 && Prints(parts, printed) && Leads(one) && single == Render(one)
    ensures n == number % size
    ensures Prints(next, printed + GroupPart(number / size, one, unit))
    decreases false, number / size, 3
  {
    n, next := number, parts;
    var part := "";
    if n >= size {
      part := PrintMultiple(n / size, single, unit, one);
      next := next + [part];
      n := n % size;
    }
    PrintsNext(parts, printed, GroupPart(number / size, one, unit), part, next);
  }

  lemma DivisionGroups(n: nat)
    ensures var g := GroupsOf(n); var a := n % 1_000_000_000; var b := a % 1_000_000;
            g == Groups(n / 1_000_000_000, a / 1_000_000, b / 1_000, b % 1_000)
  {
    GroupsByDivision(n);
    var a := n % 1_000_000_000;
    var b := a % 1_000_000;
    GroupsUnique(n, GroupsOf(n), Groups(n / 1_000_000_000, a / 1_000_000, b / 1_000, b % 1_000));
  }

  /** Prints what is left below a thousand, if anything, and joins the parts. */
  method PrintRest(n: nat, parts: seq<string>, ghost printed: seq<Token>) returns (text: string)
    requires n < 1000 && Prints(parts, printed) && printed + RestPart(n) != []
    ensures text == Render(printed + RestPart(n))
  {
    var all, part := parts, "";
    if n > 0 {
      part := PrintBelow1000(n);
      all := all + [part];
    }
    PrintsNext(parts, printed, RestPart(n), part, all);
    text := Join(all);
  }

  method PrintPositive(number: nat) returns (text: string)
    requires number > 0
    ensures text == Render(Positive(number))
    decreases false, number, 0
  {
    ghost var g := GroupsOf(number);
    ghost var a, b, c := MilliardPart(g.milliards), MillionPart(g.millions), ThousandPart(g.thousands);
    DivisionGroups(number);
    OneText(Milliard);
    var n, parts := PrintGroup(number, 1_000_000_000, [], OneOf(Milliard), Milliards, [], Spaced([Un, Milliard]));
    assert [] + a == a;
    OneText(Million);
    n, parts := PrintGroup(n, 1_000_000, parts, OneOf(Million), Millions, a, Spaced([Un, Million]));
    RenderOne(Mille);
    n, parts := PrintGroup(n, 1_000, parts, Spell(Mille), Mille, a + b, Spaced([Mille]));
    GroupsPhrase(number);
    text := PrintRest(n, parts, a + b + c);
  }

  lemma ZeroText()
    ensures Render(Spaced([Zero])) == "zéro"
  {
    RenderOne(Zero);
  }

  lemma MinusText(p: Phrase)
    requires Leads(p)
    ensures Render(After(Spaced([Moins]), p)) == "moins" + " " + Render(p)
  {
    RenderThen(Moins, p);
  }

  method PrintFrench(number: int) returns (text: string)
    ensures text == Render(French(number))
    decreases number < 0, if number < 0 then -number else number, 1
  {
    if number == 0 {
      ZeroText();
      text := "zéro";
    } else if number < 0 {
      var rest := PrintFrench(-number);
      MinusText(Positive(-number));
      text := "moins" + " " + rest;
    } else {
      text := PrintPositive(number);
    }
  }

  // ----- plurals -----

  ghost function Several(q: nat, one: seq<Word>, many: Word): seq<Word> {
    if q == 0 then [] else if q == 1 then one else WordsOf(q) + [many]
  }

  /** The words of a number, group by group: one million and one milliard say so in the singular, several
      are counted and take an s, and a thousand takes neither a one nor an s. */
  lemma NumberWords(n: nat)
    requires n > 0
    ensures var rest := n % 1_000;
            WordsOf(n) == Several(n / 1_000_000_000, [Un, Milliard], Milliards)
                          + Several(n / 1_000_000 % 1_000, [Un, Million], Millions)
                          + Several(n / 1_000 % 1_000, [Mille], Mille)
                          + (if rest == 0 then [] else Words(Below1000(rest)))
  {
    GroupsDivided(n, GroupsOf(n));
    LargeWords(GroupsOf(n));
  }

  lemma GroupsDivided(n: nat, g: Groups)
    requires IsGroups(n, g)
    ensures g == Groups(n / 1_000_000_000, n / 1_000_000 % 1_000, n / 1_000 % 1_000, n % 1_000)
  {
    assert n / 1_000 == g.milliards * 1_000_000 + g.millions * 1_000 + g.thousands;
    assert n / 1_000_000 == g.milliards * 1_000 + g.millions;
  }

  lemma LargeWords(g: Groups)
    requires Value(g) > 0 && g.rest < 1000
    ensures Words(Large(g)) == Several(g.milliards, [Un, Milliard], Milliards) + Several(g.millions, [Un, Million], Millions)
                               + Several(g.thousands, [Mille], Mille)
                               + (if g.rest == 0 then [] else Words(Below1000(g.rest)))
  {
    SeveralOf(g.milliards, Spaced([Un, Milliard]), Milliards);
    SeveralOf(g.millions, Spaced([Un, Million]), Millions);
    SeveralOf(g.thousands, Spaced([Mille]), Mille);
    FourWords(MilliardPart(g.milliards), MillionPart(g.millions), ThousandPart(g.thousands), RestPart(g.rest));
  }

  lemma SeveralOf(q: nat, one: Phrase, many: Word)
    ensures Words(GroupPart(q, one, many)) == Several(q, Words(one), many)
  {
  }

  lemma FourWords(a: seq<Token>, b: seq<Token>, c: seq<Token>, d: seq<Token>)
    ensures Words(a + b + c + d) == Words(a) + Words(b) + Words(c) + Words(d)
  {
    WordsAppend(a, b);
    WordsAppend(a + b, c);
    WordsAppend(a + b + c, d);
  }

  /** Two to nine hundred thousand keep the s before the thousand; French, and the example the program
      gives for itself, drop it there. */
  lemma HundredThousands(h: nat)
    requires 2 <= h <= 9
    ensures Render(French(h * 100_000)) == UNITS[h] + " cents mille"
  {
    RoundHundreds(h);
    assert h * 100_000 == h * 100 * 1_000;
    CountedThousands(h * 100, UNITS[h]);
  }

  lemma CountedThousands(q: nat, count: string)
    requires 2 <= q < 1000 && Render(Positive(q)) == count + " " + "cents"
    ensures Render(French(q * 1_000)) == count + " cents mille"
  {
    RoundThousands(q);
    MultipleText(q, Spaced([Mille]), Mille);
    CentsMille(count);
  }

  lemma RoundThousands(q: nat)
    requires 2 <= q < 1000
    ensures French(q * 1_000) == Multiple(q, Spaced([Mille]), Mille)
  {
    GroupsUnique(q * 1_000, GroupsOf(q * 1_000), Groups(0, 0, q, 0));
    GroupsPhrase(q * 1_000);
  }

  lemma SmallPhrase(n: nat)
    requires 0 < n < 1000
    ensures Positive(n) == Below1000(n)
  {
    GroupsUnique(n, GroupsOf(n), Groups(0, 0, 0, n));
    GroupsPhrase(n);
  }

  lemma RoundHundreds(h: nat)
    requires 2 <= h <= 9
    ensures Render(Positive(h * 100)) == UNITS[h] + " " + "cents"
  {
    SmallPhrase(h * 100);
    WholeHundreds(h * 100, h);
    HundredText(h, 0);
  }

  lemma WholeHundreds(n: nat, h: nat)
    requires 1 <= h <= 9 && n == h * 100
    ensures Below1000(n) == Hundreds(h, 0)
  {
    assert n / 100 == h && n % 100 == 0;
  }

  lemma CentsMille(count: string)
    ensures count + " " + "cents" + " " + Spell(Mille) == count + " cents mille"
  {
  }

  // ----- amounts -----

  /** Upper case of the letters that number words are written with. */
  function UpperChar(c: char): char {
    if 'a' <= c <= 'z' then 'A' + (c - 'a') else if c == 'é' then 'É' else c
  }

  function LowerChar(c: char): char {
    if 'A' <= c <= 'Z' then 'a' + (c - 'A') else if c == 'É' then 'é' else c
  }

  function Upper(s: string): string {
    seq(|s|, i requires 0 <= i < |s| => UpperChar(s[i]))
  }

  function Lower(s: string): string {
    seq(|s|, i requires 0 <= i < |s| => LowerChar(s[i]))
  }

  /** What follows the words: the CFA francs go by several codes. */
  function Denomination(currency: string): string {
    if currency in ["XAF", "CFA", "XOF"] then " FRANCS CFA" else " " + currency
  }

  ghost function AmountInWords(cents: int, currency: string): string {
    Upper(Render(French(cents / 100))) + Denomination(currency)
  }

  /** The codes of the two CFA francs, and their common name. */
  predicate IsCfa(currency: string) {
    currency == "XAF" || currency == "CFA" || currency == "XOF"
  }

  predicate InCapitals(s: string) {
    forall k :: 0 <= k < |s| ==> !('a' <= s[k] <= 'z') && s[k] != 'é'
  }

  /** The text is a number in capital words, and then the denomination. */
  ghost predicate Says(text: string, amount: int, denomination: string) {
    exists words :: text == words + denomination && InCapitals(words) && Parse(Lower(words)) == Some(amount)
  }

  /** Prints the whole units of an amount in capital words, followed by FRANCS CFA or the currency. */
  method PrintAmount(cents: int, currency: string) returns (text: string)
    ensures text == AmountInWords(cents, currency)
    ensures IsCfa(currency) ==> Says(text, cents / 100, " FRANCS CFA")
    ensures !IsCfa(currency) ==> Says(text, cents / 100, " " + currency)
  {
    var words := PrintFrench(cents / 100);
    text := Upper(words) + Denomination(currency);
    AmountSays(cents, currency);
  }

  predicate LowerCase(s: string) {
    forall k :: 0 <= k < |s| ==> LowerChar(s[k]) == s[k]
  }

  lemma LowerUpper(s: string)
    requires LowerCase(s)
    ensures Lower(Upper(s)) == s
  {
  }

  lemma SpellLower(w: Word)
    ensures LowerCase(Spell(w))
  {
  }

  lemma {:induction false} RenderLower(p: Phrase)
    ensures LowerCase(Render(p))
  {
    SpellLower(p[0].word);
    if |p| > 1 {
      RenderLower(p[1..]);
    }
  }

  /** Round trip: an amount in words, less its denomination, reads as the whole units of the amount. */
  lemma AmountReads(cents: int, currency: string, words: string)
    requires AmountInWords(cents, currency) == words + Denomination(currency)
    ensures Parse(Lower(words)) == Some(cents / 100)
  {
    var printed := Render(French(cents / 100));
    assert words == Upper(printed) by {
      assert words == (words + Denomination(currency))[..|words|];
      assert Upper(printed) == (Upper(printed) + Denomination(currency))[..|words|];
    }
    RenderLower(French(cents / 100));
    LowerUpper(printed);
    RoundTrip(cents / 100);
  }

  /** For a given currency the text says the whole units of the amount, no more and no less. */
  lemma AmountDetermined(a: int, b: int, currency: string)
    ensures AmountInWords(a, currency) == AmountInWords(b, currency) <==> a / 100 == b / 100
  {
    if AmountInWords(a, currency) == AmountInWords(b, currency) {
      var words := Upper(Render(French(a / 100)));
      AmountReads(a, currency, words);
      AmountReads(b, currency, words);
    }
  }

  lemma AmountSays(cents: int, currency: string)
    ensures Says(AmountInWords(cents, currency), cents / 100, if IsCfa(currency) then " FRANCS CFA" else " " + currency)
  {
    AmountReads(cents, currency, Upper(Render(French(cents / 100))));
  }

  lemma LastThree(words: string, currency: string)
    requires |currency| == 3
    ensures var text := words + Denomination(currency);
            |text| > 3 && text[|text| - 3..] == if IsCfa(currency) then "CFA" else currency
  {
    if IsCfa(currency) {
      assert (words + " FRANCS CFA")[|words| + 8..] == "CFA";
    } else {
      assert (words + " " + currency)[|words| + 1..] == currency;
    }
  }

  /** For three-letter currencies two amounts read alike exactly when their whole units agree and the
      currencies are the same or both CFA francs. */
  lemma CurrencyDetermined(a: int, currency: string, b: int, other: string)
    requires |currency| == |other| == 3
    ensures AmountInWords(a, currency) == AmountInWords(b, other)
       <==> a / 100 == b / 100 && (currency == other || (IsCfa(currency) && IsCfa(other)))
  {
    if AmountInWords(a, currency) == AmountInWords(b, other) {
      LastThree(Upper(Render(French(a / 100))), currency);
      LastThree(Upper(Render(French(b / 100))), other);
      assert currency == other || (IsCfa(currency) && IsCfa(other));
      assert Denomination(currency) == Denomination(other);
      AmountDetermined(a, b, currency);
    }
  }
}
