/** The printer that spells numbers and amounts out in French, and the proof that what it
    prints reads back as the same number. */
module FrenchPrinter {
  import opened Options
  import opened FrenchWords

  // ----- phrases -----

  /** A word, printed after a hyphen when it is tied to the one before and after a space
      otherwise, unless it comes first. */
  datatype Token = Token(tied: bool, word: Word)

  type Phrase = ts: seq<Token> | ts != [] witness [Token(false, Zero)]

  /** Starts with a word that a space may precede. */
  predicate Leads(p: seq<Token>) {
    p != [] && !p[0].tied
  }

  function Separator(t: Token): (c: char)
    ensures IsSeparator(c)
  {
    if t.tied then '-' else ' '
  }

  function Render(p: Phrase): string {
    if |p| == 1 then Spell(p[0].word) else Spell(p[0].word) + [Separator(p[1])] + Render(p[1..])
  }

  function Words(p: seq<Token>): (ws: seq<Word>)
    ensures |ws| == |p|
  {
    if p == [] then [] else [p[0].word] + Words(p[1..])
  }

  lemma {:induction false} WordsAppend(p: seq<Token>, q: seq<Token>)
    ensures Words(p + q) == Words(p) + Words(q)
  {
    if p == [] {
      assert p + q == q;
    } else {
      assert (p + q)[1..] == p[1..] + q;
      WordsAppend(p[1..], q);
    }
  }

  /** Words set apart by spaces. */
  function Spaced(ws: seq<Word>): (p: Phrase)
    requires ws != []
    ensures Words(p) == ws && Leads(p)
  {
    if |ws| == 1 then [Token(false, ws[0])] else [Token(false, ws[0])] + Spaced(ws[1..])
  }

  /** A phrase tied to what precedes it by a hyphen. */
  function Tied(p: Phrase): (q: Phrase)
    ensures Words(q) == Words(p)
  {
    [Token(true, p[0].word)] + p[1..]
  }

  /** One phrase after the other. */
  function After(p: Phrase, q: Phrase): (r: Phrase)
    ensures Words(r) == Words(p) + Words(q) && r[0] == p[0]
  {
    WordsAppend(p, q);
    p + q
  }

  function Hyphenated(w: Word, v: Word): (p: Phrase)
    ensures Words(p) == [w, v] && Leads(p)
  {
    After([Token(false, w)], [Token(true, v)])
  }

  lemma {:induction false} RenderAfter(p: Phrase, q: Phrase)
    ensures Render(p + q) == Render(p) + [Separator(q[0])] + Render(q)
  {
    if |p| == 1 {
      assert (p + q)[1..] == q;
    } else {
      assert (p + q)[1..] == p[1..] + q;
      RenderAfter(p[1..], q);
    }
  }

  /** The text of a phrase consists of exactly its words. */
  lemma {:induction false} RenderSpells(p: Phrase)
    ensures Spells(Render(p), Words(p))
  {
    SpellsWord(p[0].word);
    if |p| == 1 {
      assert Words(p) == [p[0].word];
    } else {
      RenderSpells(p[1..]);
      SpellsPair(Spell(p[0].word), [p[0].word], Separator(p[1]), Render(p[1..]), Words(p[1..]));
    }
  }

  // ----- what is printed -----

  function UnitWord(n: nat): Word
    requires 1 <= n <= 16
  {
    [Un, Deux, Trois, Quatre, Cinq, Six, Sept, Huit, Neuf, Dix,
     Onze, Douze, Treize, Quatorze, Quinze, Seize][n - 1]
  }

  function Unit(n: nat): (p: Phrase)
    requires 1 <= n < 20
    ensures Leads(p)
  {
    if n <= 16 then Spaced([UnitWord(n)]) else Hyphenated(Dix, UnitWord(n - 10))
  }

  function TensWord(t: nat): Word
    requires 2 <= t <= 6
  {
    [Vingt, Trente, Quarante, Cinquante, Soixante][t - 2]
  }

  function Tens(n: nat): (p: Phrase)
    requires 20 <= n < 100
    ensures Leads(p)
  {
    var t, u := n / 10, n % 10;
    if t == 7 then Seventies(u) else if t == 8 then Eighties(u) else if t == 9 then Nineties(u) else LowTens(t, u)
  }

  function Seventies(u: nat): (p: Phrase)
    requires u < 10
    ensures Leads(p)
    ensures Words(p) == if u == 1 then [Soixante, Et, Onze] else [Soixante] + Words(Unit(10 + u))
  {
    if u == 1 then Spaced([Soixante, Et, Onze])
    else if u == 0 then Hyphenated(Soixante, Dix)
    else After(Spaced([Soixante]), Tied(Unit(10 + u)))
  }

  function Eighties(u: nat): (p: Phrase)
    requires u < 10
    ensures Leads(p)
    ensures Words(p) == if u == 0 then [Quatre, Vingts] else [Quatre, Vingt] + Words(Unit(u))
  {
    if u == 0 then Hyphenated(Quatre, Vingts) else After(Hyphenated(Quatre, Vingt), Tied(Unit(u)))
  }

  function Nineties(u: nat): (p: Phrase)
    requires u < 10
    ensures Leads(p)
    ensures Words(p) == [Quatre, Vingt] + Words(Unit(10 + u))
  {
    if u == 1 then After(Hyphenated(Quatre, Vingt), Tied(Spaced([Onze])))
    else if u == 0 then After(Hyphenated(Quatre, Vingt), Tied(Spaced([Dix])))
    else After(Hyphenated(Quatre, Vingt), Tied(Unit(10 + u)))
  }

  function LowTens(t: nat, u: nat): (p: Phrase)
    requires 2 <= t <= 6 && u < 10
    ensures Leads(p)
    ensures Words(p) == if u == 0 then [TensWord(t)] else if u == 1 then [TensWord(t), Et, Un]
                        else [TensWord(t)] + Words(Unit(u))
  {
    if u == 0 then Spaced([TensWord(t)])
    else if u == 1 then Spaced([TensWord(t), Et, Un])
    else After(Spaced([TensWord(t)]), Tied(Unit(u)))
  }

  /** A round number of hundreds takes an s, one hundred included. */
  function Hundreds(h: nat, r: nat): (p: Phrase)
    requires 1 <= h <= 9
    ensures Leads(p)
  {
    var cent := Spaced([if r == 0 then Cents else Cent]);
    if h == 1 then cent else After(Unit(h), cent)
  }

  function Below100(n: nat): seq<Token>
    requires n < 100
  {
    if n >= 20 then Tens(n) else if n > 0 then Unit(n) else []
  }

  function Below1000(n: nat): (p: Phrase)
    requires 0 < n < 1000
    ensures Leads(p)
  {
    if n >= 100 then Hundreds(n / 100, n % 100) + Below100(n % 100) else Below100(n)
  }

  /** A number in milliards, millions, thousands and the rest. */
  datatype Groups = Groups(milliards: nat, millions: nat, thousands: nat, rest: nat)

  function Value(g: Groups): nat {
    g.milliards * 1_000_000_000 + g.millions * 1_000_000 + g.thousands * 1_000 + g.rest
  }

  ghost predicate IsGroups(n: nat, g: Groups) {
    n == Value(g) && g.millions < 1000 && g.thousands < 1000 && g.rest < 1000
  }

  /** There is exactly one way to group a number, and repeated division finds it. */
  lemma GroupsByDivision(n: nat)
    ensures var a := n % 1_000_000_000; var b := a % 1_000_000;
            IsGroups(n, Groups(n / 1_000_000_000, a / 1_000_000, b / 1_000, b % 1_000))
  {
  }

  lemma GroupsUnique(n: nat, g: Groups, h: Groups)
    requires IsGroups(n, g) && IsGroups(n, h)
    ensures g == h
  {
    assert g.milliards == h.milliards;
    assert g.millions == h.millions;
    assert g.thousands == h.thousands;
  }

  ghost function GroupsOf(n: nat): (g: Groups)
    ensures IsGroups(n, g)
  {
    GroupsByDivision(n);
    var g :| IsGroups(n, g);
    g
  }

  /** A sign is taken off first. */
  ghost function French(n: int): (p: Phrase)
    ensures Leads(p)
  {
    if n == 0 then Spaced([Zero])
    else if n < 0 then After(Spaced([Moins]), Positive(-n))
    else Positive(n)
  }

  /** Recurses on the number of milliards, millions and thousands. */
  ghost function Positive(n: nat): (p: Phrase)
    requires n > 0
    ensures Leads(p)
    decreases n, 1
  {
    Large(GroupsOf(n))
  }

  ghost function Large(g: Groups): (p: Phrase)
    requires Value(g) > 0 && g.rest < 1000
    ensures Leads(p)
    decreases Value(g), 0
  {
    Parts(GroupPart(g.milliards, Spaced([Un, Milliard]), Milliards), GroupPart(g.millions, Spaced([Un, Million]), Millions),
          GroupPart(g.thousands, Spaced([Mille]), Mille), RestPart(g.rest))
  }

  /** The units of one size, if there are any. */
  ghost function GroupPart(q: nat, one: Phrase, unit: Word): (p: seq<Token>)
    ensures p != [] && Leads(one) ==> Leads(p)
    ensures p == [] <==> q == 0
    decreases q, 3
  {
    if q > 0 then Multiple(q, one, unit) else []
  }

  /** One of a unit has its own words, several are counted. */
  ghost function Multiple(q: nat, one: Phrase, unit: Word): (p: Phrase)
    requires q > 0
    ensures Leads(one) ==> Leads(p)
    decreases q, 2
  {
    if q == 1 then one else After(Positive(q), Spaced([unit]))
  }

  function RestPart(q: nat): seq<Token>
    requires q < 1000
  {
    if q > 0 then Below1000(q) else []
  }

  function Parts(a: seq<Token>, b: seq<Token>, c: seq<Token>, d: seq<Token>): (p: seq<Token>)
    ensures Words(p) == Words(a) + Words(b) + Words(c) + Words(d)
  {
    WordsAppend(a, b);
    WordsAppend(a + b, c);
    WordsAppend(a + b + c, d);
    a + b + c + d
  }

  /** The words printed for a positive number. */
  ghost function WordsOf(n: nat): seq<Word>
    requires n > 0
  {
    Words(Positive(n))
  }

  // ----- what it prints reads back -----

  lemma UnitSmall(n: nat)
    requires 1 <= n <= 16
    ensures EffectOf(UnitWord(n)) == Add(n)
  {
  }

  lemma {:induction false} ReadUnit(r: Reading, n: nat)
    requires 1 <= n < 20
    ensures ReadAll(r, Words(Unit(n))) == r.(below := r.below + n)
  {
    if n <= 16 {
      UnitSmall(n);
      ReadOne(r, UnitWord(n));
    } else {
      UnitSmall(n - 10);
      ReadTwo(r, Dix, UnitWord(n - 10));
    }
  }

  lemma TensSmall(t: nat)
    requires 2 <= t <= 6
    ensures EffectOf(TensWord(t)) == if t == 2 then Score else Add(10 * t)
  {
  }

  /** Words followed by a unit. */
  lemma {:induction false} ReadWithUnit(r: Reading, ws: seq<Word>, r1: Reading, u: nat)
    requires 1 <= u < 20 && ReadAll(r, ws) == r1
    ensures ReadAll(r, ws + Words(Unit(u))) == r1.(below := r1.below + u)
  {
    ReadAppend(r, ws, Words(Unit(u)));
    ReadUnit(r1, u);
  }

  lemma {:induction false} ReadTensWord(r: Reading, t: nat)
    requires 2 <= t <= 6 && r.below == 0
    ensures ReadAll(r, [TensWord(t)]) == r.(below := r.below + 10 * t)
    ensures ReadAll(r, [TensWord(t), Et, Un]) == r.(below := r.below + 10 * t + 1)
  {
    TensSmall(t);
    ReadOne(r, TensWord(t));
    ReadThree(r, TensWord(t), Et, Un);
  }

  lemma {:induction false} ReadEighties(r: Reading, u: nat)
    requires u < 10 && r.below == 0
    ensures ReadAll(r, Words(Eighties(u))) == r.(below := 80 + u)
  {
    ReadEighty(r);
    if u > 0 {
      ReadWithUnit(r, [Quatre, Vingt], r.(below := 80), u);
    }
  }

  lemma {:induction false} ReadNineties(r: Reading, u: nat)
    requires u < 10 && r.below == 0
    ensures ReadAll(r, Words(Nineties(u))) == r.(below := 90 + u)
  {
    ReadEighty(r);
    ReadWithUnit(r, [Quatre, Vingt], r.(below := 80), 10 + u);
  }

  lemma {:induction false} ReadSeventies(r: Reading, u: nat)
    requires u < 10 && r.below == 0
    ensures ReadAll(r, Words(Seventies(u))) == r.(below := 70 + u)
  {
    ReadSixty(r);
    if u != 1 {
      ReadWithUnit(r, [Soixante], r.(below := 60), 10 + u);
    }
  }

  lemma {:induction false} ReadLowTens(r: Reading, t: nat, u: nat)
    requires 2 <= t <= 6 && u < 10 && r.below == 0
    ensures ReadAll(r, Words(LowTens(t, u))) == r.(below := 10 * t + u)
  {
    ReadTensWord(r, t);
    if u > 1 {
      ReadWithUnit(r, [TensWord(t)], r.(below := 10 * t), u);
    }
  }

  /** A tens phrase adds its value to the hundreds. */
  lemma {:induction false} ReadTens(r: Reading, n: nat)
    requires 20 <= n < 100 && r.below == 0
    ensures ReadAll(r, Words(Tens(n))) == r.(below := n)
  {
    var t, u := n / 10, n % 10;
    if t == 7 {
      ReadSeventies(r, u);
    } else if t == 8 {
      ReadEighties(r, u);
    } else if t == 9 {
      ReadNineties(r, u);
    } else {
      ReadLowTens(r, t, u);
    }
  }

  lemma {:induction false} ReadHundreds(r: Reading, h: nat, rest: nat)
    requires 1 <= h <= 9 && r.below == 0
    ensures ReadAll(r, Words(Hundreds(h, rest))) == r.(hundreds := 100 * h, below := 0)
  {
    var cent := if rest == 0 then Cents else Cent;
    ReadOne(r, cent);
    if h > 1 {
      ReadAppend(r, Words(Unit(h)), [cent]);
      ReadUnit(r, h);
      ReadOne(r.(below := r.below + h), cent);
    }
  }

  lemma {:induction false} ReadBelow100(r: Reading, n: nat)
    requires n < 100 && r.below == 0
    ensures ReadAll(r, Words(Below100(n))) == r.(below := r.below + n)
  {
    if n >= 20 {
      ReadTens(r, n);
    } else if n > 0 {
      ReadUnit(r, n);
    }
  }

  /** A number below a thousand, split as it is read. */
  function Settled(r: Reading, n: nat): Reading {
    if n >= 100 then r.(hundreds := n / 100 * 100, below := n % 100) else r.(hundreds := 0, below := n)
  }

  lemma {:induction false} ReadBelow1000(r: Reading, n: nat)
    requires 0 < n < 1000 && r.hundreds == 0 && r.below == 0
    ensures ReadAll(r, Words(Below1000(n))) == Settled(r, n)
  {
    if n >= 100 {
      var h, rest := n / 100, n % 100;
      ReadHundreds(r, h, rest);
      WordsAppend(Hundreds(h, rest), Below100(rest));
      ReadAppend(r, Words(Hundreds(h, rest)), Words(Below100(rest)));
      ReadBelow100(r.(hundreds := 100 * h, below := 0), rest);
    } else {
      ReadBelow100(r, n);
    }
  }

  lemma SmallGroups(n: nat)
    requires 0 < n < 1000
    ensures GroupsOf(n) == Groups(0, 0, 0, n)
  {
    GroupsUnique(n, GroupsOf(n), Groups(0, 0, 0, n));
  }

  lemma LargeOfRest(g: Groups)
    requires g.milliards == 0 && g.millions == 0 && g.thousands == 0 && 0 < g.rest < 1000
    ensures Large(g) == Below1000(g.rest)
  {
    assert Large(g) == Parts([], [], [], Below1000(g.rest));
  }

  lemma SmallWords(n: nat)
    requires 0 < n < 1000
    ensures WordsOf(n) == Words(Below1000(n))
  {
    SmallGroups(n);
    LargeOfRest(GroupsOf(n));
  }

  /** A number below a thousand is read into the number under way. */
  lemma {:induction false} ReadSmall(r: Reading, n: nat)
    requires 0 < n < 1000 && r.hundreds == 0 && r.below == 0
    ensures ReadAll(r, WordsOf(n)) == Settled(r, n)
  {
    SmallWords(n);
    ReadBelow1000(r, n);
  }

  /** A count followed by its unit. */
  lemma {:induction false} ReadCounted(r: Reading, q: nat, one: Phrase, unit: Word, counted: Reading)
    requires q > 1 && ReadAll(r, WordsOf(q)) == counted
    ensures ReadAll(r, Words(Multiple(q, one, unit))) == ReadWord(counted, unit)
  {
    ReadAppend(r, WordsOf(q), [unit]);
    ReadOne(counted, unit);
  }

  lemma {:induction false} ReadMillions(r: Reading, q: nat)
    requires 0 < q < 1000 && r.hundreds == 0 && r.below == 0
    ensures ReadAll(r, Words(Multiple(q, Spaced([Un, Million]), Millions)))
         == Reading(r.milliards, r.thousands + q * 1_000_000, 0, 0, r.negative)
  {
    if q == 1 {
      ReadTwo(r, Un, Million);
    } else {
      ReadSmall(r, q);
      ReadCounted(r, q, Spaced([Un, Million]), Millions, Settled(r, q));
    }
  }

  lemma {:induction false} ReadThousands(r: Reading, q: nat)
    requires 0 < q < 1000 && r.hundreds == 0 && r.below == 0
    ensures ReadAll(r, Words(Multiple(q, Spaced([Mille]), Mille)))
         == Reading(r.milliards, r.thousands + q * 1000, 0, 0, r.negative)
  {
    if q == 1 {
      ReadOne(r, Mille);
    } else {
      ReadSmall(r, q);
      ReadCounted(r, q, Spaced([Mille]), Mille, Settled(r, q));
    }
  }

  lemma {:induction false} ReadOneMilliard(r: Reading)
    requires Amount(r) == 0
    ensures ReadAll(r, [Un, Milliard]) == Reading(1_000_000_000, 0, 0, 0, r.negative)
  {
    ReadTwo(r, Un, Milliard);
  }

  lemma {:induction false} ReadMilliards(q: nat, minus: bool)
    requires 0 < q
    requires q > 1 ==> Reads(q, minus)
    ensures ReadAll(Start(minus), Words(Multiple(q, Spaced([Un, Milliard]), Milliards)))
         == Reading(q * 1_000_000_000, 0, 0, 0, minus)
  {
    if q == 1 {
      ReadOneMilliard(Start(minus));
    } else {
      ReadManyMilliards(q, minus, Start(minus), Spaced([Un, Milliard]), ReadAll(Start(minus), WordsOf(q)));
    }
  }

  lemma {:induction false} ReadManyMilliards(q: nat, minus: bool, r: Reading, one: Phrase, counted: Reading)
    requires q > 1 && ReadAll(r, WordsOf(q)) == counted && Amount(counted) == q && counted.negative == minus
    ensures ReadAll(r, Words(Multiple(q, one, Milliards))) == Reading(q * 1_000_000_000, 0, 0, 0, minus)
  {
    ReadCounted(r, q, one, Milliards, counted);
  }

  /** Reading what is printed for a positive number gives the number and keeps the sign. */
  ghost predicate Reads(n: nat, minus: bool)
    requires n > 0
  {
    var r := ReadAll(Start(minus), WordsOf(n));
    Amount(r) == n && r.negative == minus
  }

  lemma {:induction false} ReadFrench(n: nat, minus: bool)
    requires n > 0
    ensures Reads(n, minus)
  {
    var q := GroupsOf(n).milliards;
    if q > 1 {
      ReadFrench(q, minus);
    }
    ReadGroups(n, minus);
  }

  ghost function MilliardPart(q: nat): seq<Token> {
    GroupPart(q, Spaced([Un, Milliard]), Milliards)
  }

  ghost function MillionPart(q: nat): seq<Token> {
    GroupPart(q, Spaced([Un, Million]), Millions)
  }

  ghost function ThousandPart(q: nat): seq<Token> {
    GroupPart(q, Spaced([Mille]), Mille)
  }

  lemma {:induction false} LargeWords(n: nat)
    requires n > 0
    ensures var g := GroupsOf(n);
            WordsOf(n) == Words(MilliardPart(g.milliards)) + Words(MillionPart(g.millions))
                          + Words(ThousandPart(g.thousands)) + Words(RestPart(g.rest))
  {
    assert Positive(n) == Large(GroupsOf(n));
  }

  lemma {:induction false} ReadGroups(n: nat, minus: bool)
    requires n > 0
    requires GroupsOf(n).milliards > 1 ==> Reads(GroupsOf(n).milliards, minus)
    ensures Reads(n, minus)
  {
    var g := GroupsOf(n);
    LargeWords(n);
    ReadFourParts(g, minus);
  }

  lemma {:induction false} ReadMilliardPart(q: nat, minus: bool)
    requires q > 1 ==> Reads(q, minus)
    ensures ReadAll(Start(minus), Words(MilliardPart(q))) == Reading(q * 1_000_000_000, 0, 0, 0, minus)
  {
    if q > 0 {
      ReadMilliards(q, minus);
    }
  }

  lemma {:induction false} ReadMillionPart(r: Reading, q: nat)
    requires q < 1000 && r.hundreds == 0 && r.below == 0
    ensures ReadAll(r, Words(MillionPart(q))) == r.(thousands := r.thousands + q * 1_000_000)
  {
    if q > 0 {
      ReadMillions(r, q);
    }
  }

  lemma {:induction false} ReadThousandPart(r: Reading, q: nat)
    requires q < 1000 && r.hundreds == 0 && r.below == 0
    ensures ReadAll(r, Words(ThousandPart(q))) == r.(thousands := r.thousands + q * 1000)
  {
    if q > 0 {
      ReadThousands(r, q);
    }
  }

  lemma {:induction false} ReadRestPart(r: Reading, q: nat)
    requires q < 1000 && r.hundreds == 0 && r.below == 0
    ensures ReadAll(r, Words(RestPart(q))) == Settled(r, q)
  {
    if q > 0 {
      ReadBelow1000(r, q);
    }
  }

  lemma {:induction false} ReadFourParts(g: Groups, minus: bool)
    requires g.milliards > 1 ==> Reads(g.milliards, minus)
    requires g.millions < 1000 && g.thousands < 1000 && g.rest < 1000
    ensures ReadAll(Start(minus), Words(MilliardPart(g.milliards)) + Words(MillionPart(g.millions))
                                  + Words(ThousandPart(g.thousands)) + Words(RestPart(g.rest)))
         == Settled(Reading(g.milliards * 1_000_000_000, g.millions * 1_000_000 + g.thousands * 1_000, 0, 0, minus), g.rest)
  {
    var r1 := Reading(g.milliards * 1_000_000_000, 0, 0, 0, minus);
    var r2 := r1.(thousands := g.millions * 1_000_000);
    var r3 := r2.(thousands := g.millions * 1_000_000 + g.thousands * 1_000);
    ReadMilliardPart(g.milliards, minus);
    ReadMillionPart(r1, g.millions);
    ReadThousandPart(r2, g.thousands);
    ReadRestPart(r3, g.rest);
    ReadFour(Start(minus), Words(MilliardPart(g.milliards)), Words(MillionPart(g.millions)),
             Words(ThousandPart(g.thousands)), Words(RestPart(g.rest)), r1, r2, r3, Settled(r3, g.rest));
  }

  lemma MeaningRead(ws: seq<Word>, n: nat, minus: bool)
    requires var r := ReadAll(Start(false), ws); Amount(r) == n && r.negative == minus
    ensures Meaning(ws) == if minus then 0 - n else n
  {
  }

  lemma MeaningOfNothing(ws: seq<Word>, w: Word)
    requires ws == [w] && EffectOf(w) == Add(0)
    ensures Meaning(ws) == 0
  {
    ReadNothing(Start(false), w);
    NothingRead(ws);
  }

  lemma NothingRead(ws: seq<Word>)
    requires ReadAll(Start(false), ws) == Start(false)
    ensures Meaning(ws) == 0
  {
  }

  lemma MeaningOfZero(ws: seq<Word>)
    requires ws == [Zero]
    ensures Meaning(ws) == 0
  {
    MeaningOfNothing(ws, Zero);
  }

  lemma MeaningOfPositive(n: nat)
    requires n > 0
    ensures Meaning(WordsOf(n)) == n
  {
    ReadFrench(n, false);
    MeaningRead(WordsOf(n), n, false);
  }

  lemma MeaningOfNegative(n: nat)
    requires n > 0
    ensures Meaning([Moins] + WordsOf(n)) == 0 - n
  {
    ReadFrench(n, true);
    ReadSign(Start(false), WordsOf(n));
    MeaningRead([Moins] + WordsOf(n), n, true);
  }

  lemma {:induction false} MeaningOfPrinted(n: int)
    ensures Meaning(Words(French(n))) == n
  {
    if n == 0 {
      MeaningOfZero(Words(French(n)));
    } else if n > 0 {
      MeaningOfPositive(n);
    } else {
      MeaningOfNegative(-n);
    }
  }

  /** Round trip: the text printed for any number, negative or as large as one likes, is a text
      of number words that reads as that number. */
  lemma {:induction false} RoundTrip(n: int)
    ensures Parse(Render(French(n))) == Some(n)
  {
    RenderSpells(French(n));
    ParseSpelled(Render(French(n)), Words(French(n)));
    MeaningOfPrinted(n);
  }

  /** Different numbers are printed differently. */
  lemma PrinterInjective(a: int, b: int)
    requires Render(French(a)) == Render(French(b))
    ensures a == b
  {
    RoundTrip(a);
    RoundTrip(b);
  }
}
