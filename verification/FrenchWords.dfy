/** The vocabulary of French numbers, what a sequence of its words means, and how text is cut
    into words. Nothing here knows how numbers are printed. */
module FrenchWords {
  import opened Options

  datatype Word =
    | Un | Deux | Trois | Quatre | Cinq | Six | Sept | Huit | Neuf | Dix
    | Onze | Douze | Treize | Quatorze | Quinze | Seize
    | Vingt | Vingts | Trente | Quarante | Cinquante | Soixante
    | Et | Cent | Cents | Mille | Million | Millions | Milliard | Milliards | Zero | Moins

  function Spell(w: Word): string {
    match w
    case Un => "un" case Deux => "deux" case Trois => "trois" case Quatre => "quatre" case Cinq => "cinq"
    case Six => "six" case Sept => "sept" case Huit => "huit" case Neuf => "neuf" case Dix => "dix"
    case Onze => "onze" case Douze => "douze" case Treize => "treize" case Quatorze => "quatorze"
    case Quinze => "quinze" case Seize => "seize" case Vingt => "vingt" case Vingts => "vingts"
    case Trente => "trente" case Quarante => "quarante" case Cinquante => "cinquante" case Soixante => "soixante"
    case Et => "et" case Cent => "cent" case Cents => "cents" case Mille => "mille"
    case Million => "million" case Millions => "millions" case Milliard => "milliard" case Milliards => "milliards"
    case Zero => "zéro" case Moins => "moins"
  }

  // ----- spelling is one to one -----

  /** Length and three letters tell the words apart. */
  datatype Key = Key(length: int, first: char, fourth: char, last: char)

  function KeyOf(s: string): Key
    requires s != []
  {
    Key(|s|, s[0], if |s| > 3 then s[3] else ' ', s[|s| - 1])
  }

  function WordKey(w: Word): Key {
    match w
    case Un => Key(2, 'u', ' ', 'n') case Deux => Key(4, 'd', 'x', 'x') case Trois => Key(5, 't', 'i', 's')
    case Quatre => Key(6, 'q', 't', 'e') case Cinq => Key(4, 'c', 'q', 'q') case Six => Key(3, 's', ' ', 'x')
    case Sept => Key(4, 's', 't', 't') case Huit => Key(4, 'h', 't', 't') case Neuf => Key(4, 'n', 'f', 'f')
    case Dix => Key(3, 'd', ' ', 'x') case Onze => Key(4, 'o', 'e', 'e') case Douze => Key(5, 'd', 'z', 'e')
    case Treize => Key(6, 't', 'i', 'e') case Quatorze => Key(8, 'q', 't', 'e') case Quinze => Key(6, 'q', 'n', 'e')
    case Seize => Key(5, 's', 'z', 'e') case Vingt => Key(5, 'v', 'g', 't') case Vingts => Key(6, 'v', 'g', 's')
    case Trente => Key(6, 't', 'n', 'e') case Quarante => Key(8, 'q', 'r', 'e')
    case Cinquante => Key(9, 'c', 'q', 'e') case Soixante => Key(8, 's', 'x', 'e')
    case Et => Key(2, 'e', ' ', 't') case Cent => Key(4, 'c', 't', 't') case Cents => Key(5, 'c', 't', 's')
    case Mille => Key(5, 'm', 'l', 'e') case Million => Key(7, 'm', 'l', 'n') case Millions => Key(8, 'm', 'l', 's')
    case Milliard => Key(8, 'm', 'l', 'd') case Milliards => Key(9, 'm', 'l', 's')
    case Zero => Key(4, 'z', 'o', 'o') case Moins => Key(5, 'm', 'n', 's')
  }

  lemma SpellKey(w: Word)
    ensures Spell(w) != [] && KeyOf(Spell(w)) == WordKey(w)
  {
  }

  lemma KeysDiffer(a: Word, b: Word)
    requires WordKey(a) == WordKey(b)
    ensures a == b
  {
  }

  /** No two words are spelled alike. */
  lemma SpellInjective(a: Word, b: Word)
    requires Spell(a) == Spell(b)
    ensures a == b
  {
    SpellKey(a);
    SpellKey(b);
    KeysDiffer(a, b);
  }

  function SpellAll(ws: seq<Word>): (r: seq<string>)
    ensures |r| == |ws|
    ensures forall k :: 0 <= k < |ws| ==> r[k] == Spell(ws[k])
  {
    if ws == [] then [] else [Spell(ws[0])] + SpellAll(ws[1..])
  }

  lemma SpellAllInjective(a: seq<Word>, b: seq<Word>)
    requires SpellAll(a) == SpellAll(b)
    ensures a == b
  {
    assert |a| == |SpellAll(a)| == |SpellAll(b)| == |b|;
    forall k | 0 <= k < |a|
      ensures a[k] == b[k]
    {
      assert SpellAll(a)[k] == SpellAll(b)[k];
      SpellInjective(a[k], b[k]);
    }
  }

  lemma SpellAllAppend(a: seq<Word>, b: seq<Word>)
    ensures SpellAll(a + b) == SpellAll(a) + SpellAll(b)
  {
  }

  // ----- cutting text into words -----

  /** Words are set apart by spaces and hyphens. */
  predicate IsSeparator(c: char) {
    c == ' ' || c == '-'
  }

  function Split(s: string): (r: seq<string>)
    ensures r != []
  {
    if s == [] then [""]
    else
      var rest := Split(s[1..]);
      if IsSeparator(s[0]) then [""] + rest else [[s[0]] + rest[0]] + rest[1..]
  }

  lemma {:induction false} SplitAtSeparator(a: string, c: char, b: string)
    requires IsSeparator(c)
    ensures Split(a + [c] + b) == Split(a) + Split(b)
  {
    if a == [] {
      assert (a + [c] + b)[1..] == b;
    } else {
      assert (a + [c] + b)[1..] == a[1..] + [c] + b;
      SplitAtSeparator(a[1..], c, b);
    }
  }

  lemma {:induction false} SplitAtom(s: string)
    requires forall k :: 0 <= k < |s| ==> !IsSeparator(s[k])
    ensures Split(s) == [s]
  {
    if s != [] {
      SplitAtom(s[1..]);
      assert [s[0]] + s[1..] == s;
    }
  }

  /** The text consists of exactly these words. */
  predicate Spells(s: string, ws: seq<Word>) {
    Split(s) == SpellAll(ws)
  }

  lemma {:induction false} SpellsWord(w: Word)
    ensures Spells(Spell(w), [w])
  {
    SplitAtom(Spell(w));
  }

  lemma SpellsPair(a: string, x: seq<Word>, c: char, b: string, y: seq<Word>)
    requires Spells(a, x) && Spells(b, y) && IsSeparator(c)
    ensures Spells(a + [c] + b, x + y)
  {
    SplitAtSeparator(a, c, b);
    SpellAllAppend(x, y);
  }

  // ----- what the words mean -----

  /** What has been read: milliards, millions and thousands, and of the number under way its
      hundreds and what is below a hundred; and whether a minus came along. */
  datatype Reading = Reading(milliards: nat, thousands: nat, hundreds: nat, below: nat, negative: bool)

  /** What a word does to the number under way. */
  datatype Effect =
    | Add(n: nat)
    | Score             // twenty, or times twenty after a four
    | Hundredfold
    | CloseThousands    // ends a count of thousands
    | CloseMillions     // ends a count of millions
    | CloseAll          // ends a count of milliards, whatever came before
    | Sign

  function EffectOf(w: Word): Effect {
    match w
    case Un => Add(1) case Deux => Add(2) case Trois => Add(3) case Quatre => Add(4) case Cinq => Add(5)
    case Six => Add(6) case Sept => Add(7) case Huit => Add(8) case Neuf => Add(9) case Dix => Add(10)
    case Onze => Add(11) case Douze => Add(12) case Treize => Add(13) case Quatorze => Add(14)
    case Quinze => Add(15) case Seize => Add(16) case Vingt => Score case Vingts => Score
    case Trente => Add(30) case Quarante => Add(40) case Cinquante => Add(50) case Soixante => Add(60)
    case Et => Add(0) case Zero => Add(0) case Cent => Hundredfold case Cents => Hundredfold
    case Mille => CloseThousands case Million => CloseMillions case Millions => CloseMillions
    case Milliard => CloseAll case Milliards => CloseAll case Moins => Sign
  }

  function OneIfNone(n: nat): nat {
    if n == 0 then 1 else n
  }

  function Amount(r: Reading): nat {
    r.milliards + r.thousands + r.hundreds + r.below
  }

  /** Words add up, except that four twenties are eighty, a hundred and a thousand multiply
      what precedes them, and milliards multiply everything before them. */
  function Apply(r: Reading, e: Effect): Reading {
    match e
    case Add(n) => r.(below := r.below + n)
    case Score => r.(below := if r.below == 4 then 80 else r.below + 20)
    case Hundredfold => r.(hundreds := OneIfNone(r.below) * 100, below := 0)
    case CloseThousands =>
      r.(thousands := r.thousands + OneIfNone(r.hundreds + r.below) * 1_000, hundreds := 0, below := 0)
    case CloseMillions =>
      r.(thousands := r.thousands + (r.hundreds + r.below) * 1_000_000, hundreds := 0, below := 0)
    case CloseAll => Reading(Amount(r) * 1_000_000_000, 0, 0, 0, r.negative)
    case Sign => r.(negative := true)
  }

  function ReadWord(r: Reading, w: Word): Reading {
    Apply(r, EffectOf(w))
  }

  function ReadAll(r: Reading, ws: seq<Word>): Reading
    decreases |ws|
  {
    if |ws| == 0 then r else ReadAll(ReadWord(r, ws[0]), ws[1..])
  }

  /** Nothing read yet, perhaps after a minus. */
  function Start(negative: bool): Reading {
    Reading(0, 0, 0, 0, negative)
  }

  function Meaning(ws: seq<Word>): int {
    var r := ReadAll(Start(false), ws);
    var amount: int := Amount(r);
    if r.negative then -amount else amount
  }

  lemma {:induction false} ReadAppend(r: Reading, a: seq<Word>, b: seq<Word>)
    ensures ReadAll(r, a + b) == ReadAll(ReadAll(r, a), b)
    decreases |a|
  {
    if a == [] {
      assert a + b == b;
    } else {
      assert (a + b)[1..] == a[1..] + b;
      ReadAppend(ReadWord(r, a[0]), a[1..], b);
    }
  }

  lemma {:induction false} ReadOne(r: Reading, w: Word)
    ensures ReadAll(r, [w]) == ReadWord(r, w)
  {
    assert ReadAll(ReadWord(r, w), [w][1..]) == ReadWord(r, w);
  }

  lemma {:induction false} ReadTwo(r: Reading, w: Word, v: Word)
    ensures ReadAll(r, [w, v]) == ReadWord(ReadWord(r, w), v)
  {
    assert [w, v][1..] == [v];
    ReadOne(ReadWord(r, w), v);
  }

  lemma {:induction false} ReadThree(r: Reading, w: Word, v: Word, u: Word)
    ensures ReadAll(r, [w, v, u]) == ReadWord(ReadWord(ReadWord(r, w), v), u)
  {
    assert [w, v, u][1..] == [v, u];
    ReadTwo(ReadWord(r, w), v, u);
  }

  lemma {:induction false} ReadEighty(r: Reading)
    requires r.below == 0
    ensures ReadAll(r, [Quatre, Vingt]) == r.(below := r.below + 80)
    ensures ReadAll(r, [Quatre, Vingts]) == r.(below := r.below + 80)
  {
    ReadTwo(r, Quatre, Vingt);
    ReadTwo(r, Quatre, Vingts);
  }

  lemma {:induction false} ReadSixty(r: Reading)
    requires r.below == 0
    ensures ReadAll(r, [Soixante]) == r.(below := 60)
    ensures ReadAll(r, [Soixante, Et, Onze]) == r.(below := 71)
  {
    ReadOne(r, Soixante);
    ReadThree(r, Soixante, Et, Onze);
  }

  /** Four runs of words, each read from where the one before stopped. */
  lemma {:induction false} ReadFour(r0: Reading, a: seq<Word>, b: seq<Word>, c: seq<Word>, d: seq<Word>,
                 r1: Reading, r2: Reading, r3: Reading, r4: Reading)
    requires ReadAll(r0, a) == r1 && ReadAll(r1, b) == r2 && ReadAll(r2, c) == r3 && ReadAll(r3, d) == r4
    ensures ReadAll(r0, a + b + c + d) == r4
  {
    ReadAppend(r0, a, b);
    ReadAppend(r0, a + b, c);
    ReadAppend(r0, a + b + c, d);
  }

  lemma {:induction false} ReadNothing(r: Reading, w: Word)
    requires EffectOf(w) == Add(0)
    ensures ReadAll(r, [w]) == r
  {
    ReadOne(r, w);
  }

  lemma {:induction false} ReadSign(r: Reading, ws: seq<Word>)
    ensures ReadAll(r, [Moins] + ws) == ReadAll(r.(negative := true), ws)
  {
    ReadOne(r, Moins);
    ReadAppend(r, [Moins], ws);
  }

  /** Reads a text as a number, if it consists of number words. */
  ghost function Parse(s: string): Option<int> {
    if exists ws :: Spells(s, ws) then
      var ws :| Spells(s, ws);
      Some(Meaning(ws))
    else None
  }

  lemma {:induction false} ParseSpelled(s: string, ws: seq<Word>)
    requires Spells(s, ws)
    ensures Parse(s) == Some(Meaning(ws))
  {
    forall vs | Spells(s, vs)
      ensures vs == ws
    {
      SpellAllInjective(vs, ws);
    }
  }
}
