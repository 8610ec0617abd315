/** The amounts at the end of a table line: the digit groups of a unit price and of a total follow
    each other, and the split between the two is the one that fits the quantity best. */
module OcrSplit {
  import opened Options
  import opened OcrNumbers

  /** A way to split the groups into a unit price and a total. */
  datatype Candidate = Candidate(price: real, total: real)

  function ValueOf(d: Decimal): real {
    d.digits as real / Pow10(d.places) as real
  }

  function Parsed(text: string): Option<real> {
    var d := ParseNumber(text);
    if d.Some? then Some(ValueOf(d.value)) else None
  }

  function Join(tokens: seq<string>): string {
    if tokens == [] then [] else tokens[0] + Join(tokens[1..])
  }

  /** The candidate a split gives; one whose price or total is missing or zero is none. */
  function CandidateAt(tokens: seq<string>, k: nat): Option<Candidate>
    requires k <= |tokens|
  {
    var price, total := Parsed(Join(tokens[..k])), Parsed(Join(tokens[k..]));
    if price.Some? && total.Some? && price.value != 0.0 && total.value != 0.0 then
      Some(Candidate(price.value, total.value))
    else None
  }

  function Abs(x: real): real {
    if x < 0.0 then -x else x
  }

  function Max(x: real, y: real): (m: real)
    ensures m == x || m == y
    ensures m >= x && m >= y
  {
    if y > x then y else x
  }

  /** How far quantity times price is from the total, relative to it. */
  function ErrorOf(quantity: real, c: Candidate): real {
    Abs(quantity * c.price - c.total) / Max(c.total, 1.0)
  }

  /** The error is relative to a total of at least one and absolute below that. */
  lemma ErrorExactly(quantity: real, c: Candidate)
    ensures var off := quantity * c.price - c.total;
            var e := ErrorOf(quantity, c);
            && e >= 0.0
            && (c.total >= 1.0 ==> e * c.total == off || e * c.total == -off)
            && (c.total <= 1.0 ==> e == off || e == -off)
  {
    Quotient(Abs(quantity * c.price - c.total), Max(c.total, 1.0));
    Restored(Abs(quantity * c.price - c.total), Max(c.total, 1.0));
  }

  lemma Restored(x: real, m: real)
    requires m >= 1.0
    ensures x / m * m == x
    ensures m == 1.0 ==> x / m == x
  {
  }

  /** What each split gives; splitting before the first group is no split. */
  function Candidates(tokens: seq<string>): (cs: seq<Option<Candidate>>)
    ensures |cs| == |tokens|
  {
    seq(|tokens|, k requires 0 <= k < |tokens| => if k == 0 then None else CandidateAt(tokens, k))
  }

  predicate Has(cs: seq<Option<Candidate>>, k: nat) {
    k < |cs| && cs[k].Some?
  }

  function Score(quantity: real, cs: seq<Option<Candidate>>, k: nat): real
    requires Has(cs, k)
  {
    ErrorOf(quantity, cs[k].value)
  }

  /** The split fits at least as well as every other and better than every earlier one. */
  ghost predicate FitsBest(quantity: real, cs: seq<Option<Candidate>>, k: nat) {
    && Has(cs, k)
    && forall j: nat :: Has(cs, j) ==>
         && Score(quantity, cs, k) <= Score(quantity, cs, j)
         && (j < k ==> Score(quantity, cs, k) < Score(quantity, cs, j))
  }

  /** The right outcome of the search: the best split, or none when no split will do. */
  ghost predicate IsBest(quantity: Option<real>, cs: seq<Option<Candidate>>, best: Option<Candidate>) {
    if best.None? then
      quantity.None? || quantity.value == 0.0 || forall k: nat :: !Has(cs, k)
    else
      && quantity.Some? && quantity.value != 0.0
      && exists k: nat :: FitsBest(quantity.value, cs, k) && cs[k] == best
  }

  // ----- the search -----

  datatype Scored = Scored(error: real, candidate: Candidate)

  /** These are the candidates of all splits before n and the places of the splits, in order. */
  ghost predicate Scores(quantity: real, cs: seq<Option<Candidate>>, n: nat, scored: seq<Scored>, splits: seq<nat>) {
    && |splits| == |scored|
    && (forall i :: 0 <= i < |splits| ==>
          && splits[i] < n && Has(cs, splits[i])
          && scored[i] == Scored(Score(quantity, cs, splits[i]), cs[splits[i]].value))
    && (forall i, j :: 0 <= i < j < |splits| ==> splits[i] < splits[j])
    && forall k: nat :: k < n && Has(cs, k) ==> k in splits
  }

  lemma ScoreNext(quantity: real, cs: seq<Option<Candidate>>, n: nat, scored: seq<Scored>, splits: seq<nat>)
    requires Scores(quantity, cs, n, scored, splits) && n < |cs|
    ensures cs[n].None? ==> Scores(quantity, cs, n + 1, scored, splits)
    ensures cs[n].Some? ==> Scores(quantity, cs, n + 1,
                                   scored + [Scored(ErrorOf(quantity, cs[n].value), cs[n].value)], splits + [n])
  {
    if cs[n].Some? {
      var next := splits + [n];
      forall k: nat | k < n + 1 && Has(cs, k)
        ensures k in next
      {
        assert k < n ==> k in splits;
        assert next[|splits|] == n;
      }
    }
  }

  /** Scores every split that gives a candidate, in order. */
  method ScoreSplits(quantity: real, tokens: seq<string>, ghost cs: seq<Option<Candidate>>)
    returns (scored: seq<Scored>, ghost splits: seq<nat>)
    requires cs == Candidates(tokens) && tokens != []
    ensures Scores(quantity, cs, |tokens|, scored, splits)
  {
    scored, splits := [], [];
    for k := 1 to |tokens|
      invariant Scores(quantity, cs, k, scored, splits)
    {
      var candidate := CandidateAt(tokens, k);
      assert candidate == cs[k];
      ScoreNext(quantity, cs, k, scored, splits);
      if candidate.Some? {
        scored := scored + [Scored(ErrorOf(quantity, candidate.value), candidate.value)];
        splits := splits + [k];
      }
    }
  }

  /** The first of the least errors. */
  method Least(scored: seq<Scored>) returns (m: nat)
    requires scored != []
    ensures m < |scored|
    ensures forall i :: 0 <= i < |scored| ==>
              scored[m].error <= scored[i].error && (i < m ==> scored[m].error < scored[i].error)
  {
    m := 0;
    for n := 1 to |scored|
      invariant m < n
      invariant forall i :: 0 <= i < n ==>
                  scored[m].error <= scored[i].error && (i < m ==> scored[m].error < scored[i].error)
    {
      if scored[n].error < scored[m].error {
        m := n;
      }
    }
  }

  lemma LeastFitsBest(quantity: real, cs: seq<Option<Candidate>>, scored: seq<Scored>, splits: seq<nat>, m: nat)
    requires Scores(quantity, cs, |cs|, scored, splits) && m < |scored|
    requires forall i :: 0 <= i < |scored| ==>
               scored[m].error <= scored[i].error && (i < m ==> scored[m].error < scored[i].error)
    ensures FitsBest(quantity, cs, splits[m]) && cs[splits[m]] == Some(scored[m].candidate)
  {
    forall k: nat | Has(cs, k)
      ensures Score(quantity, cs, splits[m]) <= Score(quantity, cs, k)
      ensures k < splits[m] ==> Score(quantity, cs, splits[m]) < Score(quantity, cs, k)
    {
      var i :| 0 <= i < |splits| && splits[i] == k;
    }
  }

  method BestSplit(quantity: Option<real>, tokens: seq<string>) returns (best: Option<Candidate>)
    ensures IsBest(quantity, Candidates(tokens), best)
  {
    if quantity.None? || quantity.value == 0.0 || tokens == [] {
      return None;
    }
    ghost var cs := Candidates(tokens);
    var scored;
    ghost var splits;
    scored, splits := ScoreSplits(quantity.value, tokens, cs);
    if scored == [] {
      return None;
    }
    var m := Least(scored);
    LeastFitsBest(quantity.value, cs, scored, splits, m);
    best := Some(scored[m].candidate);
  }

  // ----- whole amounts are recovered -----

  /** Groups of digits, leading zeros and all. */
  predicate DigitGroups(tokens: seq<string>) {
    forall k :: 0 <= k < |tokens| ==> tokens[k] != [] && Digits(tokens[k])
  }

  lemma {:induction false} JoinDigits(tokens: seq<string>)
    requires DigitGroups(tokens)
    ensures Digits(Join(tokens)) && |Join(tokens)| >= |tokens|
  {
    if tokens != [] {
      JoinDigits(tokens[1..]);
    }
  }

  lemma {:induction false} JoinAppend(a: seq<string>, b: seq<string>)
    ensures Join(a + b) == Join(a) + Join(b)
  {
    if a == [] {
      assert a + b == b;
    } else {
      assert (a + b)[1..] == a[1..] + b;
      JoinAppend(a[1..], b);
    }
  }

  function Whole(tokens: seq<string>): nat {
    NatOf(Join(tokens))
  }

  lemma ParsedWhole(tokens: seq<string>)
    requires DigitGroups(tokens) && tokens != []
    ensures Parsed(Join(tokens)) == Some(Whole(tokens) as real)
  {
    JoinDigits(tokens);
    ParseDigits(Join(tokens));
    assert Pow10(0) == 1;
  }

  lemma {:induction false} Pow10AtLeast(n: nat)
    requires n >= 1
    ensures Pow10(n) >= 10
  {
    if n > 1 {
      Pow10AtLeast(n - 1);
    }
  }

  /** More groups, more than ten times the number. */
  lemma WholeAppend(a: seq<string>, b: seq<string>)
    requires DigitGroups(a) && DigitGroups(b) && b != []
    ensures Whole(a + b) >= 10 * Whole(a) + Whole(b)
  {
    JoinAppend(a, b);
    JoinDigits(b);
    NatAppend(Join(a), Join(b));
    Pow10AtLeast(|Join(b)|);
    TimesAtLeast(Whole(a), 10, Pow10(|Join(b)|));
  }

  lemma TimesAtLeast(x: nat, y: nat, z: nat)
    requires y <= z
    ensures y * x <= x * z
  {
  }

  lemma TimesMore(q: nat, x: nat, y: nat)
    requires q >= 1 && x < y
    ensures q * x < q * y
  {
  }

  /** Cutting the price short makes it too small for the total. */
  lemma ShortPrice(q: nat, front: seq<string>, back: seq<string>, b: seq<string>)
    requires DigitGroups(front) && DigitGroups(back) && back != [] && DigitGroups(b) && b != []
    requires q >= 1 && Whole(front + back) >= 1 && Whole(b) == q * Whole(front + back)
    ensures q * Whole(front) < Whole(back + b)
  {
    WholeAppend(front, back);
    WholeAppend(back, b);
    TimesMore(q, Whole(front), Whole(front + back));
  }

  /** Groups of the total taken into the price make it too large. */
  lemma LongPrice(q: nat, a: seq<string>, front: seq<string>, back: seq<string>)
    requires DigitGroups(a) && DigitGroups(front) && front != [] && DigitGroups(back) && back != []
    requires q >= 1 && Whole(a) >= 1 && Whole(front + back) == q * Whole(a)
    ensures q * Whole(a + front) > Whole(back)
  {
    WholeAppend(a, front);
    WholeAppend(front, back);
    TimesMore(q, Whole(a), Whole(a + front));
  }

  /** A split before the right one makes the price too small for the total, one after it too large. */
  lemma WrongSplits(q: nat, a: seq<string>, b: seq<string>, k: nat)
    requires DigitGroups(a) && DigitGroups(b) && a != [] && b != []
    requires q >= 1 && Whole(a) >= 1 && Whole(b) == q * Whole(a) && 1 <= k < |a + b|
    ensures k < |a| ==> q * Whole((a + b)[..k]) < Whole((a + b)[k..])
    ensures k > |a| ==> q * Whole((a + b)[..k]) > Whole((a + b)[k..])
  {
    var t := a + b;
    if k < |a| {
      CutInFront(a, b, k);
      ShortPrice(q, a[..k], a[k..], b);
    } else if k > |a| {
      CutBehind(a, b, k - |a|);
      LongPrice(q, a, b[..k - |a|], b[k - |a|..]);
    }
  }

  lemma CutInFront(a: seq<string>, b: seq<string>, k: nat)
    requires k <= |a|
    ensures (a + b)[..k] == a[..k] && (a + b)[k..] == a[k..] + b && a == a[..k] + a[k..]
  {
  }

  lemma CutBehind(a: seq<string>, b: seq<string>, j: nat)
    requires j <= |b|
    ensures (a + b)[..|a| + j] == a + b[..j] && (a + b)[|a| + j..] == b[j..] && b == b[..j] + b[j..]
  {
  }

  /** What a split of groups of digits gives. */
  lemma WholeCandidate(tokens: seq<string>, k: nat)
    requires DigitGroups(tokens) && 1 <= k < |tokens|
    ensures var price, total := Whole(tokens[..k]), Whole(tokens[k..]);
            CandidateAt(tokens, k) == if price != 0 && total != 0 then Some(Candidate(price as real, total as real)) else None
  {
    ParsedWhole(tokens[..k]);
    ParsedWhole(tokens[k..]);
  }

  /** Only the right split has no error. */
  lemma OnlyExactSplit(q: nat, a: seq<string>, b: seq<string>, k: nat)
    requires DigitGroups(a) && DigitGroups(b) && a != [] && b != []
    requires q >= 1 && Whole(a) >= 1 && Whole(b) == q * Whole(a)
    requires Has(Candidates(a + b), k)
    ensures Score(q as real, Candidates(a + b), k) >= 0.0
    ensures Score(q as real, Candidates(a + b), k) == 0.0 <==> k == |a|
  {
    var t := a + b;
    WholeCandidate(t, k);
    WrongSplits(q, a, b, k);
    if k == |a| {
      assert t[..k] == a && t[k..] == b;
    }
    WholeError(q, Whole(t[..k]), Whole(t[k..]));
  }

  lemma WholeError(q: nat, price: nat, total: nat)
    ensures ErrorOf(q as real, Candidate(price as real, total as real)) >= 0.0
    ensures ErrorOf(q as real, Candidate(price as real, total as real)) == 0.0 <==> q * price == total
  {
    var x := q as real * price as real - total as real;
    assert x == (q * price - total) as real;
    var m := Max(total as real, 1.0);
    Quotient(Abs(x), m);
  }

  lemma Quotient(x: real, m: real)
    requires x >= 0.0 && m >= 1.0
    ensures x / m >= 0.0 && (x / m == 0.0 <==> x == 0.0)
  {
  }

  /** Recovery: when a unit price and quantity times that price, both whole, are written as any
      groups of digits one after the other, the search returns exactly that price and that total. */
  lemma AmountsRecovered(q: nat, a: seq<string>, b: seq<string>, best: Option<Candidate>)
    requires DigitGroups(a) && DigitGroups(b) && a != [] && b != []
    requires q >= 1 && Whole(a) >= 1 && Whole(b) == q * Whole(a)
    requires IsBest(Some(q as real), Candidates(a + b), best)
    ensures best == Some(Candidate(Whole(a) as real, (q * Whole(a)) as real))
  {
    var cs := Candidates(a + b);
    RightSplit(q, a, b);
    forall k: nat | Has(cs, k)
      ensures Score(q as real, cs, k) >= 0.0
      ensures Score(q as real, cs, k) == 0.0 <==> k == |a|
    {
      OnlyExactSplit(q, a, b, k);
    }
    ExactWins(q as real, cs, |a|, best);
  }

  /** A split that is the only one without error is the best one. */
  lemma ExactWins(quantity: real, cs: seq<Option<Candidate>>, n: nat, best: Option<Candidate>)
    requires quantity != 0.0 && Has(cs, n) && IsBest(Some(quantity), cs, best)
    requires forall k: nat :: Has(cs, k) ==>
               Score(quantity, cs, k) >= 0.0 && (Score(quantity, cs, k) == 0.0 <==> k == n)
    ensures best == cs[n]
  {
    if best.Some? {
      var k: nat :| FitsBest(quantity, cs, k) && cs[k] == best;
      assert Score(quantity, cs, k) <= Score(quantity, cs, n);
    }
  }

  lemma RightSplit(q: nat, a: seq<string>, b: seq<string>)
    requires DigitGroups(a) && DigitGroups(b) && a != [] && b != []
    requires q >= 1 && Whole(a) >= 1 && Whole(b) == q * Whole(a)
    ensures Candidates(a + b)[|a|] == Some(Candidate(Whole(a) as real, (q * Whole(a)) as real))
  {
    assert (a + b)[..|a|] == a && (a + b)[|a|..] == b;
    WholeCandidate(a + b, |a|);
    TimesMore(q, 0, Whole(a));
  }
}
