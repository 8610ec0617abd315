/** Recognised words put into rows by their height on the page. */
module OcrRows {

  datatype Word = Word(top: int, left: int, text: string)

  // ----- a stable sort -----

  datatype Key = Top | Left

  function Of(key: Key, w: Word): int {
    if key == Top then w.top else w.left
  }

  predicate Sorted(key: Key, ws: seq<Word>) {
    forall k {:trigger ws[k]} :: 0 < k < |ws| ==> Of(key, ws[k - 1]) <= Of(key, ws[k])
  }

  /** Put before the first word that does not come earlier. */
  function Insert(key: Key, w: Word, ws: seq<Word>): (r: seq<Word>)
    requires Sorted(key, ws)
    ensures Sorted(key, r) && |r| == |ws| + 1 && multiset(r) == multiset{w} + multiset(ws)
    ensures r[0] == w || (ws != [] && r[0] == ws[0])
  {
    if ws == [] || Of(key, w) <= Of(key, ws[0]) then
      [w] + ws
    else
      assert ws == [ws[0]] + ws[1..];
      [ws[0]] + Insert(key, w, ws[1..])
  }

  function SortBy(key: Key, ws: seq<Word>): (r: seq<Word>)
    ensures Sorted(key, r) && |r| == |ws| && multiset(r) == multiset(ws)
  {
    if ws == [] then []
    else
      assert ws == [ws[0]] + ws[1..];
      Insert(key, ws[0], SortBy(key, ws[1..]))
  }

  /** The words at one key value, in order. */
  function At(key: Key, ws: seq<Word>, value: int): seq<Word> {
    if ws == [] then [] else Just(key, ws[0], value) + At(key, ws[1..], value)
  }

  function Just(key: Key, w: Word, value: int): seq<Word> {
    if Of(key, w) == value then [w] else []
  }

  lemma AtCons(key: Key, w: Word, ws: seq<Word>, value: int)
    ensures At(key, [w] + ws, value) == Just(key, w, value) + At(key, ws, value)
  {
    assert ([w] + ws)[1..] == ws;
  }

  lemma {:induction false} InsertStable(key: Key, w: Word, ws: seq<Word>, value: int)
    requires Sorted(key, ws)
    ensures At(key, Insert(key, w, ws), value) == Just(key, w, value) + At(key, ws, value)
  {
    if ws == [] || Of(key, w) <= Of(key, ws[0]) {
      AtCons(key, w, ws, value);
    } else {
      InsertStable(key, w, ws[1..], value);
      AtCons(key, ws[0], Insert(key, w, ws[1..]), value);
      assert ws == [ws[0]] + ws[1..];
      AtCons(key, ws[0], ws[1..], value);
      PassOver(key, ws[0], w, At(key, ws[1..], value), value);
    }
  }

  /** Words with different keys may change places. */
  lemma PassOver(key: Key, v: Word, w: Word, rest: seq<Word>, value: int)
    requires Of(key, v) != Of(key, w)
    ensures Just(key, v, value) + (Just(key, w, value) + rest) == Just(key, w, value) + (Just(key, v, value) + rest)
  {
    assert Just(key, v, value) == [] || Just(key, w, value) == [];
  }

  /** Words with the same key stay in the order they came in. */
  lemma {:induction false} SortStable(key: Key, ws: seq<Word>, value: int)
    ensures At(key, SortBy(key, ws), value) == At(key, ws, value)
  {
    if ws != [] {
      SortStable(key, ws[1..], value);
      InsertStable(key, ws[0], SortBy(key, ws[1..]), value);
    }
  }

  // ----- rows -----

  /** How often a word occurs in all rows together. */
  function Count(rows: seq<seq<Word>>, w: Word): nat {
    if rows == [] then 0 else Count(rows[..|rows| - 1], w) + multiset(rows[|rows| - 1])[w]
  }

  /** The rows hold these words, each as often. */
  ghost predicate Contain(rows: seq<seq<Word>>, words: seq<Word>) {
    forall w {:trigger Count(rows, w)} :: Count(rows, w) == multiset(words)[w]
  }

  /** The words fit into a band of this height. */
  predicate Fits(row: seq<Word>, tolerance: nat) {
    forall v, w :: v in row && w in row ==> v.top - w.top <= tolerance
  }

  predicate Holds(row: seq<Word>, top: int) {
    exists w :: w in row && w.top == top
  }

  /** The words lie in the band that starts at this height, and one is right there. */
  predicate StartsAt(row: seq<Word>, top: int, tolerance: nat) {
    Holds(row, top) && forall w :: w in row ==> top <= w.top <= top + tolerance
  }

  /** The rows start at these heights, each further down than the tolerance from the one above. */
  predicate RowsAt(rows: seq<seq<Word>>, tops: seq<int>, tolerance: nat) {
    && |tops| == |rows|
    && (forall i :: 0 <= i < |rows| ==> StartsAt(rows[i], tops[i], tolerance))
    && forall i, j :: 0 <= i < j < |rows| ==> tops[j] - tops[i] > tolerance
  }

  /** A proper grouping: every word in one row, each row within the tolerance and from left to
      right, and the rows from top to bottom, their highest words further apart than it. */
  ghost predicate Grouping(words: seq<Word>, tolerance: nat, rows: seq<seq<Word>>) {
    && Contain(rows, words)
    && (forall i :: 0 <= i < |rows| ==> Sorted(Left, rows[i]))
    && exists tops :: RowsAt(rows, tops, tolerance)
  }

  // ----- the grouping -----

  function Abs(x: int): nat {
    if x < 0 then -x else x
  }

  lemma {:induction false} CountUpdate(rows: seq<seq<Word>>, i: nat, row: seq<Word>, w: Word)
    requires i < |rows|
    ensures Count(rows[i := row], w) == Count(rows, w) - multiset(rows[i])[w] + multiset(row)[w]
  {
    var n := |rows| - 1;
    if i < n {
      assert rows[i := row][..n] == rows[..n][i := row];
      CountUpdate(rows[..n], i, row, w);
    } else {
      assert rows[i := row][..n] == rows[..n];
    }
  }

  lemma CountAppend(rows: seq<seq<Word>>, row: seq<Word>, w: Word)
    ensures Count(rows + [row], w) == Count(rows, w) + multiset(row)[w]
  {
    assert (rows + [row])[..|rows|] == rows;
  }

  /** Whether a row starts at a height does not depend on the order of its words. */
  lemma SameStart(a: seq<Word>, b: seq<Word>, top: int, tolerance: nat)
    requires multiset(a) == multiset(b) && StartsAt(a, top, tolerance)
    ensures StartsAt(b, top, tolerance)
  {
    forall w
      ensures w in a <==> w in b
    {
      assert w in a <==> w in multiset(a);
      assert w in b <==> w in multiset(b);
    }
  }

  lemma LongerRow(row: seq<Word>, word: Word, top: int, tolerance: nat)
    requires StartsAt(row, top, tolerance) && top <= word.top <= top + tolerance
    ensures StartsAt(row + [word], top, tolerance)
  {
    var w :| w in row && w.top == top;
    assert w in row + [word];
  }

  lemma NewRow(word: Word, tolerance: nat)
    ensures StartsAt([word], word.top, tolerance)
  {
    assert word in [word];
  }

  /** A row may be replaced by one that starts where it did. */
  lemma ReplaceRow(rows: seq<seq<Word>>, tops: seq<int>, i: nat, row: seq<Word>, tolerance: nat)
    requires RowsAt(rows, tops, tolerance) && i < |rows| && StartsAt(row, tops[i], tolerance)
    ensures RowsAt(rows[i := row], tops, tolerance)
  {
  }

  lemma JoinRow(rows: seq<seq<Word>>, tops: seq<int>, word: Word, tolerance: nat)
    requires RowsAt(rows, tops, tolerance) && rows != []
    requires tops[|rows| - 1] <= word.top <= tops[|rows| - 1] + tolerance
    ensures RowsAt(rows[|rows| - 1 := rows[|rows| - 1] + [word]], tops, tolerance)
  {
    var last := |rows| - 1;
    LongerRow(rows[last], word, tops[last], tolerance);
    ReplaceRow(rows, tops, last, rows[last] + [word], tolerance);
  }

  lemma JoinContains(rows: seq<seq<Word>>, words: seq<Word>, word: Word)
    requires rows != [] && Contain(rows, words)
    ensures Contain(rows[|rows| - 1 := rows[|rows| - 1] + [word]], words + [word])
  {
    var last := |rows| - 1;
    forall w
      ensures Count(rows[last := rows[last] + [word]], w) == multiset(words + [word])[w]
    {
      CountUpdate(rows, last, rows[last] + [word], w);
    }
  }

  lemma StartRow(rows: seq<seq<Word>>, tops: seq<int>, word: Word, tolerance: nat)
    requires RowsAt(rows, tops, tolerance)
    requires forall i :: 0 <= i < |rows| ==> word.top - tops[i] > tolerance
    ensures RowsAt(rows + [[word]], tops + [word.top], tolerance)
  {
    NewRow(word, tolerance);
    var next, heights := rows + [[word]], tops + [word.top];
    forall i | 0 <= i < |next|
      ensures StartsAt(next[i], heights[i], tolerance)
    {
      assert i < |rows| ==> StartsAt(rows[i], tops[i], tolerance);
    }
  }

  /** Further down than the last row is further down than every row. */
  lemma FurtherDown(rows: seq<seq<Word>>, tops: seq<int>, top: int, tolerance: nat)
    requires RowsAt(rows, tops, tolerance) && rows != [] && top - tops[|rows| - 1] > tolerance
    ensures forall i :: 0 <= i < |rows| ==> top - tops[i] > tolerance
  {
  }

  lemma StartContains(rows: seq<seq<Word>>, words: seq<Word>, word: Word)
    requires Contain(rows, words)
    ensures Contain(rows + [[word]], words + [word])
  {
    forall w
      ensures Count(rows + [[word]], w) == multiset(words + [word])[w]
    {
      CountAppend(rows, [word], w);
    }
  }

  lemma ReplaceContains(rows: seq<seq<Word>>, words: seq<Word>, i: nat, row: seq<Word>)
    requires Contain(rows, words) && i < |rows| && multiset(row) == multiset(rows[i])
    ensures Contain(rows[i := row], words)
  {
    forall w
      ensures Count(rows[i := row], w) == multiset(words)[w]
    {
      CountUpdate(rows, i, row, w);
    }
  }

  /** The words so far are in rows, the first word of the last row being its highest. */
  ghost predicate Grouped(rows: seq<seq<Word>>, tops: seq<int>, words: seq<Word>, tolerance: nat) {
    && rows != [] && Contain(rows, words) && RowsAt(rows, tops, tolerance)
    && rows[|rows| - 1] != [] && rows[|rows| - 1][0].top == tops[|rows| - 1]
  }

  lemma GroupedFirst(word: Word, tolerance: nat)
    ensures Grouped([[word]], [word.top], [word], tolerance)
  {
    NewRow(word, tolerance);
    StartContains([], [], word);
    assert [] + [[word]] == [[word]] && [] + [word] == [word];
  }

  lemma GroupedJoin(rows: seq<seq<Word>>, tops: seq<int>, words: seq<Word>, word: Word, tolerance: nat)
    requires Grouped(rows, tops, words, tolerance)
    requires tops[|rows| - 1] <= word.top <= tops[|rows| - 1] + tolerance
    ensures Grouped(rows[|rows| - 1 := rows[|rows| - 1] + [word]], tops, words + [word], tolerance)
  {
    JoinRow(rows, tops, word, tolerance);
    JoinContains(rows, words, word);
  }

  lemma GroupedStart(rows: seq<seq<Word>>, tops: seq<int>, words: seq<Word>, word: Word, tolerance: nat)
    requires Grouped(rows, tops, words, tolerance) && word.top > tops[|rows| - 1] + tolerance
    ensures Grouped(rows + [[word]], tops + [word.top], words + [word], tolerance)
  {
    FurtherDown(rows, tops, word.top, tolerance);
    StartRow(rows, tops, word, tolerance);
    StartContains(rows, words, word);
  }

  lemma SameContents(rows: seq<seq<Word>>, a: seq<Word>, b: seq<Word>)
    requires Contain(rows, a) && multiset(a) == multiset(b)
    ensures Contain(rows, b)
  {
  }

  /** Goes down the sorted words, a new row for each that is too far below the current one. */
  method CollectRows(sorted: seq<Word>, tolerance: nat) returns (rows: seq<seq<Word>>, ghost tops: seq<int>)
    requires sorted != [] && Sorted(Top, sorted)
    ensures Contain(rows, sorted) && RowsAt(rows, tops, tolerance)
  {
    rows := [[sorted[0]]];
    tops := [sorted[0].top];
    GroupedFirst(sorted[0], tolerance);
    assert sorted[..1] == [sorted[0]];
    for n := 1 to |sorted|
      invariant Grouped(rows, tops, sorted[..n], tolerance)
      invariant tops[|rows| - 1] <= sorted[n - 1].top
    {
      var word, last := sorted[n], |rows| - 1;
      assert Of(Top, sorted[n - 1]) <= Of(Top, word);
      assert sorted[..n + 1] == sorted[..n] + [word];
      if Abs(word.top - rows[last][0].top) <= tolerance {
        GroupedJoin(rows, tops, sorted[..n], word, tolerance);
        rows := rows[last := rows[last] + [word]];
      } else {
        GroupedStart(rows, tops, sorted[..n], word, tolerance);
        rows, tops := rows + [[word]], tops + [word.top];
      }
    }
    assert sorted[..|sorted|] == sorted;
  }

  /** Puts each row in order from left to right. */
  method SortRows(grouped: seq<seq<Word>>, ghost words: seq<Word>, ghost tops: seq<int>, tolerance: nat)
    returns (rows: seq<seq<Word>>)
    requires Contain(grouped, words) && RowsAt(grouped, tops, tolerance)
    ensures Contain(rows, words) && RowsAt(rows, tops, tolerance)
    ensures forall i :: 0 <= i < |rows| ==> Sorted(Left, rows[i])
  {
    rows := grouped;
    for n := 0 to |rows|
      invariant |rows| == |grouped|
      invariant Contain(rows, words) && RowsAt(rows, tops, tolerance)
      invariant forall i :: 0 <= i < n ==> Sorted(Left, rows[i])
    {
      var row := SortBy(Left, rows[n]);
      SameStart(rows[n], row, tops[n], tolerance);
      ReplaceRow(rows, tops, n, row, tolerance);
      ReplaceContains(rows, words, n, row);
      rows := rows[n := row];
    }
  }

  method GroupByY(words: seq<Word>, tolerance: nat) returns (rows: seq<seq<Word>>)
    ensures Grouping(words, tolerance, rows)
  {
    if words == [] {
      assert RowsAt([], [], tolerance);
      return [];
    }
    var sorted := SortBy(Top, words);
    ghost var tops;
    rows, tops := CollectRows(sorted, tolerance);
    SameContents(rows, sorted, words);
    rows := SortRows(rows, words, tops, tolerance);
  }

  /** Every row of a grouping fits into a band of the tolerated height. */
  lemma RowsFit(words: seq<Word>, tolerance: nat, rows: seq<seq<Word>>)
    requires Grouping(words, tolerance, rows)
    ensures forall i :: 0 <= i < |rows| ==> rows[i] != [] && Fits(rows[i], tolerance)
  {
    var tops :| RowsAt(rows, tops, tolerance);
    forall i | 0 <= i < |rows|
      ensures rows[i] != [] && Fits(rows[i], tolerance)
    {
      assert StartsAt(rows[i], tops[i], tolerance);
    }
  }

  // ----- no grouping needs fewer rows -----

  /** Distinct indices below n are at most n. */
  lemma {:induction false} Pigeonhole(f: seq<nat>, n: nat)
    requires forall i :: 0 <= i < |f| ==> f[i] < n
    requires forall i, j :: 0 <= i < j < |f| ==> f[i] != f[j]
    ensures |f| <= n
    decreases |f|
  {
    if f != [] {
      var last := f[|f| - 1];
      // the greatest index takes the place of the last one
      var g := seq(|f| - 1, i requires 0 <= i < |f| - 1 => if f[i] == n - 1 then last else f[i]);
      Pigeonhole(g, n - 1);
    }
  }

  predicate InSome(w: Word, bands: seq<seq<Word>>) {
    exists b :: 0 <= b < |bands| && w in bands[b]
  }

  /** Every word lies in some band. */
  predicate Covered(words: seq<Word>, bands: seq<seq<Word>>) {
    forall w :: w in words ==> InSome(w, bands)
  }

  lemma {:induction false} InCount(rows: seq<seq<Word>>, i: nat, w: Word)
    requires i < |rows| && w in rows[i]
    ensures Count(rows, w) > 0
  {
    assert multiset(rows[i])[w] > 0;
    if i < |rows| - 1 {
      assert rows[..|rows| - 1][i] == rows[i];
      InCount(rows[..|rows| - 1], i, w);
    }
  }

  lemma BandOf(words: seq<Word>, rows: seq<seq<Word>>, bands: seq<seq<Word>>, i: nat, top: int) returns (b: nat)
    requires Contain(rows, words) && Covered(words, bands) && i < |rows| && Holds(rows[i], top)
    ensures b < |bands| && Holds(bands[b], top)
  {
    var w :| w in rows[i] && w.top == top;
    InCount(rows, i, w);
    assert multiset(words)[w] > 0;
    assert InSome(w, bands);
    b :| 0 <= b < |bands| && w in bands[b];
  }

  /** For each of the first n rows a band that holds its highest word. */
  lemma {:induction false} BandsOf(words: seq<Word>, tolerance: nat, rows: seq<seq<Word>>, tops: seq<int>,
                                   bands: seq<seq<Word>>, n: nat)
    returns (f: seq<nat>)
    requires Contain(rows, words) && RowsAt(rows, tops, tolerance) && Covered(words, bands) && n <= |rows|
    ensures |f| == n
    ensures forall i :: 0 <= i < n ==> f[i] < |bands| && Holds(bands[f[i]], tops[i])
  {
    if n == 0 {
      f := [];
    } else {
      f := BandsOf(words, tolerance, rows, tops, bands, n - 1);
      assert StartsAt(rows[n - 1], tops[n - 1], tolerance);
      var b := BandOf(words, rows, bands, n - 1, tops[n - 1]);
      f := f + [b];
    }
  }

  /** Optimality: however the words are put into bands no higher than the tolerance, there are at
      least as many bands as the grouping has rows. */
  lemma FewestRows(words: seq<Word>, tolerance: nat, rows: seq<seq<Word>>, bands: seq<seq<Word>>)
    requires Grouping(words, tolerance, rows)
    requires Covered(words, bands) && forall b :: 0 <= b < |bands| ==> Fits(bands[b], tolerance)
    ensures |rows| <= |bands|
  {
    var tops :| RowsAt(rows, tops, tolerance);
    var f := BandsOf(words, tolerance, rows, tops, bands, |rows|);
    forall i, j | 0 <= i < j < |f|
      ensures f[i] != f[j]
    {
      assert Holds(bands[f[i]], tops[i]) && Holds(bands[f[j]], tops[j]);
      var v :| v in bands[f[i]] && v.top == tops[i];
      var w :| w in bands[f[j]] && w.top == tops[j];
      assert w.top - v.top > tolerance;
    }
    Pigeonhole(f, |bands|);
  }
}
