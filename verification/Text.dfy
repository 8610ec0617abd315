/** Trimming of text, as Python's str.strip does it. */
module Text {

  /** The characters Python counts as white space. */
  predicate IsSpace(c: char) {
    var n := c as int;
    || 0x09 <= n <= 0x0D || 0x1C <= n <= 0x20 || n == 0x85 || n == 0xA0
    || n == 0x1680 || 0x2000 <= n <= 0x200A || n == 0x2028 || n == 0x2029
    || n == 0x202F || n == 0x205F || n == 0x3000
  }

  function StripLeft(s: string): (r: string)
    ensures |r| <= |s|
    ensures r != [] ==> !IsSpace(r[0])
  {
    if s != [] && IsSpace(s[0]) then StripLeft(s[1..]) else s
  }

  function StripRight(s: string): (r: string)
    ensures r <= s
    ensures r != [] ==> !IsSpace(r[|r| - 1])
  {
    if s != [] && IsSpace(s[|s| - 1]) then StripRight(s[..|s| - 1]) else s
  }

  function Strip(s: string): string {
    StripRight(StripLeft(s))
  }

  predicate IsBlank(s: string) {
    Strip(s) == []
  }

  /** A string that starts with a visible character is not blank. */
  lemma VisibleNotBlank(s: string)
    requires s != [] && !IsSpace(s[0])
    ensures !IsBlank(s)
  {
    StripRightKeeps(s);
  }

  lemma {:induction false} StripRightKeeps(s: string)
    requires s != [] && !IsSpace(s[0])
    ensures StripRight(s) != []
  {
    if IsSpace(s[|s| - 1]) {
      StripRightKeeps(s[..|s| - 1]);
    }
  }

  /** Trimming twice is trimming once. */
  lemma StripIdempotent(s: string)
    ensures Strip(Strip(s)) == Strip(s)
  {
    var l := StripLeft(s);
    if Strip(s) != [] {
      assert Strip(s)[0] == l[0];
    }
  }

  lemma {:induction false} StripLeftBlank(s: string)
    ensures StripLeft(s) == [] <==> forall k :: 0 <= k < |s| ==> IsSpace(s[k])
  {
    if s != [] {
      StripLeftBlank(s[1..]);
      assert forall k :: 1 <= k < |s| ==> s[k] == s[1..][k - 1];
    }
  }

  /** A text is blank exactly when it is all white space. */
  lemma BlankExactly(s: string)
    ensures IsBlank(s) <==> forall k :: 0 <= k < |s| ==> IsSpace(s[k])
  {
    StripLeftBlank(s);
    if StripLeft(s) != [] {
      StripRightKeeps(StripLeft(s));
    }
  }

  predicate AllSpace(s: string) {
    forall k :: 0 <= k < |s| ==> IsSpace(s[k])
  }

  lemma {:induction false} LeftCut(s: string)
    ensures StripLeft(s) == s[|s| - |StripLeft(s)|..] && AllSpace(s[..|s| - |StripLeft(s)|])
  {
    if s != [] && IsSpace(s[0]) {
      var n := |s| - |StripLeft(s)|;
      LeftCut(s[1..]);
      assert s[..n] == [s[0]] + s[1..][..n - 1] && s[1..][n - 1..] == s[n..];
    }
  }

  lemma {:induction false} RightCut(s: string)
    ensures AllSpace(s[|StripRight(s)|..])
  {
    if s != [] && IsSpace(s[|s| - 1]) {
      var n := |StripRight(s)|;
      RightCut(s[..|s| - 1]);
      assert s[n..] == s[..|s| - 1][n..] + [s[|s| - 1]];
    }
  }

  /** Trimming takes away white space at the two ends, all of it and nothing else. */
  lemma StripExactly(s: string)
    ensures exists i, j :: 0 <= i <= j <= |s| && Strip(s) == s[i..j] && AllSpace(s[..i]) && AllSpace(s[j..])
    ensures Strip(s) != [] ==> !IsSpace(Strip(s)[0]) && !IsSpace(Strip(s)[|Strip(s)| - 1])
  {
    var l := StripLeft(s);
    var i := |s| - |l|;
    var j := i + |Strip(s)|;
    LeftCut(s);
    RightCut(l);
    assert l[|Strip(s)|..] == s[j..] && s[i..j] == l[..|Strip(s)|];
  }
}
