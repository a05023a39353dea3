/** The string helpers the components share: trimming as Go and Python do it, and address normalisation. */
module Text {
  // unicode.IsSpace.
  predicate IsGoSpace(c: char) {
    || '\t' <= c <= '\r' || c == ' ' || c == '\U{85}' || c == '\U{A0}' || c == '\U{1680}'
    || '\U{2000}' <= c <= '\U{200A}' || c == '\U{2028}' || c == '\U{2029}'
    || c == '\U{202F}' || c == '\U{205F}' || c == '\U{3000}'
  }

  // str.isspace, which also holds of the four information separators.
  predicate IsPySpace(c: char) {
    IsGoSpace(c) || '\U{1C}' <= c <= '\U{1F}'
  }

  function TrimLeft(s: string, space: char -> bool): string {
    if s != [] && space(s[0]) then TrimLeft(s[1..], space) else s
  }

  function TrimRight(s: string, space: char -> bool): string {
    if s != [] && space(s[|s| - 1]) then TrimRight(s[..|s| - 1], space) else s
  }

  function Trim(s: string, space: char -> bool): string {
    TrimRight(TrimLeft(s, space), space)
  }

  predicate Blank(s: string, space: char -> bool) {
    forall i :: 0 <= i < |s| ==> space(s[i])
  }

  // Nothing to trim at either end.
  predicate Trimmed(s: string, space: char -> bool) {
    s != [] ==> !space(s[0]) && !space(s[|s| - 1])
  }

  lemma {:induction false} TrimLeftSlice(s: string, space: char -> bool) returns (k: nat)
    ensures k <= |s| && TrimLeft(s, space) == s[k..] && Blank(s[..k], space)
    ensures k < |s| ==> !space(s[k]) && !Blank(s[k..], space)
  {
    if s != [] && space(s[0]) {
      var j := TrimLeftSlice(s[1..], space);
      k := j + 1;
      assert s[1..][j..] == s[k..];
      assert s[..k] == [s[0]] + s[1..][..j];
    } else {
      k := 0;
    }
    assert k < |s| ==> s[k..][0] == s[k];
  }

  lemma {:induction false} TrimRightSlice(s: string, space: char -> bool) returns (k: nat)
    ensures k <= |s| && TrimRight(s, space) == s[..k] && Blank(s[k..], space)
    ensures if k > 0 then !space(s[k - 1]) else Blank(s, space)
  {
    if s != [] && space(s[|s| - 1]) {
      var front := s[..|s| - 1];
      k := TrimRightSlice(front, space);
      assert front[..k] == s[..k];
      assert s[k..] == front[k..] + [s[|s| - 1]];
    } else {
      k := |s|;
    }
  }

  /** Trimming takes out spaces only, and leaves nothing to trim; it empties exactly the blank strings. */
  lemma TrimCuts(s: string, space: char -> bool) returns (i: nat, j: nat)
    ensures i <= j <= |s| && Trim(s, space) == s[i..j] && Blank(s[..i], space) && Blank(s[j..], space)
    ensures Trimmed(Trim(s, space), space)
    ensures Trim(s, space) == [] <==> Blank(s, space)
  {
    i := TrimLeftSlice(s, space);
    var k := TrimRightSlice(s[i..], space);
    j := i + k;
    assert s[i..][..k] == s[i..j];
    assert s[i..][k..] == s[j..];
    if k > 0 {
      assert s[i..][0] == s[i] && s[i..][k - 1] == s[j - 1];
    } else {
      assert i == |s| && s[..i] == s;
    }
  }

  function LowerChar(c: char): char {
    if 'A' <= c <= 'Z' then c - 'A' + 'a' else c
  }

  // strings.ToLower on the letters an address has.
  function Lower(s: string): (r: string)
    ensures |r| == |s| && forall i :: 0 <= i < |s| ==> r[i] == LowerChar(s[i])
  {
    if s == [] then [] else [LowerChar(s[0])] + Lower(s[1..])
  }

  // `normalize` in the session and the agent, `lc` in the store.
  function Normalize(s: string): string {
    Lower(Trim(s, IsGoSpace))
  }

  lemma {:induction false} TrimOfTrimmed(s: string, space: char -> bool)
    requires Trimmed(s, space)
    ensures Trim(s, space) == s
  {
    assert TrimLeft(s, space) == s;
  }

  lemma LowerKeepsSpaces(c: char)
    ensures IsGoSpace(LowerChar(c)) <==> IsGoSpace(c)
  {
  }

  lemma LowerStaysTrimmed(t: string)
    requires Trimmed(t, IsGoSpace)
    ensures Trimmed(Lower(t), IsGoSpace)
  {
    if t != [] {
      LowerKeepsSpaces(t[0]);
      LowerKeepsSpaces(t[|t| - 1]);
    }
  }

  lemma LowerTwice(t: string)
    ensures Lower(Lower(t)) == Lower(t)
  {
    var r := Lower(t);
    forall i | 0 <= i < |t|
      ensures LowerChar(r[i]) == r[i]
    {
      assert r[i] == LowerChar(t[i]);
    }
  }

  // The same character, or the same letter in the other case.
  predicate SameLetter(c: char, d: char) {
    || c == d
    || ('A' <= c <= 'Z' && d as int == c as int + 32)
    || ('A' <= d <= 'Z' && c as int == d as int + 32)
  }

  predicate SameText(s: string, t: string) {
    |s| == |t| && forall i :: 0 <= i < |s| ==> SameLetter(s[i], t[i])
  }

  lemma LowerCode(c: char)
    ensures LowerChar(c) as int == if 'A' <= c <= 'Z' then c as int + 32 else c as int
  {
  }

  lemma LowerCharIdentifies(c: char, d: char)
    ensures LowerChar(c) == LowerChar(d) <==> SameLetter(c, d)
    ensures SameLetter(LowerChar(c), c) && !('A' <= LowerChar(c) <= 'Z')
  {
    LowerCode(c);
    LowerCode(d);
    assert LowerChar(c) == LowerChar(d) <==> LowerChar(c) as int == LowerChar(d) as int;
  }

  /** What lower-casing is for: it identifies exactly the texts that differ in the case of letters, and leaves
      no capital. */
  lemma LowerIdentifies(s: string, t: string)
    ensures Lower(s) == Lower(t) <==> SameText(s, t)
    ensures SameText(Lower(s), s) && forall i :: 0 <= i < |s| ==> !('A' <= Lower(s)[i] <= 'Z')
  {
    forall i | 0 <= i < |s|
      ensures SameLetter(Lower(s)[i], s[i]) && !('A' <= Lower(s)[i] <= 'Z')
      ensures i < |t| ==> (Lower(s)[i] == Lower(t)[i] <==> SameLetter(s[i], t[i]))
    {
      LowerCharIdentifies(s[i], if i < |t| then t[i] else s[i]);
    }
  }

  /** So two addresses are the same exactly if they are the same text but for case and outer spaces. */
  lemma NormalizeIdentifies(s: string, t: string)
    ensures Normalize(s) == Normalize(t) <==> SameText(Trim(s, IsGoSpace), Trim(t, IsGoSpace))
  {
    LowerIdentifies(Trim(s, IsGoSpace), Trim(t, IsGoSpace));
  }

  /** The code points that are spaces: those Unicode calls white space, and for Python the four information
      separators too. */
  lemma SpaceTable(c: char)
    ensures var n := c as int;
      && (IsGoSpace(c) <==> n in {9, 10, 11, 12, 13, 32, 133, 160, 5760, 8192, 8193, 8194, 8195, 8196, 8197, 8198,
        8199, 8200, 8201, 8202, 8232, 8233, 8239, 8287, 12288})
      && (IsPySpace(c) <==> IsGoSpace(c) || n in {28, 29, 30, 31})
  {
  }

  /** The layers may each normalise: once is enough. */
  lemma NormalizeTwice(s: string)
    ensures Normalize(Normalize(s)) == Normalize(s)
  {
    var i, j := TrimCuts(s, IsGoSpace);
    LowerStaysTrimmed(Trim(s, IsGoSpace));
    TrimOfTrimmed(Normalize(s), IsGoSpace);
    LowerTwice(Trim(s, IsGoSpace));
  }
}
