/** Trimming, shared by the text models. */
module Text {

  function TrimStart(strip: set<char>, s: string): (r: string)
    ensures |r| <= |s|
    ensures r != "" ==> r[0] !in strip
  {
    if s != "" && s[0] in strip then TrimStart(strip, s[1..]) else s
  }

  function TrimEnd(strip: set<char>, s: string): (r: string)
    ensures |r| <= |s| && r == s[..|r|]
    ensures r != "" ==> r[|r| - 1] !in strip
  {
    if s != "" && s[|s| - 1] in strip then TrimEnd(strip, s[..|s| - 1]) else s
  }

  /** The text without the longest prefix and suffix of characters in `strip`. */
  function Trim(strip: set<char>, s: string): (r: string)
    ensures r != "" ==> r[0] !in strip && r[|r| - 1] !in strip
  {
    TrimEnd(strip, TrimStart(strip, s))
  }

  lemma PlainTrim(strip: set<char>, s: string)
    requires s != "" && s[0] !in strip && s[|s| - 1] !in strip
    ensures Trim(strip, s) == s
  {
  }

  predicate AllIn(strip: set<char>, s: string) {
    forall i | 0 <= i < |s| :: s[i] in strip
  }

  /** The text is trimmed already. */
  predicate IsTrimmed(strip: set<char>, s: string) {
    s != "" ==> s[0] !in strip && s[|s| - 1] !in strip
  }

  lemma {:induction false} TrimStartIs(strip: set<char>, before: string, s: string)
    requires AllIn(strip, before) && (s != "" ==> s[0] !in strip)
    ensures TrimStart(strip, before + s) == s
  {
    if before != "" {
      assert (before + s)[1..] == before[1..] + s;
      TrimStartIs(strip, before[1..], s);
    } else {
      assert before + s == s;
    }
  }

  lemma {:induction false} TrimEndIs(strip: set<char>, s: string, after: string)
    requires AllIn(strip, after) && (s != "" ==> s[|s| - 1] !in strip)
    ensures TrimEnd(strip, s + after) == s
  {
    if after != "" {
      var n := |after| - 1;
      assert (s + after)[..|s| + n] == s + after[..n];
      TrimEndIs(strip, s, after[..n]);
    } else {
      assert s + after == s;
    }
  }

  /** Trimming takes away exactly the padding. */
  lemma TrimIs(strip: set<char>, before: string, s: string, after: string)
    requires AllIn(strip, before) && AllIn(strip, after) && IsTrimmed(strip, s)
    ensures Trim(strip, before + s + after) == s
  {
    assert before + s + after == before + (s + after);
    if s == "" {
      AllTrimmed(strip, before + after);
      assert before + s + after == before + after;
    } else {
      TrimStartIs(strip, before, s + after);
      TrimEndIs(strip, s, after);
    }
  }

  lemma {:induction false} AllTrimmed(strip: set<char>, s: string)
    requires AllIn(strip, s)
    ensures Trim(strip, s) == ""
  {
    TrimStartIs(strip, s, "");
    assert s + "" == s;
  }
}
