/** Trimming, with the caller's idea of white space. */
module Strings {
  function TrimStart(s: string, space: char -> bool): (r: string)
    ensures |r| <= |s|
  {
    if |s| > 0 && space(s[0]) then TrimStart(s[1..], space) else s
  }

  function TrimEnd(s: string, space: char -> bool): (r: string)
    ensures |r| <= |s|
  {
    if |s| > 0 && space(s[|s| - 1]) then TrimEnd(s[..|s| - 1], space) else s
  }

  function Trim(s: string, space: char -> bool): string { TrimEnd(TrimStart(s, space), space) }

  predicate All(s: string, space: char -> bool) { forall i :: 0 <= i < |s| ==> space(s[i]) }

  /** White space at neither end. */
  predicate Trimmed(s: string, space: char -> bool) { |s| > 0 ==> !space(s[0]) && !space(s[|s| - 1]) }

  lemma {:induction false} TrimStartCuts(s: string, space: char -> bool)
    ensures var t := TrimStart(s, space); var k := |s| - |t|;
            s[k..] == t && All(s[..k], space) && (|t| > 0 ==> !space(t[0]))
  {
    if |s| > 0 && space(s[0]) {
      TrimStartCuts(s[1..], space);
      var k := |s| - |TrimStart(s[1..], space)|;
      assert s[..k] == [s[0]] + s[1..][..k - 1] && s[k..] == s[1..][k - 1..];
    }
  }

  lemma {:induction false} TrimEndCuts(s: string, space: char -> bool)
    ensures var t := TrimEnd(s, space); s[..|t|] == t && All(s[|t|..], space) && (|t| > 0 ==> !space(t[|t| - 1]))
  {
    if |s| > 0 && space(s[|s| - 1]) {
      var init := s[..|s| - 1];
      TrimEndCuts(init, space);
      var n := |TrimEnd(init, space)|;
      assert s[..n] == init[..n] && s[n..] == init[n..] + [s[|s| - 1]];
    }
  }

  /** Trimming cuts white space off both ends, all of it, and nothing else. */
  lemma TrimCuts(s: string, space: char -> bool) returns (before: string, after: string)
    ensures s == before + Trim(s, space) + after
    ensures All(before, space) && All(after, space) && Trimmed(Trim(s, space), space)
  {
    var t := TrimStart(s, space);
    TrimStartCuts(s, space);
    TrimEndCuts(t, space);
    before, after := s[..|s| - |t|], t[|Trim(s, space)|..];
    assert s == before + t && t == Trim(s, space) + after;
  }
}
