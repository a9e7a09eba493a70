/** JavaScript strings: sequences of UTF-16 code units, surrogates paired or not. */
module Utf16 {
  type Unit = u: int | 0 <= u < 0x1_0000
  type Text = seq<Unit>

  const REPLACEMENT: Unit := 0xFFFD

  function Ascii(s: string): Text {
    seq(|s|, i requires 0 <= i < |s| => s[i] as int % 0x80)
  }

  predicate IsHigh(u: Unit) { 0xD800 <= u < 0xDC00 }
  predicate IsLow(u: Unit) { 0xDC00 <= u < 0xE000 }

  predicate StartsWithPair(t: Text) { |t| >= 2 && IsHigh(t[0]) && IsLow(t[1]) }

  /** A surrogate without its other half beside it. */
  predicate Lone(t: Text, k: nat)
    requires k < |t|
  {
    (IsHigh(t[k]) && !(k + 1 < |t| && IsLow(t[k + 1]))) || (IsLow(t[k]) && !(k > 0 && IsHigh(t[k - 1])))
  }

  /** The text with every lone surrogate replaced. */
  function WellFormed(t: Text): (r: Text)
    ensures |r| == |t| && forall k :: 0 <= k < |t| ==> r[k] == if Lone(t, k) then REPLACEMENT else t[k]
  {
    seq(|t|, k requires 0 <= k < |t| => if Lone(t, k) then REPLACEMENT else t[k])
  }

  /** No pair is made where the two parts meet. */
  predicate MeetCleanly(a: Text, b: Text) { |a| == 0 || |b| == 0 || !(IsHigh(a[|a| - 1]) && IsLow(b[0])) }

  lemma LoneInEither(a: Text, b: Text, k: nat)
    requires MeetCleanly(a, b) && k < |a| + |b|
    ensures Lone(a + b, k) <==> if k < |a| then Lone(a, k) else Lone(b, k - |a|)
  {
  }

  lemma WellFormedJoins(a: Text, b: Text)
    requires MeetCleanly(a, b)
    ensures WellFormed(a + b) == WellFormed(a) + WellFormed(b)
  {
    forall k | 0 <= k < |a| + |b|
      ensures WellFormed(a + b)[k] == (WellFormed(a) + WellFormed(b))[k]
    {
      LoneInEither(a, b, k);
    }
  }

  /** The first scalar value of a text is two units long if it is a pair, and one otherwise. */
  function FirstLength(t: Text): (n: nat)
    requires |t| > 0
    ensures 1 <= n <= 2 && n <= |t|
  {
    if StartsWithPair(t) then 2 else 1
  }

  lemma WellFormedSplits(t: Text)
    requires |t| > 0
    ensures var n := FirstLength(t);
            && WellFormed(t) == WellFormed(t)[..n] + WellFormed(t[n..])
            && WellFormed(t)[..n] == (if n == 2 then [t[0], t[1]]
                                      else [if IsHigh(t[0]) || IsLow(t[0]) then REPLACEMENT else t[0]])
  {
    var n := FirstLength(t);
    assert t == t[..n] + t[n..];
    WellFormedJoins(t[..n], t[n..]);
    assert WellFormed(t)[..n] == WellFormed(t[..n]);
  }
}
