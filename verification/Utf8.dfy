/** UTF-8 (RFC 3629, section 3) of a JavaScript string, lone surrogates replaced, and a strict decoder. */
module Utf8 {
  import opened Options
  import opened Utf16

  type Byte = b: int | 0 <= b < 0x100

  /** A Unicode scalar value. */
  predicate Scalar(c: int) { 0 <= c < 0xD800 || 0xE000 <= c < 0x11_0000 }

  function EncodeOne(c: int): (r: seq<Byte>)
    requires Scalar(c)
    ensures |r| > 0
  {
    if c < 0x80 then [c]
    else if c < 0x800 then [0xC0 + c / 0x40, 0x80 + c % 0x40]
    else if c < 0x1_0000 then [0xE0 + c / 0x1000, 0x80 + c / 0x40 % 0x40, 0x80 + c % 0x40]
    else [0xF0 + c / 0x4_0000, 0x80 + c / 0x1000 % 0x40, 0x80 + c / 0x40 % 0x40, 0x80 + c % 0x40]
  }

  function PairValue(high: Unit, low: Unit): int
    requires IsHigh(high) && IsLow(low)
  {
    0x1_0000 + (high - 0xD800) * 0x400 + (low - 0xDC00)
  }

  function Encode(t: Text): seq<Byte> {
    if |t| == 0 then []
    else if StartsWithPair(t) then EncodeOne(PairValue(t[0], t[1])) + Encode(t[2..])
    else EncodeOne(if IsHigh(t[0]) || IsLow(t[0]) then REPLACEMENT else t[0]) + Encode(t[1..])
  }

  // ---------------------------------------------------------------- decoding

  predicate Continuation(s: seq<Byte>, k: nat) { k < |s| && 0x80 <= s[k] < 0xC0 }

  function Two(a: int, b: int): int { (a - 0xC0) * 0x40 + (b - 0x80) }
  function Three(a: int, b: int, c: int): int { (a - 0xE0) * 0x1000 + (b - 0x80) * 0x40 + (c - 0x80) }
  function Four(a: int, b: int, c: int, d: int): int {
    (a - 0xF0) * 0x4_0000 + (b - 0x80) * 0x1000 + (c - 0x80) * 0x40 + (d - 0x80)
  }

  /** The first scalar value and its length in bytes; neither overlong forms nor surrogates. */
  function DecodeOne(s: seq<Byte>): (r: Option<(int, nat)>)
    ensures r.Some? ==> Scalar(r.value.0) && 0 < r.value.1 <= |s|
  {
    if |s| == 0 then None
    else if s[0] < 0x80 then Some((s[0], 1))
    else if 0xC2 <= s[0] < 0xE0 && Continuation(s, 1) then Some((Two(s[0], s[1]), 2))
    else if 0xE0 <= s[0] < 0xF0 && Continuation(s, 1) && Continuation(s, 2) then
      var c := Three(s[0], s[1], s[2]);
      if c >= 0x800 && Scalar(c) then Some((c, 3)) else None
    else if 0xF0 <= s[0] < 0xF5 && Continuation(s, 1) && Continuation(s, 2) && Continuation(s, 3) then
      var c := Four(s[0], s[1], s[2], s[3]);
      if c >= 0x1_0000 && Scalar(c) then Some((c, 4)) else None
    else None
  }

  function Units(c: int): Text
    requires Scalar(c)
  {
    if c < 0x1_0000 then [c] else [0xD800 + (c - 0x1_0000) / 0x400, 0xDC00 + (c - 0x1_0000) % 0x400]
  }

  function Decode(s: seq<Byte>): Option<Text>
    decreases |s|
  {
    if |s| == 0 then Some([])
    else
      match DecodeOne(s)
      case None => None
      case Some((c, n)) =>
        var rest := Decode(s[n..]);
        if rest.None? then None else Some(Units(c) + rest.value)
  }

  // ---------------------------------------------------------------- round trip

  lemma TwoBytes(c: int)
    requires 0x80 <= c < 0x800
    ensures Two(0xC0 + c / 0x40, 0x80 + c % 0x40) == c && 2 <= c / 0x40 < 0x20
  {
  }

  lemma ThreeBytes(c: int)
    requires 0x800 <= c < 0x1_0000
    ensures Three(0xE0 + c / 0x1000, 0x80 + c / 0x40 % 0x40, 0x80 + c % 0x40) == c && c / 0x1000 < 0x10
  {
    assert c / 0x40 / 0x40 == c / 0x1000;
  }

  lemma FourBytes(c: int)
    requires 0x1_0000 <= c < 0x11_0000
    ensures Four(0xF0 + c / 0x4_0000, 0x80 + c / 0x1000 % 0x40, 0x80 + c / 0x40 % 0x40, 0x80 + c % 0x40) == c
    ensures c / 0x4_0000 < 5
  {
    assert c / 0x40 / 0x40 == c / 0x1000 && c / 0x1000 / 0x40 == c / 0x4_0000;
  }

  lemma DecodesOne(c: int, rest: seq<Byte>)
    requires Scalar(c)
    ensures DecodeOne(EncodeOne(c) + rest) == Some((c, |EncodeOne(c)|))
  {
    var bytes := EncodeOne(c);
    var s := bytes + rest;
    assert forall k :: 0 <= k < |bytes| ==> s[k] == bytes[k];
    if 0x80 <= c < 0x800 {
      TwoBytes(c);
    } else if 0x800 <= c < 0x1_0000 {
      ThreeBytes(c);
    } else if 0x1_0000 <= c {
      FourBytes(c);
    }
  }

  lemma DecodesFirst(c: int, rest: seq<Byte>)
    requires Scalar(c) && Decode(rest).Some?
    ensures Decode(EncodeOne(c) + rest) == Some(Units(c) + Decode(rest).value)
  {
    DecodesOne(c, rest);
    assert (EncodeOne(c) + rest)[|EncodeOne(c)|..] == rest;
  }

  lemma PairUnits(high: Unit, low: Unit)
    requires IsHigh(high) && IsLow(low)
    ensures Scalar(PairValue(high, low)) && Units(PairValue(high, low)) == [high, low]
  {
  }

  /** Decoding gives back the text with its lone surrogates replaced. */
  lemma {:induction false} DecodesEncoded(t: Text)
    ensures Decode(Encode(t)) == Some(WellFormed(t))
    decreases |t|
  {
    if |t| > 0 {
      WellFormedSplits(t);
      DecodesEncoded(t[FirstLength(t)..]);
      if StartsWithPair(t) {
        PairUnits(t[0], t[1]);
        DecodesFirst(PairValue(t[0], t[1]), Encode(t[2..]));
      } else {
        DecodesFirst(if IsHigh(t[0]) || IsLow(t[0]) then REPLACEMENT else t[0], Encode(t[1..]));
      }
    }
  }

  lemma {:induction false} EncodesWellFormed(t: Text)
    ensures Encode(WellFormed(t)) == Encode(t)
    decreases |t|
  {
    if |t| > 0 {
      var n, w := FirstLength(t), WellFormed(t);
      WellFormedSplits(t);
      EncodesWellFormed(t[n..]);
      assert w[..n][0] == w[0] && w[n..] == WellFormed(t[n..]);
      if n == 2 { assert w[..2][1] == w[1]; }
    }
  }

  /** So two texts have the same bytes exactly if they agree once their lone surrogates are replaced. */
  lemma SameBytesIff(a: Text, b: Text)
    ensures Encode(a) == Encode(b) <==> WellFormed(a) == WellFormed(b)
  {
    DecodesEncoded(a);
    DecodesEncoded(b);
    EncodesWellFormed(a);
    EncodesWellFormed(b);
  }
}
