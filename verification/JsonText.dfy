/** A reader for JSON texts (RFC 8259) without white space, and what it finds in a canonical text. */
module JsonText {
  import opened CanonicalJson
  import opened Options
  import opened Utf16

  /** A value, or a part of one, read from position 0, and what is left. */
  datatype Read<T> = NoRead | Got(value: T, rest: Text)

  // ---------------------------------------------------------------- strings

  function HexValue(u: Unit): Option<int> {
    if IsDigit(u) then Some(u - 48) else if 97 <= u <= 102 then Some(u - 87)
    else if 65 <= u <= 70 then Some(u - 55) else None
  }

  /** Four hexadecimal digits. */
  function FourHex(s: Text): (r: Option<Unit>)
    requires |s| >= 4
  {
    var a, b, c, d := HexValue(s[0]), HexValue(s[1]), HexValue(s[2]), HexValue(s[3]);
    if a.None? || b.None? || c.None? || d.None? then None
    else
      var n := ((a.value * 16 + b.value) * 16 + c.value) * 16 + d.value;
      if 0 <= n < 0x1_0000 then Some(n) else None
  }

  /** What a backslash and one more character stand for. */
  function ShortEscape(u: Unit): Option<Unit> {
    if u == '"' as int || u == '\\' as int || u == '/' as int then Some(u)
    else if u == 'b' as int then Some(8)
    else if u == 'f' as int then Some(12)
    else if u == 'n' as int then Some(10)
    else if u == 'r' as int then Some(13)
    else if u == 't' as int then Some(9)
    else None
  }

  function Prepend(u: Unit, r: Read<Text>): Read<Text> { if r.Got? then Got([u] + r.value, r.rest) else NoRead }

  /** The characters of a string after its opening quote. */
  function ReadString(s: Text): (r: Read<Text>)
    ensures r.Got? ==> |r.rest| < |s|
    decreases |s|
  {
    if |s| == 0 || s[0] < 0x20 then NoRead
    else if s[0] == QUOTE then Got([], s[1..])
    else if s[0] != BACKSLASH then Prepend(s[0], ReadString(s[1..]))
    else if |s| >= 6 && s[1] == 'u' as int then
      var u := FourHex(s[2..]);
      if u.None? then NoRead else Prepend(u.value, ReadString(s[6..]))
    else if |s| >= 2 && ShortEscape(s[1]).Some? then Prepend(ShortEscape(s[1]).value, ReadString(s[2..]))
    else NoRead
  }

  // ---------------------------------------------------------------- values

  function ReadNumber(s: Text): (r: (Text, Text))
    ensures s == r.0 + r.1 && Stops(r.1)
  {
    if |s| == 0 || !IsNumberUnit(s[0]) then ([], s)
    else
      var (literal, rest) := ReadNumber(s[1..]);
      ([s[0]] + literal, rest)
  }

  function ReadWord(s: Text, word: Text, v: Json): (r: Read<Json>)
    requires |word| > 0
    ensures r.Got? ==> |r.rest| < |s|
  {
    if word <= s then Got(v, s[|word|..]) else NoRead
  }

  function ReadValue(s: Text): (r: Read<Json>)
    ensures r.Got? ==> |r.rest| < |s|
    decreases |s|, 0
  {
    if |s| == 0 then NoRead
    else if s[0] == '"' as int then
      match ReadString(s[1..])
      case NoRead => NoRead
      case Got(text, rest) => Got(JString(text), rest)
    else if s[0] == '[' as int then
      if |s| > 1 && s[1] == ']' as int then Got(JArray([]), s[2..])
      else
        match ReadItems(s[1..])
        case NoRead => NoRead
        case Got(items, rest) => Got(JArray(items), rest)
    else if s[0] == '{' as int then
      if |s| > 1 && s[1] == '}' as int then Got(JObject([]), s[2..])
      else
        match ReadMembers(s[1..])
        case NoRead => NoRead
        case Got(ms, rest) => Got(JObject(ms), rest)
    else if s[0] == 'n' as int then ReadWord(s, Ascii("null"), JNull)
    else if s[0] == 't' as int then ReadWord(s, Ascii("true"), JBool(true))
    else if s[0] == 'f' as int then ReadWord(s, Ascii("false"), JBool(false))
    else
      var (literal, rest) := ReadNumber(s);
      if |literal| > 0 && (IsDigit(literal[0]) || literal[0] == '-' as int) then Got(JNumber(literal), rest) else NoRead
  }

  /** The items of an array up to its closing bracket; there is at least one. */
  function ReadItems(s: Text): (r: Read<seq<Json>>)
    ensures r.Got? ==> |r.rest| < |s|
    decreases |s|, 1
  {
    match ReadValue(s)
    case NoRead => NoRead
    case Got(v, rest) =>
      if |rest| > 0 && rest[0] == ']' as int then Got([v], rest[1..])
      else if |rest| > 0 && rest[0] == ',' as int then
        match ReadItems(rest[1..])
        case NoRead => NoRead
        case Got(more, after) => Got([v] + more, after)
      else NoRead
  }

  /** A key and its value. */
  function ReadMember(s: Text): (r: Read<Member>)
    ensures r.Got? ==> |r.rest| < |s|
    decreases |s|, 1
  {
    if |s| == 0 || s[0] != '"' as int then NoRead
    else
      match ReadString(s[1..])
      case NoRead => NoRead
      case Got(key, rest) =>
        if |rest| == 0 || rest[0] != ':' as int then NoRead
        else
          match ReadValue(rest[1..])
          case NoRead => NoRead
          case Got(v, after) => Got(Member(key, v), after)
  }

  function ReadMembers(s: Text): (r: Read<seq<Member>>)
    ensures r.Got? ==> |r.rest| < |s|
    decreases |s|, 2
  {
    match ReadMember(s)
    case NoRead => NoRead
    case Got(m, rest) =>
      if |rest| > 0 && rest[0] == '}' as int then Got([m], rest[1..])
      else if |rest| > 0 && rest[0] == ',' as int then
        match ReadMembers(rest[1..])
        case NoRead => NoRead
        case Got(more, after) => Got([m] + more, after)
      else NoRead
  }

  // ---------------------------------------------------------------- a rendered text reads back

  lemma HexReads(d: int)
    requires 0 <= d < 16
    ensures HexValue(Hex(d)) == Some(d)
  {
  }

  lemma FourHexReads(u: Unit, rest: Text)
    ensures FourHex([Hex(u / 0x10 / 0x10 / 0x10), Hex(u / 0x10 / 0x10 % 0x10), Hex(u / 0x10 % 0x10), Hex(u % 0x10)]
                    + rest) == Some(u)
  {
    HexReads(u / 0x10 / 0x10 / 0x10);
    HexReads(u / 0x10 / 0x10 % 0x10);
    HexReads(u / 0x10 % 0x10);
    HexReads(u % 0x10);
  }

  lemma UnitReads(u: Unit, rest: Text)
    ensures ReadString(EscapeUnit(u) + rest) == Prepend(u, ReadString(rest))
  {
    var s, e := EscapeUnit(u) + rest, EscapeUnit(u);
    assert s[|e|..] == rest && forall k :: 0 <= k < |e| ==> s[k] == e[k];
    if |e| == 6 {
      assert s[2..] == e[2..] + rest;
      FourHexReads(u, rest);
      assert e[2..] == [Hex(u / 0x10 / 0x10 / 0x10), Hex(u / 0x10 / 0x10 % 0x10), Hex(u / 0x10 % 0x10), Hex(u % 0x10)];
    }
  }

  lemma {:induction false} StringReads(t: Text, rest: Text)
    ensures ReadString(Escape(t, [QUOTE] + rest)) == Got(t, rest)
    decreases |t|
  {
    if |t| == 0 {
      assert ([QUOTE] + rest)[1..] == rest;
    } else if StartsWithPair(t) {
      var more := Escape(t[2..], [QUOTE] + rest);
      StringReads(t[2..], rest);
      assert ([t[1]] + more)[1..] == more && ([t[0]] + ([t[1]] + more))[1..] == [t[1]] + more;
      assert t == [t[0]] + ([t[1]] + t[2..]);
    } else {
      StringReads(t[1..], rest);
      UnitReads(t[0], Escape(t[1..], [QUOTE] + rest));
      assert t == [t[0]] + t[1..];
    }
  }

  lemma {:induction false} NumberReads(literal: Text, rest: Text)
    requires Stops(rest) && forall i :: 0 <= i < |literal| ==> IsNumberUnit(literal[i])
    ensures ReadNumber(literal + rest) == (literal, rest)
  {
    var s := literal + rest;
    if |literal| == 0 {
      assert s == rest;
    } else {
      NumberReads(literal[1..], rest);
      assert s[0] == literal[0] && s[1..] == literal[1..] + rest && literal == [literal[0]] + literal[1..];
    }
  }

  lemma QuotedReads(t: Text, rest: Text)
    ensures Quoted(t, rest)[0] == '"' as int && ReadString(Quoted(t, rest)[1..]) == Got(t, rest)
  {
    StringReads(t, rest);
    assert Quoted(t, rest)[1..] == Escape(t, [QUOTE] + rest);
  }

  lemma WordReads(word: Text, rest: Text, v: Json)
    requires |word| > 0
    ensures ReadWord(word + rest, word, v) == Got(v, rest)
  {
    assert (word + rest)[|word|..] == rest;
  }

  lemma WordsRead(rest: Text)
    ensures ReadValue(Render(JNull, rest)) == Got(JNull, rest)
    ensures ReadValue(Render(JBool(true), rest)) == Got(JBool(true), rest)
    ensures ReadValue(Render(JBool(false), rest)) == Got(JBool(false), rest)
  {
    WordReads(Ascii("null"), rest, JNull);
    WordReads(Ascii("true"), rest, JBool(true));
    WordReads(Ascii("false"), rest, JBool(false));
    assert Ascii("null") == [110, 117, 108, 108] && Ascii("true") == [116, 114, 117, 101];
    assert Ascii("false") == [102, 97, 108, 115, 101];
  }

  lemma ArrayReads(items: seq<Json>, rest: Text)
    requires forall i :: 0 <= i < |items| ==> Accepted(items[i])
    requires |items| > 0 ==> ReadItems(RenderItems(items, [93] + rest)) == Got(items, rest)
    ensures ReadValue(Render(JArray(items), rest)) == Got(JArray(items), rest)
  {
    var inner := RenderItems(items, [93] + rest);
    assert ([91] + inner)[1..] == inner;
    if |items| == 0 {
      assert ([91] + inner)[2..] == rest;
    } else {
      RenderFirst(items[0], if |items| == 1 then [93] + rest else [COMMA] + RenderItems(items[1..], [93] + rest));
    }
  }

  lemma OpensObject(inner: Text, ms: seq<Member>, rest: Text)
    requires |inner| > 0 && inner[0] == QUOTE && ReadMembers(inner) == Got(ms, rest)
    ensures ReadValue([123] + inner) == Got(JObject(ms), rest)
  {
    assert ([123] + inner)[1..] == inner;
  }

  lemma EmptyObject(rest: Text)
    ensures ReadValue([123] + ([125] + rest)) == Got(JObject([]), rest)
  {
    assert ([123] + ([125] + rest))[2..] == rest;
  }

  lemma ObjectReads(ms: seq<Member>, rest: Text)
    requires |ms| > 0 ==> ReadMembers(RenderMembers(ms, [125] + rest)) == Got(ms, rest)
    ensures ReadValue(Render(JObject(ms), rest)) == Got(JObject(ms), rest)
  {
    if |ms| == 0 {
      EmptyObject(rest);
    } else {
      MembersFirst(ms, [125] + rest);
      OpensObject(RenderMembers(ms, [125] + rest), ms, rest);
    }
  }

  lemma LiteralReads(literal: Text, rest: Text)
    requires IsNumberLiteral(literal) && Stops(rest)
    ensures ReadValue(literal + rest) == Got(JNumber(literal), rest)
  {
    NumberReads(literal, rest);
    assert (literal + rest)[0] == literal[0];
  }

  /** A rendered value, followed by anything that ends a number, reads back. */
  lemma {:induction false} RenderedReads(v: Json, rest: Text)
    requires Accepted(v) && Stops(rest)
    ensures ReadValue(Render(v, rest)) == Got(v, rest)
    decreases v, 0
  {
    match v
    case JNumber(literal) => LiteralReads(literal, rest);
    case JString(text) => QuotedReads(text, rest);
    case JArray(items) =>
      if |items| > 0 { ItemsRead(items, rest); }
      ArrayReads(items, rest);
    case JObject(ms) =>
      if |ms| > 0 { MembersRead(ms, rest); }
      ObjectReads(ms, rest);
    case _ => WordsRead(rest);
  }

  lemma {:induction false} ItemsRead(items: seq<Json>, rest: Text)
    requires |items| > 0 && forall i :: 0 <= i < |items| ==> Accepted(items[i])
    ensures ReadItems(RenderItems(items, [93] + rest)) == Got(items, rest)
    decreases items, 0
  {
    var end := [93] + rest;
    if |items| == 1 {
      RenderedReads(items[0], end);
      assert end[1..] == rest && items == [items[0]];
    } else {
      var more := RenderItems(items[1..], end);
      ItemsRead(items[1..], rest);
      RenderedReads(items[0], [COMMA] + more);
      assert ([COMMA] + more)[1..] == more && items == [items[0]] + items[1..];
    }
  }

  lemma MemberReads(m: Member, tail: Text)
    requires ReadValue(Render(m.value, tail)) == Got(m.value, tail)
    ensures ReadMember(Quoted(m.key, [COLON] + Render(m.value, tail))) == Got(m, tail)
  {
    var text := Render(m.value, tail);
    QuotedReads(m.key, [COLON] + text);
    assert ([COLON] + text)[1..] == text;
  }

  lemma LastMemberReads(s: Text, m: Member, rest: Text)
    requires ReadMember(s) == Got(m, [125] + rest)
    ensures ReadMembers(s) == Got([m], rest)
  {
    assert ([125] + rest)[1..] == rest;
  }

  lemma MoreMembersRead(s: Text, m: Member, more: Text, ms: seq<Member>, rest: Text)
    requires ReadMember(s) == Got(m, [COMMA] + more) && ReadMembers(more) == Got(ms, rest)
    ensures ReadMembers(s) == Got([m] + ms, rest)
  {
    assert ([COMMA] + more)[1..] == more;
  }

  lemma {:induction false} MembersRead(ms: seq<Member>, rest: Text)
    requires |ms| > 0 && forall i :: 0 <= i < |ms| ==> Accepted(ms[i].value)
    ensures ReadMembers(RenderMembers(ms, [125] + rest)) == Got(ms, rest)
    decreases ms, 0
  {
    var end := [125] + rest;
    if |ms| == 1 {
      RenderedReads(ms[0].value, end);
      MemberReads(ms[0], end);
      LastMemberReads(RenderMembers(ms, end), ms[0], rest);
      assert ms == [ms[0]];
    } else {
      var more := RenderMembers(ms[1..], end);
      MembersRead(ms[1..], rest);
      RenderedReads(ms[0].value, [COMMA] + more);
      MemberReads(ms[0], [COMMA] + more);
      MoreMembersRead(RenderMembers(ms, end), ms[0], more, ms[1..], rest);
      assert ms == [ms[0]] + ms[1..];
    }
  }

  /** A string escapes exactly what it must, in the shortest form, with lower-case digits. */
  lemma EscapesTheLeast(u: Unit)
    ensures EscapeUnit(u) == [u] <==> u >= 0x20 && u != '"' as int && u != '\\' as int && !IsHigh(u) && !IsLow(u)
    ensures |EscapeUnit(u)| == 2 <==> u in {'"' as int, '\\' as int, 8, 9, 10, 12, 13}
    ensures |EscapeUnit(u)| in {1, 2, 6} && forall k :: 2 <= k < |EscapeUnit(u)| ==> !(65 <= EscapeUnit(u)[k] <= 90)
  {
  }

  // ---------------------------------------------------------------- the order of keys

  /** The number a digit text stands for. */
  function Number(t: Text): nat
    requires forall i :: 0 <= i < |t| ==> IsDigit(t[i])
  {
    if |t| == 0 then 0
    else
      assert IsDigit(t[|t| - 1]);
      10 * Number(t[..|t| - 1]) + (t[|t| - 1] as int - 48)
  }

  function PowerOfTen(n: nat): (r: nat)
    ensures r > 0
  {
    if n == 0 then 1 else 10 * PowerOfTen(n - 1)
  }

  lemma {:induction false} PowerOfTenGrows(m: nat, n: nat)
    requires m <= n
    ensures PowerOfTen(m) <= PowerOfTen(n)
    decreases n
  {
    if m < n { PowerOfTenGrows(m, n - 1); }
  }

  /** A digit text without leading zeros has as many digits as its number. */
  lemma {:induction false} NumberBounds(t: Text)
    requires |t| > 0 && forall i :: 0 <= i < |t| ==> IsDigit(t[i])
    ensures Number(t) < PowerOfTen(|t|)
    ensures t[0] != 48 ==> Number(t) >= PowerOfTen(|t| - 1)
    decreases |t|
  {
    if |t| == 1 {
      assert Number(t[..0]) == 0 && PowerOfTen(1) == 10;
    } else {
      NumberBounds(t[..|t| - 1]);
    }
  }

  lemma {:induction false} KeyLessInit(a: Text, b: Text)
    requires |a| == |b| > 0
    ensures var n := |a| - 1; KeyLess(a, b) <==> KeyLess(a[..n], b[..n]) || (a[..n] == b[..n] && a[n] < b[n])
  {
    var n := |a| - 1;
    if n > 0 {
      KeyLessInit(a[1..], b[1..]);
      assert a[..n][1..] == a[1..][..n - 1] && b[..n][1..] == b[1..][..n - 1];
      assert a[..n] == b[..n] <==> a[0] == b[0] && a[1..][..n - 1] == b[1..][..n - 1];
    }
  }

  /** Among texts of one length the unit order is the numeric one. */
  lemma {:induction false} NumberLess(a: Text, b: Text)
    requires |a| == |b| && (forall i :: 0 <= i < |a| ==> IsDigit(a[i])) && forall i :: 0 <= i < |b| ==> IsDigit(b[i])
    ensures KeyLess(a, b) <==> Number(a) < Number(b)
    decreases |a|
  {
    if |a| > 0 {
      var n := |a| - 1;
      KeyLessInit(a, b);
      NumberLess(a[..n], b[..n]);
      NumberLess(b[..n], a[..n]);
      KeyLessTotal(a[..n], b[..n]);
    }
  }

  lemma NumberStep(t: Text, d: Unit)
    requires IsDigit(d) && forall i :: 0 <= i < |t| ==> IsDigit(t[i])
    ensures Number(t + [d]) == 10 * Number(t) + (d as int - 48)
  {
    assert (t + [d])[..|t|] == t;
  }

  lemma TenDigits()
    ensures PowerOfTen(9) == 1_000_000_000 && PowerOfTen(10) == 10_000_000_000
    ensures Number(MAX_INDEX) == 4_294_967_294
  {
    assert PowerOfTen(3) == 1000 && PowerOfTen(6) == 1_000_000 && PowerOfTen(9) == 1_000_000_000;
    var t: Text := [];
    for n := 0 to 10
      invariant t == MAX_INDEX[..n] && forall i :: 0 <= i < n ==> IsDigit(t[i])
      invariant Number(t) == [0, 4, 42, 429, 4294, 42949, 429496, 4294967, 42949672, 429496729, 4294967294][n]
    {
      NumberStep(t, MAX_INDEX[n]);
      t := t + [MAX_INDEX[n]];
    }
    assert MAX_INDEX[..10] == MAX_INDEX;
  }

  /** Index keys are the numbers up to 2^32 - 2, written without leading zeros. */
  lemma IndexKeyIff(k: Text)
    ensures IsIndexKey(k) <==>
            && |k| > 0 && (forall i :: 0 <= i < |k| ==> IsDigit(k[i])) && (k[0] != 48 || |k| == 1)
            && Number(k) < 0xFFFF_FFFF
  {
    if |k| > 0 && (forall i :: 0 <= i < |k| ==> IsDigit(k[i])) && (k[0] != 48 || |k| == 1) {
      NumberBounds(k);
      TenDigits();
      if |k| < 10 {
        PowerOfTenGrows(|k|, 9);
      } else if |k| == 10 {
        NumberLess(MAX_INDEX, k);
      } else {
        PowerOfTenGrows(10, |k| - 1);
      }
    }
  }

  /** One key comes before another if they part at some unit, or it is the beginning of the other. */
  ghost predicate UnitsBefore(a: Text, b: Text) {
    exists n :: 0 <= n <= |a| && n < |b| && a[..n] == b[..n] && (n == |a| || a[n] < b[n])
  }

  lemma {:induction false} KeyLessIff(a: Text, b: Text)
    ensures KeyLess(a, b) <==> UnitsBefore(a, b)
  {
    if |a| > 0 && |b| > 0 && a[0] == b[0] {
      KeyLessIff(a[1..], b[1..]);
      if UnitsBefore(a[1..], b[1..]) {
        var n :| 0 <= n <= |a[1..]| && n < |b[1..]| && a[1..][..n] == b[1..][..n]
                 && (n == |a[1..]| || a[1..][n] < b[1..][n]);
        assert a[..n + 1] == [a[0]] + a[1..][..n] && b[..n + 1] == [b[0]] + b[1..][..n];
      }
      if n :| 0 <= n <= |a| && n < |b| && a[..n] == b[..n] && (n == |a| || a[n] < b[n]) {
        assert n > 0 && a[1..][..n - 1] == a[..n][1..] && b[1..][..n - 1] == b[..n][1..];
      }
    } else if |b| > 0 && (|a| == 0 || a[0] < b[0]) {
      assert a[..0] == b[..0];
    } else if |a| > 0 && |b| > 0 {
      forall n | 0 < n <= |a| && n < |b| ensures a[..n] != b[..n] { assert a[..n][0] == a[0] && b[..n][0] == b[0]; }
    }
  }

  /** The order in which a canonical text lists keys: index keys by their number, then the others by unit. */
  ghost predicate Listed(a: Text, b: Text) {
    if IsIndexKey(a) && IsIndexKey(b) then Number(a) < Number(b)
    else if IsIndexKey(a) || IsIndexKey(b) then IsIndexKey(a)
    else UnitsBefore(a, b)
  }

  lemma IndexLessIff(a: Text, b: Text)
    requires IsIndexKey(a) && IsIndexKey(b)
    ensures IndexLess(a, b) <==> Number(a) < Number(b)
  {
    if |a| == |b| {
      NumberLess(a, b);
    } else {
      ShorterIsLess(if |a| < |b| then a else b, if |a| < |b| then b else a);
    }
  }

  lemma ShorterIsLess(a: Text, b: Text)
    requires IsIndexKey(a) && IsIndexKey(b) && |a| < |b|
    ensures Number(a) < Number(b)
  {
    NumberBounds(a);
    NumberBounds(b);
    PowerOfTenGrows(|a|, |b| - 1);
  }

  ghost predicate InOrder(keys: seq<Text>) { forall i, j :: 0 <= i < j < |keys| ==> Listed(keys[i], keys[j]) }

  lemma {:induction false} DistinctNumbers(a: Text, b: Text)
    requires IsIndexKey(a) && IsIndexKey(b) && Number(a) == Number(b)
    ensures a == b
  {
    if |a| == |b| {
      NumberLess(a, b);
      NumberLess(b, a);
      KeyLessTotal(a, b);
    } else {
      ShorterIsLess(if |a| < |b| then a else b, if |a| < |b| then b else a);
    }
  }

  lemma {:induction false} InsertIndexInOrder(key: Text, keys: seq<Text>)
    requires IsIndexKey(key) && key !in keys && InOrder(keys) && forall k :: k in keys ==> IsIndexKey(k)
    ensures InOrder(InsertIndex(key, keys)) && forall k :: k in InsertIndex(key, keys) ==> IsIndexKey(k)
  {
    if |keys| > 0 {
      var first, rest := keys[0], keys[1..];
      assert first in keys && forall k :: k in rest ==> k in keys;
      IndexLessIff(key, first);
      if IndexLess(key, first) {
        forall j | 0 <= j < |keys| ensures Number(key) < Number(keys[j]) {
          assert keys[j] in keys;
          if j > 0 { assert Listed(keys[0], keys[j]); }
        }
      } else {
        InsertIndexInOrder(key, rest);
        if Number(key) == Number(first) { DistinctNumbers(key, first); }
        var r := InsertIndex(key, rest);
        forall j | 0 <= j < |r| ensures Listed(first, r[j]) {
          assert r[j] in r;
          if r[j] != key {
            var m :| 0 <= m < |rest| && rest[m] == r[j];
            assert Listed(keys[0], keys[m + 1]);
          }
        }
      }
    }
  }

  lemma {:induction false} IndexKeysInOrder(keys: seq<Text>)
    requires Distinct(keys)
    ensures InOrder(IndexKeys(keys))
  {
    if |keys| > 0 {
      IndexKeysInOrder(keys[1..]);
      if IsIndexKey(keys[0]) { InsertIndexInOrder(keys[0], IndexKeys(keys[1..])); }
    }
  }

  lemma {:induction false} NamedKeysInOrder(keys: seq<Text>)
    requires Sorted(keys)
    ensures InOrder(NamedKeys(keys)) && Sorted(NamedKeys(keys))
  {
    if |keys| > 0 {
      NamedKeysInOrder(keys[1..]);
      if !IsIndexKey(keys[0]) {
        var rest := NamedKeys(keys[1..]);
        forall j | 0 <= j < |rest| ensures KeyLess(keys[0], rest[j]) && Listed(keys[0], rest[j]) {
          assert rest[j] in rest;
          var m :| 0 <= m < |keys[1..]| && keys[1..][m] == rest[j];
          assert KeyLess(keys[0], keys[m + 1]);
          KeyLessIff(keys[0], rest[j]);
        }
      }
    }
  }

  lemma CanonicalKeysInOrder(ms: seq<Member>)
    requires Distinct(Keys(ms))
    ensures InOrder(CanonicalKeys(ms))
  {
    var sorted := SortKeys(Keys(ms));
    SortKeysSorted(Keys(ms));
    forall i, j | 0 <= i < j < |sorted| ensures sorted[i] != sorted[j] { KeyLessTotal(sorted[i], sorted[j]); }
    IndexKeysInOrder(sorted);
    NamedKeysInOrder(sorted);
    var a, b := IndexKeys(sorted), NamedKeys(sorted);
    forall i, j | 0 <= i < |a| && 0 <= j < |b| ensures Listed(a[i], b[j]) { assert a[i] in a && b[j] in b; }
  }

  /** Every object in it lists its keys in order. */
  ghost predicate AllInOrder(v: Json) {
    match v
    case JArray(items) => forall i :: 0 <= i < |items| ==> AllInOrder(items[i])
    case JObject(ms) => InOrder(Keys(ms)) && forall i :: 0 <= i < |ms| ==> AllInOrder(ms[i].value)
    case _ => true
  }

  // ---------------------------------------------------------------- what a canonical text says

  lemma {:induction false} SortedSaysSame(v: Json)
    requires Accepted(v)
    ensures SameTree(SortedJson(v), v) && AllInOrder(SortedJson(v))
    decreases v
  {
    match v
    case JArray(items) =>
      forall i | 0 <= i < |items|
        ensures SameTree(SortedItems(items)[i], items[i]) && AllInOrder(SortedItems(items)[i])
      {
        SortedSaysSame(items[i]);
      }
    case JObject(ms) =>
      forall i | 0 <= i < |ms|
        ensures SameTree(SortedJson(ms[i].value), ms[i].value) && AllInOrder(SortedJson(ms[i].value))
      {
        SortedSaysSame(ms[i].value);
      }
      CanonicalKeysInOrder(ms);
      MembersSaySame(ms, CanonicalKeys(ms));
      MembersInOrder(ms, CanonicalKeys(ms));
    case _ =>
  }

  lemma SortedValue(ms: seq<Member>, keys: seq<Text>, i: nat, j: nat)
    requires Distinct(Keys(ms)) && (forall k :: k in keys ==> k in Keys(ms)) && i < |keys| && j < |ms|
    requires keys[i] == ms[j].key
    ensures SortedMembers(ms, keys)[i].value == SortedJson(ms[j].value)
  {
    FindUnique(ms, j);
  }

  lemma SameObject(ms: seq<Member>, ns: seq<Member>)
    requires KeySet(ms) == KeySet(ns)
    requires forall i, j :: 0 <= i < |ms| && 0 <= j < |ns| && ms[i].key == ns[j].key ==>
               SameTree(ms[i].value, ns[j].value)
    ensures SameTree(JObject(ms), JObject(ns))
  {
  }

  lemma MembersSaySame(ms: seq<Member>, keys: seq<Text>)
    requires Distinct(Keys(ms)) && forall k :: k in keys <==> k in Keys(ms)
    requires forall i :: 0 <= i < |ms| ==> SameTree(SortedJson(ms[i].value), ms[i].value)
    ensures SameTree(JObject(SortedMembers(ms, keys)), JObject(ms))
  {
    var sorted := SortedMembers(ms, keys);
    MembersKeys(ms, keys);
    KeySetIsKeys(ms);
    KeySetIsKeys(sorted);
    forall i, j | 0 <= i < |sorted| && 0 <= j < |ms| && sorted[i].key == ms[j].key
      ensures SameTree(sorted[i].value, ms[j].value)
    {
      SortedValue(ms, keys, i, j);
    }
    SameObject(sorted, ms);
  }

  lemma ObjectInOrder(ms: seq<Member>)
    requires InOrder(Keys(ms)) && forall i :: 0 <= i < |ms| ==> AllInOrder(ms[i].value)
    ensures AllInOrder(JObject(ms))
  {
  }

  lemma MembersInOrder(ms: seq<Member>, keys: seq<Text>)
    requires Distinct(Keys(ms)) && (forall k :: k in keys <==> k in Keys(ms)) && InOrder(keys)
    requires forall i :: 0 <= i < |ms| ==> AllInOrder(SortedJson(ms[i].value))
    ensures AllInOrder(JObject(SortedMembers(ms, keys)))
  {
    var sorted := SortedMembers(ms, keys);
    MembersKeys(ms, keys);
    forall i | 0 <= i < |sorted| ensures AllInOrder(sorted[i].value) {
      assert keys[i] in keys;
      SortedValue(ms, keys, i, Find(ms, keys[i]));
    }
    ObjectInOrder(sorted);
  }

  /** Read as JSON, a canonical text says the value it was made from, every object's keys in canonical order. */
  lemma CanonicalTextSays(v: Json) returns (u: Json)
    requires Accepted(v)
    ensures ReadValue(CanonicalJson.CanonicalJson(v)) == Got(u, [])
    ensures SameTree(u, v) && AllInOrder(u)
  {
    u := SortedJson(v);
    SortedJsonAccepted(v);
    SortedSaysSame(v);
    RenderedReads(u, []);
  }

  /** What is hashed: the five members of a request, each under its own name. */
  lemma EnvelopeSays(r: Request)
    ensures Envelope(r) == JObject([
              Member(Ascii("contractVersion"), JString(Ascii("1.0.0"))), Member(Ascii("method"), JString(r.method_)),
              Member(Ascii("payload"), r.payload), Member(Ascii("principalRef"), JString(r.principalRef)),
              Member(Ascii("route"), JString(r.route))])
  {
    forall i | 0 <= i < 5 ensures Envelope(r).members[i] == Member(EnvelopeKeys()[i], EnvelopeValues(r)[i]) {}
  }
}
