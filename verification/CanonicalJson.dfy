/**
 * The canonical JSON text behind a mutation fingerprint.
 *
 * A JavaScript string is a sequence of UTF-16 code units, and an object is kept here as its
 * members in the order the sender wrote them.
 */
module CanonicalJson {
  import opened Utf16

  datatype Json =
    | JNull
    | JBool(flag: bool)
    | JNumber(literal: Text)
    | JString(text: Text)
    | JArray(items: seq<Json>)
    | JObject(members: seq<Member>)

  datatype Member = Member(key: Text, value: Json)

  // ---------------------------------------------------------------- accepted values

  predicate IsDigit(u: Unit) { 48 <= u <= 57 }

  /** The units of a rendered finite number: digits, sign, point and exponent mark. */
  predicate IsNumberUnit(u: Unit) { IsDigit(u) || u == 43 || u == 45 || u == 46 || u == 101 }

  predicate IsNumberLiteral(t: Text) {
    && |t| > 0
    && (IsDigit(t[0]) || t[0] == 45)
    && forall i :: 0 <= i < |t| ==> IsNumberUnit(t[i])
  }

  function Keys(ms: seq<Member>): (keys: seq<Text>)
    ensures |keys| == |ms|
    ensures forall i :: 0 <= i < |ms| ==> keys[i] == ms[i].key
  {
    seq(|ms|, i requires 0 <= i < |ms| => ms[i].key)
  }

  predicate Distinct(keys: seq<Text>) {
    forall i, j :: 0 <= i < j < |keys| ==> keys[i] != keys[j]
  }

  predicate Accepted(v: Json) {
    match v
    case JNumber(literal) => IsNumberLiteral(literal)
    case JArray(items) => forall i :: 0 <= i < |items| ==> Accepted(items[i])
    case JObject(ms) => Distinct(Keys(ms)) && forall i :: 0 <= i < |ms| ==> Accepted(ms[i].value)
    case _ => true
  }

  /** Equal trees, except that the members of an object may come in any order. */
  ghost predicate SameTree(a: Json, b: Json) {
    match a
    case JArray(items) =>
      b.JArray? && |items| == |b.items| && forall i :: 0 <= i < |items| ==> SameTree(items[i], b.items[i])
    case JObject(ms) =>
      && b.JObject?
      && KeySet(ms) == KeySet(b.members)
      && forall i, j :: 0 <= i < |ms| && 0 <= j < |b.members| && ms[i].key == b.members[j].key ==>
           SameTree(ms[i].value, b.members[j].value)
    case _ => a == b
  }

  ghost function KeySet(ms: seq<Member>): set<Text> {
    set i | 0 <= i < |ms| :: ms[i].key
  }

  // ---------------------------------------------------------------- key order

  predicate KeyLess(a: Text, b: Text) {
    |b| > 0 && (|a| == 0 || a[0] < b[0] || (a[0] == b[0] && KeyLess(a[1..], b[1..])))
  }

  lemma {:induction false} KeyLessTotal(a: Text, b: Text)
    ensures a == b || KeyLess(a, b) || KeyLess(b, a)
    ensures !(KeyLess(a, b) && KeyLess(b, a)) && !KeyLess(a, a)
  {
    if |a| > 0 {
      KeyLessTotal(a[1..], a[1..]);
      if |b| > 0 {
        KeyLessTotal(a[1..], b[1..]);
        if a[0] == b[0] && a[1..] == b[1..] {
          assert a == [a[0]] + a[1..] && b == [b[0]] + b[1..];
        }
      }
    }
  }

  lemma {:induction false} KeyLessTransitive(a: Text, b: Text, c: Text)
    requires KeyLess(a, b) && KeyLess(b, c)
    ensures KeyLess(a, c)
  {
    if |a| > 0 && a[0] == b[0] == c[0] {
      KeyLessTransitive(a[1..], b[1..], c[1..]);
    }
  }

  predicate Sorted(keys: seq<Text>) {
    forall i, j :: 0 <= i < j < |keys| ==> KeyLess(keys[i], keys[j])
  }

  function Insert(key: Text, sorted: seq<Text>): (r: seq<Text>)
    ensures forall k :: k in r <==> k == key || k in sorted
  {
    if |sorted| == 0 || KeyLess(key, sorted[0]) then [key] + sorted
    else [sorted[0]] + Insert(key, sorted[1..])
  }

  /** `Object.keys(value).sort()`: by UTF-16 code unit. */
  function SortKeys(keys: seq<Text>): (r: seq<Text>)
    ensures forall k :: k in r <==> k in keys
  {
    if |keys| == 0 then [] else Insert(keys[0], SortKeys(keys[1..]))
  }

  lemma {:induction false} InsertSorted(key: Text, sorted: seq<Text>)
    requires Sorted(sorted) && key !in sorted
    ensures Sorted(Insert(key, sorted))
  {
    if |sorted| == 0 {
    } else if KeyLess(key, sorted[0]) {
      forall j | 0 <= j < |sorted| ensures KeyLess(key, sorted[j]) {
        if j > 0 { KeyLessTransitive(key, sorted[0], sorted[j]); }
      }
    } else {
      KeyLessTotal(key, sorted[0]);
      var rest := sorted[1..];
      forall k | k in rest ensures KeyLess(sorted[0], k) {}
      InsertSorted(key, rest);
      var r := Insert(key, rest);
      forall j | 0 <= j < |r| ensures KeyLess(sorted[0], r[j]) { assert r[j] in r; }
    }
  }

  lemma {:induction false} SortKeysSorted(keys: seq<Text>)
    requires Distinct(keys)
    ensures Sorted(SortKeys(keys))
  {
    if |keys| > 0 {
      SortKeysSorted(keys[1..]);
      InsertSorted(keys[0], SortKeys(keys[1..]));
    }
  }

  lemma NonEmptyHasMember(a: seq<Text>)
    ensures |a| > 0 ==> exists k :: k in a
  {
    if |a| > 0 { assert a[0] in a; }
  }

  lemma {:induction false} SortedUnique(a: seq<Text>, b: seq<Text>)
    requires Sorted(a) && Sorted(b)
    requires forall k :: k in a <==> k in b
    ensures a == b
  {
    if |a| == 0 {
      NonEmptyHasMember(b);
    } else {
      assert a[0] in b;
      assert b[0] in a;
      KeyLessTotal(a[0], b[0]);
      forall k ensures k in a[1..] <==> k in b[1..] {
        if k in a[1..] { KeyLessTotal(k, a[0]); assert k in b; }
        if k in b[1..] { KeyLessTotal(k, b[0]); assert k in a; }
      }
      SortedUnique(a[1..], b[1..]);
      assert a == [a[0]] + a[1..] && b == [b[0]] + b[1..];
    }
  }

  // ------------------------------------------------ own-property order of the rebuilt object

  /** Digits with no leading zero: the keys a JavaScript object lists first, in numeric order. */
  predicate IsIndexKey(k: Text) {
    && 0 < |k| <= 10
    && (forall i :: 0 <= i < |k| ==> IsDigit(k[i]))
    && (k[0] == 48 ==> |k| == 1)
    && (|k| == 10 ==> !KeyLess(MAX_INDEX, k))
  }

  /** 2^32 - 2, the largest array index. */
  const MAX_INDEX: Text := [52, 50, 57, 52, 57, 54, 55, 50, 57, 52]

  /** For digit strings without leading zeros this is the numeric order. */
  predicate IndexLess(a: Text, b: Text) {
    |a| < |b| || (|a| == |b| && KeyLess(a, b))
  }

  function InsertIndex(key: Text, sorted: seq<Text>): (r: seq<Text>)
    ensures forall k :: k in r <==> k == key || k in sorted
  {
    if |sorted| == 0 || IndexLess(key, sorted[0]) then [key] + sorted
    else [sorted[0]] + InsertIndex(key, sorted[1..])
  }

  function IndexKeys(keys: seq<Text>): (r: seq<Text>)
    ensures forall k :: k in r <==> k in keys && IsIndexKey(k)
  {
    if |keys| == 0 then []
    else if IsIndexKey(keys[0]) then InsertIndex(keys[0], IndexKeys(keys[1..]))
    else IndexKeys(keys[1..])
  }

  function NamedKeys(keys: seq<Text>): (r: seq<Text>)
    ensures forall k :: k in r <==> k in keys && !IsIndexKey(k)
  {
    if |keys| == 0 then []
    else if IsIndexKey(keys[0]) then NamedKeys(keys[1..])
    else [keys[0]] + NamedKeys(keys[1..])
  }

  /** `Object.fromEntries` then enumeration: index keys first, then insertion order. */
  function OwnOrder(keys: seq<Text>): (r: seq<Text>)
    ensures forall k :: k in r <==> k in keys
  {
    IndexKeys(keys) + NamedKeys(keys)
  }

  // ---------------------------------------------------------------- sortedJson

  function Find(ms: seq<Member>, key: Text): (i: nat)
    requires key in Keys(ms)
    ensures i < |ms| && ms[i].key == key
  {
    if ms[0].key == key then 0
    else
      assert Keys(ms)[1..] == Keys(ms[1..]);
      assert key in Keys(ms)[1..];
      1 + Find(ms[1..], key)
  }

  function CanonicalKeys(ms: seq<Member>): (r: seq<Text>)
    ensures forall k :: k in r <==> k in Keys(ms)
  {
    OwnOrder(SortKeys(Keys(ms)))
  }

  function SortedJson(v: Json): Json
    decreases v, 0
  {
    match v
    case JArray(items) => JArray(SortedItems(items))
    case JObject(ms) => JObject(SortedMembers(ms, CanonicalKeys(ms)))
    case _ => v
  }

  function SortedItems(items: seq<Json>): (r: seq<Json>)
    ensures |r| == |items|
    ensures forall i :: 0 <= i < |items| ==> r[i] == SortedJson(items[i])
    decreases items, 0
  {
    if |items| == 0 then [] else [SortedJson(items[0])] + SortedItems(items[1..])
  }

  function SortedMembers(ms: seq<Member>, keys: seq<Text>): (r: seq<Member>)
    requires forall k :: k in keys ==> k in Keys(ms)
    ensures |r| == |keys|
    ensures forall i :: 0 <= i < |keys| ==>
              keys[i] in Keys(ms) && r[i] == Member(keys[i], SortedJson(ms[Find(ms, keys[i])].value))
    decreases ms, |keys|
  {
    if |keys| == 0 then []
    else [Member(keys[0], SortedJson(ms[Find(ms, keys[0])].value))] + SortedMembers(ms, keys[1..])
  }

  lemma {:induction false} FindUnique(ms: seq<Member>, i: nat)
    requires i < |ms| && Distinct(Keys(ms))
    ensures ms[i].key in Keys(ms) && Find(ms, ms[i].key) == i
  {
    assert Keys(ms)[i] == ms[i].key;
    var j := Find(ms, ms[i].key);
    assert Keys(ms)[j] == Keys(ms)[i];
  }

  lemma KeySetIsKeys(ms: seq<Member>)
    ensures forall k :: k in KeySet(ms) <==> k in Keys(ms)
  {
    forall k | k in Keys(ms) ensures k in KeySet(ms) {
      var i :| 0 <= i < |ms| && Keys(ms)[i] == k;
      assert ms[i].key == k;
    }
    forall k | k in KeySet(ms) ensures k in Keys(ms) {
      var i :| 0 <= i < |ms| && ms[i].key == k;
      assert Keys(ms)[i] == k;
    }
  }

  lemma SameKeysSameOrder(a: seq<Member>, b: seq<Member>)
    requires Distinct(Keys(a)) && Distinct(Keys(b))
    ensures KeySet(a) == KeySet(b) <==> CanonicalKeys(a) == CanonicalKeys(b)
  {
    KeySetIsKeys(a);
    KeySetIsKeys(b);
    if KeySet(a) == KeySet(b) {
      SortKeysSorted(Keys(a));
      SortKeysSorted(Keys(b));
      SortedUnique(SortKeys(Keys(a)), SortKeys(Keys(b)));
    }
    if CanonicalKeys(a) == CanonicalKeys(b) {
      assert forall k :: k in KeySet(a) <==> k in CanonicalKeys(a);
      assert forall k :: k in KeySet(b) <==> k in CanonicalKeys(b);
    }
  }

  /** Sorting forgets member order and nothing else. */
  lemma {:induction false} SortedJsonIdentifies(a: Json, b: Json)
    requires Accepted(a) && Accepted(b)
    ensures SortedJson(a) == SortedJson(b) <==> SameTree(a, b)
    decreases a
  {
    if a.JArray? && b.JArray? {
      if |a.items| == |b.items| {
        forall i | 0 <= i < |a.items|
          ensures SortedJson(a.items[i]) == SortedJson(b.items[i]) <==> SameTree(a.items[i], b.items[i])
        {
          SortedJsonIdentifies(a.items[i], b.items[i]);
        }
      }
      if SameTree(a, b) { assert SortedItems(a.items) == SortedItems(b.items); }
    } else if a.JObject? && b.JObject? {
      SortedMembersIdentify(a, b);
    }
  }

  lemma {:induction false} SortedMembersIdentify(a: Json, b: Json)
    requires a.JObject? && b.JObject? && Accepted(a) && Accepted(b)
    ensures SortedJson(a) == SortedJson(b) <==> SameTree(a, b)
    decreases a, 0
  {
    var ms, ns := a.members, b.members;
    forall i, j | 0 <= i < |ms| && 0 <= j < |ns| && ms[i].key == ns[j].key
      ensures SortedJson(ms[i].value) == SortedJson(ns[j].value) <==> SameTree(ms[i].value, ns[j].value)
    {
      SortedJsonIdentifies(ms[i].value, ns[j].value);
    }
    if SameTree(a, b) {
      SameValuesSameMembers(ms, ns);
    } else if SortedJson(a) == SortedJson(b) {
      SameMembersSameKeys(ms, ns);
      var keys := CanonicalKeys(ms);
      forall i, j | 0 <= i < |ms| && 0 <= j < |ns| && ms[i].key == ns[j].key
        ensures SameTree(ms[i].value, ns[j].value)
      {
        SameMembersSameValue(ms, ns, keys, i, j);
      }
      assert false;
    }
  }

  lemma SameValuesSameMembers(ms: seq<Member>, ns: seq<Member>)
    requires Distinct(Keys(ms)) && Distinct(Keys(ns)) && KeySet(ms) == KeySet(ns)
    requires forall i, j :: 0 <= i < |ms| && 0 <= j < |ns| && ms[i].key == ns[j].key ==>
               SortedJson(ms[i].value) == SortedJson(ns[j].value)
    ensures SortedMembers(ms, CanonicalKeys(ms)) == SortedMembers(ns, CanonicalKeys(ns))
  {
    SameKeysSameOrder(ms, ns);
    var keys := CanonicalKeys(ms);
    forall p | 0 <= p < |keys|
      ensures SortedMembers(ms, keys)[p] == SortedMembers(ns, CanonicalKeys(ns))[p]
    {
      assert keys[p] in Keys(ms) && keys[p] in Keys(ns);
    }
  }

  lemma SameMembersSameKeys(ms: seq<Member>, ns: seq<Member>)
    requires Distinct(Keys(ms)) && Distinct(Keys(ns))
    requires SortedMembers(ms, CanonicalKeys(ms)) == SortedMembers(ns, CanonicalKeys(ns))
    ensures KeySet(ms) == KeySet(ns) && CanonicalKeys(ms) == CanonicalKeys(ns)
  {
    MembersKeys(ms, CanonicalKeys(ms));
    MembersKeys(ns, CanonicalKeys(ns));
    SameKeysSameOrder(ms, ns);
  }

  lemma SameMembersSameValue(ms: seq<Member>, ns: seq<Member>, keys: seq<Text>, i: nat, j: nat)
    requires Distinct(Keys(ms)) && Distinct(Keys(ns))
    requires forall k :: k in keys <==> k in Keys(ms)
    requires forall k :: k in keys <==> k in Keys(ns)
    requires SortedMembers(ms, keys) == SortedMembers(ns, keys)
    requires i < |ms| && j < |ns| && ms[i].key == ns[j].key
    ensures SortedJson(ms[i].value) == SortedJson(ns[j].value)
  {
    FindUnique(ms, i);
    FindUnique(ns, j);
    assert ms[i].key in keys;
    var p :| 0 <= p < |keys| && keys[p] == ms[i].key;
    assert SortedMembers(ms, keys)[p] == SortedMembers(ns, keys)[p];
  }

  lemma MembersKeys(ms: seq<Member>, keys: seq<Text>)
    requires forall k :: k in keys ==> k in Keys(ms)
    ensures Keys(SortedMembers(ms, keys)) == keys
  {
  }

  // ---------------------------------------------------------------- JSON.stringify

  const QUOTE: Unit := 34
  const BACKSLASH: Unit := 92
  const COMMA: Unit := 44
  const COLON: Unit := 58

  /** The text of `v` followed by `rest`. */
  function Render(v: Json, rest: Text): Text
    decreases v, 0
  {
    match v
    case JNull => [110, 117, 108, 108] + rest
    case JBool(flag) => (if flag then [116, 114, 117, 101] else [102, 97, 108, 115, 101]) + rest
    case JNumber(literal) => literal + rest
    case JString(text) => Quoted(text, rest)
    case JArray(items) => [91] + RenderItems(items, [93] + rest)
    case JObject(ms) => [123] + RenderMembers(ms, [125] + rest)
  }

  function RenderItems(items: seq<Json>, rest: Text): Text
    decreases items, 0
  {
    if |items| == 0 then rest
    else Render(items[0], if |items| == 1 then rest else [COMMA] + RenderItems(items[1..], rest))
  }

  function RenderMembers(ms: seq<Member>, rest: Text): Text
    decreases ms, 0
  {
    if |ms| == 0 then rest
    else
      Quoted(ms[0].key, [COLON] +
             Render(ms[0].value, if |ms| == 1 then rest else [COMMA] + RenderMembers(ms[1..], rest)))
  }

  function Quoted(t: Text, rest: Text): Text { [QUOTE] + Escape(t, [QUOTE] + rest) }

  /** A surrogate pair is written as it is; a surrogate on its own is escaped. */
  function Escape(t: Text, rest: Text): Text {
    if |t| == 0 then rest
    else if StartsWithPair(t) then [t[0]] + ([t[1]] + Escape(t[2..], rest))
    else EscapeUnit(t[0]) + Escape(t[1..], rest)
  }

  function EscapeUnit(u: Unit): Text {
    if u == 8 then [BACKSLASH, 98]
    else if u == 9 then [BACKSLASH, 116]
    else if u == 10 then [BACKSLASH, 110]
    else if u == 12 then [BACKSLASH, 102]
    else if u == 13 then [BACKSLASH, 114]
    else if u == QUOTE || u == BACKSLASH then [BACKSLASH, u]
    else if u < 0x20 || IsHigh(u) || IsLow(u) then
      [BACKSLASH, 117, Hex(u / 0x10 / 0x10 / 0x10), Hex(u / 0x10 / 0x10 % 0x10), Hex(u / 0x10 % 0x10), Hex(u % 0x10)]
    else [u]
  }

  function Hex(d: int): Unit
    requires 0 <= d < 16
  {
    if d < 10 then 48 + d else 87 + d
  }

  function CanonicalJson(v: Json): Text { Render(SortedJson(v), []) }

  // ---------------------------------------------------------------- the text is unambiguous

  lemma CancelFirst(a: Unit, b: Unit, x: Text, y: Text)
    requires [a] + x == [b] + y
    ensures a == b && x == y
  {
    assert ([a] + x)[0] == ([b] + y)[0];
    assert ([a] + x)[1..] == x && ([b] + y)[1..] == y;
  }

  lemma CancelPrefix(p: Text, x: Text, y: Text)
    requires p + x == p + y
    ensures x == y
  {
    assert (p + x)[|p|..] == x && (p + y)[|p|..] == y;
  }

  lemma HexDigits(u: Unit, w: Unit)
    requires u / 0x10 / 0x10 / 0x10 == w / 0x10 / 0x10 / 0x10 && u / 0x10 / 0x10 % 0x10 == w / 0x10 / 0x10 % 0x10
    requires u / 0x10 % 0x10 == w / 0x10 % 0x10 && u % 0x10 == w % 0x10
    ensures u == w
  {
    assert u / 0x10 / 0x10 == w / 0x10 / 0x10;
    assert u / 0x10 == w / 0x10;
  }

  lemma EscapeUnitUnambiguous(u: Unit, w: Unit, x: Text, y: Text)
    requires EscapeUnit(u) + x == EscapeUnit(w) + y
    ensures u == w && x == y
  {
    var a, b := EscapeUnit(u), EscapeUnit(w);
    var l := a + x;
    assert l[0] == a[0] == b[0];
    if |a| > 1 {
      assert l[1] == a[1] == b[1];
      if |a| > 2 {
        assert l[2] == a[2] && l[3] == a[3] && l[4] == a[4] && l[5] == a[5];
        assert l[2] == b[2] && l[3] == b[3] && l[4] == b[4] && l[5] == b[5];
        HexDigits(u, w);
      }
    }
    CancelPrefix(a, x, y);
  }

  /** The first unit written for a non-empty text. */
  lemma EscapeFirst(t: Text, rest: Text)
    requires |t| > 0
    ensures |Escape(t, rest)| > 0
    ensures Escape(t, rest)[0] == if StartsWithPair(t) then t[0] else EscapeUnit(t[0])[0]
  {
  }

  lemma {:induction false} EscapeUnambiguous(s: Text, t: Text, x: Text, y: Text)
    requires Escape(s, [QUOTE] + x) == Escape(t, [QUOTE] + y)
    ensures s == t && x == y
  {
    if |s| > 0 { EscapeFirst(s, [QUOTE] + x); }
    if |t| > 0 { EscapeFirst(t, [QUOTE] + y); }
    if |s| == 0 || |t| == 0 {
      if |s| == |t| { CancelFirst(QUOTE, QUOTE, x, y); }
    } else if StartsWithPair(s) && StartsWithPair(t) {
      var l, r := Escape(s[2..], [QUOTE] + x), Escape(t[2..], [QUOTE] + y);
      CancelFirst(s[0], t[0], [s[1]] + l, [t[1]] + r);
      CancelFirst(s[1], t[1], l, r);
      EscapeUnambiguous(s[2..], t[2..], x, y);
      assert s == s[..2] + s[2..] && t == t[..2] + t[2..];
    } else if !StartsWithPair(s) && !StartsWithPair(t) {
      EscapeUnitUnambiguous(s[0], t[0], Escape(s[1..], [QUOTE] + x), Escape(t[1..], [QUOTE] + y));
      EscapeUnambiguous(s[1..], t[1..], x, y);
      assert s == [s[0]] + s[1..] && t == [t[0]] + t[1..];
    }
  }

  lemma QuotedUnambiguous(s: Text, t: Text, x: Text, y: Text)
    requires Quoted(s, x) == Quoted(t, y)
    ensures s == t && x == y
  {
    CancelFirst(QUOTE, QUOTE, Escape(s, [QUOTE] + x), Escape(t, [QUOTE] + y));
    EscapeUnambiguous(s, t, x, y);
  }

  /** What may follow a value without being read as part of it. */
  predicate Stops(x: Text) { |x| == 0 || !IsNumberUnit(x[0]) }

  lemma NumberEnd(s: Text, t: Text, x: Text, y: Text)
    requires IsNumberLiteral(t) && s + x == t + y
    ensures |s| < |t| ==> !Stops(x)
  {
    if |s| < |t| {
      assert (s + x)[|s|] == t[|s|];
      assert x[0] == (s + x)[|s|];
    }
  }

  lemma NumberUnambiguous(s: Text, t: Text, x: Text, y: Text)
    requires IsNumberLiteral(s) && IsNumberLiteral(t) && Stops(x) && Stops(y)
    requires s + x == t + y
    ensures s == t && x == y
  {
    NumberEnd(s, t, x, y);
    NumberEnd(t, s, y, x);
    assert (s + x)[..|s|] == s && (t + y)[..|t|] == t;
    CancelPrefix(s, x, y);
  }

  function FirstUnit(v: Json): Unit
    requires Accepted(v)
  {
    match v
    case JNull => 110
    case JBool(flag) => if flag then 116 else 102
    case JNumber(literal) => literal[0]
    case JString(_) => QUOTE
    case JArray(_) => 91
    case JObject(_) => 123
  }

  lemma RenderFirst(v: Json, rest: Text)
    requires Accepted(v)
    ensures |Render(v, rest)| > 0 && Render(v, rest)[0] == FirstUnit(v)
  {
  }

  lemma {:induction false} RenderUnambiguous(a: Json, b: Json, x: Text, y: Text)
    requires Accepted(a) && Accepted(b) && Stops(x) && Stops(y)
    requires Render(a, x) == Render(b, y)
    ensures a == b && x == y
    decreases a, 0
  {
    RenderFirst(a, x);
    RenderFirst(b, y);
    match a {
      case JNull => CancelPrefix([110, 117, 108, 108], x, y);
      case JBool(flag) => CancelPrefix(if flag then [116, 114, 117, 101] else [102, 97, 108, 115, 101], x, y);
      case JNumber(literal) => NumberUnambiguous(literal, b.literal, x, y);
      case JString(text) => QuotedUnambiguous(text, b.text, x, y);
      case JArray(items) =>
        CancelFirst(91, 91, RenderItems(items, [93] + x), RenderItems(b.items, [93] + y));
        ItemsUnambiguous(items, b.items, x, y);
      case JObject(ms) =>
        CancelFirst(123, 123, RenderMembers(ms, [125] + x), RenderMembers(b.members, [125] + y));
        MembersUnambiguous(ms, b.members, x, y);
    }
  }

  lemma {:induction false} ItemsUnambiguous(a: seq<Json>, b: seq<Json>, x: Text, y: Text)
    requires forall i :: 0 <= i < |a| ==> Accepted(a[i])
    requires forall i :: 0 <= i < |b| ==> Accepted(b[i])
    requires RenderItems(a, [93] + x) == RenderItems(b, [93] + y)
    ensures a == b && x == y
    decreases a, 0
  {
    if |a| == 0 || |b| == 0 {
      if |a| > 0 { RenderFirst(a[0], if |a| == 1 then [93] + x else [COMMA] + RenderItems(a[1..], [93] + x)); }
      if |b| > 0 { RenderFirst(b[0], if |b| == 1 then [93] + y else [COMMA] + RenderItems(b[1..], [93] + y)); }
      CancelFirst(93, 93, x, y);
    } else {
      var u := if |a| == 1 then [93] + x else [COMMA] + RenderItems(a[1..], [93] + x);
      var w := if |b| == 1 then [93] + y else [COMMA] + RenderItems(b[1..], [93] + y);
      RenderUnambiguous(a[0], b[0], u, w);
      CancelFirst(u[0], w[0], u[1..], w[1..]);
      if |a| == 1 {
        CancelFirst(93, 93, x, y);
      } else {
        CancelFirst(COMMA, COMMA, RenderItems(a[1..], [93] + x), RenderItems(b[1..], [93] + y));
        ItemsUnambiguous(a[1..], b[1..], x, y);
      }
      assert a == [a[0]] + a[1..] && b == [b[0]] + b[1..];
    }
  }

  lemma MembersFirst(ms: seq<Member>, rest: Text)
    ensures |ms| > 0 ==> |RenderMembers(ms, rest)| > 0 && RenderMembers(ms, rest)[0] == QUOTE
  {
  }

  lemma {:induction false} MembersUnambiguous(a: seq<Member>, b: seq<Member>, x: Text, y: Text)
    requires forall i :: 0 <= i < |a| ==> Accepted(a[i].value)
    requires forall i :: 0 <= i < |b| ==> Accepted(b[i].value)
    requires RenderMembers(a, [125] + x) == RenderMembers(b, [125] + y)
    ensures a == b && x == y
    decreases a, 0
  {
    if |a| == 0 || |b| == 0 {
      MembersFirst(a, [125] + x);
      MembersFirst(b, [125] + y);
      CancelFirst(125, 125, x, y);
    } else {
      var u := if |a| == 1 then [125] + x else [COMMA] + RenderMembers(a[1..], [125] + x);
      var w := if |b| == 1 then [125] + y else [COMMA] + RenderMembers(b[1..], [125] + y);
      var p, q := Render(a[0].value, u), Render(b[0].value, w);
      QuotedUnambiguous(a[0].key, b[0].key, [COLON] + p, [COLON] + q);
      CancelFirst(COLON, COLON, p, q);
      RenderUnambiguous(a[0].value, b[0].value, u, w);
      if |a| == 1 {
        CancelFirst(125, w[0], x, w[1..]);
      } else {
        CancelFirst(COMMA, w[0], RenderMembers(a[1..], [125] + x), w[1..]);
        MembersUnambiguous(a[1..], b[1..], x, y);
      }
      assert a == [a[0]] + a[1..] && b == [b[0]] + b[1..];
    }
  }

  // ---------------------------------------------------------------- main results

  lemma {:induction false} SortedJsonAccepted(v: Json)
    requires Accepted(v)
    ensures Accepted(SortedJson(v))
    decreases v
  {
    match v {
      case JArray(items) =>
        forall i | 0 <= i < |items| ensures Accepted(SortedItems(items)[i]) { SortedJsonAccepted(items[i]); }
      case JObject(ms) =>
        var keys := CanonicalKeys(ms);
        var r := SortedMembers(ms, keys);
        forall i | 0 <= i < |r| ensures Accepted(r[i].value) { SortedJsonAccepted(ms[Find(ms, keys[i])].value); }
        MembersKeys(ms, keys);
        CanonicalKeysDistinct(ms);
      case _ =>
    }
  }

  lemma {:induction false} InsertIndexDistinct(key: Text, keys: seq<Text>)
    requires Distinct(keys) && key !in keys
    ensures Distinct(InsertIndex(key, keys))
  {
    if |keys| > 0 && !IndexLess(key, keys[0]) {
      InsertIndexDistinct(key, keys[1..]);
      var r := InsertIndex(key, keys[1..]);
      forall j | 0 <= j < |r| ensures r[j] != keys[0] { assert r[j] in r; }
    }
  }

  lemma {:induction false} OwnOrderDistinct(keys: seq<Text>)
    requires Distinct(keys)
    ensures Distinct(IndexKeys(keys)) && Distinct(NamedKeys(keys))
  {
    if |keys| > 0 {
      OwnOrderDistinct(keys[1..]);
      if IsIndexKey(keys[0]) {
        InsertIndexDistinct(keys[0], IndexKeys(keys[1..]));
      } else {
        var r := NamedKeys(keys[1..]);
        forall j | 0 <= j < |r| ensures r[j] != keys[0] { assert r[j] in r; }
      }
    }
  }

  lemma CanonicalKeysDistinct(ms: seq<Member>)
    requires Distinct(Keys(ms))
    ensures Distinct(CanonicalKeys(ms))
  {
    var keys := SortKeys(Keys(ms));
    SortKeysSorted(Keys(ms));
    forall i, j | 0 <= i < j < |keys| ensures keys[i] != keys[j] { KeyLessTotal(keys[i], keys[j]); }
    OwnOrderDistinct(keys);
    var a, b := IndexKeys(keys), NamedKeys(keys);
    forall i, j | 0 <= i < |a| && 0 <= j < |b| ensures a[i] != b[j] { assert a[i] in a && b[j] in b; }
  }

  /** The canonical text is the same exactly when the trees are the same up to member order. */
  lemma CanonicalJsonIdentifies(a: Json, b: Json)
    requires Accepted(a) && Accepted(b)
    ensures CanonicalJson(a) == CanonicalJson(b) <==> SameTree(a, b)
  {
    SortedJsonAccepted(a);
    SortedJsonAccepted(b);
    SortedJsonIdentifies(a, b);
    if CanonicalJson(a) == CanonicalJson(b) {
      RenderUnambiguous(SortedJson(a), SortedJson(b), [], []);
    }
  }

  // ---------------------------------------------------------------- fingerprints

  datatype Request = Request(principalRef: Text, method_: Text, route: Text, payload: Json)

  function EnvelopeKeys(): seq<Text> {
    [Ascii("contractVersion"), Ascii("method"), Ascii("payload"), Ascii("principalRef"), Ascii("route")]
  }

  function EnvelopeValues(r: Request): seq<Json> {
    [JString(Ascii("1.0.0")), JString(r.method_), r.payload, JString(r.principalRef), JString(r.route)]
  }

  function Envelope(r: Request): Json {
    JObject(seq(5, i requires 0 <= i < 5 => Member(EnvelopeKeys()[i], EnvelopeValues(r)[i])))
  }

  /** `hash` stands for SHA-256. */
  function Fingerprint(hash: Text -> Text, r: Request): Text {
    hash(CanonicalJson(Envelope(r)))
  }

  ghost predicate Injective(hash: Text -> Text) {
    forall x, y :: hash(x) == hash(y) ==> x == y
  }

  ghost predicate SameRequest(a: Request, b: Request) {
    a.principalRef == b.principalRef && a.method_ == b.method_ && a.route == b.route && SameTree(a.payload, b.payload)
  }

  lemma EnvelopeAccepted(r: Request)
    requires Accepted(r.payload)
    ensures Accepted(Envelope(r)) && Keys(Envelope(r).members) == EnvelopeKeys()
  {
    var k, ms := EnvelopeKeys(), Envelope(r).members;
    assert Keys(ms) == k;
    assert Distinct(k) by {
      assert |k[0]| == 15 && |k[1]| == 6 && |k[2]| == 7 && |k[3]| == 12 && |k[4]| == 5;
    }
    forall i | 0 <= i < |ms| ensures Accepted(ms[i].value) {
      assert ms[i].value == EnvelopeValues(r)[i];
    }
  }

  lemma EnvelopeValuesIdentify(a: Request, b: Request)
    ensures (forall i :: 0 <= i < 5 ==> SameTree(EnvelopeValues(a)[i], EnvelopeValues(b)[i])) <==> SameRequest(a, b)
  {
    var v, w := EnvelopeValues(a), EnvelopeValues(b);
    assert SameTree(v[0], w[0]);
    assert SameTree(v[1], w[1]) <==> a.method_ == b.method_;
    assert SameTree(v[2], w[2]) <==> SameTree(a.payload, b.payload);
    assert SameTree(v[3], w[3]) <==> a.principalRef == b.principalRef;
    assert SameTree(v[4], w[4]) <==> a.route == b.route;
  }

  /** For objects written with the same keys in the same order, the values decide. */
  lemma SameKeysSameTree(ms: seq<Member>, ns: seq<Member>)
    requires Keys(ms) == Keys(ns) && Distinct(Keys(ms))
    ensures SameTree(JObject(ms), JObject(ns)) <==>
            forall i :: 0 <= i < |ms| ==> SameTree(ms[i].value, ns[i].value)
  {
    KeySetIsKeys(ms);
    KeySetIsKeys(ns);
    assert |ns| == |Keys(ns)|;
    forall i, j | 0 <= i < |ms| && 0 <= j < |ns| && ms[i].key == ns[j].key ensures i == j {
      assert Keys(ms)[i] == Keys(ms)[j];
    }
    forall i | 0 <= i < |ms| ensures ms[i].key == ns[i].key {
      assert Keys(ms)[i] == Keys(ns)[i];
    }
  }

  lemma EnvelopeIdentifies(a: Request, b: Request)
    requires Accepted(a.payload) && Accepted(b.payload)
    ensures SameTree(Envelope(a), Envelope(b)) <==> SameRequest(a, b)
  {
    EnvelopeAccepted(a);
    EnvelopeAccepted(b);
    EnvelopeValuesIdentify(a, b);
    var ms, ns := Envelope(a).members, Envelope(b).members;
    SameKeysSameTree(ms, ns);
    forall i | 0 <= i < 5
      ensures SameTree(ms[i].value, ns[i].value) <==> SameTree(EnvelopeValues(a)[i], EnvelopeValues(b)[i])
    {
      assert ms[i].value == EnvelopeValues(a)[i] && ns[i].value == EnvelopeValues(b)[i];
    }
  }

  /** With a hash free of collisions, equal fingerprints mean the same request, and only that. */
  lemma FingerprintIdentifies(hash: Text -> Text, a: Request, b: Request)
    requires Injective(hash) && Accepted(a.payload) && Accepted(b.payload)
    ensures Fingerprint(hash, a) == Fingerprint(hash, b) <==> SameRequest(a, b)
  {
    EnvelopeAccepted(a);
    EnvelopeAccepted(b);
    CanonicalJsonIdentifies(Envelope(a), Envelope(b));
    EnvelopeIdentifies(a, b);
  }
}
