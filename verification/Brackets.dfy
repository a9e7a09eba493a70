/** Matching brackets and splitting arguments in source text, aware of quotes and escapes. */
module Brackets {
  import opened Options
  import opened Strings

  // ---------------------------------------------------------------- characters

  predicate Quote(c: char) { c == '\'' || c == '"' }
  predicate Opener(c: char) { c in {'(', '[', '{'} }
  predicate CloserChar(c: char) { c in {')', ']', '}'} }
  function Closer(open: char): char { if open == '(' then ')' else if open == '[' then ']' else '}' }

  predicate IsSpace(c: char) {
    c in {'\t', '\n', '\U{000B}', '\U{000C}', '\r', ' ', '\U{0085}', '\U{00A0}', '\U{1680}', '\U{2028}', '\U{2029}',
          '\U{202F}', '\U{205F}', '\U{3000}'}
    || '\U{001C}' <= c <= '\U{001F}' || '\U{2000}' <= c <= '\U{200A}'
  }

  /** What `str.strip` removes, by code. */
  lemma SpacesByCode(c: char)
    ensures var u := c as int;
            IsSpace(c) <==> 9 <= u <= 13 || 28 <= u <= 32
                            || u in {0x85, 0xA0, 0x1680, 0x2028, 0x2029, 0x202F, 0x205F, 0x3000}
                            || 0x2000 <= u <= 0x200A
  {
  }

  function Strip(s: string): string { Trim(s, IsSpace) }

  // ---------------------------------------------------------------- what the two loops compute

  datatype EndResult = Found(at: nat) | Unbalanced | Unterminated

  /** The text from position `at` on, with the closers still owed and the quote the scan is inside of. */
  function Scan(rest: string, at: nat, stack: seq<char>, quote: Option<char>, esc: bool): EndResult
    requires |stack| > 0
    decreases |rest|
  {
    if |rest| == 0 then Unterminated
    else
      var c, more, top := rest[0], rest[1..], |stack| - 1;
      if quote.Some? then
        if esc then Scan(more, at + 1, stack, quote, false)
        else if c == '\\' then Scan(more, at + 1, stack, quote, true)
        else if c == quote.value then Scan(more, at + 1, stack, None, false)
        else Scan(more, at + 1, stack, quote, false)
      else if Quote(c) then Scan(more, at + 1, stack, Some(c), false)
      else if Opener(c) then Scan(more, at + 1, stack + [Closer(c)], None, false)
      else if CloserChar(c) then
        if c != stack[top] then Unbalanced
        else if top == 0 then Found(at)
        else Scan(more, at + 1, stack[..top], None, false)
      else Scan(more, at + 1, stack, None, false)
  }

  function EndOf(s: string, pos: nat): EndResult
    requires pos < |s| && Opener(s[pos])
  {
    Scan(s[pos + 1..], pos + 1, [Closer(s[pos])], None, false)
  }

  /** The length of a quoted text after its opening quote; an escape at the very end counts two. */
  function QuotedLength(rest: string, q: char): (n: nat)
    ensures n <= |rest| + 1
    decreases |rest|
  {
    if |rest| == 0 then 0
    else if rest[0] == '\\' then if |rest| == 1 then 2 else 2 + QuotedLength(rest[2..], q)
    else if rest[0] == q then 0
    else 1 + QuotedLength(rest[1..], q)
  }

  datatype SplitResult = Parts(parts: seq<string>) | Error(why: EndResult)

  function Prepend(part: string, r: SplitResult): SplitResult { if r.Parts? then Parts([part] + r.parts) else r }

  lemma {:induction false} ScanEndsInside(rest: string, at: nat, stack: seq<char>, quote: Option<char>, esc: bool)
    requires |stack| > 0
    ensures var r := Scan(rest, at, stack, quote, esc); r.Found? ==> at <= r.at < at + |rest|
    decreases |rest|
  {
    if |rest| > 0 {
      var c, more, top := rest[0], rest[1..], |stack| - 1;
      if quote.Some? {
        ScanEndsInside(more, at + 1, stack, quote, false);
        ScanEndsInside(more, at + 1, stack, quote, true);
        ScanEndsInside(more, at + 1, stack, None, false);
      } else if Quote(c) {
        ScanEndsInside(more, at + 1, stack, Some(c), false);
      } else if Opener(c) {
        ScanEndsInside(more, at + 1, stack + [Closer(c)], None, false);
      } else if CloserChar(c) {
        if top > 0 { ScanEndsInside(more, at + 1, stack[..top], None, false); }
      } else {
        ScanEndsInside(more, at + 1, stack, None, false);
      }
    }
  }

  /** The arguments from position `i` on, the current one having begun at `start`. */
  function SplitFrom(s: string, start: nat, i: nat): SplitResult
    requires start <= |s| && start <= i
    decreases |s| + 2 - i
  {
    if i >= |s| then Parts([Strip(s[start..])])
    else if Quote(s[i]) then SplitFrom(s, start, i + QuotedLength(s[i + 1..], s[i]) + 2)
    else if Opener(s[i]) then
      ScanEndsInside(s[i + 1..], i + 1, [Closer(s[i])], None, false);
      match EndOf(s, i)
      case Found(e) => SplitFrom(s, start, e + 1)
      case why => Error(why)
    else if s[i] == ',' then Prepend(Strip(s[start..i]), SplitFrom(s, i + 1, i + 1))
    else SplitFrom(s, start, i + 1)
  }

  function Arguments(s: string): SplitResult { SplitFrom(s, 0, 0) }

  // ---------------------------------------------------------------- the loops

  method End(s: string, pos: nat) returns (r: EndResult)
    requires pos < |s| && Opener(s[pos])
    ensures r == EndOf(s, pos)
  {
    var stack, quote, esc := [Closer(s[pos])], None, false;
    for i := pos + 1 to |s|
      invariant |stack| > 0 && Scan(s[i..], i, stack, quote, esc) == EndOf(s, pos)
      invariant quote.None? ==> !esc
    {
      var c := s[i];
      assert s[i..][0] == c && s[i..][1..] == s[i + 1..];
      if quote.Some? {
        if esc { esc := false; }
        else if c == '\\' { esc := true; }
        else if c == quote.value { quote := None; }
      } else if Quote(c) {
        quote := Some(c);
      } else if Opener(c) {
        stack := stack + [Closer(c)];
      } else if CloserChar(c) {
        var top := stack[|stack| - 1];
        if c != top { return Unbalanced; }
        if |stack| == 1 { return Found(i); }
        stack := stack[..|stack| - 1];
      }
    }
    return Unterminated;
  }

  /** From the character after an opening quote to its closing one, or past the end. */
  method QuoteEnd(s: string, from: nat, q: char) returns (i: nat)
    requires from <= |s|
    ensures i == from + QuotedLength(s[from..], q)
  {
    i := from;
    while i < |s|
      invariant from <= i <= |s| + 1
      invariant i + (if i <= |s| then QuotedLength(s[i..], q) else 0) == from + QuotedLength(s[from..], q)
      decreases |s| + 1 - i
    {
      if s[i] == '\\' {
        assert |s[i..]| > 1 ==> s[i..][2..] == s[i + 2..];
        i := i + 2;
        continue;
      }
      if s[i] == q { break; }
      assert s[i..][1..] == s[i + 1..];
      i := i + 1;
    }
  }

  function Before(parts: seq<string>, r: SplitResult): SplitResult { if r.Parts? then Parts(parts + r.parts) else r }

  /** From position `i`, past a quoted text or a group if one begins there; the comma is left to the caller. */
  method Skip(s: string, start: nat, i: nat) returns (next: nat, why: Option<EndResult>)
    requires start <= i < |s|
    ensures why.Some? ==> SplitFrom(s, start, i) == Error(why.value)
    ensures why.None? ==> i < next <= |s| + 2
    ensures why.None? && s[i] != ',' ==> SplitFrom(s, start, i) == SplitFrom(s, start, next)
    ensures why.None? && s[i] == ',' ==> next == i + 1
  {
    if Quote(s[i]) {
      next := QuoteEnd(s, i + 1, s[i]);
      return next + 1, None;
    } else if Opener(s[i]) {
      var e := End(s, i);
      GroupTaken(s, start, i);
      if !e.Found? { return i, Some(e); }
      return e.at + 1, None;
    }
    return i + 1, None;
  }

  method Split(s: string) returns (r: SplitResult)
    ensures r == Arguments(s)
  {
    var parts, start, i := [], 0, 0;
    while i < |s|
      invariant start <= i <= |s| + 2 && start <= |s|
      invariant Before(parts, SplitFrom(s, start, i)) == Arguments(s)
      decreases |s| + 2 - i
    {
      var next, why := Skip(s, start, i);
      if why.Some? { return Error(why.value); }
      if s[i] == ',' {
        CommaTaken(s, parts, start, i);
        parts, start := parts + [Strip(s[start..i])], i + 1;
      }
      i := next;
    }
    EndTaken(s, parts, start, i);
    return Parts(parts + [Strip(s[start..])]);
  }

  lemma EndTaken(s: string, parts: seq<string>, start: nat, i: nat)
    requires start <= |s| <= i
    ensures Before(parts, SplitFrom(s, start, i)) == Parts(parts + [Strip(s[start..])])
  {
  }

  lemma GroupTaken(s: string, start: nat, i: nat)
    requires start <= i < |s| && Opener(s[i])
    ensures var e := EndOf(s, i);
            if e.Found? then i < e.at < |s| && SplitFrom(s, start, i) == SplitFrom(s, start, e.at + 1)
            else SplitFrom(s, start, i) == Error(e)
  {
    ScanEndsInside(s[i + 1..], i + 1, [Closer(s[i])], None, false);
  }

  lemma CommaTaken(s: string, parts: seq<string>, start: nat, i: nat)
    requires start <= i < |s| && s[i] == ','
    ensures Before(parts, SplitFrom(s, start, i)) == Before(parts + [Strip(s[start..i])], SplitFrom(s, i + 1, i + 1))
  {
    SplitAtComma(s, start, i);
    PrependBefore(parts, Strip(s[start..i]), SplitFrom(s, i + 1, i + 1));
  }

  lemma PrependBefore(parts: seq<string>, part: string, r: SplitResult)
    ensures Before(parts, Prepend(part, r)) == Before(parts + [part], r)
  {
    if r.Parts? { assert parts + ([part] + r.parts) == parts + [part] + r.parts; }
  }

  // ---------------------------------------------------------------- what brackets and arguments are

  /** Source text as a tree: plain characters, quoted texts and bracketed groups. */
  datatype Piece = Char(c: char) | Escaped(c: char)
  datatype Node = Plain(c: char) | Quoted(q: char, body: seq<Piece>) | Group(open: char, inner: seq<Node>)

  predicate PiecesFit(q: char, body: seq<Piece>)
  {
    forall k :: 0 <= k < |body| ==> body[k].Char? ==> body[k].c != q && body[k].c != '\\'
  }

  predicate Fits(n: Node)
    decreases n
  {
    match n
    case Plain(c) => c !in {'(', ')', '[', ']', '{', '}', '\'', '"'}
    case Quoted(q, body) => q in {'\'', '"'} && PiecesFit(q, body)
    case Group(open, inner) => open in {'(', '[', '{'} && forall k :: 0 <= k < |inner| ==> Fits(inner[k])
  }

  predicate AllFit(ns: seq<Node>) { forall k :: 0 <= k < |ns| ==> Fits(ns[k]) }

  function Spelled(piece: Piece): string { if piece.Char? then [piece.c] else ['\\', piece.c] }

  function Body(body: seq<Piece>): string {
    if |body| == 0 then "" else Spelled(body[0]) + Body(body[1..])
  }

  /** The bracket that closes a group. */
  function Right(open: char): char {
    match open
    case '(' => ')'
    case '[' => ']'
    case _ => '}'
  }

  function Render(n: Node): string
    decreases n
  {
    match n
    case Plain(c) => [c]
    case Quoted(q, body) => [q] + Body(body) + [q]
    case Group(open, inner) => [open] + RenderAll(inner) + [Right(open)]
  }

  function RenderAll(ns: seq<Node>): string
    decreases ns
  {
    if |ns| == 0 then "" else Render(ns[0]) + RenderAll(ns[1..])
  }

  // ---------------------------------------------------------------- a rendered group ends where it should

  lemma Regroup(a: string, b: string, c: string)
    ensures (a + b) + c == a + (b + c)
  {
  }

  lemma ScanPiece(piece: Piece, tail: string, q: char, at: nat, stack: seq<char>)
    requires |stack| > 0 && (piece.Char? ==> piece.c != q && piece.c != '\\')
    ensures Scan(Spelled(piece) + tail, at, stack, Some(q), false) ==
            Scan(tail, at + |Spelled(piece)|, stack, Some(q), false)
  {
    var s := Spelled(piece) + tail;
    if piece.Char? {
      assert s[1..] == tail;
    } else {
      assert s[1..] == [piece.c] + tail && s[1..][1..] == tail;
    }
  }

  lemma FitRest(q: char, body: seq<Piece>)
    requires |body| > 0 && PiecesFit(q, body)
    ensures PiecesFit(q, body[1..])
  {
    forall k | 0 <= k < |body[1..]| && body[1..][k].Char? ensures body[1..][k].c != q && body[1..][k].c != '\\' {
      assert body[1..][k] == body[k + 1];
    }
  }

  lemma {:induction false} ScanBody(body: seq<Piece>, q: char, rest: string, at: nat, stack: seq<char>)
    requires |stack| > 0 && Quote(q) && PiecesFit(q, body)
    ensures Scan(Body(body) + ([q] + rest), at, stack, Some(q), false) ==
            Scan(rest, at + |Body(body)| + 1, stack, None, false)
  {
    if |body| == 0 {
      assert Body(body) + ([q] + rest) == [q] + rest && ([q] + rest)[1..] == rest;
    } else {
      var first, tail := Spelled(body[0]), Body(body[1..]) + ([q] + rest);
      FitRest(q, body);
      Regroup(first, Body(body[1..]), [q] + rest);
      ScanPiece(body[0], tail, q, at, stack);
      ScanBody(body[1..], q, rest, at + |first|, stack);
    }
  }

  lemma {:induction false} ScanNode(n: Node, rest: string, at: nat, stack: seq<char>)
    requires |stack| > 0 && Fits(n)
    ensures Scan(Render(n) + rest, at, stack, None, false) == Scan(rest, at + |Render(n)|, stack, None, false)
    decreases n, 0
  {
    match n
    case Plain(c) => assert ([c] + rest)[1..] == rest;
    case Quoted(q, body) =>
      ScanBody(body, q, rest, at + 1, stack);
      assert Render(n) + rest == [q] + (Body(body) + ([q] + rest));
    case Group(open, inner) =>
      var after := [Closer(open)] + rest;
      assert Render(n) + rest == [open] + (RenderAll(inner) + after);
      ScanNodes(inner, after, at + 1, stack + [Closer(open)]);
      assert (stack + [Closer(open)])[..|stack|] == stack;
      assert after[1..] == rest;
  }

  lemma {:induction false} ScanNodes(ns: seq<Node>, rest: string, at: nat, stack: seq<char>)
    requires |stack| > 0 && AllFit(ns)
    ensures Scan(RenderAll(ns) + rest, at, stack, None, false) == Scan(rest, at + |RenderAll(ns)|, stack, None, false)
    decreases ns
  {
    if |ns| == 0 {
      assert RenderAll(ns) + rest == rest;
    } else {
      var tail := RenderAll(ns[1..]) + rest;
      assert RenderAll(ns) + rest == Render(ns[0]) + tail;
      ScanNode(ns[0], tail, at, stack);
      ScanNodes(ns[1..], rest, at + |Render(ns[0])|, stack);
    }
  }

  /** The end of a group is the bracket that closes it, through nesting, quotes and escapes. */
  lemma EndFindsTheCloser(before: string, n: Node, after: string)
    requires n.Group? && Fits(n)
    ensures var s := before + Render(n) + after;
            s[|before|] == n.open && EndOf(s, |before|) == Found(|before| + |Render(n)| - 1)
  {
    var s := before + Render(n) + after;
    var inner := RenderAll(n.inner);
    assert s[|before|] == n.open;
    assert s[|before| + 1..] == inner + ([Closer(n.open)] + after);
    ScanNodes(n.inner, [Closer(n.open)] + after, |before| + 1, [Closer(n.open)]);
  }

  /** Inside quotes the scan goes on behind the quote that closes them, if it ends at all. */
  lemma {:induction false} QuoteCloses(rest: string, at: nat, stack: seq<char>, q: char) returns (body: seq<Piece>,
        more: string)
    requires |stack| > 0 && Quote(q) && Scan(rest, at, stack, Some(q), false).Found?
    ensures PiecesFit(q, body) && rest == Body(body) + [q] + more
    ensures Scan(rest, at, stack, Some(q), false) == Scan(more, at + |Body(body)| + 1, stack, None, false)
    decreases |rest|
  {
    var c, tail := rest[0], rest[1..];
    if c == '\\' {
      var pieces;
      pieces, more := QuoteCloses(tail[1..], at + 2, stack, q);
      body := [Escaped(tail[0])] + pieces;
      assert Body(body) == ['\\', tail[0]] + Body(pieces);
    } else if c == q {
      body, more := [], tail;
    } else {
      var pieces;
      pieces, more := QuoteCloses(tail, at + 1, stack, q);
      body := [Char(c)] + pieces;
      assert Body(body) == [c] + Body(pieces);
    }
  }

  lemma NodeBefore(node: Node, others: seq<Node>, after: string, last: string)
    requires after == RenderAll(others) + last
    ensures Render(node) + after == RenderAll([node] + others) + last
    ensures |RenderAll([node] + others)| == |Render(node)| + |RenderAll(others)|
  {
    assert ([node] + others)[1..] == others;
  }

  /** One node of the text, and what the scan does behind it. */
  lemma FirstNode(rest: string, at: nat, stack: seq<char>) returns (node: Node, after: string)
    requires |stack| > 0 && Scan(rest, at, stack, None, false).Found? && !CloserChar(rest[0])
    ensures Fits(node) && rest == Render(node) + after && |after| < |rest|
    ensures Scan(rest, at, stack, None, false) == Scan(after, at + |Render(node)|, stack, None, false)
    decreases |rest|, 0
  {
    var c, tail := rest[0], rest[1..];
    if Quote(c) {
      var body;
      body, after := QuoteCloses(tail, at + 1, stack, c);
      node := Quoted(c, body);
      assert rest == [c] + tail;
    } else if Opener(c) {
      var inner;
      inner, after := TopCloses(tail, at + 1, stack + [Closer(c)]);
      assert (stack + [Closer(c)])[..|stack|] == stack;
      node := Group(c, inner);
      assert rest == [c] + tail;
    } else {
      node, after := Plain(c), tail;
      assert rest == [c] + tail;
    }
  }

  /** Outside quotes the scan reads whole nodes up to the closer on top of the stack. */
  lemma {:induction false} TopCloses(rest: string, at: nat, stack: seq<char>) returns (ns: seq<Node>, more: string)
    requires |stack| > 0 && Scan(rest, at, stack, None, false).Found?
    ensures AllFit(ns) && rest == RenderAll(ns) + [stack[|stack| - 1]] + more
    ensures var here := at + |RenderAll(ns)|; var r := Scan(rest, at, stack, None, false);
            if |stack| == 1 then r == Found(here) else r == Scan(more, here + 1, stack[..|stack| - 1], None, false)
    decreases |rest|, 1
  {
    if CloserChar(rest[0]) {
      ns, more := [], rest[1..];
    } else {
      var node, after := FirstNode(rest, at, stack);
      var others;
      others, more := TopCloses(after, at + |Render(node)|, stack);
      ns := [node] + others;
      assert after == RenderAll(others) + ([stack[|stack| - 1]] + more);
      NodeBefore(node, others, after, [stack[|stack| - 1]] + more);
    }
  }

  /** And whenever an end is found, the text up to it is one such group. */
  lemma FoundEndClosesAGroup(s: string, pos: nat) returns (n: Node)
    requires pos < |s| && Opener(s[pos]) && EndOf(s, pos).Found?
    ensures pos < EndOf(s, pos).at < |s|
    ensures n.Group? && Fits(n) && s[pos..EndOf(s, pos).at + 1] == Render(n)
  {
    var inner, more := TopCloses(s[pos + 1..], pos + 1, [Closer(s[pos])]);
    n := Group(s[pos], inner);
    var e := EndOf(s, pos).at;
    assert s[pos..e + 1] == [s[pos]] + s[pos + 1..][..e - pos];
  }

  // ---------------------------------------------------------------- why no end is found

  /** An end, once found, and a bracket that does not fit, stay what they are when the text goes on. */
  lemma {:induction false} VerdictStays(rest: string, more: string, at: nat, stack: seq<char>, quote: Option<char>,
                                        esc: bool)
    requires |stack| > 0 && Scan(rest, at, stack, quote, esc) != Unterminated
    ensures Scan(rest + more, at, stack, quote, esc) == Scan(rest, at, stack, quote, esc)
    decreases |rest|
  {
    var c, tail, top := rest[0], rest[1..], |stack| - 1;
    assert (rest + more)[0] == c && (rest + more)[1..] == tail + more;
    if quote.Some? {
      if esc { VerdictStays(tail, more, at + 1, stack, quote, false); }
      else if c == '\\' { VerdictStays(tail, more, at + 1, stack, quote, true); }
      else if c == quote.value { VerdictStays(tail, more, at + 1, stack, None, false); }
      else { VerdictStays(tail, more, at + 1, stack, quote, false); }
    } else if Quote(c) {
      VerdictStays(tail, more, at + 1, stack, Some(c), false);
    } else if Opener(c) {
      VerdictStays(tail, more, at + 1, stack + [Closer(c)], None, false);
    } else if CloserChar(c) {
      if c == stack[top] && top > 0 { VerdictStays(tail, more, at + 1, stack[..top], None, false); }
    } else {
      VerdictStays(tail, more, at + 1, stack, None, false);
    }
  }

  predicate AllClosers(stack: seq<char>) { forall k :: 0 <= k < |stack| ==> CloserChar(stack[k]) }

  function Reversed(stack: seq<char>): string {
    if |stack| == 0 then "" else [stack[|stack| - 1]] + Reversed(stack[..|stack| - 1])
  }

  /** What is owed, last first, ends the scan. */
  lemma {:induction false} OwedEnds(stack: seq<char>, at: nat)
    requires |stack| > 0 && AllClosers(stack)
    ensures Scan(Reversed(stack), at, stack, None, false).Found?
    decreases |stack|
  {
    var top := |stack| - 1;
    assert Reversed(stack)[1..] == Reversed(stack[..top]);
    if top > 0 { OwedEnds(stack[..top], at + 1); }
  }

  /** A scan that ran out of text can be brought to an end. */
  lemma {:induction false} SomethingEnds(rest: string, at: nat, stack: seq<char>, quote: Option<char>, esc: bool)
    returns (more: string)
    requires |stack| > 0 && AllClosers(stack) && (quote.Some? ==> Quote(quote.value)) && (esc ==> quote.Some?)
    requires Scan(rest, at, stack, quote, esc) == Unterminated
    ensures Scan(rest + more, at, stack, quote, esc).Found?
    decreases |rest|
  {
    if |rest| == 0 {
      var owed := Reversed(stack);
      if quote.None? {
        OwedEnds(stack, at);
        more := owed;
      } else {
        var closed := [quote.value] + owed;
        assert closed[1..] == owed;
        OwedEnds(stack, if esc then at + 2 else at + 1);
        more := if esc then ['x'] + closed else closed;
        assert (['x'] + closed)[1..] == closed;
      }
      assert rest + more == more;
    } else {
      var c, tail, top := rest[0], rest[1..], |stack| - 1;
      if quote.Some? {
        if esc { more := SomethingEnds(tail, at + 1, stack, quote, false); }
        else if c == '\\' { more := SomethingEnds(tail, at + 1, stack, quote, true); }
        else if c == quote.value { more := SomethingEnds(tail, at + 1, stack, None, false); }
        else { more := SomethingEnds(tail, at + 1, stack, quote, false); }
      } else if Quote(c) {
        more := SomethingEnds(tail, at + 1, stack, Some(c), false);
      } else if Opener(c) {
        more := SomethingEnds(tail, at + 1, stack + [Closer(c)], None, false);
      } else if CloserChar(c) {
        more := SomethingEnds(tail, at + 1, stack[..top], None, false);
      } else {
        more := SomethingEnds(tail, at + 1, stack, None, false);
      }
      assert (rest + more)[0] == c && (rest + more)[1..] == tail + more;
    }
  }

  /** The text is unterminated if it can still go on to an end, and unbalanced if nothing behind it can. */
  lemma WhyNoEnd(s: string, pos: nat)
    requires pos < |s| && Opener(s[pos])
    ensures EndOf(s, pos) == Unterminated <==>
            !EndOf(s, pos).Found? && exists more :: EndOf(s + more, pos).Found?
  {
    var rest, stack := s[pos + 1..], [Closer(s[pos])];
    forall more ensures (s + more)[pos + 1..] == rest + more && (s + more)[pos] == s[pos] {}
    if EndOf(s, pos) == Unterminated {
      var more := SomethingEnds(rest, pos + 1, stack, None, false);
      assert EndOf(s + more, pos).Found?;
    } else if EndOf(s, pos) == Unbalanced {
      forall more ensures EndOf(s + more, pos) == Unbalanced {
        VerdictStays(rest, more, pos + 1, stack, None, false);
      }
    }
  }

  // ---------------------------------------------------------------- splitting undoes joining

  /** An argument: nodes without a comma of their own. */
  predicate Argument(ns: seq<Node>) {
    |ns| > 0 ==> Fits(ns[0]) && ns[0] != Plain(',') && Argument(ns[1..])
  }

  predicate AllArguments(args: seq<seq<Node>>) { |args| > 0 ==> Argument(args[0]) && AllArguments(args[1..]) }

  function JoinArguments(args: seq<seq<Node>>): string
    requires |args| > 0
  {
    if |args| == 1 then RenderAll(args[0]) else RenderAll(args[0]) + ("," + JoinArguments(args[1..]))
  }

  function Stripped(args: seq<seq<Node>>): (r: seq<string>)
    ensures |r| == |args| && forall k :: 0 <= k < |r| ==> r[k] == Strip(RenderAll(args[k]))
  {
    seq(|args|, k requires 0 <= k < |args| => Strip(RenderAll(args[k])))
  }

  lemma PieceLength(piece: Piece, q: char, tail: string)
    requires |tail| > 0 && (piece.Char? ==> piece.c != q && piece.c != '\\')
    ensures QuotedLength(Spelled(piece) + tail, q) == |Spelled(piece)| + QuotedLength(tail, q)
  {
    var s := Spelled(piece) + tail;
    assert s[|Spelled(piece)|..] == tail;
  }

  lemma {:induction false} BodyLength(body: seq<Piece>, q: char, rest: string)
    requires Quote(q) && PiecesFit(q, body)
    ensures QuotedLength(Body(body) + ([q] + rest), q) == |Body(body)|
  {
    if |body| == 0 {
      assert Body(body) + ([q] + rest) == [q] + rest;
    } else {
      var tail := Body(body[1..]) + ([q] + rest);
      FitRest(q, body);
      BodyLength(body[1..], q, rest);
      PieceLength(body[0], q, tail);
      Regroup(Spelled(body[0]), Body(body[1..]), [q] + rest);
    }
  }

  lemma SplitPassesNode(s: string, start: nat, i: nat, n: Node, rest: string)
    requires start <= i < |s| && Fits(n) && n != Plain(',') && s[i..] == Render(n) + rest
    ensures SplitFrom(s, start, i) == SplitFrom(s, start, i + |Render(n)|)
  {
    assert s[i..][0] == s[i] && s[i + 1..] == s[i..][1..];
    match n
    case Plain(c) =>
    case Quoted(q, body) =>
      assert s[i + 1..] == Body(body) + ([q] + rest);
      BodyLength(body, q, rest);
    case Group(open, inner) =>
      assert s == s[..i] + Render(n) + rest;
      EndFindsTheCloser(s[..i], n, rest);
  }

  lemma Further(s: string, i: nat, a: string, b: string)
    requires i <= |s| && s[i..] == a + b
    ensures i + |a| <= |s| && s[i..i + |a|] == a && s[i + |a|..] == b
  {
    assert s[i..][..|a|] == a && s[i..][|a|..] == b;
  }

  lemma FirstRenders(ns: seq<Node>, rest: string)
    requires |ns| > 0
    ensures RenderAll(ns) + rest == Render(ns[0]) + (RenderAll(ns[1..]) + rest)
  {
  }

  /** A node other than a comma stands at `i`. */
  predicate NodeAt(s: string, i: nat, n: Node, rest: string) {
    i <= |s| && Fits(n) && n != Plain(',') && s[i..] == Render(n) + rest
  }

  /** What passes every single node passes them all. */
  lemma {:induction false} PassesAll(f: nat -> SplitResult, s: string, start: nat, i: nat, ns: seq<Node>, rest: string)
    requires start <= i <= |s| && Argument(ns) && s[i..] == RenderAll(ns) + rest
    requires forall k: nat, n, r :: start <= k && NodeAt(s, k, n, r) ==> f(k) == f(k + |Render(n)|)
    ensures f(i) == f(i + |RenderAll(ns)|)
    decreases |ns|
  {
    if |ns| > 0 {
      var tail := RenderAll(ns[1..]) + rest;
      FirstRenders(ns, rest);
      Further(s, i, Render(ns[0]), tail);
      assert NodeAt(s, i, ns[0], tail);
      PassesAll(f, s, start, i + |Render(ns[0])|, ns[1..], rest);
    }
  }

  lemma SplitPassesNodes(s: string, start: nat, i: nat, ns: seq<Node>, rest: string)
    requires start <= i <= |s| && Argument(ns) && s[i..] == RenderAll(ns) + rest
    ensures SplitFrom(s, start, i) == SplitFrom(s, start, i + |RenderAll(ns)|)
  {
    var f := (k: nat) => if start <= k then SplitFrom(s, start, k) else Error(Unterminated);
    forall k: nat, n, r | start <= k && NodeAt(s, k, n, r) ensures f(k) == f(k + |Render(n)|) {
      RenderNonEmpty(n);
      SplitPassesNode(s, start, k, n, r);
    }
    PassesAll(f, s, start, i, ns, rest);
  }

  lemma RenderNonEmpty(n: Node)
    ensures |Render(n)| > 0
  {
  }

  lemma SplitAtComma(s: string, i: nat, j: nat)
    requires i <= j < |s| && s[j] == ','
    ensures SplitFrom(s, i, j) == Prepend(Strip(s[i..j]), SplitFrom(s, j + 1, j + 1))
  {
  }

  /** The same, for nodes that fill the text from `i` up to `j`. */
  lemma SplitPassesText(s: string, start: nat, i: nat, j: nat, ns: seq<Node>)
    requires start <= i <= j <= |s| && Argument(ns) && s[i..j] == RenderAll(ns)
    ensures SplitFrom(s, start, i) == SplitFrom(s, start, j)
  {
    assert s[i..] == s[i..j] + s[j..];
    SplitPassesNodes(s, start, i, ns, s[j..]);
  }

  lemma OneArgument(s: string, i: nat, j: nat, arg: seq<Node>)
    requires i <= j < |s| && Argument(arg) && s[i..j] == RenderAll(arg) && s[j] == ','
    ensures SplitFrom(s, i, i) == Prepend(Strip(RenderAll(arg)), SplitFrom(s, j + 1, j + 1))
  {
    SplitPassesText(s, i, i, j, arg);
    SplitAtComma(s, i, j);
  }

  lemma SplitAtEnd(s: string, start: nat)
    requires start <= |s|
    ensures SplitFrom(s, start, |s|) == Parts([Strip(s[start..])])
  {
  }

  lemma LastArgument(s: string, i: nat, arg: seq<Node>)
    requires i <= |s| && Argument(arg) && s[i..|s|] == RenderAll(arg)
    ensures SplitFrom(s, i, i) == Parts([Strip(RenderAll(arg))])
  {
    SplitPassesText(s, i, i, |s|, arg);
    SplitAtEnd(s, i);
    assert s[i..] == s[i..|s|];
  }

  lemma AfterComma(s: string, i: nat, arg: string, more: string) returns (j: nat)
    requires i <= |s| && s[i..] == arg + ("," + more)
    ensures i <= j < |s| && s[i..j] == arg && s[j] == ',' && s[j + 1..] == more
  {
    j := i + |arg|;
    Further(s, i, arg, "," + more);
    Further(s, j, ",", more);
    assert s[j] == s[j..][0];
  }

  lemma StrippedSplits(args: seq<seq<Node>>)
    requires |args| > 0
    ensures Parts(Stripped(args)) == Prepend(Strip(RenderAll(args[0])), Parts(Stripped(args[1..])))
  {
    assert Stripped(args)[1..] == Stripped(args[1..]);
    assert Stripped(args) == [Stripped(args)[0]] + Stripped(args)[1..];
  }

  lemma {:induction false} SplitReadsArguments(s: string, i: nat, args: seq<seq<Node>>)
    requires |args| > 0 && AllArguments(args) && i <= |s| && s[i..] == JoinArguments(args)
    ensures SplitFrom(s, i, i) == Parts(Stripped(args))
    decreases |args|
  {
    StrippedSplits(args);
    if |args| == 1 {
      LastArgument(s, i, args[0]);
    } else {
      var j := AfterComma(s, i, RenderAll(args[0]), JoinArguments(args[1..]));
      OneArgument(s, i, j, args[0]);
      SplitReadsArguments(s, j + 1, args[1..]);
    }
  }

  /** Splitting the comma join of self-contained arguments gives back each of them, stripped. */
  lemma SplitUndoesJoin(args: seq<seq<Node>>)
    requires |args| > 0 && AllArguments(args)
    ensures Arguments(JoinArguments(args)) == Parts(Stripped(args))
  {
    assert JoinArguments(args)[0..] == JoinArguments(args);
    SplitReadsArguments(JoinArguments(args), 0, args);
  }
}
