/** Verifying one-use actor assertions: the claim schema, the order of refusals, and the replay store. */
module ActorAssertion {
  import opened Options

  // ---------------------------------------------------------------- claims

  /** A parsed payload. JSON text can also name a number too large to be finite. */
  datatype Raw = Null | Bool(b: bool) | Number(n: real) | Infinite | Text(s: string) | Array
      | Object(fields: map<string, Raw>)

  datatype Act = Act(org: Option<string>, role: Option<string>)
  datatype Claims = Claims(iss: string, aud: string, sub: string, iat: real, exp: real, jti: string,
      kid: Option<string>, act: Option<Act>)

  function Member(fields: map<string, Raw>, name: string): Option<Raw> {
    if name in fields then Some(fields[name]) else None
  }

  predicate NonEmpty(v: Option<Raw>) { v.Some? && v.value.Text? && v.value.s != "" }

  /** Absent, or a text that is not empty. */
  predicate OptionalText(v: Option<Raw>) { v.None? || NonEmpty(v) }

  function TextOf(v: Option<Raw>): Option<string> { if v.Some? && v.value.Text? then Some(v.value.s) else None }

  predicate ActWellFormed(act: Option<Raw>) {
    act.None? || (act.value.Object? && OptionalText(Member(act.value.fields, "org"))
                  && OptionalText(Member(act.value.fields, "role")))
  }

  predicate Finite(v: Option<Raw>) { v.Some? && v.value.Number? }

  function DecodeClaims(payload: Option<Raw>): (r: Option<Claims>)
    ensures r.Some? ==> r.value.iss != "" && r.value.aud != "" && r.value.jti != ""
  {
    if payload.None? || !payload.value.Object? then None
    else
      var c := payload.value.fields;
      if Member(c, "v") != Some(Number(1.0)) then None
      else if !NonEmpty(Member(c, "iss")) || !NonEmpty(Member(c, "aud")) then None
      else if !(Member(c, "sub").Some? && Member(c, "sub").value.Text?) then None
      else if !Finite(Member(c, "iat")) || !Finite(Member(c, "exp")) then None
      else if !NonEmpty(Member(c, "jti")) || !OptionalText(Member(c, "kid")) then None
      else if !ActWellFormed(Member(c, "act")) then None
      else
        var act := Member(c, "act");
        Some(Claims(c["iss"].s, c["aud"].s, c["sub"].s, c["iat"].n, c["exp"].n, c["jti"].s, TextOf(Member(c, "kid")),
                    if act.None? then None
                    else Some(Act(TextOf(Member(act.value.fields, "org")), TextOf(Member(act.value.fields, "role"))))))
  }

  function Put(fields: map<string, Raw>, name: string, v: Option<Raw>): map<string, Raw> {
    if v.None? then fields else fields[name := v.value]
  }

  function RawText(text: Option<string>): Option<Raw> { if text.None? then None else Some(Text(text.value)) }

  /** A payload that spells these claims out. */
  function PayloadOf(c: Claims): Raw {
    var fields := map["v" := Number(1.0), "iss" := Text(c.iss), "aud" := Text(c.aud), "sub" := Text(c.sub),
                      "iat" := Number(c.iat), "exp" := Number(c.exp), "jti" := Text(c.jti)];
    Object(Put(Put(fields, "kid", RawText(c.kid)), "act", if c.act.None? then None else Some(ActOf(c.act.value))))
  }

  function ActOf(a: Act): Raw { Object(Put(Put(map[], "org", RawText(a.org)), "role", RawText(a.role))) }

  /** Every text that must not be empty is not. */
  predicate Complete(c: Claims) {
    && c.iss != "" && c.aud != "" && c.jti != "" && c.kid != Some("")
    && (c.act.Some? ==> c.act.value.org != Some("") && c.act.value.role != Some(""))
  }

  lemma PutMember(fields: map<string, Raw>, name: string, v: Option<Raw>, other: string)
    requires name !in fields
    ensures Member(Put(fields, name, v), other) == if other == name then v else Member(fields, other)
  {
  }

  lemma ActRoundTrip(a: Act)
    requires a.org != Some("") && a.role != Some("")
    ensures ActWellFormed(Some(ActOf(a)))
    ensures TextOf(Member(ActOf(a).fields, "org")) == a.org && TextOf(Member(ActOf(a).fields, "role")) == a.role
  {
    var org := Put(map[], "org", RawText(a.org));
    assert "role" !in org;
    PutMember(org, "role", RawText(a.role), "org");
    PutMember(org, "role", RawText(a.role), "role");
  }

  lemma DecodesFields(fields: map<string, Raw>, c: Claims)
    requires Complete(c) && Member(fields, "v") == Some(Number(1.0)) && Member(fields, "iss") == Some(Text(c.iss))
    requires Member(fields, "aud") == Some(Text(c.aud)) && Member(fields, "sub") == Some(Text(c.sub))
    requires Member(fields, "iat") == Some(Number(c.iat)) && Member(fields, "exp") == Some(Number(c.exp))
    requires Member(fields, "jti") == Some(Text(c.jti)) && Member(fields, "kid") == RawText(c.kid)
    requires Member(fields, "act") == if c.act.None? then None else Some(ActOf(c.act.value))
    ensures DecodeClaims(Some(Object(fields))) == Some(c)
  {
    if c.act.Some? { ActRoundTrip(c.act.value); }
  }

  /** All complete claims can be said, and are read as said. */
  lemma ClaimsRoundTrip(c: Claims)
    requires Complete(c)
    ensures DecodeClaims(Some(PayloadOf(c))) == Some(c)
  {
    var act := if c.act.None? then None else Some(ActOf(c.act.value));
    var fields := map["v" := Number(1.0), "iss" := Text(c.iss), "aud" := Text(c.aud), "sub" := Text(c.sub),
                      "iat" := Number(c.iat), "exp" := Number(c.exp), "jti" := Text(c.jti)];
    var more := Put(fields, "kid", RawText(c.kid));
    forall name | name in {"v", "iss", "aud", "sub", "iat", "exp", "jti", "kid", "act"}
      ensures Member(PayloadOf(c).fields, name) ==
              if name == "act" then act else if name == "kid" then RawText(c.kid) else Member(fields, name)
    {
      PutMember(fields, "kid", RawText(c.kid), name);
      PutMember(fields, "kid", RawText(c.kid), "act");
      PutMember(more, "act", act, name);
    }
    DecodesFields(PayloadOf(c).fields, c);
  }

  predicate Absent(fields: map<string, Raw>, name: string) { name !in fields }
  predicate HasText(fields: map<string, Raw>, name: string) { name in fields && fields[name].Text? }
  predicate HasSomeText(fields: map<string, Raw>, name: string) { HasText(fields, name) && fields[name].s != "" }
  predicate HasNumber(fields: map<string, Raw>, name: string) { name in fields && fields[name].Number? }
  predicate MayHaveText(fields: map<string, Raw>, name: string) { Absent(fields, name) || HasSomeText(fields, name) }

  /** Which payloads are claims: version 1, texts where texts belong and finite numbers where numbers do. */
  lemma DecodesIff(payload: Option<Raw>)
    ensures DecodeClaims(payload).Some? <==>
            && payload.Some? && payload.value.Object?
            && var fields := payload.value.fields;
               && "v" in fields && fields["v"] == Number(1.0)
               && HasSomeText(fields, "iss") && HasSomeText(fields, "aud") && HasText(fields, "sub")
               && HasNumber(fields, "iat") && HasNumber(fields, "exp") && HasSomeText(fields, "jti")
               && MayHaveText(fields, "kid")
               && (Absent(fields, "act")
                   || (fields["act"].Object? && MayHaveText(fields["act"].fields, "org")
                       && MayHaveText(fields["act"].fields, "role")))
    ensures DecodeClaims(payload).Some? ==> Complete(DecodeClaims(payload).value)
  {
  }

  // ---------------------------------------------------------------- the checks before the replay store

  datatype Refusal = Malformed | TooLate | FutureIat | Unavailable | UnknownIssuer | BadSignature | AudMismatch
      | SubjectFormat | WrongSubject | Replayed

  datatype Key = Unresolved | NoKey | PublicKey(pem: string)

  /** The caller's options and the code it trusts: decoding, key resolution, signatures, subject policy. */
  datatype Trust = Trust(
    decode: string -> Option<Raw>, resolve: (string, Option<string>) -> Key, signed: (string, string, string) -> bool,
    now: int, skew: int, audience: string, human: string -> bool, subject: Option<string>, storeFails: bool)

  datatype Verdict = Refused(why: Refusal) | Accepted(claims: Claims)

  function SplitAt(s: string, separator: char): (parts: seq<string>)
    ensures |parts| > 0
  {
    if |s| == 0 then [""]
    else
      var rest := SplitAt(s[1..], separator);
      if s[0] == separator then [""] + rest else [[s[0]] + rest[0]] + rest[1..]
  }

  const PREFIX := "bawes-aa"
  const VERSION := "v1"

  /** Every check up to the replay store, in order. */
  function Check(t: Trust, token: string): Verdict {
    var parts := SplitAt(token, '.');
    if |parts| != 4 || parts[0] != PREFIX || parts[1] != VERSION then Refused(Malformed)
    else
      match DecodeClaims(t.decode(parts[2]))
      case None => Refused(Malformed)
      case Some(claims) =>
        if claims.exp <= t.now as real then Refused(TooLate)
        else if claims.iat > (t.now + t.skew) as real then Refused(FutureIat)
        else
          match t.resolve(claims.iss, claims.kid)
          case Unresolved => Refused(Unavailable)
          case NoKey => Refused(UnknownIssuer)
          case PublicKey(pem) =>
            if !t.signed(pem, PREFIX + "." + VERSION + "." + parts[2], parts[3]) then Refused(BadSignature)
            else if claims.aud != t.audience then Refused(AudMismatch)
            else if !t.human(claims.sub) then Refused(SubjectFormat)
            else if t.subject.Some? && claims.sub != t.subject.value then Refused(WrongSubject)
            else Accepted(claims)
  }

  function Joined(parts: seq<string>, separator: char): string
    requires |parts| > 0
  {
    if |parts| == 1 then parts[0] else parts[0] + [separator] + Joined(parts[1..], separator)
  }

  /** Splitting finds the parts between the separators: joined they are the text, and none holds a separator. */
  lemma {:induction false} SplitJoins(s: string, separator: char)
    ensures Joined(SplitAt(s, separator), separator) == s
    ensures forall k :: 0 <= k < |SplitAt(s, separator)| ==> separator !in SplitAt(s, separator)[k]
  {
    if |s| > 0 {
      var rest := SplitAt(s[1..], separator);
      SplitJoins(s[1..], separator);
      var parts := SplitAt(s, separator);
      assert s == [s[0]] + s[1..];
      if s[0] == separator {
        assert parts[1..] == rest;
      } else {
        assert parts[1..] == rest[1..];
        forall k | 0 <= k < |parts| ensures separator !in parts[k] { assert separator !in rest[k]; }
      }
    }
  }

  /** The envelope and its claims are well-formed. */
  predicate Readable(t: Trust, token: string) {
    var parts := SplitAt(token, '.');
    |parts| == 4 && parts[0] == "bawes-aa" && parts[1] == "v1" && DecodeClaims(t.decode(parts[2])).Some?
  }

  /** Which of its checks a token fails first. */
  lemma ChecksInOrder(t: Trust, token: string)
    ensures var d := Check(t, token); var parts := SplitAt(token, '.');
            && (d == Refused(Malformed) <==> !Readable(t, token))
            && (Readable(t, token) ==>
                  var c := DecodeClaims(t.decode(parts[2])).value; var key := t.resolve(c.iss, c.kid);
                  var inTime := c.exp > t.now as real && c.iat <= (t.now + t.skew) as real;
                  var genuine := inTime && key.PublicKey? && t.signed(key.pem, "bawes-aa.v1." + parts[2], parts[3]);
                  && (d == Refused(TooLate) <==> c.exp <= t.now as real)
                  && (d == Refused(FutureIat) <==> c.exp > t.now as real && c.iat > (t.now + t.skew) as real)
                  && (d == Refused(Unavailable) <==> inTime && key.Unresolved?)
                  && (d == Refused(UnknownIssuer) <==> inTime && key.NoKey?)
                  && (d == Refused(BadSignature) <==> inTime && key.PublicKey? && !genuine)
                  && (d == Refused(AudMismatch) <==> genuine && c.aud != t.audience)
                  && (d == Refused(SubjectFormat) <==> genuine && c.aud == t.audience && !t.human(c.sub))
                  && (d == Refused(WrongSubject) <==>
                        genuine && c.aud == t.audience && t.human(c.sub) && t.subject.Some? && t.subject != Some(c.sub))
                  && (d.Accepted? <==>
                        && genuine && c.aud == t.audience && t.human(c.sub)
                        && (t.subject.None? || t.subject == Some(c.sub)))
                  && (d.Accepted? ==> d == Accepted(c)))
  {
    assert PREFIX + "." + VERSION + "." == "bawes-aa.v1.";
  }

  // ---------------------------------------------------------------- the replay store

  type Seen = map<string, real>

  const NUL := '\0'

  function StoreKey(issuer: string, jti: string): string { issuer + [NUL] + jti }

  function Pruned(seen: Seen, now: int): Seen { map k | k in seen && seen[k] > now as real :: seen[k] }

  function Consumed(seen: Seen, issuer: string, jti: string, exp: real, now: int): (Seen, bool) {
    var kept, key := Pruned(seen, now), StoreKey(issuer, jti);
    if key in kept then (kept, true) else (kept[key := exp], false)
  }

  function Verify(t: Trust, seen: Seen, token: string): (Seen, Verdict) {
    match Check(t, token)
    case Refused(why) => (seen, Refused(why))
    case Accepted(claims) =>
      if t.storeFails then (seen, Refused(Unavailable))
      else
        var (next, replayed) := Consumed(seen, claims.iss, claims.jti, claims.exp, t.now);
        (next, if replayed then Refused(Replayed) else Accepted(claims))
  }

  class MemoryReplayStore {
    var seen: Seen

    constructor ()
      ensures seen == map[]
    {
      seen := map[];
    }

    /** Drops what has expired, then remembers the identifier unless it is known. */
    method Consume(issuer: string, jti: string, exp: real, now: int) returns (replayed: bool)
      modifies this
      ensures (seen, replayed) == Consumed(old(seen), issuer, jti, exp, now)
    {
      var todo := seen.Keys;
      while todo != {}
        invariant todo <= seen.Keys <= old(seen).Keys
        invariant forall k :: k in seen ==> seen[k] == old(seen)[k]
        invariant forall k :: k in old(seen) && k !in todo ==> (k in seen <==> old(seen)[k] > now as real)
        decreases todo
      {
        var k :| k in todo;
        if seen[k] <= now as real { seen := seen - {k}; }
        todo := todo - {k};
      }
      assert seen == Pruned(old(seen), now);
      var key := StoreKey(issuer, jti);
      if key in seen { return true; }
      seen := seen[key := exp];
      return false;
    }

    method VerifyAssertion(t: Trust, token: string) returns (verdict: Verdict)
      modifies this
      ensures (seen, verdict) == Verify(t, old(seen), token)
    {
      verdict := Check(t, token);
      if verdict.Refused? { return; }
      if t.storeFails { return Refused(Unavailable); }
      var replayed := Consume(verdict.claims.iss, verdict.claims.jti, verdict.claims.exp, t.now);
      if replayed { return Refused(Replayed); }
    }
  }

  // ---------------------------------------------------------------- keys

  /** `b` goes on after `a` with a NUL. */
  predicate NulExtends(a: string, b: string) { a + [NUL] <= b }

  predicate KeepApart(a: string, b: string) { !NulExtends(a, b) && !NulExtends(b, a) }

  ghost predicate KeysMeet(a: string, b: string) { exists x, y :: StoreKey(a, x) == StoreKey(b, y) }

  lemma LongerIssuerDiffers(a: string, x: string, b: string, y: string)
    requires !NulExtends(a, b) && |a| < |b|
    ensures StoreKey(a, x) != StoreKey(b, y)
  {
    assert StoreKey(a, x)[..|a| + 1] == a + [NUL];
    assert StoreKey(b, y)[..|a| + 1] == b[..|a| + 1];
  }

  /** A key names its issuer and identifier unless one issuer extends the other with a NUL. */
  lemma StoreKeyIdentifies(a: string, x: string, b: string, y: string)
    requires KeepApart(a, b)
    ensures StoreKey(a, x) == StoreKey(b, y) <==> a == b && x == y
  {
    var k, l := StoreKey(a, x), StoreKey(b, y);
    if |a| < |b| {
      LongerIssuerDiffers(a, x, b, y);
    } else if |b| < |a| {
      LongerIssuerDiffers(b, y, a, x);
    } else {
      assert k[..|a|] == a && l[..|b|] == b;
      assert k[|a| + 1..] == x && l[|b| + 1..] == y;
    }
  }

  /** The two identifiers that share a key when `b` extends `a`. */
  lemma ExtensionCollides(a: string, b: string, y: string)
    requires NulExtends(a, b)
    ensures StoreKey(a, b[|a| + 1..] + [NUL] + y) == StoreKey(b, y)
  {
    assert b == a + [NUL] + b[|a| + 1..];
  }

  /** Two issuers' keys can meet exactly if one extends the other with a NUL. */
  lemma KeysMeetIff(a: string, b: string)
    requires a != b
    ensures KeysMeet(a, b) <==> !KeepApart(a, b)
  {
    if NulExtends(a, b) {
      ExtensionCollides(a, b, "");
    } else if NulExtends(b, a) {
      ExtensionCollides(b, a, "");
    } else if KeysMeet(a, b) {
      var x, y :| StoreKey(a, x) == StoreKey(b, y);
      StoreKeyIdentifies(a, x, b, y);
    }
  }

  // ---------------------------------------------------------------- runs

  datatype Event = Event(trust: Trust, token: string)

  function SeenAfter(evs: seq<Event>, n: nat): Seen
    requires n <= |evs|
  {
    if n == 0 then map[] else Verify(evs[n - 1].trust, SeenAfter(evs, n - 1), evs[n - 1].token).0
  }

  function VerdictAt(evs: seq<Event>, i: nat): Verdict
    requires i < |evs|
  {
    Verify(evs[i].trust, SeenAfter(evs, i), evs[i].token).1
  }

  /** Event `i` accepts this identifier until `exp`. */
  predicate AcceptsAt(evs: seq<Event>, i: nat, iss: string, jti: string, exp: real)
    requires i < |evs|
  {
    var v := VerdictAt(evs, i);
    v.Accepted? && v.claims.iss == iss && v.claims.jti == jti && v.claims.exp == exp
  }

  predicate ClockAdvances(evs: seq<Event>)
  {
    forall i, j :: 0 <= i < j < |evs| ==> evs[i].trust.now <= evs[j].trust.now
  }

  /** Every assertion that passes the earlier checks comes from one of these issuers. */
  ghost predicate IssuedBy(issuers: set<string>, evs: seq<Event>) {
    forall i :: 0 <= i < |evs| && Check(evs[i].trust, evs[i].token).Accepted? ==>
      Check(evs[i].trust, evs[i].token).claims.iss in issuers
  }

  /** No issuer of the set extends another with a NUL; the empty text is never an issuer. */
  predicate Apart(issuers: set<string>) { forall a, b :: a in issuers && b in issuers && a != "" ==> !NulExtends(a, b) }

  ghost predicate Explained(evs: seq<Event>, n: nat, key: string, exp: real)
    requires n <= |evs|
  {
    exists i: nat, iss, jti :: i < n && key == StoreKey(iss, jti) && AcceptsAt(evs, i, iss, jti, exp)
  }

  /** The store holds only identifiers some event accepted. */
  lemma {:induction false} SeenIsExplained(evs: seq<Event>, n: nat, key: string)
    requires n <= |evs| && key in SeenAfter(evs, n)
    ensures Explained(evs, n, key, SeenAfter(evs, n)[key])
  {
    if n > 0 {
      var before := SeenAfter(evs, n - 1);
      var exp := SeenAfter(evs, n)[key];
      if key in before && before[key] == exp {
        SeenIsExplained(evs, n - 1, key);
        var i: nat, iss, jti :| i < n - 1 && key == StoreKey(iss, jti)
            && AcceptsAt(evs, i, iss, jti, exp);
        assert i < n && AcceptsAt(evs, i, iss, jti, exp);
      } else {
        var claims := VerdictAt(evs, n - 1).claims;
        assert AcceptsAt(evs, n - 1, claims.iss, claims.jti, exp);
      }
    }
  }

  lemma VerifyKeeps(t: Trust, seen: Seen, token: string, key: string)
    requires key in seen && seen[key] > t.now as real
    ensures key in Verify(t, seen, token).0 && Verify(t, seen, token).0[key] == seen[key]
  {
  }

  lemma VerifyAdds(t: Trust, seen: Seen, token: string)
    ensures var (next, v) := Verify(t, seen, token);
            v.Accepted? ==> StoreKey(v.claims.iss, v.claims.jti) in next
                            && next[StoreKey(v.claims.iss, v.claims.jti)] == v.claims.exp
  {
  }

  /** What was accepted stays in the store until it expires. */
  lemma {:induction false} AcceptedStays(evs: seq<Event>, i: nat, n: nat, iss: string, jti: string, exp: real)
    requires i < n <= |evs| && AcceptsAt(evs, i, iss, jti, exp)
    requires forall j :: i < j < n ==> (evs[j].trust.now as real) < exp
    ensures var key := StoreKey(iss, jti); key in SeenAfter(evs, n) && SeenAfter(evs, n)[key] == exp
  {
    var before, last := SeenAfter(evs, n - 1), evs[n - 1];
    if i < n - 1 {
      AcceptedStays(evs, i, n - 1, iss, jti, exp);
      VerifyKeeps(last.trust, before, last.token, StoreKey(iss, jti));
    } else {
      VerifyAdds(last.trust, before, last.token);
    }
  }

  /** If one identifier is accepted twice, its first acceptance had expired by the second. */
  lemma AcceptedTwiceHasExpired(evs: seq<Event>, i: nat, j: nat, iss: string, jti: string, exp: real, later: real)
    requires ClockAdvances(evs) && i < j < |evs|
    requires AcceptsAt(evs, i, iss, jti, exp) && AcceptsAt(evs, j, iss, jti, later)
    ensures exp <= evs[j].trust.now as real
  {
    if exp > evs[j].trust.now as real {
      AcceptedStays(evs, i, j, iss, jti, exp);
    }
  }

  /** So one payload is never accepted twice. */
  lemma PayloadAcceptedOnce(evs: seq<Event>, i: nat, j: nat)
    requires ClockAdvances(evs) && i < j < |evs| && VerdictAt(evs, i).Accepted? && VerdictAt(evs, j).Accepted?
    ensures VerdictAt(evs, i).claims != VerdictAt(evs, j).claims
  {
    var a, b := VerdictAt(evs, i).claims, VerdictAt(evs, j).claims;
    if a == b {
      assert AcceptsAt(evs, i, a.iss, a.jti, a.exp) && AcceptsAt(evs, j, b.iss, b.jti, b.exp);
      AcceptedTwiceHasExpired(evs, i, j, a.iss, a.jti, a.exp, b.exp);
    }
  }

  ghost predicate UnexpiredEarlier(evs: seq<Event>, j: nat, iss: string, jti: string)
    requires j < |evs|
  {
    exists i: nat, exp :: i < j && AcceptsAt(evs, i, iss, jti, exp) && exp > evs[j].trust.now as real
  }

  lemma AcceptedPassed(evs: seq<Event>, i: nat, iss: string, jti: string, exp: real)
    requires i < |evs| && AcceptsAt(evs, i, iss, jti, exp)
    ensures Check(evs[i].trust, evs[i].token).Accepted? && Check(evs[i].trust, evs[i].token).claims.iss == iss
            && iss != ""
  {
  }

  lemma KeptIsUnexpired(issuers: set<string>, evs: seq<Event>, j: nat, iss: string, jti: string)
    requires IssuedBy(issuers, evs) && Apart(issuers) && j < |evs| && iss in issuers && iss != ""
    requires StoreKey(iss, jti) in Pruned(SeenAfter(evs, j), evs[j].trust.now)
    ensures UnexpiredEarlier(evs, j, iss, jti)
  {
    var key := StoreKey(iss, jti);
    var exp := SeenAfter(evs, j)[key];
    SeenIsExplained(evs, j, key);
    var i: nat, issuer, id :| i < j && key == StoreKey(issuer, id) && AcceptsAt(evs, i, issuer, id, exp);
    AcceptedPassed(evs, i, issuer, id, exp);
    StoreKeyIdentifies(iss, jti, issuer, id);
  }

  lemma UnexpiredIsKept(evs: seq<Event>, j: nat, iss: string, jti: string)
    requires ClockAdvances(evs) && j < |evs| && UnexpiredEarlier(evs, j, iss, jti)
    ensures StoreKey(iss, jti) in Pruned(SeenAfter(evs, j), evs[j].trust.now)
  {
    var i: nat, exp :| i < j && AcceptsAt(evs, i, iss, jti, exp) && exp > evs[j].trust.now as real;
    AcceptedStays(evs, i, j, iss, jti, exp);
  }

  /** Passing every check, event `j` is refused as a replay exactly if an unexpired earlier one used its identifier. */
  ghost predicate ReplayExact(evs: seq<Event>, j: nat)
    requires j < |evs|
  {
    Check(evs[j].trust, evs[j].token).Accepted? && !evs[j].trust.storeFails ==>
      var claims := Check(evs[j].trust, evs[j].token).claims;
      VerdictAt(evs, j) == if UnexpiredEarlier(evs, j, claims.iss, claims.jti) then Refused(Replayed)
      else Accepted(claims)
  }

  lemma ReplayedIffUnexpired(issuers: set<string>, evs: seq<Event>, j: nat)
    requires ClockAdvances(evs) && IssuedBy(issuers, evs) && Apart(issuers) && j < |evs|
    ensures ReplayExact(evs, j)
  {
    if Check(evs[j].trust, evs[j].token).Accepted? && !evs[j].trust.storeFails {
      var claims := Check(evs[j].trust, evs[j].token).claims;
      if UnexpiredEarlier(evs, j, claims.iss, claims.jti) {
        UnexpiredIsKept(evs, j, claims.iss, claims.jti);
      } else if StoreKey(claims.iss, claims.jti) in Pruned(SeenAfter(evs, j), evs[j].trust.now) {
        KeptIsUnexpired(issuers, evs, j, claims.iss, claims.jti);
      }
    }
  }

  // ---------------------------------------------------------------- issuers that extend one another

  lemma {:induction false} SplitAtFirst(a: string, rest: string, separator: char)
    requires separator !in a
    ensures SplitAt(a + ([separator] + rest), separator) == [a] + SplitAt(rest, separator)
  {
    var s := a + ([separator] + rest);
    if |a| == 0 {
      assert s[0] == separator && s[1..] == rest;
    } else {
      assert separator !in a[1..];
      SplitAtFirst(a[1..], rest, separator);
      assert s[1..] == a[1..] + ([separator] + rest);
      assert [a[0]] + a[1..] == a;
    }
  }

  /** Some token carries this payload. */
  lemma Envelope(payload: string) returns (token: string)
    requires '.' !in payload
    ensures SplitAt(token, '.') == [PREFIX, VERSION, payload, "s"]
  {
    var signed := payload + (['.'] + "s");
    SplitAtFirst(payload, "s", '.');
    SplitAtFirst(VERSION, signed, '.');
    SplitAtFirst(PREFIX, VERSION + (['.'] + signed), '.');
    token := PREFIX + (['.'] + (VERSION + (['.'] + signed)));
    assert SplitAt("s", '.') == ["s"] by { assert "s"[1..] == "" && ['s'] + "" == "s"; }
  }

  /** A verifier that reads one of two payloads, and to whom nothing else gives offence. */
  function Hearing(first: Raw, second: Raw): Trust {
    Trust((text: string) => Some(if text == "p" then first else second), (_, _) => PublicKey("k"), (_, _, _) => true,
          1, 0, "us", _ => true, None, false)
  }

  function Said(iss: string, jti: string): Claims { Claims(iss, "us", "me", 0.0, 9.0, jti, None, None) }

  lemma CheckPasses(t: Trust, token: string, parts: seq<string>, claims: Claims, pem: string)
    requires SplitAt(token, '.') == parts && |parts| == 4 && parts[0] == PREFIX && parts[1] == VERSION
    requires DecodeClaims(t.decode(parts[2])) == Some(claims)
    requires claims.exp > t.now as real && claims.iat <= (t.now + t.skew) as real
    requires t.resolve(claims.iss, claims.kid) == PublicKey(pem)
    requires t.signed(pem, PREFIX + "." + VERSION + "." + parts[2], parts[3])
    requires claims.aud == t.audience && t.human(claims.sub) && t.subject == None
    ensures Check(t, token) == Accepted(claims)
  {
  }

  lemma HearingPasses(first: Raw, second: Raw, token: string, parts: seq<string>, iss: string, jti: string)
    requires SplitAt(token, '.') == parts && |parts| == 4 && parts[0] == PREFIX && parts[1] == VERSION
    requires iss != "" && jti != "" && PayloadOf(Said(iss, jti)) == if parts[2] == "p" then first else second
    ensures Check(Hearing(first, second), token) == Accepted(Said(iss, jti))
  {
    ClaimsRoundTrip(Said(iss, jti));
    CheckPasses(Hearing(first, second), token, parts, Said(iss, jti), "k");
  }

  lemma SomeTokensSay(a: string, x: string, b: string, y: string) returns (t: Trust, first: string, second: string)
    requires a != "" && x != "" && b != "" && y != ""
    ensures Check(t, first) == Accepted(Said(a, x)) && Check(t, second) == Accepted(Said(b, y))
    ensures t.now == 1 && !t.storeFails
  {
    t := Hearing(PayloadOf(Said(a, x)), PayloadOf(Said(b, y)));
    first := Envelope("p");
    second := Envelope("q");
    HearingPasses(PayloadOf(Said(a, x)), PayloadOf(Said(b, y)), first, [PREFIX, VERSION, "p", "s"], a, x);
    HearingPasses(PayloadOf(Said(a, x)), PayloadOf(Said(b, y)), second, [PREFIX, VERSION, "q", "s"], b, y);
  }

  /** Past the other checks, the key alone decides. */
  lemma KeyDecides(t: Trust, seen: Seen, token: string, claims: Claims)
    requires Check(t, token) == Accepted(claims) && !t.storeFails
    ensures var key := StoreKey(claims.iss, claims.jti); var kept := Pruned(seen, t.now);
            Verify(t, seen, token) == if key in kept then (kept, Refused(Replayed))
            else (kept[key := claims.exp], Accepted(claims))
  {
  }

  /** The second of two assertions that pass every check, and whose keys meet. */
  lemma MeetingKeysRefuse(evs: seq<Event>, first: Claims, second: Claims)
    requires |evs| == 2 && !evs[0].trust.storeFails && !evs[1].trust.storeFails
    requires Check(evs[0].trust, evs[0].token) == Accepted(first)
             && Check(evs[1].trust, evs[1].token) == Accepted(second)
    requires StoreKey(first.iss, first.jti) == StoreKey(second.iss, second.jti) && first.exp > evs[1].trust.now as real
    ensures VerdictAt(evs, 0) == Accepted(first) && VerdictAt(evs, 1) == Refused(Replayed)
  {
    var key := StoreKey(first.iss, first.jti);
    KeyDecides(evs[0].trust, map[], evs[0].token, first);
    assert SeenAfter(evs, 0) == map[];
    assert key in SeenAfter(evs, 1) && SeenAfter(evs, 1)[key] == first.exp;
    KeyDecides(evs[1].trust, SeenAfter(evs, 1), evs[1].token, second);
  }

  lemma OtherIssuerIsNoEarlierUse(evs: seq<Event>, first: Claims, iss: string, jti: string)
    requires |evs| == 2 && VerdictAt(evs, 0) == Accepted(first) && first.iss != iss
    ensures !UnexpiredEarlier(evs, 1, iss, jti)
  {
  }

  /** The second of two assertions is refused as a replay although nobody ever used its identifier. */
  lemma FreshIsRefused(a: string, b: string) returns (evs: seq<Event>)
    requires a != "" && NulExtends(a, b)
    ensures |evs| == 2 && evs[0].trust == evs[1].trust && ClockAdvances(evs) && IssuedBy({a, b}, evs)
    ensures VerdictAt(evs, 0).Accepted? && Check(evs[1].trust, evs[1].token).Accepted? && !evs[1].trust.storeFails
    ensures VerdictAt(evs, 1) == Refused(Replayed)
    ensures var claims := Check(evs[1].trust, evs[1].token).claims; !UnexpiredEarlier(evs, 1, claims.iss, claims.jti)
  {
    var jti := b[|a| + 1..] + [NUL] + "j";
    var trust, first, second := SomeTokensSay(a, jti, b, "j");
    evs := [Event(trust, first), Event(trust, second)];
    ExtensionCollides(a, b, "j");
    MeetingKeysRefuse(evs, Said(a, jti), Said(b, "j"));
    OtherIssuerIsNoEarlierUse(evs, Said(a, jti), b, "j");
  }

  /** The replay check is exact in every run over a set of issuers exactly if none extends another with a NUL. */
  lemma ReplayExactIff(issuers: set<string>)
    ensures (forall evs, j: nat :: ClockAdvances(evs) && IssuedBy(issuers, evs) && j < |evs| ==> ReplayExact(evs, j))
            <==> Apart(issuers)
  {
    if Apart(issuers) {
      forall evs, j: nat | ClockAdvances(evs) && IssuedBy(issuers, evs) && j < |evs| ensures ReplayExact(evs, j) {
        ReplayedIffUnexpired(issuers, evs, j);
      }
    } else {
      var a, b :| a in issuers && b in issuers && a != "" && NulExtends(a, b);
      var evs := FreshIsRefused(a, b);
      assert IssuedBy(issuers, evs) by {
        forall i | 0 <= i < |evs| && Check(evs[i].trust, evs[i].token).Accepted?
          ensures Check(evs[i].trust, evs[i].token).claims.iss in issuers
        {
          assert Check(evs[i].trust, evs[i].token).claims.iss in {a, b};
        }
      }
      assert !ReplayExact(evs, 1);
    }
  }

  /** A refusal before the replay store, or by an unavailable one, leaves it as it was. */
  lemma EarlyRefusalChangesNothing(t: Trust, seen: Seen, token: string)
    ensures Verify(t, seen, token).1.Refused? && Verify(t, seen, token).1.why != Replayed ==>
              Verify(t, seen, token).0 == seen
    ensures Check(t, token).Refused? ==> Verify(t, seen, token).1 == Check(t, token)
    ensures Check(t, token).Accepted? && t.storeFails ==> Verify(t, seen, token).1 == Refused(Unavailable)
  {
  }

  /** What an acceptance guarantees about the token. */
  lemma AcceptanceMeans(t: Trust, seen: Seen, token: string)
    requires Verify(t, seen, token).1.Accepted?
    ensures var claims := Verify(t, seen, token).1.claims; var parts := SplitAt(token, '.');
            && |parts| == 4 && DecodeClaims(t.decode(parts[2])) == Some(claims)
            && claims.exp > t.now as real && claims.iat <= (t.now + t.skew) as real
            && claims.aud == t.audience && t.human(claims.sub)
            && (t.subject.Some? ==> claims.sub == t.subject.value)
            && t.resolve(claims.iss, claims.kid).PublicKey?
            && t.signed(t.resolve(claims.iss, claims.kid).pem, "bawes-aa.v1." + parts[2], parts[3])
            && Verify(t, seen, token).0 == Pruned(seen, t.now)[StoreKey(claims.iss, claims.jti) := claims.exp]
  {
    assert PREFIX + "." + VERSION + "." == "bawes-aa.v1.";
  }
}
