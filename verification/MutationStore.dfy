/**
 * The idempotent mutation store: a key claims one commit, later calls replay it, and cleanup
 * drops what has expired.
 */
module MutationStore {
  import opened Options
  import opened CanonicalJson
  import opened Utf16

  // ---------------------------------------------------------------- keys

  predicate IsLowerHex(u: Unit) { IsDigit(u) || 97 <= u <= 102 }
  predicate IsHexDigit(u: Unit) { IsLowerHex(u) || 65 <= u <= 70 }

  /** A version 4 UUID, in either case. */
  predicate IsUuid(t: Text) {
    && |t| == 36
    && t[14] == 52
    && (t[19] == 56 || t[19] == 57 || t[19] == 97 || t[19] == 98 || t[19] == 65 || t[19] == 66)
    && forall i :: 0 <= i < 36 ==> if i == 8 || i == 13 || i == 18 || i == 23 then t[i] == 45 else IsHexDigit(t[i])
  }

  /** `v1.` + 13 digits + `.` + UUID. */
  predicate IsKey(k: Text) {
    && |k| == 53
    && (k[0] == 118 || k[0] == 86) && k[1] == 49 && k[2] == 46
    && (forall i :: 0 <= i < 13 ==> IsDigit(k[3..16][i]))
    && k[16] == 46
    && IsUuid(k[17..])
  }

  function FoldUnit(u: Unit): Unit { if 65 <= u <= 90 then u + 32 else u }

  function Fold(t: Text): Text { seq(|t|, i requires 0 <= i < |t| => FoldUnit(t[i])) }

  function DecimalValue(digits: Text): int {
    if |digits| == 0 then 0 else 10 * DecimalValue(digits[..|digits| - 1]) + (digits[|digits| - 1] as int - 48)
  }

  function IssuedAt(k: Text): int
    requires IsKey(k)
  {
    DecimalValue(k[3..16])
  }

  lemma FoldKeepsKey(k: Text)
    requires IsKey(k)
    ensures IsKey(Fold(k)) && IssuedAt(Fold(k)) == IssuedAt(k)
  {
    var f := Fold(k);
    assert f[3..16] == k[3..16] by {
      forall i | 0 <= i < 13 ensures f[3..16][i] == k[3..16][i] { assert IsDigit(k[3..16][i]); }
    }
    forall i | 0 <= i < 36
      ensures if i == 8 || i == 13 || i == 18 || i == 23 then f[17..][i] == 45 else IsHexDigit(f[17..][i])
    {
      assert f[17..][i] == FoldUnit(k[17..][i]);
    }
  }

  // what is accepted, spelled out unit by unit

  const DIGITS := "0123456789"
  const HEX := "0123456789abcdefABCDEF"
  const LOWER_HEX := "0123456789abcdef"
  const LOWER := "abcdefghijklmnopqrstuvwxyz"
  const UPPER := "ABCDEFGHIJKLMNOPQRSTUVWXYZ"

  predicate OneOf(u: Unit, letters: string) { exists i :: 0 <= i < |letters| && u == letters[i] as int }

  predicate AllOf(t: Text, letters: string) { forall i :: 0 <= i < |t| ==> OneOf(t[i], letters) }

  lemma DigitsAndHex(u: Unit)
    ensures OneOf(u, DIGITS) <==> IsDigit(u)
    ensures OneOf(u, HEX) <==> IsHexDigit(u)
    ensures OneOf(u, LOWER_HEX) <==> IsLowerHex(u)
  {
    if IsDigit(u) { assert u == DIGITS[u - 48] as int && u == HEX[u - 48] as int && u == LOWER_HEX[u - 48] as int; }
    if 97 <= u <= 102 { assert u == HEX[u - 87] as int && u == LOWER_HEX[u - 87] as int; }
    if 65 <= u <= 70 { assert u == HEX[u - 49] as int; }
  }

  lemma OneOfFew(u: Unit)
    ensures OneOf(u, "89abAB") <==> u in {56, 57, 97, 98, 65, 66}
    ensures OneOf(u, "vV") <==> u in {118, 86}
  {
    assert "89abAB"[0] as int == 56 && "89abAB"[1] as int == 57 && "89abAB"[2] as int == 97;
    assert "89abAB"[3] as int == 98 && "89abAB"[4] as int == 65 && "89abAB"[5] as int == 66;
    assert "vV"[0] as int == 118 && "vV"[1] as int == 86;
  }

  lemma AllDigitsOrHex(t: Text)
    ensures AllOf(t, DIGITS) <==> forall i :: 0 <= i < |t| ==> IsDigit(t[i])
    ensures AllOf(t, HEX) <==> forall i :: 0 <= i < |t| ==> IsHexDigit(t[i])
    ensures AllOf(t, LOWER_HEX) <==> forall i :: 0 <= i < |t| ==> IsLowerHex(t[i])
  {
    forall i | 0 <= i < |t|
      ensures OneOf(t[i], DIGITS) <==> IsDigit(t[i])
      ensures OneOf(t[i], HEX) <==> IsHexDigit(t[i])
      ensures OneOf(t[i], LOWER_HEX) <==> IsLowerHex(t[i])
    {
      DigitsAndHex(t[i]);
    }
  }

  predicate HexBetween(t: Text, m: nat, n: nat)
    requires m <= n <= |t|
  {
    forall i :: m <= i < n ==> IsHexDigit(t[i])
  }

  lemma HexSlice(t: Text, m: nat, n: nat)
    requires m <= n <= |t|
    ensures AllOf(t[m..n], HEX) <==> HexBetween(t, m, n)
  {
    AllDigitsOrHex(t[m..n]);
    forall i | 0 <= i < n - m ensures t[m..n][i] == t[m + i] {}
    if forall i :: 0 <= i < n - m ==> IsHexDigit(t[m..n][i]) {
      forall i | m <= i < n ensures IsHexDigit(t[i]) { assert t[m..n][i - m] == t[i]; }
    }
  }

  lemma UuidGroups(t: Text)
    requires |t| == 36
    ensures IsUuid(t) <==>
            && t[8] == t[13] == t[18] == t[23] == 45 && t[14] == 52 && t[19] in {56, 57, 97, 98, 65, 66}
            && HexBetween(t, 0, 8) && HexBetween(t, 9, 13) && HexBetween(t, 15, 18) && HexBetween(t, 20, 23)
            && HexBetween(t, 24, 36)
  {
  }

  /** A version 4 UUID, group by group. */
  lemma UuidIff(t: Text)
    ensures IsUuid(t) <==>
            && |t| == 36 && t[8] == t[13] == t[18] == t[23] == '-' as int
            && AllOf(t[0..8], HEX) && AllOf(t[9..13], HEX) && t[14] == '4' as int && AllOf(t[15..18], HEX)
            && OneOf(t[19], "89abAB") && AllOf(t[20..23], HEX) && AllOf(t[24..36], HEX)
  {
    if |t| == 36 {
      OneOfFew(t[19]);
      HexSlice(t, 0, 8);
      HexSlice(t, 9, 13);
      HexSlice(t, 15, 18);
      HexSlice(t, 20, 23);
      HexSlice(t, 24, 36);
      UuidGroups(t);
    }
  }

  /** A key is `v1.` in either case, 13 digits, a point and such a UUID. */
  lemma KeyIff(k: Text)
    ensures IsKey(k) <==>
            && |k| == 53 && OneOf(k[0], "vV") && k[1] == '1' as int && k[2] == '.' as int
            && AllOf(k[3..16], DIGITS) && k[16] == '.' as int && IsUuid(k[17..])
  {
    if |k| == 53 {
      OneOfFew(k[0]);
      AllDigitsOrHex(k[3..16]);
    }
  }

  lemma RouteUnits(u: Unit)
    ensures IsRouteUnit(u) <==> OneOf(u, UPPER) || OneOf(u, LOWER) || OneOf(u, DIGITS) || OneOf(u, "_{}.:/-")
  {
    DigitsAndHex(u);
    assert forall l :: 0 <= l < 26 ==> LOWER[l] as int == 97 + l && UPPER[l] as int == 65 + l;
    if 65 <= u <= 90 { assert u == UPPER[u - 65] as int; }
    if 97 <= u <= 122 { assert u == LOWER[u - 97] as int; }
    var marks := "_{}.:/-";
    assert marks[0] as int == 95 && marks[1] as int == 123 && marks[2] as int == 125 && marks[3] as int == 46;
    assert marks[4] as int == 58 && marks[5] as int == 47 && marks[6] as int == 45;
  }

  /** Which requests are valid. */
  lemma RequestIsValidIff(r: Request)
    ensures RequestIsValid(r) <==>
            && |r.principalRef| == 64 && AllOf(r.principalRef, LOWER_HEX)
            && r.method_ in [Ascii("POST"), Ascii("PUT"), Ascii("PATCH"), Ascii("DELETE")]
            && |r.route| > 0 && r.route[0] == '/' as int
            && (forall u :: u in r.route ==>
                    OneOf(u, UPPER) || OneOf(u, LOWER) || OneOf(u, DIGITS) || OneOf(u, "_{}.:/-"))
            && Accepted(r.payload)
  {
    AllDigitsOrHex(r.principalRef);
    forall u
      ensures IsRouteUnit(u) <==> OneOf(u, UPPER) || OneOf(u, LOWER) || OneOf(u, DIGITS) || OneOf(u, "_{}.:/-")
    {
      RouteUnits(u);
    }
    assert (forall i :: 0 <= i < |r.route| ==> IsRouteUnit(r.route[i])) <==>
           (forall u :: u in r.route ==> IsRouteUnit(u));
  }

  /** One letter in its two cases, or the same unit twice. */
  predicate SameLetter(u: Unit, w: Unit) {
    || u == w
    || exists l :: 0 <= l < 26 && ((u == LOWER[l] as int && w == UPPER[l] as int)
                                   || (u == UPPER[l] as int && w == LOWER[l] as int))
  }

  lemma FoldUnitIdentifies(u: Unit, w: Unit)
    ensures FoldUnit(u) == FoldUnit(w) <==> SameLetter(u, w)
  {
    assert forall l :: 0 <= l < 26 ==> LOWER[l] as int == 97 + l && UPPER[l] as int == 65 + l;
    if 65 <= u <= 90 && w == u + 32 { assert u == UPPER[u - 65] as int && w == LOWER[u - 65] as int; }
    if 65 <= w <= 90 && u == w + 32 { assert w == UPPER[w - 65] as int && u == LOWER[w - 65] as int; }
  }

  /** Two keys are one exactly if they differ only in the case of their letters. */
  lemma FoldIdentifies(a: Text, b: Text)
    ensures Fold(a) == Fold(b) <==> |a| == |b| && forall i :: 0 <= i < |a| ==> SameLetter(a[i], b[i])
  {
    if |a| == |b| {
      forall i | 0 <= i < |a| ensures Fold(a)[i] == Fold(b)[i] <==> SameLetter(a[i], b[i]) {
        FoldUnitIdentifies(a[i], b[i]);
      }
    }
  }

  function Decimal(n: nat): (t: Text)
    ensures |t| > 0
  {
    if n < 10 then [48 + n] else Decimal(n / 10) + [48 + n % 10]
  }

  function IntegerText(n: int): Text { if n < 0 then [45] + Decimal(-n) else Decimal(n) }

  function CreateKey(now: int, uuid: Text): Text
    requires IsUuid(uuid)
  {
    [118, 49, 46] + IntegerText(now) + [46] + Fold(uuid)
  }

  function Pow10(k: nat): nat { if k == 0 then 1 else 10 * Pow10(k - 1) }

  lemma {:induction false} DecimalDigits(n: nat, k: nat)
    requires k > 0
    ensures |Decimal(n)| <= k <==> n < Pow10(k)
    ensures DecimalValue(Decimal(n)) == n
    ensures forall i :: 0 <= i < |Decimal(n)| ==> IsDigit(Decimal(n)[i])
    decreases n
  {
    if n >= 10 {
      var d := Decimal(n / 10);
      assert Decimal(n)[..|d|] == d;
      if k > 1 {
        DecimalDigits(n / 10, k - 1);
      } else {
        DecimalDigits(n / 10, 1);
      }
    } else {
      assert DecimalValue([48 + n]) == 10 * DecimalValue([48 + n][..0]) + n;
      Pow10Grows(k);
    }
  }

  lemma {:induction false} Pow10Grows(k: nat)
    requires k > 0
    ensures Pow10(k) >= 10
  {
    if k > 1 { Pow10Grows(k - 1); }
  }

  lemma Pow10Values()
    ensures Pow10(12) == 1_000_000_000_000 && Pow10(13) == 10_000_000_000_000
  {
    assert Pow10(3) == 1000;
    assert Pow10(6) == 1_000_000;
    assert Pow10(9) == 1_000_000_000;
    assert Pow10(12) == 1_000_000_000_000;
  }

  /** A generated key is accepted exactly when its instant has 13 digits, and then carries it. */
  lemma CreatedKeyAccepted(now: int, uuid: Text)
    requires IsUuid(uuid)
    ensures IsKey(CreateKey(now, uuid)) <==> 1_000_000_000_000 <= now < 10_000_000_000_000
    ensures IsKey(CreateKey(now, uuid)) ==>
              && IssuedAt(CreateKey(now, uuid)) == now && Fold(CreateKey(now, uuid)) == CreateKey(now, uuid)
              && CreateKey(now, uuid)[17..] == Fold(uuid)
  {
    var k, t := CreateKey(now, uuid), IntegerText(now);
    assert k[3] == t[0];
    if now >= 0 {
      DecimalDigits(now, 12);
      DecimalDigits(now, 13);
      Pow10Values();
      assert |k| == 40 + |t|;
      if |t| == 13 {
        assert k[3..16] == t;
        assert k[17..] == Fold(uuid);
        assert IsUuid(Fold(uuid)) by { FoldKeepsUuid(uuid); }
      }
    } else if |k| == 53 {
      assert k[3..16][0] == 45;
    }
    if IsKey(k) { assert Fold(k) == k by { FoldedKey(now, uuid); } }
  }

  lemma FoldKeepsUuid(t: Text)
    requires IsUuid(t)
    ensures IsUuid(Fold(t)) && Fold(Fold(t)) == Fold(t)
  {
  }

  lemma FoldKeepsPlain(t: Text)
    requires forall i :: 0 <= i < |t| ==> FoldUnit(t[i]) == t[i]
    ensures Fold(t) == t
  {
  }

  lemma FoldJoins(a: Text, b: Text)
    ensures Fold(a + b) == Fold(a) + Fold(b)
  {
  }

  lemma FoldedKey(now: int, uuid: Text)
    requires IsUuid(uuid) && now >= 0
    ensures Fold(CreateKey(now, uuid)) == CreateKey(now, uuid)
  {
    var version: Text, digits := [118, 49, 46], IntegerText(now);
    DecimalDigits(now, 1);
    FoldKeepsPlain(version + digits + [46]);
    FoldKeepsUuid(uuid);
    FoldJoins(version + digits + [46], Fold(uuid));
  }

  // ---------------------------------------------------------------- store

  datatype Response = Response(status: int, headers: map<Text, Text>, body: Option<Json>)

  datatype Record = Record(fingerprint: Text, expiresAt: int, response: Response)

  type Tables = map<Text, seq<Json>>

  datatype Store = Store(records: map<Text, Record>, collections: Tables, outbox: Tables)

  datatype Write = Insert(collection: Text, row: Json) | Enqueue(topic: Text, event: Json)

  /** One call of the caller's operation: the rows it offers, then its response, or None when it throws. */
  datatype Operation = Operation(writes: seq<Write>, response: Option<Response>)

  datatype Outcome = Executed(response: Response) | Replayed(response: Response) | Conflict | Expired | Failed

  function Append(t: Tables, name: Text, row: Json): Tables {
    t[name := (if name in t then t[name] else []) + [row]]
  }

  /** The collections and the outbox after `writes`, oldest first. */
  function Apply(writes: seq<Write>, collections: Tables, outbox: Tables): (Tables, Tables) {
    if |writes| == 0 then (collections, outbox)
    else
      var (c, o) := Apply(writes[..|writes| - 1], collections, outbox);
      match writes[|writes| - 1]
      case Insert(name, row) => (Append(c, name, row), o)
      case Enqueue(topic, event) => (c, Append(o, topic, event))
  }

  lemma {:induction false} ApplyConcat(a: seq<Write>, b: seq<Write>, c: Tables, o: Tables)
    ensures Apply(a + b, c, o) == Apply(b, Apply(a, c, o).0, Apply(a, c, o).1)
  {
    if |b| == 0 {
      assert a + b == a;
    } else {
      ApplyConcat(a, b[..|b| - 1], c, o);
      assert (a + b)[..|a + b| - 1] == a + b[..|b| - 1];
    }
  }

  /** What a table holds under a name. */
  function At(t: Tables, name: Text): seq<Json> { if name in t then t[name] else [] }

  /** What one write adds to a collection, and to a topic. */
  function RowFor(w: Write, name: Text): seq<Json> { if w.Insert? && w.collection == name then [w.row] else [] }
  function EventFor(w: Write, topic: Text): seq<Json> { if w.Enqueue? && w.topic == topic then [w.event] else [] }

  /** The rows inserted into a collection, and the events enqueued under a topic, oldest first. */
  function RowsFor(writes: seq<Write>, name: Text): seq<Json> {
    if |writes| == 0 then [] else RowsFor(writes[..|writes| - 1], name) + RowFor(writes[|writes| - 1], name)
  }

  function EventsFor(writes: seq<Write>, topic: Text): seq<Json> {
    if |writes| == 0 then [] else EventsFor(writes[..|writes| - 1], topic) + EventFor(writes[|writes| - 1], topic)
  }

  lemma AppendAdds(t: Tables, name: Text, row: Json, other: Text)
    ensures At(Append(t, name, row), other) == At(t, other) + if other == name then [row] else []
    ensures other in Append(t, name, row) <==> other in t || other == name
  {
  }

  lemma Regrouped(a: seq<Json>, b: seq<Json>, c: seq<Json>)
    ensures (a + b) + c == a + (b + c) && (b + c != [] <==> b != [] || c != [])
  {
    if b + c == [] { assert |b| + |c| == 0; }
  }

  /** Writes only add: each table grows by the rows written for it, in order, and by no others. */
  lemma {:induction false} WritesAppend(writes: seq<Write>, collections: Tables, outbox: Tables, name: Text)
    ensures var (c, o) := Apply(writes, collections, outbox);
            && At(c, name) == At(collections, name) + RowsFor(writes, name)
            && (name in c <==> name in collections || RowsFor(writes, name) != [])
            && At(o, name) == At(outbox, name) + EventsFor(writes, name)
            && (name in o <==> name in outbox || EventsFor(writes, name) != [])
    decreases |writes|
  {
    if |writes| > 0 {
      var init, last := writes[..|writes| - 1], writes[|writes| - 1];
      var (c, o) := Apply(init, collections, outbox);
      WritesAppend(init, collections, outbox, name);
      Regrouped(At(collections, name), RowsFor(init, name), RowFor(last, name));
      Regrouped(At(outbox, name), EventsFor(init, name), EventFor(last, name));
      match last
      case Insert(collection, row) => AppendAdds(c, collection, row, name);
      case Enqueue(topic, event) => AppendAdds(o, topic, event, name);
    }
  }

  function Scope(principalRef: Text, key: Text): Text { principalRef + [10] + key }

  function Attempt(st: Store, unique: bool, now: int, scope: Text, fingerprint: Text, expiresAt: int, op: Operation)
    : (Store, Outcome)
  {
    if now >= expiresAt then (st, Expired)
    else if unique && scope in st.records then
      (st, if st.records[scope].fingerprint != fingerprint then Conflict else Replayed(st.records[scope].response))
    else
      match op.response
      case None => (st, Failed)
      case Some(response) =>
        var (c, o) := Apply(op.writes, st.collections, st.outbox);
        (Store(st.records[scope := Record(fingerprint, expiresAt, response)], c, o), Executed(response))
  }

  function Cleanup(st: Store, now: int): Store {
    st.(records := map s | s in st.records && st.records[s].expiresAt > now :: st.records[s])
  }

  /** The in-memory store. Its bodies run one at a time, under the transaction lock. */
  class RecordingStore {
    var records: map<Text, Record>
    var collections: Tables
    var outbox: Tables
    const enforceUniqueRecords: bool

    constructor (enforceUniqueRecords: bool)
      ensures State() == Store(map[], map[], map[]) && this.enforceUniqueRecords == enforceUniqueRecords
    {
      records, collections, outbox := map[], map[], map[];
      this.enforceUniqueRecords := enforceUniqueRecords;
    }

    ghost function State(): Store
      reads this
    {
      Store(records, collections, outbox)
    }

    method ExecuteAtomic(now: int, principalRef: Text, key: Text, fingerprint: Text, expiresAt: int, op: Operation)
      returns (outcome: Outcome)
      modifies this
      ensures (State(), outcome) ==
              Attempt(old(State()), enforceUniqueRecords, now, Scope(principalRef, key), fingerprint, expiresAt, op)
    {
      var scope := Scope(principalRef, key);
      if now >= expiresAt {
        return Expired;
      }
      if enforceUniqueRecords && scope in records {
        var existing := records[scope];
        return if existing.fingerprint != fingerprint then Conflict else Replayed(existing.response);
      }
      var draftCollections, draftOutbox := collections, outbox;
      for i := 0 to |op.writes|
        invariant (draftCollections, draftOutbox) == Apply(op.writes[..i], collections, outbox)
      {
        assert op.writes[..i + 1][..i] == op.writes[..i];
        match op.writes[i] {
          case Insert(name, row) => draftCollections := Append(draftCollections, name, row);
          case Enqueue(topic, event) => draftOutbox := Append(draftOutbox, topic, event);
        }
      }
      assert op.writes[..|op.writes|] == op.writes;
      match op.response {
        case None => return Failed;
        case Some(response) =>
          collections, outbox := draftCollections, draftOutbox;
          records := records[scope := Record(fingerprint, expiresAt, response)];
          return Executed(response);
      }
    }

    method CleanupExpired(now: int) returns (removed: nat)
      modifies this
      ensures State() == Cleanup(old(State()), now)
      ensures removed == |old(records)| - |records|
    {
      removed := 0;
      var pending := records.Keys;
      while pending != {}
        invariant pending <= old(records).Keys
        invariant records ==
                  map s | s in old(records) && (s in pending || old(records)[s].expiresAt > now) :: old(records)[s]
        invariant removed == |old(records)| - |records|
        invariant collections == old(collections) && outbox == old(outbox)
      {
        var scope :| scope in pending;
        assert scope in records;
        pending := pending - {scope};
        if records[scope].expiresAt <= now {
          assert |records.Keys - {scope}| == |records.Keys| - 1;
          assert (records - {scope}).Keys == records.Keys - {scope};
          records := records - {scope};
          removed := removed + 1;
        }
      }
    }
  }

  // ---------------------------------------------------------------- execute

  datatype Call = Call(key: Option<Text>, request: Request)

  datatype Reason =
    | InvalidRequest | MissingKey | InvalidKey | KeyInFuture | KeyExpired | KeyPayloadMismatch | OperationFailed

  datatype Result = Ok(replayed: bool, response: Response) | Refused(status: int, reason: Reason)

  datatype Config = Config(unique: bool, retention: int, futureSkew: nat, hash: Text -> Text)

  predicate IsRouteUnit(u: Unit) {
    IsDigit(u) || 65 <= u <= 90 || 97 <= u <= 122 || u in {95, 123, 125, 46, 58, 47, 45}
  }

  predicate RequestIsValid(r: Request) {
    && |r.principalRef| == 64 && (forall i :: 0 <= i < 64 ==> IsLowerHex(r.principalRef[i]))
    && r.method_ in {Ascii("POST"), Ascii("PUT"), Ascii("PATCH"), Ascii("DELETE")}
    && |r.route| > 0 && r.route[0] == 47 && (forall i :: 0 <= i < |r.route| ==> IsRouteUnit(r.route[i]))
    && Accepted(r.payload)
  }

  function ExpiresAt(config: Config, key: Text): int
    requires IsKey(key)
  {
    IssuedAt(key) + config.retention
  }

  /** The refusals made before the store is reached. */
  function Refusal(config: Config, call: Call, now: nat): (r: Option<Result>)
    ensures r.None? ==> call.key.Some? && IsKey(call.key.value) && RequestIsValid(call.request)
  {
    if !RequestIsValid(call.request) then Some(Refused(400, InvalidRequest))
    else if call.key.None? || |call.key.value| == 0 then Some(Refused(400, MissingKey))
    else if !IsKey(call.key.value) then Some(Refused(400, InvalidKey))
    else if IssuedAt(call.key.value) > now + config.futureSkew then Some(Refused(400, KeyInFuture))
    else if now >= ExpiresAt(config, call.key.value) then Some(Refused(409, KeyExpired))
    else None
  }

  function ResultOf(outcome: Outcome): Result {
    match outcome
    case Conflict => Refused(409, KeyPayloadMismatch)
    case Expired => Refused(409, KeyExpired)
    case Failed => Refused(503, OperationFailed)
    case Executed(response) => Ok(false, response)
    case Replayed(response) => Ok(true, response)
  }

  function CallScope(call: Call): Text
    requires call.key.Some?
  {
    Scope(call.request.principalRef, Fold(call.key.value))
  }

  /** `checkedAt` is read before the store's lock is taken, `at` inside it. */
  function ExecuteCall(config: Config, st: Store, call: Call, op: Operation, checkedAt: nat, at: nat): (Store, Result) {
    match Refusal(config, call, checkedAt)
    case Some(refused) => (st, refused)
    case None =>
      var (next, outcome) := Attempt(st, config.unique, at, CallScope(call), Fingerprint(config.hash, call.request),
                                     ExpiresAt(config, call.key.value), op);
      (next, ResultOf(outcome))
  }

  class Idempotency {
    const store: RecordingStore
    const config: Config

    constructor (store: RecordingStore, config: Config)
      requires store.enforceUniqueRecords == config.unique
      ensures this.store == store && this.config == config
    {
      this.store := store;
      this.config := config;
    }

    method Check(call: Call, now: nat) returns (refused: Option<Result>)
      ensures refused == Refusal(config, call, now)
    {
      if !RequestIsValid(call.request) { return Some(Refused(400, InvalidRequest)); }
      if call.key.None? || |call.key.value| == 0 { return Some(Refused(400, MissingKey)); }
      if !IsKey(call.key.value) { return Some(Refused(400, InvalidKey)); }
      var issuedAt := IssuedAt(call.key.value);
      if issuedAt > now + config.futureSkew { return Some(Refused(400, KeyInFuture)); }
      if now >= issuedAt + config.retention { return Some(Refused(409, KeyExpired)); }
      return None;
    }

    method Execute(call: Call, op: Operation, checkedAt: nat, at: nat) returns (result: Result)
      requires store.enforceUniqueRecords == config.unique
      modifies store
      ensures (store.State(), result) == ExecuteCall(config, old(store.State()), call, op, checkedAt, at)
    {
      var refused := Check(call, checkedAt);
      if refused.Some? { return refused.value; }
      var outcome := store.ExecuteAtomic(at, call.request.principalRef, Fold(call.key.value),
                                         Fingerprint(config.hash, call.request), ExpiresAt(config, call.key.value), op);
      result := ResultOf(outcome);
    }
  }

  /** Which refusal a call gets before the store is asked. */
  lemma RefusesIff(config: Config, call: Call, now: nat)
    ensures var r := Refusal(config, call, now); var valid := RequestIsValid(call.request);
            var some := call.key.Some? && call.key.value != [];
            && (r == Some(Refused(400, InvalidRequest)) <==> !valid)
            && (r == Some(Refused(400, MissingKey)) <==> valid && !some)
            && (r == Some(Refused(400, InvalidKey)) <==> valid && some && !IsKey(call.key.value))
            && (r == Some(Refused(400, KeyInFuture)) <==>
                  valid && some && IsKey(call.key.value) && now < IssuedAt(call.key.value) - config.futureSkew)
            && (r == Some(Refused(409, KeyExpired)) <==>
                  && valid && some && IsKey(call.key.value) && now >= IssuedAt(call.key.value) - config.futureSkew
                  && now >= IssuedAt(call.key.value) + config.retention)
            && (r.Some? ==> r.value in {Refused(400, InvalidRequest), Refused(400, MissingKey),
                                        Refused(400, InvalidKey), Refused(400, KeyInFuture),
                                        Refused(409, KeyExpired)})
  {
  }

  /** What a call that is not refused answers, and that only one that runs changes the store. */
  lemma AnswersIff(config: Config, st: Store, call: Call, op: Operation, checkedAt: nat, at: nat)
    requires Refusal(config, call, checkedAt).None?
    ensures var (next, result) := ExecuteCall(config, st, call, op, checkedAt, at);
            var scope := CallScope(call); var expired := at >= IssuedAt(call.key.value) + config.retention;
            var known := config.unique && scope in st.records;
            var same := known && st.records[scope].fingerprint == Fingerprint(config.hash, call.request);
            && (result == Refused(409, KeyExpired) <==> expired)
            && (result == Refused(409, KeyPayloadMismatch) <==> !expired && known && !same)
            && (result.Ok? && result.replayed <==> !expired && same)
            && (result == Refused(503, OperationFailed) <==> !expired && !known && op.response.None?)
            && (result.Ok? && !result.replayed <==> !expired && !known && op.response.Some?)
            && (result.Ok? ==>
                  result.response == if result.replayed then st.records[scope].response else op.response.value)
            && (!(result.Ok? && !result.replayed) ==> next == st)
  {
  }

  // ---------------------------------------------------------------- runs

  datatype Event =
    | Executing(call: Call, op: Operation, checkedAt: nat, at: nat)
    | Cleaning(now: nat, at: nat)

  function Step(config: Config, st: Store, e: Event): Store {
    match e
    case Executing(call, op, checkedAt, at) => ExecuteCall(config, st, call, op, checkedAt, at).0
    case Cleaning(now, _) => Cleanup(st, now)
  }

  /** The store after the first `n` events. */
  function After(config: Config, start: Store, events: seq<Event>, n: nat): Store
    requires n <= |events|
  {
    if n == 0 then start else Step(config, After(config, start, events, n - 1), events[n - 1])
  }

  function ResultAt(config: Config, start: Store, events: seq<Event>, i: nat): Result
    requires i < |events| && events[i].Executing?
  {
    var e := events[i];
    ExecuteCall(config, After(config, start, events, i), e.call, e.op, e.checkedAt, e.at).1
  }

  /** One clock, never going back: each event reads it before, and again when its turn comes. */
  predicate OneClock(events: seq<Event>) {
    && (forall i :: 0 <= i < |events| ==>
          match events[i]
          case Executing(_, _, checkedAt, at) => checkedAt <= at
          case Cleaning(now, at) => now <= at)
    && forall i, j :: 0 <= i < j < |events| ==> events[i].at <= events[j].at
  }

  /** The operation of event `i` ran and its writes were published. */
  predicate Ran(config: Config, start: Store, events: seq<Event>, i: nat)
    requires i < |events|
  {
    events[i].Executing? && ResultAt(config, start, events, i).Ok? && !ResultAt(config, start, events, i).replayed
  }

  predicate SameClaim(a: Call, b: Call) {
    && a.key.Some? && b.key.Some?
    && a.request.principalRef == b.request.principalRef && Fold(a.key.value) == Fold(b.key.value)
  }

  /** What event `i` published. */
  function Published(config: Config, start: Store, events: seq<Event>, i: nat): seq<Write>
    requires i < |events|
  {
    if Ran(config, start, events, i) then events[i].op.writes else []
  }

  /** The writes of the operations that ran among the first `n` events, in order. */
  function Committed(config: Config, start: Store, events: seq<Event>, n: nat): seq<Write>
    requires n <= |events|
  {
    if n == 0 then [] else Committed(config, start, events, n - 1) + Published(config, start, events, n - 1)
  }

  lemma ScopeIdentifies(p: Text, k: Text, q: Text, l: Text)
    requires |p| == |q|
    ensures Scope(p, k) == Scope(q, l) <==> p == q && k == l
  {
    var s, t := Scope(p, k), Scope(q, l);
    if s == t {
      assert s[..|p|] == p && t[..|q|] == q;
      assert s[|p| + 1..] == k && t[|q| + 1..] == l;
    }
  }

  lemma RanFacts(config: Config, start: Store, events: seq<Event>, i: nat)
    requires i < |events| && Ran(config, start, events, i)
    ensures Refusal(config, events[i].call, events[i].checkedAt).None?
    ensures events[i].at < ExpiresAt(config, events[i].call.key.value)
    ensures events[i].op.response.Some?
  {
  }

  /** The record a commit left behind. */
  function Claim(config: Config, e: Event): Record
    requires e.Executing? && e.call.key.Some? && IsKey(e.call.key.value) && e.op.response.Some?
  {
    Record(Fingerprint(config.hash, e.call.request), ExpiresAt(config, e.call.key.value), e.op.response.value)
  }

  ghost predicate Recorded(config: Config, start: Store, events: seq<Event>, n: nat, i: nat)
    requires i < n <= |events| && Ran(config, start, events, i)
  {
    RanFacts(config, start, events, i);
    var s := After(config, start, events, n);
    CallScope(events[i].call) in s.records && s.records[CallScope(events[i].call)] == Claim(config, events[i])
  }

  lemma StepKeepsRecord(config: Config, st: Store, e: Event, scope: Text)
    requires config.unique && scope in st.records
    ensures (scope in Step(config, st, e).records && Step(config, st, e).records[scope] == st.records[scope])
            || (e.Cleaning? && st.records[scope].expiresAt <= e.now)
  {
  }

  /** A call that runs publishes its writes and its record; any other leaves the store as it was. */
  lemma StepEffect(config: Config, st: Store, e: Event)
    requires e.Executing?
    ensures var result := ExecuteCall(config, st, e.call, e.op, e.checkedAt, e.at).1;
            if result.Ok? && !result.replayed then
              && Refusal(config, e.call, e.checkedAt).None? && e.op.response == Some(result.response)
              && e.at < ExpiresAt(config, e.call.key.value)
              && Step(config, st, e).records == st.records[CallScope(e.call) := Claim(config, e)]
              && (Step(config, st, e).collections, Step(config, st, e).outbox) ==
                 Apply(e.op.writes, st.collections, st.outbox)
            else Step(config, st, e) == st
  {
  }

  lemma NewCommitRecorded(config: Config, start: Store, events: seq<Event>, i: nat)
    requires i < |events| && Ran(config, start, events, i)
    ensures Recorded(config, start, events, i + 1, i)
  {
    RanFacts(config, start, events, i);
    StepEffect(config, After(config, start, events, i), events[i]);
  }

  /** Before event `n` the record is still there, or it has expired. */
  ghost predicate Lasts(config: Config, start: Store, events: seq<Event>, scope: Text, record: Record, n: nat)
    requires 0 < n <= |events|
  {
    var records := After(config, start, events, n).records;
    (scope in records && records[scope] == record) || events[n - 1].at >= record.expiresAt
  }

  lemma {:induction false} LastsFrom(config: Config, start: Store, events: seq<Event>, scope: Text, record: Record,
        m: nat, n: nat)
    requires config.unique && OneClock(events) && 0 < m <= n <= |events|
    requires Lasts(config, start, events, scope, record, m)
    ensures Lasts(config, start, events, scope, record, n)
    decreases n
  {
    if m < n {
      LastsFrom(config, start, events, scope, record, m, n - 1);
      assert events[n - 2].at <= events[n - 1].at;
      if scope in After(config, start, events, n - 1).records {
        StepKeepsRecord(config, After(config, start, events, n - 1), events[n - 1], scope);
      }
    }
  }

  /** Every commit is still recorded, unless its key has expired. */
  lemma RecordedUntilExpiry(config: Config, start: Store, events: seq<Event>, n: nat, i: nat)
    requires config.unique && OneClock(events) && i < n <= |events| && Ran(config, start, events, i)
    ensures events[i].call.key.Some? && IsKey(events[i].call.key.value)
    ensures Recorded(config, start, events, n, i) || events[n - 1].at >= ExpiresAt(config, events[i].call.key.value)
  {
    RanFacts(config, start, events, i);
    NewCommitRecorded(config, start, events, i);
    LastsFrom(config, start, events, CallScope(events[i].call), Claim(config, events[i]), i + 1, n);
  }

  /** Every record was left by a commit with that scope. */
  lemma {:induction false} RecordHasCommit(config: Config, start: Store, events: seq<Event>, n: nat,
        scope: Text) returns (i: nat)
    requires config.unique && start.records == map[] && n <= |events|
    requires scope in After(config, start, events, n).records
    ensures i < n && Ran(config, start, events, i)
    ensures events[i].call.key.Some? && IsKey(events[i].call.key.value) && events[i].op.response.Some?
    ensures CallScope(events[i].call) == scope
    ensures After(config, start, events, n).records[scope] == Claim(config, events[i])
    decreases n
  {
    var before := After(config, start, events, n - 1);
    if scope in before.records && before.records[scope] == After(config, start, events, n).records[scope] {
      i := RecordHasCommit(config, start, events, n - 1, scope);
    } else {
      i := n - 1;
      if events[i].Executing? { StepEffect(config, before, events[i]); }
    }
  }

  lemma AnswerFromRecord(config: Config, st: Store, e: Event)
    requires config.unique && e.Executing? && Refusal(config, e.call, e.checkedAt).None?
    requires CallScope(e.call) in st.records || e.at >= ExpiresAt(config, e.call.key.value)
    ensures Step(config, st, e) == st
    ensures ExecuteCall(config, st, e.call, e.op, e.checkedAt, e.at).1 ==
            if e.at >= ExpiresAt(config, e.call.key.value) then Refused(409, KeyExpired)
            else if st.records[CallScope(e.call)].fingerprint == Fingerprint(config.hash, e.call.request)
            then Ok(true, st.records[CallScope(e.call)].response)
            else Refused(409, KeyPayloadMismatch)
  {
  }

  /** What a call answers once its key has been claimed by commit `i`. */
  lemma LaterCall(config: Config, start: Store, events: seq<Event>, i: nat, j: nat)
    requires config.unique && Injective(config.hash) && OneClock(events) && start.records == map[]
    requires i < j < |events| && Ran(config, start, events, i)
    requires events[j].Executing? && SameClaim(events[i].call, events[j].call)
    requires Refusal(config, events[j].call, events[j].checkedAt).None?
    ensures ResultAt(config, start, events, i).Ok?
    ensures ResultAt(config, start, events, j) ==
            if events[j].at >= ExpiresAt(config, events[j].call.key.value) then Refused(409, KeyExpired)
            else if SameRequest(events[i].call.request, events[j].call.request)
            then Ok(true, ResultAt(config, start, events, i).response)
            else Refused(409, KeyPayloadMismatch)
    ensures After(config, start, events, j + 1) == After(config, start, events, j)
  {
    RanFacts(config, start, events, i);
    FoldKeepsKey(events[i].call.key.value);
    FoldKeepsKey(events[j].call.key.value);
    RecordedUntilExpiry(config, start, events, j, i);
    StepEffect(config, After(config, start, events, i), events[i]);
    assert events[j - 1].at <= events[j].at;
    AnswerFromRecord(config, After(config, start, events, j), events[j]);
    FingerprintIdentifies(config.hash, events[i].call.request, events[j].call.request);
  }

  /** No key commits its operation twice. */
  lemma CommitsOnce(config: Config, start: Store, events: seq<Event>, i: nat, j: nat)
    requires config.unique && OneClock(events) && start.records == map[]
    requires i < j < |events| && Ran(config, start, events, i) && Ran(config, start, events, j)
    ensures !SameClaim(events[i].call, events[j].call)
  {
    RanFacts(config, start, events, i);
    RanFacts(config, start, events, j);
    if SameClaim(events[i].call, events[j].call) {
      FoldKeepsKey(events[i].call.key.value);
      FoldKeepsKey(events[j].call.key.value);
      RecordedUntilExpiry(config, start, events, j, i);
      assert events[j - 1].at <= events[j].at;
      AnswerFromRecord(config, After(config, start, events, j), events[j]);
    }
  }

  lemma ReplayReadsRecord(config: Config, st: Store, e: Event)
    requires e.Executing?
    ensures var result := ExecuteCall(config, st, e.call, e.op, e.checkedAt, e.at).1;
            result.Ok? && result.replayed ==>
              && Refusal(config, e.call, e.checkedAt).None?
              && CallScope(e.call) in st.records
              && st.records[CallScope(e.call)].fingerprint == Fingerprint(config.hash, e.call.request)
              && st.records[CallScope(e.call)].response == result.response
  {
  }

  /** A replay returns the response of the one commit of that key, made for the same request. */
  lemma ReplayHasCommit(config: Config, start: Store, events: seq<Event>, j: nat) returns (i: nat)
    requires config.unique && Injective(config.hash) && start.records == map[]
    requires j < |events| && events[j].Executing?
    requires ResultAt(config, start, events, j).Ok? && ResultAt(config, start, events, j).replayed
    ensures i < j && Ran(config, start, events, i)
    ensures SameClaim(events[i].call, events[j].call)
    ensures SameRequest(events[i].call.request, events[j].call.request)
    ensures ResultAt(config, start, events, j).response == ResultAt(config, start, events, i).response
  {
    ReplayReadsRecord(config, After(config, start, events, j), events[j]);
    i := RecordHasCommit(config, start, events, j, CallScope(events[j].call));
    RanFacts(config, start, events, i);
    StepEffect(config, After(config, start, events, i), events[i]);
    var a, b := events[i].call, events[j].call;
    ScopeIdentifies(a.request.principalRef, Fold(a.key.value), b.request.principalRef, Fold(b.key.value));
    FingerprintIdentifies(config.hash, a.request, b.request);
  }

  /** The tables that one event leaves behind, given those before it. */
  function TablesAfter(config: Config, start: Store, events: seq<Event>, n: nat): (Tables, Tables)
    requires n <= |events|
  {
    (After(config, start, events, n).collections, After(config, start, events, n).outbox)
  }

  lemma EventTables(config: Config, start: Store, events: seq<Event>, n: nat)
    requires n < |events|
    ensures var before := TablesAfter(config, start, events, n);
            TablesAfter(config, start, events, n + 1) == Apply(Published(config, start, events, n), before.0, before.1)
  {
    if events[n].Executing? { StepEffect(config, After(config, start, events, n), events[n]); }
  }

  lemma FoldGrows(earlier: seq<Write>, more: seq<Write>, start: (Tables, Tables), before: (Tables, Tables),
                  after: (Tables, Tables))
    requires before == Apply(earlier, start.0, start.1) && after == Apply(more, before.0, before.1)
    ensures after == Apply(earlier + more, start.0, start.1)
  {
    ApplyConcat(earlier, more, start.0, start.1);
  }

  predicate TablesHold(config: Config, start: Store, events: seq<Event>, n: nat)
    requires n <= |events|
  {
    TablesAfter(config, start, events, n) ==
    Apply(Committed(config, start, events, n), start.collections, start.outbox)
  }

  lemma TablesStillHold(config: Config, start: Store, events: seq<Event>, n: nat)
    requires n < |events| && TablesHold(config, start, events, n)
    ensures TablesHold(config, start, events, n + 1)
  {
    EventTables(config, start, events, n);
    FoldGrows(Committed(config, start, events, n), Published(config, start, events, n),
              (start.collections, start.outbox), TablesAfter(config, start, events, n),
              TablesAfter(config, start, events, n + 1));
  }

  lemma {:induction false} TablesAlwaysHold(config: Config, start: Store, events: seq<Event>, n: nat)
    requires n <= |events|
    ensures TablesHold(config, start, events, n)
  {
    if n > 0 {
      TablesAlwaysHold(config, start, events, n - 1);
      TablesStillHold(config, start, events, n - 1);
    }
  }

  /** Collections and outbox hold the writes of the commits, and nothing of the attempts that failed. */
  lemma TablesHoldCommits(config: Config, start: Store, events: seq<Event>, n: nat)
    requires n <= |events|
    ensures var s := After(config, start, events, n);
            (s.collections, s.outbox) == Apply(Committed(config, start, events, n), start.collections, start.outbox)
  {
    TablesAlwaysHold(config, start, events, n);
  }

  /**
   * Over every run each collection and each topic holds what it held at the start and then exactly the rows
   * that committed operations wrote for it, in order; no other appears.
   */
  lemma CommittedRowsArePublished(config: Config, start: Store, events: seq<Event>, n: nat, name: Text)
    requires n <= |events|
    ensures var s, writes := After(config, start, events, n), Committed(config, start, events, n);
            && At(s.collections, name) == At(start.collections, name) + RowsFor(writes, name)
            && (name in s.collections <==> name in start.collections || RowsFor(writes, name) != [])
            && At(s.outbox, name) == At(start.outbox, name) + EventsFor(writes, name)
            && (name in s.outbox <==> name in start.outbox || EventsFor(writes, name) != [])
  {
    TablesHoldCommits(config, start, events, n);
    WritesAppend(Committed(config, start, events, n), start.collections, start.outbox, name);
  }

  /** Cleanup drops a record only when every later call with its key is refused before the store. */
  lemma CleanedKeyRefused(config: Config, start: Store, events: seq<Event>, n: nat, scope: Text, call: Call, later: nat)
    requires config.unique && config.retention > 0 && start.records == map[]
    requires n < |events| && events[n].Cleaning?
    requires scope in After(config, start, events, n).records
    requires scope !in After(config, start, events, n + 1).records
    requires call.key.Some? && IsKey(call.key.value) && RequestIsValid(call.request) && CallScope(call) == scope
    requires later >= events[n].now
    ensures Refusal(config, call, later) == Some(Refused(409, KeyExpired))
  {
    var i := RecordHasCommit(config, start, events, n, scope);
    RanFacts(config, start, events, i);
    var a := events[i].call;
    ScopeIdentifies(a.request.principalRef, Fold(a.key.value), call.request.principalRef, Fold(call.key.value));
    FoldKeepsKey(a.key.value);
    FoldKeepsKey(call.key.value);
  }

  /** Without the uniqueness of records the same call runs twice. */
  lemma WithoutUniqueRecordsRunsTwice(config: Config, start: Store, call: Call, op: Operation, at: nat)
    requires !config.unique && Refusal(config, call, at).None? && op.response.Some?
    ensures var events := [Executing(call, op, at, at), Executing(call, op, at, at)];
            OneClock(events) && Ran(config, start, events, 0) && Ran(config, start, events, 1)
  {
  }
}
