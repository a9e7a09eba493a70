/**
 * Role grants and their audit ledger. Every writer takes the lock of the principal it changes, so
 * the writes to one principal's grants happen one after another.
 */
module Grants {
  import opened Options
  import opened Principals
  import opened Strings

  type OrgId = string

  datatype Scope = Self | Subtree

  function Join(a: Scope, b: Scope): Scope { if a == Subtree || b == Subtree then Subtree else Self }

  const ROLES: set<string> := {"candidate", "staff", "admin", "org-owner", "recruiter", "finance"}
  const ROOT: OrgId := "root"

  datatype Key = Key(principal: PrincipalId, org: OrgId, role: string)
  datatype Row = Row(id: nat, scope: Scope)
  type Rows = map<Key, Row>

  /** An entry as the caller hands it over, and as it is after validation. */
  datatype RawEntry = RawEntry(orgId: string, role: string, scope: Option<string>)
  datatype Entry = Entry(org: OrgId, role: string, scope: Scope)

  datatype Summary = Summary(grantCount: nat, selfCount: nat, subtreeCount: nat)
  datatype Operation = Granting | Revoking | Clearing
  datatype LedgerRow = LedgerRow(principal: PrincipalId, operation: Operation, before: Summary, after: Summary)

  datatype State = State(rows: Rows, nextId: nat, ledger: seq<LedgerRow>, orgs: set<OrgId>,
      people: People)

  datatype Outcome = Rejected | Failed | Unchanged | Changed

  // ---------------------------------------------------------------- entries

  predicate IsSpace(c: char) {
    c in {'\t', '\n', '\U{000B}', '\U{000C}', '\r', ' ', '\U{00A0}', '\U{1680}', '\U{2028}', '\U{2029}', '\U{202F}',
          '\U{205F}', '\U{3000}', '\U{FEFF}'} || '\U{2000}' <= c <= '\U{200A}'
  }

  /** ECMAScript's white space and line ends, by code. */
  lemma SpacesByCode(c: char)
    ensures var u := c as int;
            IsSpace(c) <==> 9 <= u <= 13 || u in {0x20, 0xA0, 0x1680, 0x2028, 0x2029, 0x202F, 0x205F, 0x3000, 0xFEFF}
                            || 0x2000 <= u <= 0x200A
  {
  }

  function Normalize(e: RawEntry): Option<Entry> {
    var org := Trim(e.orgId, IsSpace);
    if |org| == 0 || e.role !in ROLES then None
    else if e.scope.None? || e.scope.value == "self" then Some(Entry(org, e.role, Self))
    else if e.scope.value == "subtree" then Some(Entry(org, e.role, Subtree))
    else None
  }

  /** The scope text is one the contract knows; none at all means self. */
  predicate IsScope(scope: Option<string>) { scope in {None, Some("self"), Some("subtree")} }

  /** What validation accepts and makes of it. */
  lemma NormalizeMeans(e: RawEntry)
    ensures var org := Trim(e.orgId, IsSpace);
            && (Normalize(e).Some? <==>
                  && org != "" && IsScope(e.scope)
                  && e.role in {"candidate", "staff", "admin", "org-owner", "recruiter", "finance"})
            && (Normalize(e).Some? ==>
                  && Normalize(e).value.org == org && Normalize(e).value.role == e.role
                  && (Normalize(e).value.scope == Subtree <==> e.scope == Some("subtree")))
  {
  }

  /** Every entry validated, or None exactly if one of them is invalid. */
  function NormalizeAll(es: seq<RawEntry>): (r: Option<seq<Entry>>)
    ensures r.None? <==> exists i :: 0 <= i < |es| && Normalize(es[i]).None?
    ensures r.Some? ==> |r.value| == |es| && forall i :: 0 <= i < |es| ==> Normalize(es[i]) == Some(r.value[i])
  {
    if |es| == 0 then Some([])
    else
      var rest := NormalizeAll(es[..|es| - 1]);
      var last := Normalize(es[|es| - 1]);
      if rest.Some? && last.Some? then Some(rest.value + [last.value]) else None
  }

  predicate SameKey(a: Entry, b: Entry) { a.org == b.org && a.role == b.role }

  function Position(merged: seq<Entry>, e: Entry): (i: nat)
    ensures i <= |merged|
    ensures i < |merged| ==> SameKey(merged[i], e)
    ensures forall j :: 0 <= j < i ==> !SameKey(merged[j], e)
  {
    if |merged| == 0 || SameKey(merged[0], e) then 0 else 1 + Position(merged[1..], e)
  }

  /** One entry per key, in first-seen order, the widest scope of each. */
  function Merge(es: seq<Entry>): (r: seq<Entry>)
    ensures |r| <= |es|
  {
    if |es| == 0 then []
    else
      var merged, e := Merge(es[..|es| - 1]), es[|es| - 1];
      var i := Position(merged, e);
      if i == |merged| then merged + [e]
      else if e.scope == Subtree && merged[i].scope != Subtree then merged[i := e]
      else merged
  }

  // ---------------------------------------------------------------- rows

  function KeyOf(p: PrincipalId, e: Entry): Key { Key(p, e.org, e.role) }

  /** `INSERT ... ON CONFLICT DO UPDATE` of the first `n` tuples; each tuple draws an id, used or not. */
  function Upsert(rows: Rows, nextId: nat, p: PrincipalId, es: seq<Entry>, n: nat): Rows
    requires n <= |es|
  {
    if n == 0 then rows
    else
      var before, e := Upsert(rows, nextId, p, es, n - 1), es[n - 1];
      var k := KeyOf(p, e);
      var row := if k in before then Row(before[k].id, Join(before[k].scope, e.scope))
                 else Row(nextId + n - 1, e.scope);
      before[k := row]
  }

  predicate IsRootAdmin(k: Key) { k.org == ROOT && k.role == "admin" }

  predicate OneRootAdmin(rows: Rows) {
    forall j, k :: j in rows && k in rows && IsRootAdmin(j) && IsRootAdmin(k) ==> j == k
  }

  predicate ForeignKeys(orgs: set<OrgId>, principals: set<PrincipalId>, rows: Rows) {
    forall k :: k in rows ==> k.org in orgs && k.principal in principals
  }

  function OfPrincipal(rows: Rows, p: PrincipalId, scope: Scope): set<Key> {
    set k | k in rows && k.principal == p && rows[k].scope == scope
  }

  function Summarize(rows: Rows, p: PrincipalId): Summary {
    Summary(|set k | k in rows && k.principal == p|, |OfPrincipal(rows, p, Self)|, |OfPrincipal(rows, p, Subtree)|)
  }

  function Logged(st: State, rows: Rows, p: PrincipalId, op: Operation): State {
    st.(rows := rows, ledger := st.ledger + [LedgerRow(p, op, Summarize(st.rows, p), Summarize(rows, p))])
  }

  // ---------------------------------------------------------------- writers

  /** Constraints, then the ledger row if some row changed. */
  function Settle(st: State, p: PrincipalId, rows: Rows): (State, Outcome) {
    if !OneRootAdmin(rows) || !ForeignKeys(st.orgs, st.people.profiles.Keys, rows) then (st, Failed)
    else if rows == st.rows then (st, Unchanged)
    else (Logged(st, rows, p, Granting), Changed)
  }

  function GrantEntries(st: State, p: PrincipalId, es: seq<Entry>): (State, Outcome) {
    var merged := Merge(es);
    Settle(st.(nextId := st.nextId + |merged|), p, Upsert(st.rows, st.nextId, p, merged, |merged|))
  }

  function GrantRaw(st: State, p: PrincipalId, raw: seq<RawEntry>): (State, Outcome) {
    if |raw| == 0 then (st, Unchanged)
    else
      match NormalizeAll(raw)
      case None => (st, Rejected)
      case Some(es) => GrantEntries(st, p, es)
  }

  function RemoveKeys(st: State, p: PrincipalId, keys: set<Key>, op: Operation): (State, Outcome) {
    var rows := st.rows - keys;
    if rows == st.rows then (st, Unchanged) else (Logged(st, rows, p, op), Changed)
  }

  function KeysOf(p: PrincipalId, targets: seq<(OrgId, string)>): set<Key> {
    set i | 0 <= i < |targets| :: Key(p, targets[i].0, targets[i].1)
  }

  function PrincipalKeys(rows: Rows, p: PrincipalId): set<Key> { set k | k in rows && k.principal == p }

  const ROOT_ADMIN := Entry(ROOT, "admin", Subtree)

  /** Bootstrap's transaction. Unlike a grant it always writes its ledger row. */
  function Bootstrap(st: State, pbuuid: Pbuuid, name: Option<string>): (State, Outcome) {
    var p := AdminId(pbuuid);
    var (people, enrolled) := Enroll(st.people, pbuuid, name);
    var rows := Upsert(st.rows, st.nextId, p, [ROOT_ADMIN], 1);
    if enrolled != Recorded then (st, Failed)
    else if !OneRootAdmin(rows) then (st.(nextId := st.nextId + 1), Failed)
    else (Logged(st.(orgs := st.orgs + {ROOT}, people := people, nextId := st.nextId + 1), rows, p, Granting), Changed)
  }

  lemma RemovedRows(rows: Rows, keys: set<Key>)
    ensures rows - rows.Keys * keys == rows - keys
    ensures rows.Keys * keys == {} <==> rows - keys == rows
  {
    if k :| k in rows.Keys * keys { assert k !in rows - keys; }
  }

  class AuthzStore {
    var rows: Rows
    var nextId: nat
    var ledger: seq<LedgerRow>
    var orgs: set<OrgId>
    var profiles: map<PrincipalId, Person>
    var owners: map<Pbuuid, PrincipalId>
    var registrations: seq<Registration>

    constructor ()
      ensures Now() == State(map[], 1, [], {}, People(map[], map[], []))
    {
      rows, nextId, ledger, orgs := map[], 1, [], {};
      profiles, owners, registrations := map[], map[], [];
    }

    ghost function Now(): State
      reads this
    {
      State(rows, nextId, ledger, orgs, People(profiles, owners, registrations))
    }

    method MergeEntries(es: seq<Entry>) returns (merged: seq<Entry>)
      ensures merged == Merge(es)
    {
      merged := [];
      for i := 0 to |es|
        invariant merged == Merge(es[..i])
      {
        var e := es[i];
        assert es[..i + 1][..i] == es[..i];
        var at := 0;
        while at < |merged| && !SameKey(merged[at], e)
          invariant at <= |merged| && forall j :: 0 <= j < at ==> !SameKey(merged[j], e)
        {
          at := at + 1;
        }
        assert at == Position(merged, e);
        if at == |merged| {
          merged := merged + [e];
        } else if e.scope == Subtree && merged[at].scope != Subtree {
          merged := merged[at := e];
        }
      }
      assert es[..|es|] == es;
    }

    method NormalizeEntries(raw: seq<RawEntry>) returns (es: Option<seq<Entry>>)
      ensures es == NormalizeAll(raw)
      ensures es.None? <==> exists i :: 0 <= i < |raw| && Normalize(raw[i]).None?
      ensures es.Some? ==> |es.value| == |raw| && forall i :: 0 <= i < |raw| ==> Normalize(raw[i]) == Some(es.value[i])
    {
      var out := [];
      for i := 0 to |raw|
        invariant NormalizeAll(raw[..i]) == Some(out)
      {
        assert raw[..i + 1][..i] == raw[..i];
        var e := Normalize(raw[i]);
        if e.None? {
          InvalidPrefix(raw, i + 1);
          return None;
        }
        out := out + [e.value];
      }
      assert raw[..|raw|] == raw;
      return Some(out);
    }

    /** Counts the tuples that inserted a row or widened one, as the statement reports them. */
    method UpsertRows(p: PrincipalId, merged: seq<Entry>) returns (next: Rows, changed: nat)
      ensures next == Upsert(rows, nextId, p, merged, |merged|)
      ensures changed == 0 <==> next == rows
    {
      next, changed := rows, 0;
      ghost var touched := Key(p, "", "");
      for i := 0 to |merged|
        invariant next == Upsert(rows, nextId, p, merged, i)
        invariant changed == 0 ==> next == rows
        invariant forall k :: k in rows ==> k in next && (rows[k].scope == Subtree ==> next[k].scope == Subtree)
        invariant changed > 0 ==>
                    touched in next && (touched !in rows || rows[touched].scope == Self != next[touched].scope)
      {
        var e := merged[i];
        var k := KeyOf(p, e);
        if k !in next {
          next, changed := next[k := Row(nextId + i, e.scope)], changed + 1;
          touched := k;
        } else if Join(next[k].scope, e.scope) != next[k].scope {
          touched := k;
          next, changed := next[k := Row(next[k].id, Subtree)], changed + 1;
        } else {
          assert next[k := next[k]] == next;
        }
      }
    }

    method GrantMany(p: PrincipalId, raw: seq<RawEntry>) returns (outcome: Outcome)
      modifies this
      ensures (Now(), outcome) == GrantRaw(old(Now()), p, raw)
    {
      if |raw| == 0 { return Unchanged; }
      var es := NormalizeEntries(raw);
      if es.None? { return Rejected; }
      outcome := GrantValid(p, es.value);
    }

    /** The transaction behind `grantMany`. */
    method GrantValid(p: PrincipalId, es: seq<Entry>) returns (outcome: Outcome)
      modifies this
      ensures (Now(), outcome) == GrantEntries(old(Now()), p, es)
    {
      var merged := MergeEntries(es);
      var next, changed := UpsertRows(p, merged);
      nextId := nextId + |merged|;
      outcome := SettleRows(p, next, changed);
    }

    method SettleRows(p: PrincipalId, next: Rows, changed: nat) returns (outcome: Outcome)
      requires changed == 0 <==> next == rows
      modifies this
      ensures (Now(), outcome) == Settle(old(Now()), p, next)
    {
      if !OneRootAdmin(next) || !ForeignKeys(orgs, profiles.Keys, next) { return Failed; }
      if changed == 0 { return Unchanged; }
      var before := Summarize(rows, p);
      rows := next;
      ledger := ledger + [LedgerRow(p, Granting, before, Summarize(rows, p))];
      return Changed;
    }

    method RevokeMany(p: PrincipalId, targets: seq<(OrgId, string)>) returns (outcome: Outcome)
      modifies this
      ensures (Now(), outcome) == RemoveKeys(old(Now()), p, KeysOf(p, targets), Revoking)
    {
      var before := Summarize(rows, p);
      var keys := KeysOf(p, targets);
      var deleted := rows.Keys * keys;
      RemovedRows(rows, keys);
      rows := rows - deleted;
      if deleted == {} { return Unchanged; }
      ledger := ledger + [LedgerRow(p, Revoking, before, Summarize(rows, p))];
      return Changed;
    }

    method ClearGrants(p: PrincipalId) returns (outcome: Outcome)
      modifies this
      ensures (Now(), outcome) == RemoveKeys(old(Now()), p, PrincipalKeys(old(rows), p), Clearing)
    {
      var before := Summarize(rows, p);
      var deleted := PrincipalKeys(rows, p);
      RemovedRows(rows, deleted);
      assert rows.Keys * deleted == deleted;
      rows := rows - deleted;
      if deleted == {} { return Unchanged; }
      ledger := ledger + [LedgerRow(p, Clearing, before, Summarize(rows, p))];
      return Changed;
    }

    /** Takes the principal's old identities away, then gives it the claimed ones; `taken` if one is not free. */
    method ReplaceIdentities(p: PrincipalId, claimed: set<Pbuuid>) returns (next: map<Pbuuid, PrincipalId>, taken: bool)
      ensures taken <==> !Claimable(owners, p, claimed)
      ensures !taken ==> next == Reowned(owners, p, claimed)
    {
      next, taken := owners - Owned(owners, p), false;
      var todo := claimed;
      while todo != {}
        invariant todo <= claimed && Claimable(owners, p, claimed - todo)
        invariant next == (owners - Owned(owners, p)) + map b | b in claimed - todo :: p
        decreases todo
      {
        var b :| b in todo;
        if b in next && next[b] != p { return next, true; }
        next, todo := next[b := p], todo - {b};
      }
      assert claimed - todo == claimed;
    }

    method RegisterPrincipal(p: PrincipalId, claimed: set<Pbuuid>, person: Person) returns (outcome: Registered)
      modifies this`profiles, this`owners, this`registrations
      ensures (People(profiles, owners, registrations), outcome) ==
              Register(old(People(profiles, owners, registrations)), p, claimed, person)
    {
      var before := PresenceOf(People(profiles, owners, registrations), p);
      if p in profiles && profiles[p] == person && Owned(owners, p) == claimed { return AsBefore; }
      var next, taken := ReplaceIdentities(p, claimed);
      if taken { return OwnedByAnother; }
      profiles, owners := profiles[p := person], next;
      var after := Presence(true, |claimed|, person.displayName.Some?, person.email.Some?);
      registrations := registrations + [Registration(p, before, after)];
      return Recorded;
    }

    /** Bootstrap's principal, identity and registration row, for its transaction to keep or to roll back. */
    method EnrollAdmin(pbuuid: Pbuuid, name: Option<string>) returns (people: People, taken: bool)
      ensures (people, if taken then OwnedByAnother else Recorded) ==
              Enroll(People(profiles, owners, registrations), pbuuid, name)
    {
      var p := AdminId(pbuuid);
      people := People(profiles, owners, registrations);
      var before := PresenceOf(people, p).(email := false);
      var email := if p in profiles then profiles[p].email else None;
      var next;
      next, taken := ReplaceIdentities(p, {pbuuid});
      if taken { return; }
      var row := Registration(p, before, Presence(true, 1, name.Some?, false));
      people := People(profiles[p := Person(name, email)], next, registrations + [row]);
    }

    /** The transaction behind bootstrap: root, principal, identity, grant and both audit rows. */
    method BootstrapAdmin(pbuuid: Pbuuid, name: Option<string>) returns (outcome: Outcome)
      modifies this
      ensures (Now(), outcome) == Bootstrap(old(Now()), pbuuid, name)
    {
      var p := AdminId(pbuuid);
      var before := Summarize(rows, p);
      var people, taken := EnrollAdmin(pbuuid, name);
      if taken { return Failed; }
      var next, changed := UpsertRows(p, [ROOT_ADMIN]);
      nextId := nextId + 1;
      if !OneRootAdmin(next) { return Failed; }
      Adopt(p, people, next, before);
      return Changed;
    }

    method Adopt(p: PrincipalId, people: People, next: Rows, before: Summary)
      requires before == Summarize(rows, p)
      modifies this
      ensures Now() == Logged(old(Now()).(orgs := old(orgs) + {ROOT}, people := people), next, p, Granting)
    {
      orgs := orgs + {ROOT};
      profiles, owners, registrations := people.profiles, people.owners, people.registrations;
      rows := next;
      ledger := ledger + [LedgerRow(p, Granting, before, Summarize(rows, p))];
    }
  }

  lemma {:induction false} InvalidPrefix(raw: seq<RawEntry>, n: nat)
    requires n <= |raw| && NormalizeAll(raw[..n]).None?
    ensures NormalizeAll(raw).None?
    decreases |raw|
  {
    if n < |raw| {
      assert raw[..|raw| - 1][..n] == raw[..n];
      InvalidPrefix(raw[..|raw| - 1], n);
    } else {
      assert raw[..n] == raw;
    }
  }

  // ---------------------------------------------------------------- grants join scopes

  /** Some entry of `es` grants `k` to `p`; some entry grants it for the subtree. */
  ghost predicate Adds(p: PrincipalId, es: seq<Entry>, k: Key) { exists i :: 0 <= i < |es| && KeyOf(p, es[i]) == k }

  ghost predicate Widens(p: PrincipalId, es: seq<Entry>, k: Key) {
    exists i :: 0 <= i < |es| && KeyOf(p, es[i]) == k && es[i].scope == Subtree
  }

  lemma AddsAppend(p: PrincipalId, es: seq<Entry>, e: Entry, k: Key)
    ensures Adds(p, es + [e], k) <==> Adds(p, es, k) || KeyOf(p, e) == k
    ensures Widens(p, es + [e], k) <==> Widens(p, es, k) || (KeyOf(p, e) == k && e.scope == Subtree)
  {
    var all := es + [e];
    assert all[|es|] == e;
    forall i | 0 <= i < |es| ensures all[i] == es[i] {}
  }

  lemma AddsAppendAll(p: PrincipalId, es: seq<Entry>, e: Entry)
    ensures forall k :: Adds(p, es + [e], k) <==> Adds(p, es, k) || KeyOf(p, e) == k
    ensures forall k :: Widens(p, es + [e], k) <==> Widens(p, es, k) || (KeyOf(p, e) == k && e.scope == Subtree)
  {
    forall k
      ensures Adds(p, es + [e], k) <==> Adds(p, es, k) || KeyOf(p, e) == k
      ensures Widens(p, es + [e], k) <==> Widens(p, es, k) || (KeyOf(p, e) == k && e.scope == Subtree)
    {
      AddsAppend(p, es, e, k);
    }
  }

  lemma AddsOne(p: PrincipalId, e: Entry, k: Key)
    ensures Adds(p, [e], k) <==> KeyOf(p, e) == k
    ensures Widens(p, [e], k) <==> KeyOf(p, e) == k && e.scope == Subtree
  {
    assert [e][0] == e;
  }

  ghost predicate OneEach(es: seq<Entry>) { forall i, j :: 0 <= i < j < |es| ==> !SameKey(es[i], es[j]) }

  /** Merging keeps one entry per key and loses no scope. */
  lemma {:induction false} MergeJoins(p: PrincipalId, es: seq<Entry>, k: Key)
    ensures OneEach(Merge(es))
    ensures Adds(p, Merge(es), k) <==> Adds(p, es, k)
    ensures Widens(p, Merge(es), k) <==> Widens(p, es, k)
  {
    if |es| > 0 {
      var rest, e := es[..|es| - 1], es[|es| - 1];
      MergeJoins(p, rest, k);
      assert es == rest + [e];
      AddsAppend(p, rest, e, k);
      var merged := Merge(rest);
      var i := Position(merged, e);
      if i == |merged| {
        AddsAppend(p, merged, e, k);
      } else if e.scope == Subtree && merged[i].scope != Subtree {
        var next := merged[i := e];
        assert next[i] == e;
        forall j | 0 <= j < |merged| && j != i ensures next[j] == merged[j] {}
      }
    }
  }

  /** `b` is `a` with `es` granted to `p`: scopes joined, the ids of existing rows kept. */
  ghost predicate IsJoin(a: Rows, b: Rows, p: PrincipalId, es: seq<Entry>) {
    forall k ::
      && (k in b <==> k in a || Adds(p, es, k))
      && (k in b ==> (b[k].scope == Subtree <==> (k in a && a[k].scope == Subtree) || Widens(p, es, k)))
      && (k in a && k in b ==> b[k].id == a[k].id)
  }

  lemma {:induction false} UpsertJoins(rows: Rows, nextId: nat, p: PrincipalId, es: seq<Entry>, n: nat)
    requires n <= |es|
    ensures IsJoin(rows, Upsert(rows, nextId, p, es, n), p, es[..n])
  {
    if n > 0 {
      UpsertJoins(rows, nextId, p, es, n - 1);
      assert es[..n] == es[..n - 1] + [es[n - 1]];
      AddsAppendAll(p, es[..n - 1], es[n - 1]);
    }
  }

  /** The rows that the constraints are asked about. */
  lemma MergedJoins(st: State, p: PrincipalId, es: seq<Entry>)
    ensures var merged := Merge(es); IsJoin(st.rows, Upsert(st.rows, st.nextId, p, merged, |merged|), p, es)
  {
    var merged := Merge(es);
    UpsertJoins(st.rows, st.nextId, p, merged, |merged|);
    assert merged[..|merged|] == merged;
    forall k
      ensures Adds(p, merged, k) <==> Adds(p, es, k)
      ensures Widens(p, merged, k) <==> Widens(p, es, k)
    {
      MergeJoins(p, es, k);
    }
  }

  /** A grant that does not fail joins its entries, whatever their duplicates and order. */
  lemma GrantJoins(st: State, p: PrincipalId, es: seq<Entry>)
    ensures var (after, outcome) := GrantEntries(st, p, es);
            && after.orgs == st.orgs && after.people == st.people
            && if outcome.Failed? then after.rows == st.rows && after.ledger == st.ledger
               else
                 && IsJoin(st.rows, after.rows, p, es) && OneRootAdmin(after.rows)
                 && ForeignKeys(st.orgs, st.people.profiles.Keys, after.rows)
  {
    MergedJoins(st, p, es);
  }

  lemma JoinTrans(a: Rows, b: Rows, c: Rows, p: PrincipalId, es: seq<Entry>, e: Entry)
    requires IsJoin(a, b, p, es) && IsJoin(b, c, p, [e])
    ensures IsJoin(a, c, p, es + [e])
  {
    AddsAppendAll(p, es, e);
    forall k
      ensures Adds(p, [e], k) <==> KeyOf(p, e) == k
      ensures Widens(p, [e], k) <==> KeyOf(p, e) == k && e.scope == Subtree
    {
      AddsOne(p, e, k);
    }
  }

  lemma MembersImply(p: PrincipalId, es: seq<Entry>, fs: seq<Entry>, k: Key)
    requires forall e :: e in es ==> e in fs
    ensures Adds(p, es, k) ==> Adds(p, fs, k)
    ensures Widens(p, es, k) ==> Widens(p, fs, k)
  {
    if i :| 0 <= i < |es| && KeyOf(p, es[i]) == k { assert es[i] in fs; }
    if i :| 0 <= i < |es| && KeyOf(p, es[i]) == k && es[i].scope == Subtree { assert es[i] in fs; }
  }

  // ---------------------------------------------------------------- when a call is refused

  /** What the tables' own constraints say of every state. */
  predicate Constrained(st: State) {
    OneRootAdmin(st.rows) && ForeignKeys(st.orgs, st.people.profiles.Keys, st.rows)
  }

  /** Nobody else is root admin. */
  predicate RootAdminFree(rows: Rows, p: PrincipalId) { forall k :: k in rows && IsRootAdmin(k) ==> k.principal == p }

  /** The constraints have room for the entry's row. */
  predicate Stands(st: State, p: PrincipalId, e: Entry) {
    && e.org in st.orgs && p in st.people.profiles
    && (IsRootAdmin(KeyOf(p, e)) ==> RootAdminFree(st.rows, p))
  }

  /** The entry is valid, and its row can stand. */
  predicate Fits(st: State, p: PrincipalId, r: RawEntry) {
    Normalize(r).Some? && Stands(st, p, Normalize(r).value)
  }

  lemma JoinStandsIff(st: State, p: PrincipalId, es: seq<Entry>, joined: Rows)
    requires Constrained(st) && IsJoin(st.rows, joined, p, es)
    ensures OneRootAdmin(joined) && ForeignKeys(st.orgs, st.people.profiles.Keys, joined)
            <==> forall i :: 0 <= i < |es| ==> Stands(st, p, es[i])
  {
    forall i | 0 <= i < |es| ensures KeyOf(p, es[i]) in joined { assert Adds(p, es, KeyOf(p, es[i])); }
    forall k | k in st.rows ensures k in joined {}
  }

  /** The constraints refuse a grant exactly if they have no room for one of its entries. */
  lemma GrantFailsIff(st: State, p: PrincipalId, es: seq<Entry>)
    requires Constrained(st)
    ensures GrantEntries(st, p, es).1.Failed? <==> exists i :: 0 <= i < |es| && !Stands(st, p, es[i])
  {
    var merged := Merge(es);
    MergedJoins(st, p, es);
    JoinStandsIff(st, p, es, Upsert(st.rows, st.nextId, p, merged, |merged|));
  }

  predicate AllFit(st: State, p: PrincipalId, raw: seq<RawEntry>) { forall r :: r in raw ==> Fits(st, p, r) }

  lemma AllFitAll(st: State, p: PrincipalId, raw: seq<RawEntry>)
    ensures AllFit(st, p, raw) <==> forall i :: 0 <= i < |raw| ==> Fits(st, p, raw[i])
  {
    forall i | 0 <= i < |raw| ensures raw[i] in raw {}
  }

  /** The whole call is refused exactly if one of its entries is invalid or has no room. */
  lemma GrantManyRefusedIff(st: State, p: PrincipalId, raw: seq<RawEntry>)
    requires Constrained(st)
    ensures var (after, outcome) := GrantRaw(st, p, raw); var valid := forall r :: r in raw ==> Normalize(r).Some?;
            && (outcome == Rejected <==> !valid)
            && (outcome == Failed <==> valid && !AllFit(st, p, raw))
            && (outcome in {Rejected, Failed} ==> after.rows == st.rows && after.ledger == st.ledger)
            && (outcome == Unchanged <==> valid && AllFit(st, p, raw) && after.rows == st.rows)
  {
    var es := NormalizeAll(raw);
    AllFitAll(st, p, raw);
    forall i | 0 <= i < |raw| ensures raw[i] in raw {}
    if es.Some? {
      GrantFailsIff(st, p, es.value);
      GrantJoins(st, p, es.value);
      forall i | 0 <= i < |raw| ensures Fits(st, p, raw[i]) <==> Stands(st, p, es.value[i]) {}
    }
  }

  /** A removal says whether it changed anything. */
  lemma RemovalTells(st: State, p: PrincipalId, keys: set<Key>, op: Operation)
    ensures var (after, outcome) := RemoveKeys(st, p, keys, op);
            && after.rows == st.rows - keys && after.orgs == st.orgs && after.people == st.people
            && (outcome == Changed <==> exists k :: k in keys && k in st.rows)
            && (outcome == Unchanged <==> forall k :: k in keys ==> k !in st.rows)
  {
    RemovedRows(st.rows, keys);
    if k :| k in keys && k in st.rows { assert k in st.rows.Keys * keys; }
  }

  /** `next` is `rows` after a call with this list: all of it joined, or nothing. */
  ghost predicate JoinsAllOrNothing(st: State, p: PrincipalId, raw: seq<RawEntry>, next: Rows) {
    if AllFit(st, p, raw) then NormalizeAll(raw).Some? && IsJoin(st.rows, next, p, NormalizeAll(raw).value)
    else next == st.rows
  }

  lemma GrantManyJoins(st: State, p: PrincipalId, raw: seq<RawEntry>)
    requires Constrained(st)
    ensures var after := GrantRaw(st, p, raw).0;
            && Constrained(after) && after.orgs == st.orgs && after.people == st.people
            && JoinsAllOrNothing(st, p, raw, after.rows)
  {
    GrantManyRefusedIff(st, p, raw);
    AllFitAll(st, p, raw);
    if NormalizeAll(raw).Some? { GrantJoins(st, p, NormalizeAll(raw).value); }
  }

  lemma RootAdminJoins(rows: Rows, nextId: nat, p: PrincipalId)
    ensures var next := Upsert(rows, nextId, p, [ROOT_ADMIN], 1);
            IsJoin(rows, next, p, [ROOT_ADMIN]) && next.Keys == rows.Keys + {Key(p, ROOT, "admin")}
  {
    UpsertJoins(rows, nextId, p, [ROOT_ADMIN], 1);
    assert [ROOT_ADMIN][..1] == [ROOT_ADMIN];
  }

  lemma OneRootAdminIff(rows: Rows, next: Rows, p: PrincipalId)
    requires OneRootAdmin(rows) && next.Keys == rows.Keys + {Key(p, ROOT, "admin")}
    ensures OneRootAdmin(next) <==> RootAdminFree(rows, p)
  {
    assert Key(p, ROOT, "admin") in next;
    forall k | k in rows ensures k in next {}
  }

  /** Bootstrap is refused exactly if the identity, or the place of root admin, is somebody else's. */
  lemma BootstrapFailsIff(st: State, pbuuid: Pbuuid, name: Option<string>)
    requires Constrained(st)
    ensures var p := AdminId(pbuuid); var (after, outcome) := Bootstrap(st, pbuuid, name);
            && (outcome.Failed? <==> !Claimable(st.people.owners, p, {pbuuid}) || !RootAdminFree(st.rows, p))
            && Constrained(after)
            && if outcome.Failed? then after == st.(nextId := after.nextId)
               else
                 && outcome == Changed
                 && IsJoin(st.rows, after.rows, p, [Entry("root", "admin", Subtree)])
                 && after.orgs == st.orgs + {"root"} && after.people == Enroll(st.people, pbuuid, name).0
                 && after.ledger ==
                    st.ledger + [LedgerRow(p, Granting, Summarize(st.rows, p), Summarize(after.rows, p))]
  {
    var p := AdminId(pbuuid);
    RootAdminJoins(st.rows, st.nextId, p);
    OneRootAdminIff(st.rows, Upsert(st.rows, st.nextId, p, [ROOT_ADMIN], 1), p);
  }

  // ---------------------------------------------------------------- one call for each entry

  /** The entries granted one call at a time, whatever becomes of each call. */
  function GrantEach(st: State, p: PrincipalId, raw: seq<RawEntry>): State {
    if |raw| == 0 then st else GrantRaw(GrantEach(st, p, raw[..|raw| - 1]), p, [raw[|raw| - 1]]).0
  }

  /** The entries that fit, in order. */
  function Fitting(st: State, p: PrincipalId, raw: seq<RawEntry>): seq<Entry> {
    if |raw| == 0 then []
    else
      var last := raw[|raw| - 1];
      Fitting(st, p, raw[..|raw| - 1]) + if Fits(st, p, last) then [Normalize(last).value] else []
  }

  lemma {:induction false} FittingMembers(st: State, p: PrincipalId, raw: seq<RawEntry>, e: Entry)
    ensures e in Fitting(st, p, raw) <==> exists r :: r in raw && Fits(st, p, r) && Normalize(r).value == e
    decreases |raw|
  {
    if |raw| > 0 {
      FittingMembers(st, p, raw[..|raw| - 1], e);
      assert raw == raw[..|raw| - 1] + [raw[|raw| - 1]];
    }
  }

  /** One call with one entry. */
  lemma SingleGrant(st: State, p: PrincipalId, r: RawEntry)
    requires Constrained(st)
    ensures var after := GrantRaw(st, p, [r]).0;
            && Constrained(after) && after.orgs == st.orgs && after.people == st.people
            && if Fits(st, p, r) then IsJoin(st.rows, after.rows, p, [Normalize(r).value]) else after.rows == st.rows
  {
    GrantManyJoins(st, p, [r]);
    AllFitAll(st, p, [r]);
    if NormalizeAll([r]).Some? { assert NormalizeAll([r]).value == [Normalize(r).value]; }
  }

  /** Granting to the same principal neither makes nor takes room. */
  lemma FitsStill(st: State, now: State, p: PrincipalId, es: seq<Entry>, r: RawEntry)
    requires now.orgs == st.orgs && now.people == st.people && IsJoin(st.rows, now.rows, p, es)
    ensures Fits(now, p, r) <==> Fits(st, p, r)
  {
    assert RootAdminFree(now.rows, p) <==> RootAdminFree(st.rows, p);
  }

  /** One at a time, exactly the entries that fit are joined. */
  lemma {:induction false} GrantEachJoins(st: State, p: PrincipalId, raw: seq<RawEntry>)
    requires Constrained(st)
    ensures var each := GrantEach(st, p, raw);
            && Constrained(each) && each.orgs == st.orgs && each.people == st.people
            && IsJoin(st.rows, each.rows, p, Fitting(st, p, raw))
    decreases |raw|
  {
    if |raw| > 0 {
      var init, last := raw[..|raw| - 1], raw[|raw| - 1];
      var before := GrantEach(st, p, init);
      GrantEachJoins(st, p, init);
      SingleGrant(before, p, last);
      FitsStill(st, before, p, Fitting(st, p, init), last);
      if Fits(st, p, last) {
        JoinTrans(st.rows, before.rows, GrantEach(st, p, raw).rows, p, Fitting(st, p, init), Normalize(last).value);
      } else {
        assert Fitting(st, p, raw) == Fitting(st, p, init);
      }
    }
  }

  // ---------------------------------------------------------------- a list, and its entries in any order

  /** The same grants with the same scopes; the rows that were there keep their ids. */
  ghost predicate SameGrants(start: Rows, a: Rows, b: Rows) {
    && a.Keys == b.Keys && (forall k :: k in a ==> a[k].scope == b[k].scope)
    && forall k :: k in start ==> k in a && k in b && a[k].id == b[k].id == start[k].id
  }

  lemma JoinsAgree(start: Rows, a: Rows, b: Rows, p: PrincipalId, es: seq<Entry>, fs: seq<Entry>)
    requires IsJoin(start, a, p, es) && IsJoin(start, b, p, fs) && forall e :: e in es <==> e in fs
    ensures SameGrants(start, a, b)
  {
    forall k ensures k in a <==> k in b { BothAdd(p, es, fs, k); }
    forall k | k in a ensures a[k].scope == b[k].scope {
      BothAdd(p, es, fs, k);
      assert a[k].scope == Subtree <==> b[k].scope == Subtree;
    }
  }

  lemma BothAdd(p: PrincipalId, es: seq<Entry>, fs: seq<Entry>, k: Key)
    requires forall e :: e in es <==> e in fs
    ensures (Adds(p, es, k) <==> Adds(p, fs, k)) && (Widens(p, es, k) <==> Widens(p, fs, k))
  {
    MembersImply(p, es, fs, k);
    MembersImply(p, fs, es, k);
  }

  /** The grant is there already, as wide as the entry asks. */
  predicate Idle(rows: Rows, p: PrincipalId, e: Entry) {
    KeyOf(p, e) in rows && (e.scope == Subtree ==> rows[KeyOf(p, e)].scope == Subtree)
  }

  lemma JoinIsIdleIff(rows: Rows, joined: Rows, p: PrincipalId, es: seq<Entry>)
    requires IsJoin(rows, joined, p, es)
    ensures SameGrants(rows, rows, joined) <==> forall e :: e in es ==> Idle(rows, p, e)
  {
    if forall e :: e in es ==> Idle(rows, p, e) {
      forall k ensures (k in joined <==> k in rows) && (k in rows ==> joined[k].scope == rows[k].scope) {
        if i :| 0 <= i < |es| && KeyOf(p, es[i]) == k { assert Idle(rows, p, es[i]); }
        if i :| 0 <= i < |es| && KeyOf(p, es[i]) == k && es[i].scope == Subtree { assert Idle(rows, p, es[i]); }
      }
    } else {
      var i :| 0 <= i < |es| && !Idle(rows, p, es[i]);
      var k := KeyOf(p, es[i]);
      assert Adds(p, es, k) && (es[i].scope == Subtree ==> Widens(p, es, k));
    }
  }

  lemma SameMembers<T>(a: seq<T>, b: seq<T>)
    requires multiset(a) == multiset(b)
    ensures forall x :: x in a <==> x in b
  {
    forall x ensures x in a <==> x in b {
      assert x in a <==> x in multiset(a);
      assert x in b <==> x in multiset(b);
    }
  }

  lemma AllFitting(st: State, p: PrincipalId, raw: seq<RawEntry>, order: seq<RawEntry>, e: Entry)
    requires AllFit(st, p, raw) && NormalizeAll(raw).Some? && forall r :: r in raw <==> r in order
    ensures e in NormalizeAll(raw).value <==> e in Fitting(st, p, order)
  {
    var es := NormalizeAll(raw).value;
    FittingMembers(st, p, order, e);
    if i :| 0 <= i < |raw| && es[i] == e { assert raw[i] in order; }
    if r :| r in order && Normalize(r).value == e {
      var i :| 0 <= i < |raw| && raw[i] == r;
      assert es[i] == e;
    }
  }

  /** All entries fit, so the list is granted as a whole. */
  lemma WholeAgrees(st: State, p: PrincipalId, raw: seq<RawEntry>, order: seq<RawEntry>)
    requires Constrained(st) && AllFit(st, p, raw) && forall r :: r in raw <==> r in order
    ensures SameGrants(st.rows, GrantRaw(st, p, raw).0.rows, GrantEach(st, p, order).rows)
  {
    GrantManyJoins(st, p, raw);
    GrantEachJoins(st, p, order);
    var whole, each := GrantRaw(st, p, raw).0.rows, GrantEach(st, p, order).rows;
    forall e ensures e in NormalizeAll(raw).value <==> e in Fitting(st, p, order) { AllFitting(st, p, raw, order, e); }
    JoinsAgree(st.rows, whole, each, p, NormalizeAll(raw).value, Fitting(st, p, order));
  }

  predicate IdleIfFits(st: State, p: PrincipalId, r: RawEntry) {
    Fits(st, p, r) ==> Idle(st.rows, p, Normalize(r).value)
  }

  /** Not all entries fit, so the list changes nothing. */
  lemma RefusedAgreesIff(st: State, p: PrincipalId, raw: seq<RawEntry>, order: seq<RawEntry>)
    requires Constrained(st) && !AllFit(st, p, raw) && forall r :: r in raw <==> r in order
    ensures SameGrants(st.rows, GrantRaw(st, p, raw).0.rows, GrantEach(st, p, order).rows)
            <==> forall r :: r in raw ==> IdleIfFits(st, p, r)
  {
    GrantManyJoins(st, p, raw);
    GrantEachJoins(st, p, order);
    JoinIsIdleIff(st.rows, GrantEach(st, p, order).rows, p, Fitting(st, p, order));
    forall e
      ensures e in Fitting(st, p, order) <==> exists r :: r in order && Fits(st, p, r) && Normalize(r).value == e
    {
      FittingMembers(st, p, order, e);
    }
    forall r | r in raw && Fits(st, p, r) ensures Normalize(r).value in Fitting(st, p, order) {}
  }

  /**
   * One call with a list leaves the same grants as its entries granted one at a time, in whatever order,
   * exactly if all of them fit, or those that do would change nothing.
   */
  lemma GrantManyIsAnyOrder(st: State, p: PrincipalId, raw: seq<RawEntry>, order: seq<RawEntry>)
    requires Constrained(st) && multiset(raw) == multiset(order)
    ensures SameGrants(st.rows, GrantRaw(st, p, raw).0.rows, GrantEach(st, p, order).rows)
            <==> AllFit(st, p, raw) || forall r :: r in raw ==> IdleIfFits(st, p, r)
  {
    SameMembers(raw, order);
    if AllFit(st, p, raw) {
      WholeAgrees(st, p, raw, order);
    } else {
      RefusedAgreesIff(st, p, raw, order);
    }
  }

  /** One entry that does not fit keeps a whole list out; granted one at a time the other one stands. */
  lemma OneBadEntrySpoilsTheList(st: State, p: PrincipalId, good: RawEntry, bad: RawEntry)
    requires Constrained(st) && Fits(st, p, good) && !Fits(st, p, bad) && KeyOf(p, Normalize(good).value) !in st.rows
    ensures GrantRaw(st, p, [good, bad]).0.rows == st.rows
    ensures KeyOf(p, Normalize(good).value) in GrantEach(st, p, [good, bad]).rows
    ensures !SameGrants(st.rows, GrantRaw(st, p, [good, bad]).0.rows, GrantEach(st, p, [good, bad]).rows)
  {
    var raw, e := [good, bad], Normalize(good).value;
    assert raw[0] == good && raw[1] == bad;
    GrantManyRefusedIff(st, p, raw);
    GrantEachJoins(st, p, raw);
    FittingMembers(st, p, raw, e);
    assert Adds(p, Fitting(st, p, raw), KeyOf(p, e));
  }
}
