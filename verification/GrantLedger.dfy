/**
 * Whole runs of the grant writers: the ledger telescopes to the current counts, and a grant's scope
 * is the join of everything granted since it was last taken away.
 */
module GrantLedger {
  import opened Options
  import opened Grants
  import opened Principals
  import opened Strings

  /** One committed call. Organizations are also added by writers outside this module. */
  datatype Event =
    | Grant(p: PrincipalId, raw: seq<RawEntry>)
    | Revoke(p: PrincipalId, targets: seq<(OrgId, string)>)
    | Clear(p: PrincipalId)
    | Bootstrapped(pbuuid: Pbuuid, name: Option<string>)
    | AddOrganization(org: OrgId)
    | RegisterPrincipal(p: PrincipalId, claimed: set<Pbuuid>, person: Person)

  function Apply(st: State, ev: Event): State {
    match ev
    case Grant(p, raw) => GrantRaw(st, p, raw).0
    case Revoke(p, targets) => RemoveKeys(st, p, KeysOf(p, targets), Revoking).0
    case Clear(p) => RemoveKeys(st, p, PrincipalKeys(st.rows, p), Clearing).0
    case Bootstrapped(pbuuid, name) => Bootstrap(st, pbuuid, name).0
    case AddOrganization(org) => st.(orgs := st.orgs + {org})
    case RegisterPrincipal(p, claimed, person) => st.(people := Register(st.people, p, claimed, person).0)
  }

  const START := State(map[], 1, [], {}, People(map[], map[], []))

  function Run(evs: seq<Event>): State {
    if |evs| == 0 then START else Apply(Run(evs[..|evs| - 1]), evs[|evs| - 1])
  }

  // ---------------------------------------------------------------- what one call does to the rows

  /** What the tables' constraints demand holds in every reachable state. */
  lemma {:induction false} RunIsConstrained(evs: seq<Event>)
    ensures Constrained(Run(evs))
    decreases |evs|
  {
    if |evs| > 0 {
      RunIsConstrained(evs[..|evs| - 1]);
      CallKeepsConstraints(Run(evs[..|evs| - 1]), evs[|evs| - 1]);
    }
  }

  lemma CallKeepsConstraints(st: State, ev: Event)
    requires Constrained(st)
    ensures Constrained(Apply(st, ev))
  {
    match ev
    case Grant(p, raw) =>
      GrantManyJoins(st, p, raw);
    case Bootstrapped(pbuuid, name) => BootstrapFailsIff(st, pbuuid, name);
    case _ =>
  }

  /** The entry, as the caller wrote it, is for this organization and role. */
  predicate IsFor(r: RawEntry, p: PrincipalId, k: Key) {
    Trim(r.orgId, IsSpace) == k.org && r.role == k.role && p == k.principal
  }

  /** The call grants `k`: every entry fits and one is for `k`, or bootstrap finds the place free. */
  ghost predicate Gives(st: State, ev: Event, k: Key) {
    match ev
    case Grant(p, raw) =>
      AllFit(st, p, raw) && exists r :: r in raw && IsFor(r, p, k)
    case Bootstrapped(pbuuid, name) =>
      var p := AdminId(pbuuid);
      Claimable(st.people.owners, p, {pbuuid}) && RootAdminFree(st.rows, p) && k == Key(p, ROOT, "admin")
    case _ => false
  }

  /** It grants it for the subtree. */
  ghost predicate GivesWide(st: State, ev: Event, k: Key) {
    match ev
    case Grant(p, raw) =>
      AllFit(st, p, raw) && exists r :: r in raw && IsFor(r, p, k) && r.scope == Some("subtree")
    case _ => Gives(st, ev, k)
  }

  predicate Takes(ev: Event, k: Key) {
    match ev
    case Revoke(p, targets) => p == k.principal && (k.org, k.role) in targets
    case Clear(p) => k.principal == p
    case _ => false
  }

  lemma RevokedKeys(p: PrincipalId, targets: seq<(OrgId, string)>, k: Key)
    ensures k in KeysOf(p, targets) <==> p == k.principal && (k.org, k.role) in targets
  {
    forall i | 0 <= i < |targets| ensures targets[i] in targets {}
  }

  predicate Wide(rows: Rows, k: Key) { k in rows && rows[k].scope == Subtree }

  /** `next` is `now` after a call that gives and takes; rows that stay keep their ids. */
  ghost predicate Effect(now: Rows, next: Rows, gives: bool, wide: bool, takes: bool, k: Key) {
    && (k in next <==> gives || (k in now && !takes))
    && (Wide(next, k) <==> wide || (Wide(now, k) && !takes))
    && (k in now && k in next ==> next[k].id == now[k].id)
  }

  /** Entries that are all valid add what they add once they are normalized. */
  lemma RawAdds(p: PrincipalId, raw: seq<RawEntry>, k: Key)
    requires forall r :: r in raw ==> Normalize(r).Some?
    ensures NormalizeAll(raw).Some?
    ensures var es := NormalizeAll(raw).value;
            && (Adds(p, es, k) <==> exists r :: r in raw && IsFor(r, p, k))
            && (Widens(p, es, k) <==> exists r :: r in raw && IsFor(r, p, k) && r.scope == Some("subtree"))
  {
    forall r | r in raw
      ensures KeyOf(p, Normalize(r).value) == k <==> IsFor(r, p, k)
      ensures Normalize(r).value.scope == Subtree <==> r.scope == Some("subtree")
    {
      NormalizeMeans(r);
    }
    assert forall i :: 0 <= i < |raw| ==> raw[i] in raw;
    var es := NormalizeAll(raw).value;
    forall i | 0 <= i < |raw| ensures es[i] == Normalize(raw[i]).value {}
  }

  /** All of the list joined, or nothing: that is what giving means. */
  lemma JoinEffect(st: State, p: PrincipalId, raw: seq<RawEntry>, next: Rows, k: Key)
    requires JoinsAllOrNothing(st, p, raw, next)
    ensures var ev := Grant(p, raw); Effect(st.rows, next, Gives(st, ev, k), GivesWide(st, ev, k), false, k)
  {
    if AllFit(st, p, raw) { RawAdds(p, raw, k); }
  }

  lemma GrantEffect(st: State, p: PrincipalId, raw: seq<RawEntry>, k: Key)
    requires Constrained(st)
    ensures var ev := Grant(p, raw);
            Effect(st.rows, Apply(st, ev).rows, Gives(st, ev, k), GivesWide(st, ev, k), false, k)
  {
    GrantManyJoins(st, p, raw);
    JoinEffect(st, p, raw, GrantRaw(st, p, raw).0.rows, k);
  }

  lemma BootstrapEffect(st: State, pbuuid: Pbuuid, name: Option<string>, k: Key)
    requires Constrained(st)
    ensures var ev := Bootstrapped(pbuuid, name);
            Effect(st.rows, Apply(st, ev).rows, Gives(st, ev, k), GivesWide(st, ev, k), false, k)
  {
    BootstrapFailsIff(st, pbuuid, name);
    AddsOne(AdminId(pbuuid), ROOT_ADMIN, k);
  }

  lemma CallEffect(st: State, ev: Event, k: Key)
    requires Constrained(st)
    ensures Effect(st.rows, Apply(st, ev).rows, Gives(st, ev, k), GivesWide(st, ev, k), Takes(ev, k), k)
  {
    match ev
    case Grant(p, raw) => GrantEffect(st, p, raw, k);
    case Bootstrapped(pbuuid, name) => BootstrapEffect(st, pbuuid, name, k);
    case Revoke(p, targets) => RevokedKeys(p, targets, k);
    case _ =>
  }

  lemma RunStep(evs: seq<Event>, ev: Event)
    ensures Run(evs + [ev]) == Apply(Run(evs), ev)
  {
    assert (evs + [ev])[..|evs|] == evs;
  }

  /** A known principal and one organization. */
  lemma SmallRun() returns (evs: seq<Event>)
    ensures var st := Run(evs); st.rows == map[] && st.orgs == {"a"} && "p" in st.people.profiles
  {
    evs := [RegisterPrincipal("p", {}, Person(None, None))];
    RunStep([], evs[0]);
    RunStep(evs, AddOrganization("a"));
    evs := evs + [AddOrganization("a")];
  }

  const GOOD := RawEntry("a", "staff", None)
  const BAD := RawEntry("b", "staff", None)

  lemma GoodAndBad(st: State)
    requires st.rows == map[] && st.orgs == {"a"} && "p" in st.people.profiles
    ensures Normalize(GOOD) == Some(Entry("a", "staff", Self)) && Fits(st, "p", GOOD) && !Fits(st, "p", BAD)
  {
    assert Trim("a", IsSpace) == "a" && Trim("b", IsSpace) == "b";
  }

  /** There is a run after which one of two entries fits and the other names an organization nobody knows. */
  lemma SomeRunKnowsOne() returns (evs: seq<Event>)
    ensures var st := Run(evs); st.rows == map[] && Fits(st, "p", GOOD) && !Fits(st, "p", BAD)
  {
    evs := SmallRun();
    GoodAndBad(Run(evs));
  }

  // ---------------------------------------------------------------- scope is a join over the run

  ghost function GivenAt(evs: seq<Event>, k: Key): nat -> bool {
    (i: nat) => i < |evs| && Gives(Run(evs[..i]), evs[i], k)
  }

  ghost function GivenWideAt(evs: seq<Event>, k: Key): nat -> bool {
    (i: nat) => i < |evs| && GivesWide(Run(evs[..i]), evs[i], k)
  }

  function TakenAt(evs: seq<Event>, k: Key): nat -> bool { (i: nat) => i < |evs| && Takes(evs[i], k) }

  /** One of the first `n` calls gives and none of the later ones takes. */
  ghost predicate Standing(gives: nat -> bool, takes: nat -> bool, n: nat) {
    exists i: nat :: i < n && gives(i) && Untaken(takes, i, n)
  }

  ghost predicate Untaken(takes: nat -> bool, i: nat, n: nat) { forall j: nat :: i < j < n ==> !takes(j) }

  lemma StandingLonger(gives: nat -> bool, takes: nat -> bool, n: nat)
    ensures Standing(gives, takes, n + 1) <==> gives(n) || (Standing(gives, takes, n) && !takes(n))
  {
    if gives(n) { assert Untaken(takes, n, n + 1); }
    if Standing(gives, takes, n) && !takes(n) {
      var i: nat :| i < n && gives(i) && Untaken(takes, i, n);
      assert Untaken(takes, i, n + 1);
    }
    if Standing(gives, takes, n + 1) && !gives(n) {
      var i: nat :| i < n + 1 && gives(i) && Untaken(takes, i, n + 1);
      assert Untaken(takes, i, n);
    }
  }

  lemma EffectAt(evs: seq<Event>, n: nat, k: Key)
    requires n < |evs|
    ensures Effect(Run(evs[..n]).rows, Run(evs[..n + 1]).rows, GivenAt(evs, k)(n), GivenWideAt(evs, k)(n),
                   TakenAt(evs, k)(n), k)
  {
    assert evs[..n + 1][..n] == evs[..n];
    RunIsConstrained(evs[..n]);
    CallEffect(Run(evs[..n]), evs[n], k);
  }

  lemma {:induction false} ScopeUpTo(evs: seq<Event>, n: nat, k: Key)
    requires n <= |evs|
    ensures k in Run(evs[..n]).rows <==> Standing(GivenAt(evs, k), TakenAt(evs, k), n)
    ensures Wide(Run(evs[..n]).rows, k) <==> Standing(GivenWideAt(evs, k), TakenAt(evs, k), n)
  {
    if n > 0 {
      ScopeUpTo(evs, n - 1, k);
      StandingLonger(GivenAt(evs, k), TakenAt(evs, k), n - 1);
      StandingLonger(GivenWideAt(evs, k), TakenAt(evs, k), n - 1);
      EffectAt(evs, n - 1, k);
    }
  }

  /** A grant stands, and stands for the subtree, exactly if some call since its last removal says so. */
  lemma ScopeIsJoinSinceRemoval(evs: seq<Event>, k: Key)
    ensures k in Run(evs).rows <==> Standing(GivenAt(evs, k), TakenAt(evs, k), |evs|)
    ensures Wide(Run(evs).rows, k) <==> Standing(GivenWideAt(evs, k), TakenAt(evs, k), |evs|)
  {
    ScopeUpTo(evs, |evs|, k);
    assert evs[..|evs|] == evs;
  }

  /** A row's id changes only if the grant was taken away in between. */
  lemma {:induction false} RowIdsKept(evs: seq<Event>, n: nat, k: Key)
    requires n <= |evs| && k in Run(evs[..n]).rows
    requires forall j :: n <= j < |evs| ==> !Takes(evs[j], k)
    ensures k in Run(evs).rows && Run(evs).rows[k].id == Run(evs[..n]).rows[k].id
    decreases |evs|
  {
    if n < |evs| {
      var init := evs[..|evs| - 1];
      assert init[..n] == evs[..n];
      RowIdsKept(init, n, k);
      RunIsConstrained(init);
      CallEffect(Run(init), evs[|evs| - 1], k);
    } else {
      assert evs[..n] == evs;
    }
  }

  /** Row ids are drawn from a sequence that never goes back, and no two rows share one. */
  ghost predicate OwnIds(rows: Rows, nextId: nat) {
    && (forall k :: k in rows ==> rows[k].id < nextId)
    && forall j, k :: j in rows && k in rows && j != k ==> rows[j].id != rows[k].id
  }

  lemma {:induction false} UpsertOwnIds(rows: Rows, nextId: nat, p: PrincipalId, es: seq<Entry>, n: nat)
    requires n <= |es| && OwnIds(rows, nextId)
    ensures OwnIds(Upsert(rows, nextId, p, es, n), nextId + n)
  {
    if n > 0 { UpsertOwnIds(rows, nextId, p, es, n - 1); }
  }

  lemma GrantOwnIds(st: State, p: PrincipalId, es: seq<Entry>)
    requires OwnIds(st.rows, st.nextId)
    ensures OwnIds(GrantEntries(st, p, es).0.rows, GrantEntries(st, p, es).0.nextId)
  {
    UpsertOwnIds(st.rows, st.nextId, p, Merge(es), |Merge(es)|);
  }

  lemma BootstrapOwnIds(st: State, pbuuid: Pbuuid, name: Option<string>)
    requires OwnIds(st.rows, st.nextId)
    ensures OwnIds(Bootstrap(st, pbuuid, name).0.rows, Bootstrap(st, pbuuid, name).0.nextId)
  {
    UpsertOwnIds(st.rows, st.nextId, AdminId(pbuuid), [ROOT_ADMIN], 1);
  }

  lemma CallOwnIds(st: State, ev: Event)
    requires OwnIds(st.rows, st.nextId)
    ensures OwnIds(Apply(st, ev).rows, Apply(st, ev).nextId)
  {
    match ev
    case Grant(p, raw) =>
      if |raw| > 0 && NormalizeAll(raw).Some? { GrantOwnIds(st, p, NormalizeAll(raw).value); }
    case Bootstrapped(pbuuid, name) => BootstrapOwnIds(st, pbuuid, name);
    case _ =>
  }

  /** Over every run no two grants share a row id. */
  lemma {:induction false} RowIdsDiffer(evs: seq<Event>)
    ensures OwnIds(Run(evs).rows, Run(evs).nextId)
    decreases |evs|
  {
    if |evs| > 0 {
      RowIdsDiffer(evs[..|evs| - 1]);
      CallOwnIds(Run(evs[..|evs| - 1]), evs[|evs| - 1]);
    }
  }

  // ---------------------------------------------------------------- the ledger

  const ZERO := Summary(0, 0, 0)

  /** The `after` of the principal's latest ledger row, zeros before the first. */
  function LastAfter(ledger: seq<LedgerRow>, p: PrincipalId): Summary {
    if |ledger| == 0 then ZERO
    else
      var row := ledger[|ledger| - 1];
      if row.principal == p then row.after else LastAfter(ledger[..|ledger| - 1], p)
  }

  predicate Telescopes(ledger: seq<LedgerRow>) {
    forall i :: 0 <= i < |ledger| ==> ledger[i].before == LastAfter(ledger[..i], ledger[i].principal)
  }

  ghost predicate Balanced(st: State) {
    && Telescopes(st.ledger)
    && forall p :: LastAfter(st.ledger, p) == Summarize(st.rows, p)
  }

  ghost predicate OnlyOf(a: Rows, b: Rows, p: PrincipalId) {
    forall k: Key :: k.principal != p ==> (k in a <==> k in b) && (k in a && k in b ==> a[k] == b[k])
  }

  lemma SummaryKept(a: Rows, b: Rows, p: PrincipalId, q: PrincipalId)
    requires OnlyOf(a, b, p) && q != p
    ensures Summarize(a, q) == Summarize(b, q)
  {
    assert (set k | k in a && k.principal == q) == (set k | k in b && k.principal == q);
    assert OfPrincipal(a, q, Self) == OfPrincipal(b, q, Self);
    assert OfPrincipal(a, q, Subtree) == OfPrincipal(b, q, Subtree);
  }

  lemma LoggedKeepsBalance(st: State, rows: Rows, p: PrincipalId, op: Operation)
    requires Balanced(st) && OnlyOf(st.rows, rows, p)
    ensures Balanced(Logged(st, rows, p, op))
  {
    var next := Logged(st, rows, p, op);
    assert next.ledger[..|st.ledger|] == st.ledger;
    forall i | 0 <= i < |next.ledger|
      ensures next.ledger[i].before == LastAfter(next.ledger[..i], next.ledger[i].principal)
    {
      if i < |st.ledger| { assert next.ledger[..i] == st.ledger[..i]; }
    }
    forall q ensures LastAfter(next.ledger, q) == Summarize(rows, q) {
      if q != p { SummaryKept(st.rows, rows, p, q); }
    }
  }

  lemma UpsertOnly(rows: Rows, nextId: nat, p: PrincipalId, es: seq<Entry>)
    ensures OnlyOf(rows, Upsert(rows, nextId, p, es, |es|), p)
  {
    UpsertJoins(rows, nextId, p, es, |es|);
    var next := Upsert(rows, nextId, p, es, |es|);
    forall k: Key | k.principal != p
      ensures (k in rows <==> k in next) && (k in rows && k in next ==> rows[k] == next[k])
    {
      assert !Adds(p, es[..|es|], k) && !Widens(p, es[..|es|], k);
    }
  }

  lemma SettleKeepsBalance(st: State, p: PrincipalId, rows: Rows)
    requires Balanced(st) && OnlyOf(st.rows, rows, p)
    ensures Balanced(Settle(st, p, rows).0)
  {
    LoggedKeepsBalance(st, rows, p, Granting);
  }

  lemma GrantKeepsBalance(st: State, p: PrincipalId, es: seq<Entry>)
    requires Balanced(st)
    ensures Balanced(GrantEntries(st, p, es).0)
  {
    var merged := Merge(es);
    UpsertOnly(st.rows, st.nextId, p, merged);
    SettleKeepsBalance(st.(nextId := st.nextId + |merged|), p, Upsert(st.rows, st.nextId, p, merged, |merged|));
  }

  lemma RemovalKeepsBalance(st: State, p: PrincipalId, keys: set<Key>, op: Operation)
    requires Balanced(st) && forall k :: k in keys ==> k.principal == p
    ensures Balanced(RemoveKeys(st, p, keys, op).0)
  {
    LoggedKeepsBalance(st, st.rows - keys, p, op);
  }

  lemma BootstrapKeepsBalance(st: State, pbuuid: Pbuuid, name: Option<string>)
    requires Balanced(st)
    ensures Balanced(Bootstrap(st, pbuuid, name).0)
  {
    var p, es := AdminId(pbuuid), [ROOT_ADMIN];
    UpsertOnly(st.rows, st.nextId, p, es);
    var people := Enroll(st.people, pbuuid, name).0;
    var known := st.(orgs := st.orgs + {ROOT}, people := people, nextId := st.nextId + 1);
    LoggedKeepsBalance(known, Upsert(st.rows, st.nextId, p, es, 1), p, Granting);
  }

  lemma CallKeepsBalance(st: State, ev: Event)
    requires Balanced(st)
    ensures Balanced(Apply(st, ev))
  {
    match ev
    case Grant(p, raw) =>
      if |raw| > 0 && NormalizeAll(raw).Some? { GrantKeepsBalance(st, p, NormalizeAll(raw).value); }
    case Revoke(p, targets) => RemovalKeepsBalance(st, p, KeysOf(p, targets), Revoking);
    case Clear(p) => RemovalKeepsBalance(st, p, PrincipalKeys(st.rows, p), Clearing);
    case Bootstrapped(pbuuid, name) => BootstrapKeepsBalance(st, pbuuid, name);
    case _ =>
  }

  /** The ledger telescopes, from zeros, to the counts of the current grants. */
  lemma {:induction false} LedgerTelescopes(evs: seq<Event>)
    ensures Telescopes(Run(evs).ledger)
    ensures forall p :: LastAfter(Run(evs).ledger, p) == Summarize(Run(evs).rows, p)
    decreases |evs|
  {
    if |evs| > 0 {
      LedgerTelescopes(evs[..|evs| - 1]);
      CallKeepsBalance(Run(evs[..|evs| - 1]), evs[|evs| - 1]);
    } else {
      forall p ensures Summarize(START.rows, p) == ZERO {
        assert OfPrincipal(START.rows, p, Self) == {} && OfPrincipal(START.rows, p, Subtree) == {};
        assert (set k | k in START.rows && k.principal == p) == {};
      }
    }
  }

  lemma {:induction false} LastAfterSkips(ledger: seq<LedgerRow>, n: nat, p: PrincipalId)
    requires n <= |ledger| && forall m :: n <= m < |ledger| ==> ledger[m].principal != p
    ensures LastAfter(ledger, p) == LastAfter(ledger[..n], p)
    decreases |ledger|
  {
    if n < |ledger| {
      assert ledger[..|ledger| - 1][..n] == ledger[..n];
      LastAfterSkips(ledger[..|ledger| - 1], n, p);
    } else {
      assert ledger[..n] == ledger;
    }
  }

  lemma NeighboursConnect(ledger: seq<LedgerRow>, i: nat, j: nat)
    requires Telescopes(ledger) && i < j < |ledger| && ledger[i].principal == ledger[j].principal
    requires forall m :: i < m < j ==> ledger[m].principal != ledger[j].principal
    ensures ledger[j].before == ledger[i].after
  {
    LastAfterSkips(ledger[..j], i + 1, ledger[j].principal);
    assert ledger[..j][..i + 1] == ledger[..i + 1];
    assert ledger[..i + 1][i] == ledger[i];
  }

  lemma FirstStartsAtZero(ledger: seq<LedgerRow>, j: nat)
    requires Telescopes(ledger) && j < |ledger|
    requires forall m :: 0 <= m < j ==> ledger[m].principal != ledger[j].principal
    ensures ledger[j].before == ZERO
  {
    LastAfterSkips(ledger[..j], 0, ledger[j].principal);
  }

  /** Between two rows of a principal with none in between nothing is lost; its first row starts at zero. */
  lemma RowsConnect(evs: seq<Event>, j: nat)
    requires j < |Run(evs).ledger|
    ensures var ledger := Run(evs).ledger; var p := ledger[j].principal;
            && (forall i :: 0 <= i < j && ledger[i].principal == p && (forall m :: i < m < j ==>
                                                                           ledger[m].principal != p)
                  ==> ledger[j].before == ledger[i].after)
            && ((forall m :: 0 <= m < j ==> ledger[m].principal != p) ==> ledger[j].before == ZERO)
  {
    LedgerTelescopes(evs);
    var ledger := Run(evs).ledger;
    var p := ledger[j].principal;
    forall i | 0 <= i < j && ledger[i].principal == p && (forall m :: i < m < j ==> ledger[m].principal != p)
      ensures ledger[j].before == ledger[i].after
    {
      NeighboursConnect(ledger, i, j);
    }
    if forall m :: 0 <= m < j ==> ledger[m].principal != p { FirstStartsAtZero(ledger, j); }
  }

  /** Every ledger row counts each grant once, as self or as subtree. */
  lemma SummaryAdds(rows: Rows, p: PrincipalId)
    ensures Summarize(rows, p).grantCount == Summarize(rows, p).selfCount + Summarize(rows, p).subtreeCount
  {
    assert (set k | k in rows && k.principal == p) == OfPrincipal(rows, p, Self) + OfPrincipal(rows, p, Subtree);
    assert OfPrincipal(rows, p, Self) !! OfPrincipal(rows, p, Subtree);
  }

  lemma OneMoreOfPrincipal(rows: Rows, k: Key, row: Row, p: PrincipalId, scope: Scope)
    requires k !in rows
    ensures |OfPrincipal(rows[k := row], p, scope)| ==
            |OfPrincipal(rows, p, scope)| + if p == k.principal && scope == row.scope then 1 else 0
  {
    var before, after := OfPrincipal(rows, p, scope), OfPrincipal(rows[k := row], p, scope);
    if p == k.principal && scope == row.scope {
      assert after == before + {k};
    } else {
      assert after == before;
    }
  }

  lemma NothingToCount(p: PrincipalId)
    ensures Summarize(map[], p) == ZERO
  {
    var none: Rows := map[];
    assert OfPrincipal(none, p, Self) == {} && OfPrincipal(none, p, Subtree) == {};
    SummaryAdds(none, p);
  }

  /** One more grant of a principal counts once more, in its scope's column; nobody else's counts change. */
  lemma SummaryCounts(rows: Rows, k: Key, row: Row, p: PrincipalId)
    requires k !in rows
    ensures var before, after := Summarize(rows, p), Summarize(rows[k := row], p);
            && (p != k.principal ==> after == before)
            && (p == k.principal ==>
                  && after.grantCount == before.grantCount + 1
                  && after.selfCount == before.selfCount + (if row.scope == Self then 1 else 0)
                  && after.subtreeCount == before.subtreeCount + (if row.scope == Subtree then 1 else 0))
  {
    OneMoreOfPrincipal(rows, k, row, p, Self);
    OneMoreOfPrincipal(rows, k, row, p, Subtree);
    SummaryAdds(rows, p);
    SummaryAdds(rows[k := row], p);
  }

  /** `next` is `st` with these rows and one ledger row for the change, or with nothing changed. */
  predicate LogsChange(st: State, next: State, p: PrincipalId, op: Operation) {
    if next.rows == st.rows then next.ledger == st.ledger
    else next.ledger == st.ledger + [LedgerRow(p, op, Summarize(st.rows, p), Summarize(next.rows, p))]
  }

  lemma GrantLogs(st: State, p: PrincipalId, es: seq<Entry>)
    ensures LogsChange(st, GrantEntries(st, p, es).0, p, Granting)
  {
  }

  lemma RemovalLogs(st: State, p: PrincipalId, keys: set<Key>, op: Operation)
    ensures LogsChange(st, RemoveKeys(st, p, keys, op).0, p, op)
  {
  }

  /** The ledger row a call leaves: for its principal, its operation and the counts before and after it. */
  lemma LedgerRowIffChanged(st: State, ev: Event)
    requires !ev.Bootstrapped?
    ensures var next := Apply(st, ev);
            match ev
            case Grant(p, _) => LogsChange(st, next, p, Granting)
            case Revoke(p, _) => LogsChange(st, next, p, Revoking)
            case Clear(p) => LogsChange(st, next, p, Clearing)
            case _ => next.rows == st.rows && next.ledger == st.ledger
  {
    match ev
    case Grant(p, raw) =>
      if |raw| > 0 && NormalizeAll(raw).Some? { GrantLogs(st, p, NormalizeAll(raw).value); }
    case Revoke(p, targets) => RemovalLogs(st, p, KeysOf(p, targets), Revoking);
    case Clear(p) => RemovalLogs(st, p, PrincipalKeys(st.rows, p), Clearing);
    case _ =>
  }
}
