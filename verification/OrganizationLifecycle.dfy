/**
 * Creating children, stores and pay contracts while organizations are being deleted.
 *
 * Each transaction is cut at its SQL statements, and the statements of different transactions
 * interleave freely under READ COMMITTED: a statement reads what was committed when it began, and a
 * row lock may make it wait in between. Advisory locks only remove interleavings, so they are left out.
 */
module OrganizationLifecycle {
  import opened Options

  type OrgId = string
  type RowId = string
  type TxId = nat

  datatype ContractStatus = Active | Inactive | Deleted

  datatype StoreRow = StoreRow(org: OrgId, active: bool)
  datatype ContractRow = ContractRow(company: OrgId, status: ContractStatus)

  /** What is committed. */
  datatype Tables = Tables(
    parents: map<OrgId, Option<OrgId>>,
    deletions: set<OrgId>,
    stores: map<RowId, StoreRow>,
    contracts: map<RowId, ContractRow>)

  datatype Work =
    | CreateChild(parent: OrgId, child: OrgId)
    | AddStore(org: OrgId, store: RowId)
    | RemoveStore(org: OrgId, store: RowId)
    | AddContract(company: OrgId, contract: RowId, status: ContractStatus)
    | ChangeContract(changed: RowId, newStatus: ContractStatus)
    | DeleteOrganization(deleted: OrgId)

  /** `snapshot` holds the deletions committed when the first statement began. */
  datatype Phase = Waiting(snapshot: set<OrgId>) | Locked(snapshot: set<OrgId>) | Checked | Counted

  datatype Tx = Tx(work: Work, phase: Phase)

  datatype State = State(tables: Tables, txs: map<TxId, Tx>)

  datatype Counts = Counts(liveSubOrganizations: nat, livePayContracts: nat, memberGrants: nat, liveStores: nat)

  /** `blockers` answers whether the blocker list is non-empty. `secondStatement` is how the source reads the
      deletion row; without it the check would use the snapshot of the locking statement. */
  datatype Rules = Rules(secondStatement: bool, blockers: Counts -> bool)

  // ---------------------------------------------------------------- liveness

  function LiveChildren(t: Tables, org: OrgId): set<OrgId> {
    set c | c in t.parents && t.parents[c] == Some(org) && c !in t.deletions
  }

  function ActiveStores(t: Tables, org: OrgId): set<RowId> {
    set s | s in t.stores && t.stores[s].org == org && t.stores[s].active
  }

  function LiveContracts(t: Tables, org: OrgId): set<RowId> {
    set c | c in t.contracts && t.contracts[c].company == org && t.contracts[c].status != Deleted
  }

  predicate Clear(t: Tables, org: OrgId) {
    LiveChildren(t, org) == {} && ActiveStores(t, org) == {} && LiveContracts(t, org) == {}
  }

  /** A deleted organization has no live child, no active store and no live contract. */
  ghost predicate Safe(t: Tables) { forall org :: org in t.deletions ==> Clear(t, org) }

  function CountsOf(t: Tables, org: OrgId, memberGrants: nat): Counts {
    Counts(|LiveChildren(t, org)|, |LiveContracts(t, org)|, memberGrants, |ActiveStores(t, org)|)
  }

  ghost predicate BlocksLiving(blockers: Counts -> bool) {
    forall c: Counts :: c.liveSubOrganizations > 0 || c.livePayContracts > 0 || c.liveStores > 0 ==> blockers(c)
  }

  // ---------------------------------------------------------------- row locks

  /** The organization row a transaction locks: exclusively to delete it, shared otherwise. */
  function LockedOrg(w: Work): Option<OrgId> {
    match w
    case CreateChild(parent, _) => Some(parent)
    case AddStore(org, _) => Some(org)
    case RemoveStore(org, _) => Some(org)
    case AddContract(company, _, _) => Some(company)
    case ChangeContract(_, _) => None
    case DeleteOrganization(org) => Some(org)
  }

  predicate Holding(tx: Tx) { !tx.phase.Waiting? }

  /** Two held row locks that PostgreSQL never grants together. */
  predicate Conflict(a: Work, b: Work) {
    || (LockedOrg(a).Some? && LockedOrg(a) == LockedOrg(b) && (a.DeleteOrganization? || b.DeleteOrganization?))
    || (a.ChangeContract? && b.ChangeContract? && a.changed == b.changed)
  }

  predicate LockFree(s: State, id: TxId)
    requires id in s.txs
  {
    forall other :: other in s.txs && other != id && Holding(s.txs[other]) ==>
      !Conflict(s.txs[id].work, s.txs[other].work)
  }

  // ---------------------------------------------------------------- statements

  datatype Action =
    | Begin(id: TxId, work: Work)
    | Grant(id: TxId)
    | ReadDeletion(id: TxId)
    | CountBlockers(id: TxId, memberGrants: nat)
    | Commit(id: TxId)
    | Rollback(id: TxId)

  predicate RowExists(t: Tables, w: Work) {
    if w.ChangeContract? then w.changed in t.contracts && t.contracts[w.changed].status != Deleted
    else LockedOrg(w).value in t.parents
  }

  /** The deletions the liveness check can see. */
  function Seen(rules: Rules, s: State, id: TxId): set<OrgId>
    requires id in s.txs && s.txs[id].phase.Locked?
  {
    if rules.secondStatement then s.tables.deletions else s.txs[id].phase.snapshot
  }

  predicate ReadyToCommit(tx: Tx) {
    if tx.work.DeleteOrganization? then tx.phase.Counted? else tx.phase.Checked?
  }

  /** The primary keys and the row a commit needs. */
  predicate Insertable(t: Tables, w: Work) {
    match w
    case CreateChild(_, child) => child !in t.parents
    case AddStore(_, store) => store !in t.stores
    case RemoveStore(org, store) => store in t.stores && t.stores[store].org == org && t.stores[store].active
    case AddContract(_, contract, _) => contract !in t.contracts
    case ChangeContract(contract, _) => contract in t.contracts
    case DeleteOrganization(org) => org !in t.deletions
  }

  predicate Enabled(rules: Rules, s: State, a: Action) {
    match a
    case Begin(id, _) => id !in s.txs
    case Grant(id) => id in s.txs && s.txs[id].phase.Waiting? && RowExists(s.tables, s.txs[id].work) && LockFree(s, id)
    case ReadDeletion(id) =>
      && id in s.txs && s.txs[id].phase.Locked?
      && (LockedOrg(s.txs[id].work).Some? ==> LockedOrg(s.txs[id].work).value !in Seen(rules, s, id))
    case CountBlockers(id, memberGrants) =>
      && id in s.txs && s.txs[id].phase.Checked? && s.txs[id].work.DeleteOrganization?
      && !rules.blockers(CountsOf(s.tables, s.txs[id].work.deleted, memberGrants))
    case Commit(id) => id in s.txs && ReadyToCommit(s.txs[id]) && Insertable(s.tables, s.txs[id].work)
    case Rollback(id) => id in s.txs
  }

  function Publish(t: Tables, w: Work): Tables
    requires Insertable(t, w)
  {
    match w
    case CreateChild(parent, child) => t.(parents := t.parents[child := Some(parent)])
    case AddStore(org, store) => t.(stores := t.stores[store := StoreRow(org, true)])
    case RemoveStore(_, store) => t.(stores := t.stores[store := t.stores[store].(active := false)])
    case AddContract(company, contract, status) =>
      t.(contracts := t.contracts[contract := ContractRow(company, status)])
    case ChangeContract(contract, status) =>
      t.(contracts := t.contracts[contract := t.contracts[contract].(status := status)])
    case DeleteOrganization(org) => t.(deletions := t.deletions + {org})
  }

  function Next(rules: Rules, s: State, a: Action): State
    requires Enabled(rules, s, a)
  {
    match a
    case Begin(id, work) => s.(txs := s.txs[id := Tx(work, Waiting(s.tables.deletions))])
    case Grant(id) => s.(txs := s.txs[id := s.txs[id].(phase := Locked(s.txs[id].phase.snapshot))])
    case ReadDeletion(id) => s.(txs := s.txs[id := s.txs[id].(phase := Checked)])
    case CountBlockers(id, _) => s.(txs := s.txs[id := s.txs[id].(phase := Counted)])
    case Commit(id) => State(Publish(s.tables, s.txs[id].work), s.txs - {id})
    case Rollback(id) => s.(txs := s.txs - {id})
  }

  /** The database, changed in place by the statements. */
  class Database {
    var parents: map<OrgId, Option<OrgId>>
    var deletions: set<OrgId>
    var stores: map<RowId, StoreRow>
    var contracts: map<RowId, ContractRow>
    var txs: map<TxId, Tx>
    const rules: Rules

    constructor (rules: Rules)
      ensures Now() == State(Tables(map[], {}, map[], map[]), map[]) && this.rules == rules
    {
      parents, deletions, stores, contracts, txs := map[], {}, map[], map[], map[];
      this.rules := rules;
    }

    ghost function Now(): State
      reads this
    {
      State(Tables(parents, deletions, stores, contracts), txs)
    }

    method BeginTransaction(id: TxId, work: Work)
      requires Enabled(rules, Now(), Begin(id, work))
      modifies this`txs
      ensures Now() == Next(rules, old(Now()), Begin(id, work))
    {
      txs := txs[id := Tx(work, Waiting(deletions))];
    }

    method GrantRowLock(id: TxId)
      requires Enabled(rules, Now(), Grant(id))
      modifies this`txs
      ensures Now() == Next(rules, old(Now()), Grant(id))
    {
      txs := txs[id := txs[id].(phase := Locked(txs[id].phase.snapshot))];
    }

    /** The second statement of the liveness check; `live` is its answer. */
    method ReadDeletionRow(id: TxId) returns (live: bool)
      requires id in txs && txs[id].phase.Locked? && rules.secondStatement
      modifies this`txs
      ensures live == old(Enabled(rules, Now(), ReadDeletion(id)))
      ensures Now() == if live then Next(rules, old(Now()), ReadDeletion(id)) else old(Now())
    {
      var org := LockedOrg(txs[id].work);
      live := org.None? || org.value !in deletions;
      if live {
        txs := txs[id := txs[id].(phase := Checked)];
      }
    }

    method RecountBlockers(id: TxId, memberGrants: nat) returns (blocked: bool)
      requires id in txs && txs[id].phase.Checked? && txs[id].work.DeleteOrganization?
      modifies this`txs
      ensures blocked == !old(Enabled(rules, Now(), CountBlockers(id, memberGrants)))
      ensures Now() == if blocked then old(Now()) else Next(rules, old(Now()), CountBlockers(id, memberGrants))
    {
      var org := txs[id].work.deleted;
      var children := set c | c in parents && parents[c] == Some(org) && c !in deletions;
      var live := set c | c in contracts && contracts[c].company == org && contracts[c].status != Deleted;
      var active := set s | s in stores && stores[s].org == org && stores[s].active;
      blocked := rules.blockers(Counts(|children|, |live|, memberGrants, |active|));
      if !blocked {
        txs := txs[id := txs[id].(phase := Counted)];
      }
    }

    method CommitTransaction(id: TxId)
      requires Enabled(rules, Now(), Commit(id))
      modifies this
      ensures Now() == Next(rules, old(Now()), Commit(id))
    {
      match txs[id].work {
        case CreateChild(parent, child) => parents := parents[child := Some(parent)];
        case AddStore(org, store) => stores := stores[store := StoreRow(org, true)];
        case RemoveStore(_, store) => stores := stores[store := stores[store].(active := false)];
        case AddContract(company, contract, status) => contracts := contracts[contract := ContractRow(company, status)];
        case ChangeContract(contract, status) =>
          contracts := contracts[contract := contracts[contract].(status := status)];
        case DeleteOrganization(org) => deletions := deletions + {org};
      }
      txs := txs - {id};
    }
  }

  // ---------------------------------------------------------------- the invariant

  ghost predicate LocksCompatible(s: State) {
    forall a, b :: a in s.txs && b in s.txs && a != b && Holding(s.txs[a]) && Holding(s.txs[b]) ==>
      !Conflict(s.txs[a].work, s.txs[b].work)
  }

  /** What a transaction has learnt from its reads and may still rely on. */
  ghost predicate Knows(t: Tables, tx: Tx) {
    && (Holding(tx) && tx.work.ChangeContract? ==>
          tx.work.changed in t.contracts && t.contracts[tx.work.changed].status != Deleted)
    && (tx.phase.Checked? && LockedOrg(tx.work).Some? ==> LockedOrg(tx.work).value !in t.deletions)
    && (tx.phase.Counted? && tx.work.DeleteOrganization? ==> Clear(t, tx.work.deleted))
  }

  ghost predicate Valid(s: State) {
    && Safe(s.tables)
    && LocksCompatible(s)
    && forall id :: id in s.txs ==> Knows(s.tables, s.txs[id])
  }

  lemma NothingCounted(t: Tables, org: OrgId, memberGrants: nat, blockers: Counts -> bool)
    requires BlocksLiving(blockers) && !blockers(CountsOf(t, org, memberGrants))
    ensures Clear(t, org)
  {
  }

  /** A commit whose transaction knows what it must keeps the tables safe. */
  lemma PublishKeepsSafe(t: Tables, tx: Tx)
    requires Safe(t) && Knows(t, tx) && ReadyToCommit(tx) && Insertable(t, tx.work)
    ensures Safe(Publish(t, tx.work))
  {
    var u := Publish(t, tx.work);
    forall org | org in u.deletions ensures Clear(u, org) {
      if org in t.deletions { assert Clear(t, org); }
      PublishAddsOnlyItsOwn(t, tx.work, org);
    }
  }

  /** Which of an organization's living dependants a commit can add. */
  lemma PublishAddsOnlyItsOwn(t: Tables, w: Work, org: OrgId)
    requires Insertable(t, w)
    ensures var u := Publish(t, w);
            && (LiveChildren(u, org) <= LiveChildren(t, org) || (w.CreateChild? && w.parent == org))
            && (ActiveStores(u, org) <= ActiveStores(t, org) || (w.AddStore? && w.org == org))
            && (LiveContracts(u, org) <= LiveContracts(t, org) || (w.AddContract? && w.company == org)
                || (w.ChangeContract? && t.contracts[w.changed].company == org
                    && t.contracts[w.changed].status == Deleted))
  {
  }

  /** Nor does it take from another transaction what that one relies on. */
  lemma PublishKeepsKnowledge(t: Tables, tx: Tx, other: Tx)
    requires Knows(t, tx) && ReadyToCommit(tx) && Insertable(t, tx.work)
    requires Knows(t, other) && (Holding(other) ==> !Conflict(tx.work, other.work))
    ensures Knows(Publish(t, tx.work), other)
  {
    if other.phase.Counted? && other.work.DeleteOrganization? {
      PublishAddsOnlyItsOwn(t, tx.work, other.work.deleted);
    }
  }

  lemma NextKeepsValid(rules: Rules, s: State, a: Action)
    requires rules.secondStatement && BlocksLiving(rules.blockers)
    requires Valid(s) && Enabled(rules, s, a)
    ensures Valid(Next(rules, s, a))
  {
    var t := Next(rules, s, a);
    match a {
      case Commit(id) =>
        PublishKeepsSafe(s.tables, s.txs[id]);
        forall other | other in t.txs ensures Knows(t.tables, t.txs[other]) {
          PublishKeepsKnowledge(s.tables, s.txs[id], s.txs[other]);
        }
      case CountBlockers(id, memberGrants) =>
        NothingCounted(s.tables, s.txs[id].work.deleted, memberGrants, rules.blockers);
      case _ =>
    }
  }

  // ---------------------------------------------------------------- runs

  /** The state after the actions, oldest first, or None when one of them was not possible. */
  function Play(rules: Rules, start: Tables, actions: seq<Action>): Option<State> {
    if |actions| == 0 then Some(State(start, map[]))
    else
      var before := Play(rules, start, actions[..|actions| - 1]);
      var a := actions[|actions| - 1];
      if before.Some? && Enabled(rules, before.value, a) then Some(Next(rules, before.value, a)) else None
  }

  lemma {:induction false} PlayValid(rules: Rules, start: Tables, actions: seq<Action>)
    requires rules.secondStatement && BlocksLiving(rules.blockers) && Safe(start)
    requires Play(rules, start, actions).Some?
    ensures Valid(Play(rules, start, actions).value)
  {
    if |actions| > 0 {
      PlayValid(rules, start, actions[..|actions| - 1]);
      NextKeepsValid(rules, Play(rules, start, actions[..|actions| - 1]).value, actions[|actions| - 1]);
    }
  }

  /** In every interleaving, a deleted organization has no living dependant. */
  lemma DeletedOrganizationsAreClear(rules: Rules, start: Tables, actions: seq<Action>, org: OrgId)
    requires rules.secondStatement && BlocksLiving(rules.blockers) && Safe(start)
    requires Play(rules, start, actions).Some?
    requires org in Play(rules, start, actions).value.tables.deletions
    ensures Clear(Play(rules, start, actions).value.tables, org)
  {
    PlayValid(rules, start, actions);
  }

  /** The deletion of an organization nobody depends on reaches its commit. */
  lemma DeletionReachesCount(rules: Rules, start: Tables) returns (actions: seq<Action>)
    requires start == Tables(map["p" := None], {}, map[], map[]) && !rules.blockers(Counts(0, 0, 0, 0))
    ensures Play(rules, start, actions) == Some(State(start, map[1 := Tx(DeleteOrganization("p"), Counted)]))
  {
    var w := DeleteOrganization("p");
    assert CountsOf(start, "p", 0) == Counts(0, 0, 0, 0) by {
      assert LiveChildren(start, "p") == {} && LiveContracts(start, "p") == {} && ActiveStores(start, "p") == {};
    }
    actions := PlayOne(rules, start, [], Begin(1, w), State(start, map[1 := Tx(w, Waiting({}))]));
    actions := PlayOne(rules, start, actions, Grant(1), State(start, map[1 := Tx(w, Locked({}))]));
    actions := PlayOne(rules, start, actions, ReadDeletion(1), State(start, map[1 := Tx(w, Checked)]));
    actions := PlayOne(rules, start, actions, CountBlockers(1, 0), State(start, map[1 := Tx(w, Counted)]));
  }

  /** Reading the deletion row in the locking statement itself is not enough. */
  lemma OneStatementIsUnsafe(rules: Rules, start: Tables)
    requires !rules.secondStatement && !rules.blockers(Counts(0, 0, 0, 0))
    requires start == Tables(map["p" := None], {}, map[], map[])
    ensures Safe(start)
    ensures exists actions :: Play(rules, start, actions).Some? && !Safe(Play(rules, start, actions).value.tables)
  {
    var a0 := DeletionReachesCount(rules, start);
    var w, gone := CreateChild("p", "c"), start.(deletions := {"p"});
    var d := Tx(DeleteOrganization("p"), Counted);
    var a1 := PlayOne(rules, start, a0, Begin(2, w), State(start, map[1 := d, 2 := Tx(w, Waiting({}))]));
    var a2 := PlayOne(rules, start, a1, Commit(1), State(gone, map[2 := Tx(w, Waiting({}))]));
    var a3 := PlayOne(rules, start, a2, Grant(2), State(gone, map[2 := Tx(w, Locked({}))]));
    var a4 := PlayOne(rules, start, a3, ReadDeletion(2), State(gone, map[2 := Tx(w, Checked)]));
    var last := gone.(parents := map["p" := None, "c" := Some("p")]);
    var a5 := PlayOne(rules, start, a4, Commit(2), State(last, map[]));
    assert "c" in LiveChildren(last, "p");
  }

  lemma PlayOne(rules: Rules, start: Tables, actions: seq<Action>, a: Action, next: State) returns (r: seq<Action>)
    requires Play(rules, start, actions).Some? && Enabled(rules, Play(rules, start, actions).value, a)
    requires next == Next(rules, Play(rules, start, actions).value, a)
    ensures Play(rules, start, r) == Some(next)
  {
    r := actions + [a];
    assert r[..|actions|] == actions;
  }

  // ---------------------------------------------------------------- what a commit does

  /** What the committed rows say, one column at a time. */
  datatype Fact =
    | ParentIs(org: OrgId, parent: Option<OrgId>)
    | IsDeleted(gone: OrgId)
    | StoreOf(store: RowId, owner: OrgId)
    | StoreActive(open: RowId, active: bool)
    | ContractOf(contract: RowId, company: OrgId)
    | StatusIs(agreed: RowId, status: ContractStatus)

  ghost predicate Holds(t: Tables, f: Fact) {
    match f
    case ParentIs(org, parent) => org in t.parents && t.parents[org] == parent
    case IsDeleted(org) => org in t.deletions
    case StoreOf(store, owner) => store in t.stores && t.stores[store].org == owner
    case StoreActive(store, active) => store in t.stores && t.stores[store].active == active
    case ContractOf(contract, company) => contract in t.contracts && t.contracts[contract].company == company
    case StatusIs(contract, status) => contract in t.contracts && t.contracts[contract].status == status
  }

  /** The tables are what their facts say. */
  lemma FactsDetermine(t: Tables, u: Tables)
    requires forall f :: Holds(t, f) <==> Holds(u, f)
    ensures t == u
  {
    forall org ensures org in t.parents <==> org in u.parents {
      if org in t.parents { assert Holds(u, ParentIs(org, t.parents[org])); }
      if org in u.parents { assert Holds(t, ParentIs(org, u.parents[org])); }
    }
    forall org | org in t.parents ensures t.parents[org] == u.parents[org] {
      assert Holds(u, ParentIs(org, t.parents[org]));
    }
    forall org ensures org in t.deletions <==> org in u.deletions {
      assert Holds(t, IsDeleted(org)) <==> Holds(u, IsDeleted(org));
    }
    SameStores(t, u);
    SameContracts(t, u);
  }

  lemma SameStores(t: Tables, u: Tables)
    requires forall f :: Holds(t, f) <==> Holds(u, f)
    ensures t.stores == u.stores
  {
    forall s ensures s in t.stores <==> s in u.stores {
      if s in t.stores { assert Holds(u, StoreOf(s, t.stores[s].org)); }
      if s in u.stores { assert Holds(t, StoreOf(s, u.stores[s].org)); }
    }
    forall s | s in t.stores ensures t.stores[s] == u.stores[s] {
      assert Holds(u, StoreOf(s, t.stores[s].org)) && Holds(u, StoreActive(s, t.stores[s].active));
    }
  }

  lemma SameContracts(t: Tables, u: Tables)
    requires forall f :: Holds(t, f) <==> Holds(u, f)
    ensures t.contracts == u.contracts
  {
    forall c ensures c in t.contracts <==> c in u.contracts {
      if c in t.contracts { assert Holds(u, ContractOf(c, t.contracts[c].company)); }
      if c in u.contracts { assert Holds(t, ContractOf(c, u.contracts[c].company)); }
    }
    forall c | c in t.contracts ensures t.contracts[c] == u.contracts[c] {
      assert Holds(u, ContractOf(c, t.contracts[c].company)) && Holds(u, StatusIs(c, t.contracts[c].status));
    }
  }

  /** The facts that a piece of work brings about. */
  ghost function Gives(w: Work): set<Fact> {
    match w
    case CreateChild(parent, child) => {ParentIs(child, Some(parent))}
    case AddStore(org, store) => {StoreOf(store, org), StoreActive(store, true)}
    case RemoveStore(_, store) => {StoreActive(store, false)}
    case AddContract(company, contract, status) => {ContractOf(contract, company), StatusIs(contract, status)}
    case ChangeContract(contract, status) => {StatusIs(contract, status)}
    case DeleteOrganization(org) => {IsDeleted(org)}
  }

  /** The facts that it ends, unless it brings them about. */
  predicate Ends(w: Work, f: Fact) {
    (w.RemoveStore? && f == StoreActive(w.store, true)) || (w.ChangeContract? && f.StatusIs? && f.agreed == w.changed)
  }

  /** A commit brings about its own facts, ends those they replace, and leaves all others. */
  lemma CommitEffect(t: Tables, w: Work, f: Fact)
    requires Insertable(t, w)
    ensures Holds(Publish(t, w), f) <==> f in Gives(w) || (Holds(t, f) && !Ends(w, f))
  {
  }

  lemma CommitMeansForStores(t: Tables, w: Work, org: OrgId)
    requires Insertable(t, w)
    ensures ActiveStores(Publish(t, w), org) == ActiveStores(t, org)
              + (if w.AddStore? && w.org == org then {w.store} else {})
              - (if w.RemoveStore? then {w.store} else {})
  {
  }

  lemma CommitMeansForChildren(t: Tables, w: Work, org: OrgId)
    requires Insertable(t, w)
    ensures LiveChildren(Publish(t, w), org) == LiveChildren(t, org)
              + (if w.CreateChild? && w.parent == org && w.child !in t.deletions then {w.child} else {})
              - (if w.DeleteOrganization? then {w.deleted} else {})
  {
  }

  lemma CommitMeansForContracts(t: Tables, w: Work, org: OrgId)
    requires Insertable(t, w) && (w.ChangeContract? ==> t.contracts[w.changed].status != Deleted)
    ensures LiveContracts(Publish(t, w), org) == LiveContracts(t, org)
              + (if w.AddContract? && w.company == org && w.status != Deleted then {w.contract} else {})
              - (if w.ChangeContract? && w.newStatus == Deleted then {w.changed} else {})
  {
  }

  /** The living dependants a commit adds to any organization, and takes from it. */
  lemma CommitMeans(t: Tables, tx: Tx, org: OrgId)
    requires Knows(t, tx) && ReadyToCommit(tx) && Insertable(t, tx.work)
    ensures var w := tx.work; var u := Publish(t, w);
            && u.deletions == t.deletions + (if w.DeleteOrganization? then {w.deleted} else {})
            && ActiveStores(u, org) == ActiveStores(t, org)
                 + (if w.AddStore? && w.org == org then {w.store} else {})
                 - (if w.RemoveStore? then {w.store} else {})
            && LiveChildren(u, org) == LiveChildren(t, org)
                 + (if w.CreateChild? && w.parent == org && w.child !in t.deletions then {w.child} else {})
                 - (if w.DeleteOrganization? then {w.deleted} else {})
            && LiveContracts(u, org) == LiveContracts(t, org)
                 + (if w.AddContract? && w.company == org && w.status != Deleted then {w.contract} else {})
                 - (if w.ChangeContract? && w.newStatus == Deleted then {w.changed} else {})
  {
    CommitMeansForStores(t, tx.work, org);
    CommitMeansForChildren(t, tx.work, org);
    CommitMeansForContracts(t, tx.work, org);
  }

  /** The work committed by a run, in the order of the commits. */
  function Works(rules: Rules, start: Tables, actions: seq<Action>): seq<Work>
    requires Play(rules, start, actions).Some?
  {
    if |actions| == 0 then []
    else
      var before, a := actions[..|actions| - 1], actions[|actions| - 1];
      Works(rules, start, before) +
      if a.Commit? then [Play(rules, start, before).value.txs[a.id].work] else []
  }

  /** The fact is brought about by some committed work, or was so at the start, and nothing has ended it since. */
  ghost predicate Stands(start: Tables, ws: seq<Work>, f: Fact) {
    || (exists i :: 0 <= i < |ws| && f in Gives(ws[i]) && Unended(ws, i + 1, f))
    || (Holds(start, f) && Unended(ws, 0, f))
  }

  predicate Unended(ws: seq<Work>, from: nat, f: Fact) { forall j :: from <= j < |ws| ==> !Ends(ws[j], f) }

  lemma StandsAfter(start: Tables, ws: seq<Work>, w: Work, f: Fact)
    ensures Stands(start, ws + [w], f) <==> f in Gives(w) || (Stands(start, ws, f) && !Ends(w, f))
  {
    var all := ws + [w];
    assert all[|ws|] == w && forall i :: 0 <= i < |ws| ==> all[i] == ws[i];
    forall from: nat | from <= |ws| ensures Unended(all, from, f) <==> Unended(ws, from, f) && !Ends(w, f) {
      if Unended(all, from, f) { assert !Ends(all[|ws|], f); }
    }
    if f in Gives(w) { assert Unended(all, |ws| + 1, f); }
  }

  /**
   * Over every run the tables are what the committed work says: each fact holds exactly if it was brought
   * about, and not ended since.
   */
  lemma {:induction false} TablesSayWhatWasCommitted(rules: Rules, start: Tables, actions: seq<Action>, f: Fact)
    requires Play(rules, start, actions).Some?
    ensures Holds(Play(rules, start, actions).value.tables, f) <==> Stands(start, Works(rules, start, actions), f)
    decreases |actions|
  {
    if |actions| == 0 {
      assert Unended([], 0, f);
    } else {
      var before, a := actions[..|actions| - 1], actions[|actions| - 1];
      var s := Play(rules, start, before).value;
      TablesSayWhatWasCommitted(rules, start, before, f);
      if a.Commit? {
        CommitEffect(s.tables, s.txs[a.id].work, f);
        StandsAfter(start, Works(rules, start, before), s.txs[a.id].work, f);
      } else {
        assert Works(rules, start, actions) == Works(rules, start, before);
      }
    }
  }

  // ---------------------------------------------------------------- what goes through

  /** What a transaction on its own finds in its way, read off the tables. */
  predicate Possible(t: Tables, w: Work, memberGrants: nat, blockers: Counts -> bool) {
    match w
    case CreateChild(parent, child) => parent in t.parents && parent !in t.deletions && child !in t.parents
    case AddStore(org, store) => org in t.parents && org !in t.deletions && store !in t.stores
    case RemoveStore(org, store) => org in t.parents && org !in t.deletions && store in ActiveStores(t, org)
    case AddContract(company, contract, _) =>
      company in t.parents && company !in t.deletions && contract !in t.contracts
    case ChangeContract(contract, _) =>
      contract in t.contracts && contract in LiveContracts(t, t.contracts[contract].company)
    case DeleteOrganization(org) =>
      && org in t.parents && org !in t.deletions
      && !blockers(Counts(|LiveChildren(t, org)|, |LiveContracts(t, org)|, memberGrants, |ActiveStores(t, org)|))
  }

  function Alone(id: TxId, w: Work, memberGrants: nat): seq<Action> {
    [Begin(id, w), Grant(id), ReadDeletion(id)]
    + (if w.DeleteOrganization? then [CountBlockers(id, memberGrants)] else []) + [Commit(id)]
  }

  lemma PlayLast(rules: Rules, t: Tables, actions: seq<Action>, a: Action)
    ensures Play(rules, t, actions + [a]) ==
            var before := Play(rules, t, actions);
            if before.Some? && Enabled(rules, before.value, a) then Some(Next(rules, before.value, a)) else None
  {
    assert (actions + [a])[..|actions|] == actions;
  }

  /** Up to the liveness check. */
  lemma AloneUpToCheck(rules: Rules, t: Tables, id: TxId, w: Work)
    requires rules.secondStatement
    ensures var s := Play(rules, t, [Begin(id, w), Grant(id), ReadDeletion(id)]);
            && (s.Some? ==> s.value == State(t, map[id := Tx(w, Checked)]))
            && (s.Some? <==> RowExists(t, w) && (LockedOrg(w).Some? ==> LockedOrg(w).value !in t.deletions))
  {
    var a, b, c := [Begin(id, w)], [Begin(id, w)] + [Grant(id)], [Begin(id, w)] + [Grant(id)] + [ReadDeletion(id)];
    PlayLast(rules, t, [], Begin(id, w));
    PlayLast(rules, t, a, Grant(id));
    PlayLast(rules, t, b, ReadDeletion(id));
    assert [] + [Begin(id, w)] == a && c == [Begin(id, w), Grant(id), ReadDeletion(id)];
    var s := State(t, map[id := Tx(w, Waiting(t.deletions))]);
    if RowExists(t, w) {
      assert LockFree(s, id);
      assert Next(rules, s, Grant(id)).txs == map[id := Tx(w, Locked(t.deletions))];
    }
  }

  /** A transaction on its own commits exactly if nothing in the tables stands in its way. */
  lemma AloneCommitsIff(rules: Rules, t: Tables, id: TxId, w: Work, memberGrants: nat)
    requires rules.secondStatement
    ensures var s := Play(rules, t, Alone(id, w, memberGrants));
            && (s.Some? <==> Possible(t, w, memberGrants, rules.blockers))
            && (s.Some? ==> Insertable(t, w) && s.value == State(Publish(t, w), map[]))
  {
    var actions := [Begin(id, w), Grant(id), ReadDeletion(id)];
    AloneUpToCheck(rules, t, id, w);
    if w.DeleteOrganization? {
      PlayLast(rules, t, actions, CountBlockers(id, memberGrants));
      actions := actions + [CountBlockers(id, memberGrants)];
    }
    PlayLast(rules, t, actions, Commit(id));
    assert Alone(id, w, memberGrants) == actions + [Commit(id)];
  }

  /** A rollback publishes nothing and frees the transaction's locks. */
  lemma RollbackLeavesNothing(rules: Rules, s: State, id: TxId)
    requires id in s.txs
    ensures Enabled(rules, s, Rollback(id))
    ensures var next := Next(rules, s, Rollback(id));
            && next.tables == s.tables && id !in next.txs
            && forall other :: other != id ==>
                 (other in next.txs <==> other in s.txs) && (other in s.txs ==> next.txs[other] == s.txs[other])
  {
  }

  /** Only deleting an organization, or changing one contract twice, makes transactions wait. */
  lemma OthersDoNotWait(a: Work, b: Work)
    requires !a.DeleteOrganization? && !b.DeleteOrganization?
    ensures Conflict(a, b) <==> a.ChangeContract? && b.ChangeContract? && a.changed == b.changed
  {
  }

  // ---------------------------------------------------------------- outside the guarantee

  /** `upsertOrganization` moves an organization without asking whether the new parent is deleted. */
  function Reparent(t: Tables, org: OrgId, parent: Option<OrgId>): Tables {
    t.(parents := t.parents[org := parent])
  }

  lemma ReparentSafety(t: Tables, org: OrgId, parent: Option<OrgId>)
    requires Safe(t)
    ensures Safe(Reparent(t, org, parent)) <==>
            org in t.deletions || parent.None? || parent.value !in t.deletions
  {
    var u := Reparent(t, org, parent);
    if org in t.deletions || parent.None? || parent.value !in t.deletions {
      forall o | o in u.deletions ensures Clear(u, o) {
        assert Clear(t, o);
        assert LiveChildren(u, o) <= LiveChildren(t, o);
        assert ActiveStores(u, o) == ActiveStores(t, o) && LiveContracts(u, o) == LiveContracts(t, o);
      }
    } else {
      assert org in LiveChildren(u, parent.value);
    }
  }
}
