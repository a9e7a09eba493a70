/**
 * The two unread counts of one recipient: the recursive query, and the sum over the rendered pages.
 */
module Notifications {
  import opened Options
  import opened OrganizationTree

  datatype Grant = Grant(orgId: OrgId, subtree: bool)

  /** `subject` is the organization id in the subject reference; the table's check keeps it non-empty. */
  datatype Notification = Notification(id: nat, subject: OrgId, unread: bool)

  /** One recipient's rows in list order, the organization tables, and that recipient's grants. */
  datatype Store = Store(inbox: seq<Notification>, tree: Tree, deletions: set<OrgId>, grants: seq<Grant>)

  const PAGE_SIZE := 25

  predicate StoreValid(s: Store) {
    && (forall i :: 0 <= i < |s.inbox| ==> s.inbox[i].subject != "")
    && forall i, j :: 0 <= i < j < |s.inbox| ==> s.inbox[i].id != s.inbox[j].id
  }

  // ---------------------------------------------------------------- rendered pages

  /** The rows `readOrganizations` returns: the subjects and everything above them. A null or empty
      parent id is not carried over. */
  ghost function ReadOrganizations(tree: Tree, ids: set<OrgId>): Tree {
    map o | o in tree && (o in ids || exists id :: id in ids && ProperAncestor(tree, id, o)) ::
      if tree[o] == Some("") then None else tree[o]
  }

  ghost predicate VisibleBy(grants: seq<Grant>, org: OrgId, byId: Tree) {
    exists i :: 0 <= i < |grants| &&
      (grants[i].orgId == org || (grants[i].subtree && ProperAncestor(byId, org, grants[i].orgId)))
  }

  /** The walk from an organization's parent upwards, once for each subtree grant. */
  method Visible(grants: seq<Grant>, org: OrgId, byId: Tree) returns (visible: bool)
    requires Forest(byId) && org in byId && forall o :: o in byId ==> byId[o] != Some("")
    ensures visible == VisibleBy(grants, org, byId)
  {
    AcyclicNoRepeat(byId, org);
    for i := 0 to |grants|
      invariant !VisibleBy(grants[..i], org, byId)
    {
      var g := grants[i];
      if g.orgId == org { return true; }
      if g.subtree {
        var at := byId[org];
        ghost var k := 1;
        while at.Some? && at.value != ""
          invariant k > 0 && at == Up(byId, org, k)
          invariant at != Some("")
          invariant !Meets(byId, org, g.orgId, 1, k)
          invariant k <= |byId|
          decreases |byId| - k
        {
          if at.value == g.orgId { return true; }
          RowsUpTo(byId, org, k);
          ChainFits(byId, org, k + 1);
          at := ParentOf(byId, at.value);
          k := k + 1;
        }
        if n: nat :| n > 0 && Up(byId, org, n) == Some(g.orgId) {
          if n >= k { UpStaysNone(byId, org, k, n - k); }
        }
      }
      assert grants[..i + 1] == grants[..i] + [g];
    }
    assert grants[..|grants|] == grants;
    return false;
  }

  function Page(s: Store, page: nat): seq<Notification>
    requires page > 0
  {
    var from := (page - 1) * PAGE_SIZE;
    var to := page * PAGE_SIZE;
    s.inbox[if from < |s.inbox| then from else |s.inbox|..if to < |s.inbox| then to else |s.inbox|]
  }

  ghost function Subjects(rows: seq<Notification>): set<OrgId> { set i | 0 <= i < |rows| :: rows[i].subject }

  predicate Live(s: Store, org: OrgId) { org in s.tree && org !in s.deletions }

  ghost predicate Shown(s: Store, byId: Tree, n: Notification) {
    n.subject in byId && Live(s, n.subject) && VisibleBy(s.grants, n.subject, byId)
  }

  ghost predicate ShownUnread(s: Store, byId: Tree, n: Notification) { n.unread && Shown(s, byId, n) }

  ghost function ShownCount(s: Store, byId: Tree, rows: seq<Notification>): nat {
    if |rows| == 0 then 0
    else (if ShownUnread(s, byId, rows[0]) then 1 else 0) + ShownCount(s, byId, rows[1..])
  }

  /** `list(recipient, page).unreadCount` */
  ghost function UnreadCount(s: Store, page: nat): nat
    requires page > 0
  {
    var rows := Page(s, page);
    ShownCount(s, ReadOrganizations(s.tree, Subjects(rows)), rows)
  }

  ghost function SumOfPages(s: Store, pages: nat): nat {
    if pages == 0 then 0 else SumOfPages(s, pages - 1) + UnreadCount(s, pages)
  }

  /** The rendered rows of a page, in order. */
  ghost function Items(s: Store, byId: Tree, rows: seq<Notification>): seq<Notification> {
    if |rows| == 0 then []
    else
      var last := rows[|rows| - 1];
      Items(s, byId, rows[..|rows| - 1]) + if Shown(s, byId, last) then [last] else []
  }

  lemma {:induction false} ShownCountAppends(s: Store, byId: Tree, rows: seq<Notification>, n: Notification)
    ensures ShownCount(s, byId, rows + [n]) == ShownCount(s, byId, rows) + if ShownUnread(s, byId, n) then 1 else 0
  {
    if |rows| == 0 {
      assert rows + [n] == [n] && [n][1..] == [];
    } else {
      ShownCountAppends(s, byId, rows[1..], n);
      assert (rows + [n])[1..] == rows[1..] + [n];
    }
  }

  /** The chain over the rows read is a stretch of the chain over the table. */
  lemma {:induction false} ReadChain(tree: Tree, ids: set<OrgId>, a: OrgId, k: nat)
    ensures var u := Up(ReadOrganizations(tree, ids), a, k); u.Some? ==> u == Up(tree, a, k)
  {
    if k > 0 { ReadChain(tree, ids, a, k - 1); }
  }

  lemma ReadIsClosed(tree: Tree, ids: set<OrgId>, o: OrgId)
    requires Closed(tree) && o in ReadOrganizations(tree, ids) && ReadOrganizations(tree, ids)[o].Some?
    ensures ReadOrganizations(tree, ids)[o].value in ReadOrganizations(tree, ids)
  {
    var p := tree[o].value;
    if o in ids {
      assert Up(tree, o, 0) == Some(o) && Up(tree, o, 1) == Some(p);
      assert ProperAncestor(tree, o, p);
    } else {
      var id :| id in ids && ProperAncestor(tree, id, o);
      var k: nat :| k > 0 && Up(tree, id, k) == Some(o);
      assert Up(tree, id, k + 1) == Some(p);
      assert ProperAncestor(tree, id, p);
    }
  }

  /** Over a forest the rows read are a forest too, so every walk over them ends. */
  lemma ReadIsForest(tree: Tree, ids: set<OrgId>)
    requires Forest(tree)
    ensures Forest(ReadOrganizations(tree, ids))
    ensures forall o :: o in ReadOrganizations(tree, ids) ==> ReadOrganizations(tree, ids)[o] != Some("")
  {
    var byId := ReadOrganizations(tree, ids);
    forall a, k: nat | k > 0 ensures Up(byId, a, k) != Some(a) { ReadChain(tree, ids, a, k); }
    forall o | o in byId && byId[o].Some? ensures byId[o].value in byId { ReadIsClosed(tree, ids, o); }
  }

  function RowsOf(tree: Tree, chain: seq<OrgId>): Tree
    requires forall o :: o in chain ==> o in tree
  {
    map o | o in chain :: if tree[o] == Some("") then None else tree[o]
  }

  /** The rows one more subject brings in: itself and its ancestors, as far as they exist. */
  lemma OneMoreSubject(tree: Tree, ids: set<OrgId>, id: OrgId, chain: seq<OrgId>)
    requires forall o :: o in chain <==> o in tree && (o == id || ProperAncestor(tree, id, o))
    ensures ReadOrganizations(tree, ids + {id}) == ReadOrganizations(tree, ids) + RowsOf(tree, chain)
  {
    var more, both := ReadOrganizations(tree, ids + {id}), ReadOrganizations(tree, ids) + RowsOf(tree, chain);
    forall o ensures o in more <==> o in both {}
  }

  /** The query behind `readOrganizations`: each subject that exists, and its ancestors. */
  method ReadRows(tree: Tree, rows: seq<Notification>) returns (byId: Tree)
    requires Forest(tree)
    ensures byId == ReadOrganizations(tree, Subjects(rows))
  {
    byId := map[];
    for i := 0 to |rows|
      invariant byId == ReadOrganizations(tree, Subjects(rows[..i]))
    {
      var id, chain := rows[i].subject, [];
      if id in tree {
        chain := AncestorChain(tree, id);
        ChainInTree(tree, id, chain);
        ChainRows(tree, id, chain);
      } else {
        NoAncestors(tree, id);
      }
      OneMoreSubject(tree, Subjects(rows[..i]), id, chain);
      assert Subjects(rows[..i + 1]) == Subjects(rows[..i]) + {id};
      byId := byId + RowsOf(tree, chain);
    }
    assert rows[..|rows|] == rows;
  }

  lemma ChainInTree(tree: Tree, id: OrgId, chain: seq<OrgId>)
    requires Closed(tree) && id in tree && forall i :: 0 <= i < |chain| ==> Up(tree, id, i) == Some(chain[i])
    ensures forall o :: o in chain ==> o in tree
  {
    forall i | 0 <= i < |chain| ensures chain[i] in tree { RowsUpTo(tree, id, i); }
  }

  lemma HeadOrTail(chain: seq<OrgId>, o: OrgId)
    requires |chain| > 0
    ensures o in chain <==> o == chain[0] || o in chain[1..]
  {
    assert chain == [chain[0]] + chain[1..];
  }

  lemma ChainRows(tree: Tree, id: OrgId, chain: seq<OrgId>)
    requires |chain| > 0 && chain[0] == id && forall o :: o in chain ==> o in tree
    requires forall b :: b in chain[1..] <==> ProperAncestor(tree, id, b)
    ensures forall o :: o in chain <==> o in tree && (o == id || ProperAncestor(tree, id, o))
  {
    forall o ensures o in chain <==> o in tree && (o == id || ProperAncestor(tree, id, o)) { HeadOrTail(chain, o); }
  }

  lemma NoAncestors(tree: Tree, id: OrgId)
    requires id !in tree
    ensures forall o :: !ProperAncestor(tree, id, o)
  {
    forall o, k: nat | k > 0 ensures Up(tree, id, k) != Some(o) {
      assert Up(tree, id, 1).None?;
      UpStaysNone(tree, id, 1, k - 1);
    }
  }

  /** One page of `list`, over the organizations its subjects need. */
  method List(s: Store, page: nat) returns (items: seq<Notification>, unreadCount: nat)
    requires page > 0 && Forest(s.tree)
    ensures var rows := Page(s, page); items == Items(s, ReadOrganizations(s.tree, Subjects(rows)), rows)
    ensures unreadCount == UnreadCount(s, page)
  {
    var rows := Page(s, page);
    var byId := ReadRows(s.tree, rows);
    ReadIsForest(s.tree, Subjects(rows));
    items, unreadCount := [], 0;
    for i := 0 to |rows|
      invariant items == Items(s, byId, rows[..i]) && unreadCount == ShownCount(s, byId, rows[..i])
    {
      var row := rows[i];
      ShownCountAppends(s, byId, rows[..i], row);
      assert rows[..i + 1] == rows[..i] + [row] && rows[..i + 1][..i] == rows[..i];
      if row.subject in byId && Live(s, row.subject) {
        var seen := Visible(s.grants, row.subject, byId);
        if seen {
          items := items + [row];
          if row.unread { unreadCount := unreadCount + 1; }
        }
      }
    }
    assert rows[..|rows|] == rows;
  }

  // ---------------------------------------------------------------- the recursive query

  /** The join condition on grants, over the ancestor rows that include the candidate itself. */
  ghost predicate Granted(s: Store, org: OrgId) {
    exists i :: 0 <= i < |s.grants| &&
      (s.grants[i].orgId == org ||
       (s.grants[i].subtree && (s.grants[i].orgId == org || ProperAncestor(s.tree, org, s.grants[i].orgId))))
  }

  ghost predicate CountedUnread(s: Store, n: Notification) { n.unread && Live(s, n.subject) && Granted(s, n.subject) }

  ghost function CountVisibleUnread(s: Store): nat {
    |set i | 0 <= i < |s.inbox| && CountedUnread(s, s.inbox[i]) :: s.inbox[i].id|
  }

  // ---------------------------------------------------------------- one row

  lemma {:induction false} SameParentsSameChain(t: Tree, u: Tree, a: OrgId, k: nat)
    requires forall o :: o == a || ProperAncestor(t, a, o) ==> ParentOf(u, o) == ParentOf(t, o)
    ensures Up(u, a, k) == Up(t, a, k)
  {
    if k > 0 {
      SameParentsSameChain(t, u, a, k - 1);
      if Up(t, a, k - 1).Some? {
        assert k - 1 == 0 || ProperAncestor(t, a, Up(t, a, k - 1).value);
      }
    }
  }

  lemma ParentKept(tree: Tree, ids: set<OrgId>, org: OrgId, o: OrgId)
    requires Closed(tree) && org in ids && org in tree && !ProperAncestor(tree, org, "")
    requires o == org || ProperAncestor(tree, org, o)
    ensures ParentOf(ReadOrganizations(tree, ids), o) == ParentOf(tree, o)
  {
    var k: nat :| Up(tree, org, k) == Some(o) && (k > 0 || o == org) by { assert Up(tree, org, 0) == Some(org); }
    RowsUpTo(tree, org, k);
    assert Up(tree, org, k + 1) == tree[o];
  }

  lemma RowVisibility(s: Store, ids: set<OrgId>, org: OrgId)
    requires Forest(s.tree) && org in ids && org in s.tree && !ProperAncestor(s.tree, org, "")
    ensures VisibleBy(s.grants, org, ReadOrganizations(s.tree, ids)) <==> Granted(s, org)
  {
    var byId := ReadOrganizations(s.tree, ids);
    forall o | o == org || ProperAncestor(s.tree, org, o) ensures ParentOf(byId, o) == ParentOf(s.tree, o) {
      ParentKept(s.tree, ids, org, o);
    }
    forall o ensures ProperAncestor(byId, org, o) <==> ProperAncestor(s.tree, org, o) {
      if k: nat :| k > 0 && Up(byId, org, k) == Some(o) { SameParentsSameChain(s.tree, byId, org, k); }
      if k: nat :| k > 0 && Up(s.tree, org, k) == Some(o) { SameParentsSameChain(s.tree, byId, org, k); }
    }
  }

  // ---------------------------------------------------------------- counting

  ghost function CountedRows(s: Store, rows: seq<Notification>): nat {
    if |rows| == 0 then 0 else (if CountedUnread(s, rows[0]) then 1 else 0) + CountedRows(s, rows[1..])
  }

  lemma {:induction false} CountedConcat(s: Store, a: seq<Notification>, b: seq<Notification>)
    ensures CountedRows(s, a + b) == CountedRows(s, a) + CountedRows(s, b)
  {
    if |a| == 0 {
      assert a + b == b;
    } else {
      CountedConcat(s, a[1..], b);
      assert (a + b)[1..] == a[1..] + b;
    }
  }

  ghost function CountedIds(s: Store, rows: seq<Notification>): set<nat> {
    set i | 0 <= i < |rows| && CountedUnread(s, rows[i]) :: rows[i].id
  }

  lemma CountedIdsStep(s: Store, rows: seq<Notification>)
    requires |rows| > 0
    ensures CountedIds(s, rows) == CountedIds(s, rows[1..]) + if CountedUnread(s, rows[0]) then {rows[0].id} else {}
  {
    forall id | id in CountedIds(s, rows)
      ensures id in CountedIds(s, rows[1..]) || (CountedUnread(s, rows[0]) && id == rows[0].id)
    {
      var i :| 0 <= i < |rows| && CountedUnread(s, rows[i]) && rows[i].id == id;
      if i > 0 { assert rows[1..][i - 1] == rows[i]; }
    }
    forall id | id in CountedIds(s, rows[1..]) ensures id in CountedIds(s, rows) {
      var i :| 0 <= i < |rows| - 1 && CountedUnread(s, rows[1..][i]) && rows[1..][i].id == id;
      assert rows[i + 1] == rows[1..][i];
    }
  }

  lemma {:induction false} DistinctIdsCount(s: Store, rows: seq<Notification>)
    requires forall i, j :: 0 <= i < j < |rows| ==> rows[i].id != rows[j].id
    ensures |CountedIds(s, rows)| == CountedRows(s, rows)
  {
    if |rows| > 0 {
      DistinctIdsCount(s, rows[1..]);
      CountedIdsStep(s, rows);
      assert rows[0].id !in CountedIds(s, rows[1..]);
    }
  }

  /** No live, non-empty organization has the empty id above it. */
  ghost predicate NoEmptyAncestor(tree: Tree, deletions: set<OrgId>) {
    forall o :: o in tree && o !in deletions && o != "" ==> !ProperAncestor(tree, o, "")
  }

  lemma {:induction false} PageCount(s: Store, ids: set<OrgId>, rows: seq<Notification>)
    requires Forest(s.tree) && NoEmptyAncestor(s.tree, s.deletions)
    requires forall i :: 0 <= i < |rows| ==> rows[i].subject in ids && rows[i].subject != ""
    ensures ShownCount(s, ReadOrganizations(s.tree, ids), rows) == CountedRows(s, rows)
  {
    if |rows| > 0 {
      PageCount(s, ids, rows[1..]);
      if Live(s, rows[0].subject) { RowVisibility(s, ids, rows[0].subject); }
    }
  }

  function Prefix(s: Store, pages: nat): seq<Notification> {
    if pages * PAGE_SIZE < |s.inbox| then s.inbox[..pages * PAGE_SIZE] else s.inbox
  }

  lemma PrefixStep(s: Store, pages: nat)
    requires pages > 0
    ensures Prefix(s, pages) == Prefix(s, pages - 1) + Page(s, pages)
  {
  }

  lemma {:induction false} PagesCount(s: Store, pages: nat)
    requires StoreValid(s) && Forest(s.tree) && NoEmptyAncestor(s.tree, s.deletions)
    ensures SumOfPages(s, pages) == CountedRows(s, Prefix(s, pages))
  {
    if pages > 0 {
      PagesCount(s, pages - 1);
      var rows := Page(s, pages);
      PageCount(s, Subjects(rows), rows);
      PrefixStep(s, pages);
      CountedConcat(s, Prefix(s, pages - 1), rows);
    }
  }

  // ---------------------------------------------------------------- main results

  lemma CountsAgree(s: Store, pages: nat)
    requires StoreValid(s) && Forest(s.tree) && NoEmptyAncestor(s.tree, s.deletions)
    requires pages * PAGE_SIZE >= |s.inbox|
    ensures SumOfPages(s, pages) == CountVisibleUnread(s)
  {
    PagesCount(s, pages);
    DistinctIdsCount(s, s.inbox);
    assert CountedIds(s, s.inbox) == set i | 0 <= i < |s.inbox| && CountedUnread(s, s.inbox[i]) :: s.inbox[i].id;
  }

  lemma NeverEmpty(byId: Tree, org: OrgId, k: nat)
    requires k > 0 && forall o :: o in byId ==> byId[o] != Some("")
    ensures Up(byId, org, k) != Some("")
  {
    assert Up(byId, org, k) == match Up(byId, org, k - 1) case None => None case Some(o) => ParentOf(byId, o);
  }

  /** The rendered list drops an empty parent id that the query follows. */
  lemma EmptyAncestorDisagrees(tree: Tree, deletions: set<OrgId>, org: OrgId)
    requires org in tree && org !in deletions && org != "" && ProperAncestor(tree, org, "")
    ensures var s := Store([Notification(0, org, true)], tree, deletions, [Grant("", true)]);
            StoreValid(s) && SumOfPages(s, 1) == 0 && CountVisibleUnread(s) == 1
  {
    var s := Store([Notification(0, org, true)], tree, deletions, [Grant("", true)]);
    assert CountedUnread(s, s.inbox[0]) by { assert s.grants[0].subtree; }
    assert (set i | 0 <= i < |s.inbox| && CountedUnread(s, s.inbox[i]) :: s.inbox[i].id) == {0};
    var byId := ReadOrganizations(tree, Subjects(Page(s, 1)));
    forall k: nat | k > 0 ensures Up(byId, org, k) != Some("") { NeverEmpty(byId, org, k); }
    assert SumOfPages(s, 0) == 0;
    assert ShownCount(s, byId, Page(s, 1)[1..]) == 0;
  }

  /** Over a forest the two counts agree for every inbox and every list of grants exactly when no live
      organization has the empty id above it. */
  lemma CountsAgreeIff(tree: Tree, deletions: set<OrgId>)
    requires Forest(tree)
    ensures NoEmptyAncestor(tree, deletions) <==>
            forall inbox, grants, pages: nat ::
              StoreValid(Store(inbox, tree, deletions, grants)) && pages * PAGE_SIZE >= |inbox| ==>
                SumOfPages(Store(inbox, tree, deletions, grants), pages) ==
                CountVisibleUnread(Store(inbox, tree, deletions, grants))
  {
    if NoEmptyAncestor(tree, deletions) {
      forall inbox, grants, pages: nat | StoreValid(Store(inbox, tree, deletions, grants))
        && pages * PAGE_SIZE >= |inbox|
        ensures SumOfPages(Store(inbox, tree, deletions, grants), pages) ==
                CountVisibleUnread(Store(inbox, tree, deletions, grants))
      {
        CountsAgree(Store(inbox, tree, deletions, grants), pages);
      }
    } else {
      var org :| org in tree && org !in deletions && org != "" && ProperAncestor(tree, org, "");
      EmptyAncestorDisagrees(tree, deletions, org);
      assert 1 * PAGE_SIZE >= |[Notification(0, org, true)]|;
    }
  }
}
