/**
 * The organization tree: parent pointers, the reparent check, and the walks that rely on it.
 */
module OrganizationTree {
  import opened Options

  type OrgId = string

  /** Each organization's `parent_org_id`. */
  type Tree = map<OrgId, Option<OrgId>>

  function ParentOf(t: Tree, a: OrgId): Option<OrgId> { if a in t then t[a] else None }

  /** `k` steps up the parent pointers. */
  function Up(t: Tree, a: OrgId, k: nat): Option<OrgId> {
    if k == 0 then Some(a)
    else
      match Up(t, a, k - 1)
      case None => None
      case Some(b) => ParentOf(t, b)
  }

  /** `b` is met between `from` and `to` steps above `a`. */
  ghost predicate Meets(t: Tree, a: OrgId, b: OrgId, from: nat, to: nat) {
    exists k: nat :: from <= k < to && Up(t, a, k) == Some(b)
  }

  ghost predicate ProperAncestor(t: Tree, a: OrgId, b: OrgId) { exists k: nat :: k > 0 && Up(t, a, k) == Some(b) }

  ghost predicate Acyclic(t: Tree) { forall a, k: nat :: k > 0 ==> Up(t, a, k) != Some(a) }

  /** The foreign key: a parent is a row. */
  predicate Closed(t: Tree) { forall a :: a in t && t[a].Some? ==> t[a].value in t }

  ghost predicate Forest(t: Tree) { Acyclic(t) && Closed(t) }

  // ---------------------------------------------------------------- climbing

  lemma {:induction false} UpAdds(t: Tree, a: OrgId, i: nat, k: nat)
    requires Up(t, a, i).Some?
    ensures Up(t, a, i + k) == Up(t, Up(t, a, i).value, k)
  {
    if k > 0 { UpAdds(t, a, i, k - 1); }
  }

  lemma {:induction false} UpStaysNone(t: Tree, a: OrgId, i: nat, k: nat)
    requires Up(t, a, i).None?
    ensures Up(t, a, i + k).None?
  {
    if k > 0 { UpStaysNone(t, a, i, k - 1); }
  }

  /** The chain from `a` never comes back to a row it has left. */
  ghost predicate NoRepeat(t: Tree, a: OrgId) {
    forall i: nat, j: nat :: i < j && Up(t, a, i).Some? ==> Up(t, a, j) != Up(t, a, i)
  }

  lemma AcyclicNoRepeat(t: Tree, a: OrgId)
    requires Acyclic(t)
    ensures NoRepeat(t, a)
  {
    forall i: nat, j: nat | i < j && Up(t, a, i).Some? ensures Up(t, a, j) != Up(t, a, i) {
      UpAdds(t, a, i, j - i);
    }
  }

  ghost function Visited(t: Tree, a: OrgId, n: nat): set<OrgId>
    requires forall k :: 0 <= k < n ==> Up(t, a, k).Some?
  {
    if n == 0 then {} else Visited(t, a, n - 1) + {Up(t, a, n - 1).value}
  }

  lemma {:induction false} VisitedMembers(t: Tree, a: OrgId, n: nat)
    requires forall k :: 0 <= k < n ==> Up(t, a, k).Some?
    ensures forall b :: b in Visited(t, a, n) <==> Meets(t, a, b, 0, n)
  {
    if n > 0 { VisitedMembers(t, a, n - 1); }
  }

  lemma {:induction false} VisitedSize(t: Tree, a: OrgId, n: nat)
    requires NoRepeat(t, a)
    requires forall k :: 0 <= k < n ==> Up(t, a, k).Some? && Up(t, a, k).value in t
    ensures |Visited(t, a, n)| == n && Visited(t, a, n) <= t.Keys
  {
    if n > 0 {
      VisitedSize(t, a, n - 1);
      VisitedMembers(t, a, n - 1);
    }
  }

  lemma {:induction false} SubsetSize<T>(s: set<T>, u: set<T>)
    requires s <= u
    ensures |s| <= |u|
  {
    if s != {} {
      var x :| x in s;
      SubsetSize(s - {x}, u - {x});
    }
  }

  /** A chain through rows of the tree has at most as many rows as the tree. */
  lemma ChainFits(t: Tree, a: OrgId, n: nat)
    requires NoRepeat(t, a)
    requires forall k :: 0 <= k < n ==> Up(t, a, k).Some? && Up(t, a, k).value in t
    ensures n <= |t|
  {
    VisitedSize(t, a, n);
    SubsetSize(Visited(t, a, n), t.Keys);
  }

  lemma {:induction false} RowsUpTo(t: Tree, a: OrgId, n: nat)
    requires Closed(t) && a in t && Up(t, a, n).Some?
    ensures forall k :: 0 <= k <= n ==> Up(t, a, k).Some? && Up(t, a, k).value in t
  {
    if n > 0 { RowsUpTo(t, a, n - 1); }
  }

  /** The duplicate-keeping ancestor recursion from `a` ends exactly when its chain never repeats. */
  lemma RecursionEndsIff(t: Tree, a: OrgId)
    requires Closed(t) && a in t
    ensures (exists n: nat :: Up(t, a, n).None?) <==> NoRepeat(t, a)
  {
    if NoRepeat(t, a) {
      var n := |t|;
      if Up(t, a, n).Some? {
        RowsUpTo(t, a, n);
        ChainFits(t, a, n + 1);
      }
      assert Up(t, a, n).None?;
    } else {
      var i: nat, j: nat :| i < j && Up(t, a, i).Some? && Up(t, a, j) == Up(t, a, i);
      forall n: nat ensures Up(t, a, n).Some? { RepeatNeverEnds(t, a, i, j, n); }
    }
  }

  lemma {:induction false} RepeatNeverEnds(t: Tree, a: OrgId, i: nat, j: nat, n: nat)
    requires i < j && Up(t, a, i).Some? && Up(t, a, j) == Up(t, a, i)
    ensures Up(t, a, n).Some?
    decreases n
  {
    if n <= j {
      if Up(t, a, n).None? { UpStaysNone(t, a, n, j - n); }
    } else {
      UpAdds(t, a, i, n - j);
      UpAdds(t, a, j, n - j);
      RepeatNeverEnds(t, a, i, j, i + (n - j));
    }
  }

  // ---------------------------------------------------------------- the walks

  lemma ChainIsComplete(t: Tree, a: OrgId, chain: seq<OrgId>)
    requires |chain| > 0 && Up(t, a, |chain|).None?
    requires forall i :: 0 <= i < |chain| ==> Up(t, a, i) == Some(chain[i])
    ensures forall b :: b in chain[1..] <==> ProperAncestor(t, a, b)
  {
    forall b ensures b in chain[1..] <==> ProperAncestor(t, a, b) {
      if b in chain[1..] {
        var i :| 0 <= i < |chain| - 1 && chain[1..][i] == b;
        assert Up(t, a, i + 1) == Some(b);
      }
      if k: nat :| k > 0 && Up(t, a, k) == Some(b) {
        if k >= |chain| { UpStaysNone(t, a, |chain|, k - |chain|); }
        assert chain[1..][k - 1] == b;
      }
    }
  }

  /** `UNION ALL`: the row itself, then each ancestor, nearest first. */
  method AncestorChain(t: Tree, org: OrgId) returns (chain: seq<OrgId>)
    requires Forest(t) && org in t
    ensures |chain| > 0 && forall i :: 0 <= i < |chain| ==> Up(t, org, i) == Some(chain[i])
    ensures forall b :: b in chain[1..] <==> ProperAncestor(t, org, b)
  {
    chain := [org];
    var at := t[org];
    AcyclicNoRepeat(t, org);
    while at.Some?
      invariant 0 < |chain| <= |t|
      invariant forall i :: 0 <= i < |chain| ==> Up(t, org, i) == Some(chain[i]) && chain[i] in t
      invariant at == Up(t, org, |chain|)
      decreases |t| - |chain|
    {
      RowsUpTo(t, org, |chain|);
      ChainFits(t, org, |chain| + 1);
      chain := chain + [at.value];
      at := t[at.value];
    }
    ChainIsComplete(t, org, chain);
  }

  function Parents(t: Tree): set<OrgId> { set a | a in t && t[a].Some? :: t[a].value }

  /** The rows one to `n` steps above `a`. */
  ghost function Above(t: Tree, a: OrgId, n: nat): set<OrgId> {
    if n == 0 then {} else Above(t, a, n - 1) + if Up(t, a, n).Some? then {Up(t, a, n).value} else {}
  }

  lemma {:induction false} AboveMembers(t: Tree, a: OrgId, n: nat)
    ensures forall b :: b in Above(t, a, n) <==> Meets(t, a, b, 1, n + 1)
  {
    if n > 0 { AboveMembers(t, a, n - 1); }
  }

  /** Once a step leads back into `Above`, every later step stays there. */
  lemma {:induction false} AboveIsClosed(t: Tree, a: OrgId, n: nat, k: nat)
    requires Up(t, a, n + 1).Some? ==> Up(t, a, n + 1).value in Above(t, a, n)
    requires k > 0 && Up(t, a, k).Some?
    ensures Up(t, a, k).value in Above(t, a, n)
    decreases k
  {
    AboveMembers(t, a, n);
    if k > n {
      if k == 1 {
      } else {
        AboveIsClosed(t, a, n, k - 1);
        var i: nat :| 0 < i <= n && Up(t, a, i) == Up(t, a, k - 1);
        assert Up(t, a, i + 1) == Up(t, a, k);
      }
    }
  }

  lemma AboveIsComplete(t: Tree, a: OrgId, n: nat)
    requires Up(t, a, n + 1).Some? ==> Up(t, a, n + 1).value in Above(t, a, n)
    ensures forall b :: b in Above(t, a, n) <==> ProperAncestor(t, a, b)
  {
    AboveMembers(t, a, n);
    forall b | ProperAncestor(t, a, b) ensures b in Above(t, a, n) {
      var k: nat :| k > 0 && Up(t, a, k) == Some(b);
      AboveIsClosed(t, a, n, k);
    }
  }

  /** `UNION`: the rows above `start`, dropping a row already seen, so it ends on any table. */
  method WalkUp(t: Tree, start: OrgId) returns (walk: set<OrgId>)
    ensures forall b :: b in walk <==> ProperAncestor(t, start, b)
  {
    walk := {};
    var at := ParentOf(t, start);
    ghost var n := 0;
    while at.Some? && at.value !in walk
      invariant walk == Above(t, start, n) && walk <= Parents(t)
      invariant at == Up(t, start, n + 1)
      invariant at.Some? ==> at.value in Parents(t)
      decreases Parents(t) - walk
    {
      assert at.value in Parents(t) - walk;
      walk := walk + {at.value};
      at := ParentOf(t, at.value);
      n := n + 1;
    }
    AboveIsComplete(t, start, n);
  }

  // ---------------------------------------------------------------- mutations

  datatype Upserted = Stored | SelfParent | Cycle | MissingParent

  ghost function UpsertResult(t: Tree, org: OrgId, parent: Option<OrgId>): Upserted {
    if parent == Some(org) then SelfParent
    else if parent.Some? && ProperAncestor(t, parent.value, org) then Cycle
    else if parent.Some? && parent.value !in t then MissingParent
    else Stored
  }

  class Organizations {
    var parents: Tree

    constructor ()
      ensures parents == map[]
    {
      parents := map[];
    }

    /** Under the tree lock: refuse a cycle, then insert or overwrite. */
    method UpsertOrganization(org: OrgId, parent: Option<OrgId>) returns (result: Upserted)
      modifies this
      ensures result == UpsertResult(old(parents), org, parent)
      ensures parents == if result.Stored? then old(parents)[org := parent] else old(parents)
    {
      if parent == Some(org) { return SelfParent; }
      if parent.Some? {
        var walk := WalkUp(parents, parent.value);
        if org in walk { return Cycle; }
        if parent.value !in parents { return MissingParent; }
      }
      parents := parents[org := parent];
      return Stored;
    }

    /** A child under a fresh id; the creation store checks that the parent is there. */
    method InsertChild(child: OrgId, parent: OrgId)
      requires child !in parents && parent in parents
      modifies this
      ensures parents == old(parents)[child := Some(parent)]
    {
      parents := parents[child := Some(parent)];
    }

    /** Bootstrap inserts the root, or leaves the parent of an existing one alone. */
    method EnsureRoot(root: OrgId)
      modifies this
      ensures parents == if root in old(parents) then old(parents) else old(parents)[root := None]
    {
      if root !in parents { parents := parents[root := None]; }
    }
  }

  // ---------------------------------------------------------------- reparenting

  /** Until the chain meets `org`, the parent of `org` has no say in it. */
  lemma {:induction false} UpAgrees(t: Tree, u: Tree, org: OrgId, a: OrgId, k: nat)
    requires forall b :: b != org ==> ParentOf(t, b) == ParentOf(u, b)
    requires forall i :: 0 <= i < k ==> Up(u, a, i) != Some(org)
    ensures Up(t, a, k) == Up(u, a, k)
  {
    if k > 0 { UpAgrees(t, u, org, a, k - 1); }
  }

  ghost function FirstMeeting(t: Tree, a: OrgId, b: OrgId, k: nat): (m: nat)
    requires Up(t, a, k) == Some(b)
    ensures m <= k && Up(t, a, m) == Some(b) && forall i :: 0 <= i < m ==> Up(t, a, i) != Some(b)
  {
    if i :| 0 <= i < k && Up(t, a, i) == Some(b) then FirstMeeting(t, a, b, i) else k
  }

  /** A new parent closes a cycle exactly when it is the organization itself or has it above. */
  lemma ReparentCycles(t: Tree, org: OrgId, p: OrgId)
    requires Acyclic(t)
    ensures Acyclic(t[org := Some(p)]) <==> p != org && !ProperAncestor(t, p, org)
  {
    var u := t[org := Some(p)];
    if k: nat :| Up(t, p, k) == Some(org) {
      var m := FirstMeeting(t, p, org, k);
      UpAgrees(u, t, org, p, m);
      assert Up(u, org, 1) == Some(p);
      UpAdds(u, org, 1, m);
      assert !Acyclic(u);
    } else {
      assert Up(t, p, 0) == Some(p);
      forall a, k: nat | k > 0 ensures Up(u, a, k) != Some(a) {
        if Up(u, a, k) == Some(a) { NoNewCycle(t, org, p, a, k); }
      }
    }
  }

  /** A cycle after the change either avoids `org`, or leads from its new parent back to it. */
  lemma NoNewCycle(t: Tree, org: OrgId, p: OrgId, a: OrgId, k: nat)
    requires Acyclic(t) && k > 0 && Up(t[org := Some(p)], a, k) == Some(a)
    ensures exists m: nat :: Up(t, p, m) == Some(org)
  {
    var u := t[org := Some(p)];
    if i: nat :| i < k && Up(u, a, i) == Some(org) {
      UpAdds(u, a, i, k - i);
      UpAdds(u, org, k - i, i);
      assert Up(u, org, 1) == Some(p);
      UpAdds(u, org, 1, k - 1);
      var m := FirstMeeting(u, p, org, k - 1);
      UpAgrees(t, u, org, p, m);
    } else {
      UpAgrees(t, u, org, a, k);
    }
  }

  /** In a forest, a reparent to an existing parent is refused exactly when it would close a cycle. */
  lemma UpsertRefusesCycles(t: Tree, org: OrgId, p: OrgId)
    requires Forest(t) && p in t
    ensures UpsertResult(t, org, Some(p)).Stored? <==> Acyclic(t[org := Some(p)])
  {
    ReparentCycles(t, org, p);
  }

  lemma UpsertKeepsForest(t: Tree, org: OrgId, parent: Option<OrgId>)
    requires Forest(t) && UpsertResult(t, org, parent).Stored?
    ensures Forest(t[org := parent])
  {
    if parent.Some? {
      ReparentCycles(t, org, parent.value);
    } else {
      var u := t[org := None];
      forall a, k: nat | k > 0 ensures Up(u, a, k) != Some(a) { RootEndsChains(t, org, a, k); }
    }
  }

  /** Making `org` a root shortens chains; it makes none come back. */
  lemma {:induction false} RootEndsChains(t: Tree, org: OrgId, a: OrgId, k: nat)
    ensures Up(t[org := None], a, k).Some? ==> Up(t[org := None], a, k) == Up(t, a, k)
  {
    if k > 0 { RootEndsChains(t, org, a, k - 1); }
  }

  // ---------------------------------------------------------------- runs

  datatype Event =
    | Upserting(org: OrgId, parent: Option<OrgId>)
    | Creating(child: OrgId, under: OrgId)
    | Bootstrapping(root: OrgId)

  ghost function Step(t: Tree, e: Event): Tree {
    match e
    case Upserting(org, parent) => if UpsertResult(t, org, parent).Stored? then t[org := parent] else t
    case Creating(child, under) => if child !in t && under in t then t[child := Some(under)] else t
    case Bootstrapping(root) => if root in t then t else t[root := None]
  }

  ghost function Run(events: seq<Event>): Tree {
    if |events| == 0 then map[] else Step(Run(events[..|events| - 1]), events[|events| - 1])
  }

  lemma NewLeafKeepsForest(t: Tree, child: OrgId, parent: OrgId)
    requires Forest(t) && child !in t && parent in t
    ensures Forest(t[child := Some(parent)])
  {
    if k: nat :| Up(t, parent, k) == Some(child) { RowsUpTo(t, parent, k); }
    ReparentCycles(t, child, parent);
  }

  /** Every reachable tree is a forest. */
  lemma {:induction false} TreesAreForests(events: seq<Event>)
    ensures Forest(Run(events))
  {
    if |events| == 0 {
      forall a, k: nat | k > 0
        ensures Up(map[], a, k) != Some(a)
      {
        assert Up(map[], a, 1).None?; UpStaysNone(map[], a, 1, k - 1);
      }
    } else {
      var t := Run(events[..|events| - 1]);
      TreesAreForests(events[..|events| - 1]);
      match events[|events| - 1] {
        case Upserting(org, parent) => if UpsertResult(t, org, parent).Stored? { UpsertKeepsForest(t, org, parent); }
        case Creating(child, under) => if child !in t && under in t { NewLeafKeepsForest(t, child, under); }
        case Bootstrapping(root) => if root !in t { UpsertKeepsForest(t, root, None); }
      }
    }
  }

  /** Why an upsert is refused, the self parent first and a missing parent last. */
  lemma UpsertAnswers(t: Tree, org: OrgId, parent: Option<OrgId>)
    ensures var result := UpsertResult(t, org, parent);
            && (result == SelfParent <==> parent == Some(org))
            && (result == Cycle <==> parent.Some? && parent.value != org && ProperAncestor(t, parent.value, org))
            && (result == MissingParent <==>
                  && parent.Some? && parent.value != org && parent.value !in t
                  && !ProperAncestor(t, parent.value, org))
            && (result == Stored <==>
                  parent.None? || (parent.value in t && parent.value != org && !ProperAncestor(t, parent.value, org)))
  {
  }

  /** Each writer's row, and that it touches no other. */
  lemma WritersWrite(t: Tree, org: OrgId, parent: OrgId)
    ensures UpsertResult(t, org, Some(parent)) == Stored ==>
              Step(t, Upserting(org, Some(parent))) == t[org := Some(parent)]
    ensures UpsertResult(t, org, Some(parent)) != Stored ==> Step(t, Upserting(org, Some(parent))) == t
    ensures Step(t, Upserting(org, None)) == t[org := None]
    ensures org !in t && parent in t ==> Step(t, Creating(org, parent)) == t[org := Some(parent)]
    ensures Step(t, Bootstrapping(org)) == if org in t then t else t[org := None]
  {
  }
}
