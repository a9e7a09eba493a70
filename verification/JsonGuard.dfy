/**
 * The guard in front of the fingerprint. A payload is a graph of JavaScript objects: the guard walks it
 * once, with one set of the objects it has met, and lets it through exactly if it is a finite tree.
 */
module JsonGuard {
  import opened CanonicalJson
  import opened Utf16

  type Ref = nat

  /**
   * `Leaf` is null, a text, a boolean or a finite number; `Bad` undefined, a function and the like;
   * `Hole` a missing array item.
   */
  datatype Value = Leaf(json: Json) | Bad | Hole | Reference(ref: Ref)

  /** Arrays and plain objects; anything else has a prototype of its own. */
  datatype Object = List(items: seq<Value>) | Record(keys: seq<Text>, values: seq<Value>) | Exotic

  type Heap = map<Ref, Object>

  predicate IsPlain(heap: Heap, ref: Ref) { ref in heap && !heap[ref].Exotic? }

  function Children(heap: Heap, ref: Ref): seq<Value>
    requires IsPlain(heap, ref)
  {
    if heap[ref].List? then heap[ref].items else heap[ref].values
  }

  /** What the language guarantees: leaves are leaves, keys are distinct, only arrays have holes. */
  predicate LeafOk(v: Value) { v.Leaf? ==> !v.json.JArray? && !v.json.JObject? && Accepted(v.json) }

  predicate ObjectOk(o: Object) {
    match o
    case List(items) => forall k :: 0 <= k < |items| ==> LeafOk(items[k])
    case Record(keys, values) =>
      |keys| == |values| && Distinct(keys) && forall k :: 0 <= k < |values| ==> LeafOk(values[k])
    case Exotic => true
  }

  predicate HeapOk(heap: Heap) { forall ref :: ref in heap ==> ObjectOk(heap[ref]) }

  // ---------------------------------------------------------------- the walk

  /** The verdict, and the objects met so far. It ends on any graph because each object is entered once. */
  function Check(heap: Heap, v: Value, seen: set<Ref>): (r: (bool, set<Ref>))
    ensures seen <= r.1
    decreases heap.Keys - seen, 1, 0
  {
    match v
    case Leaf(_) => (true, seen)
    case Bad => (false, seen)
    case Hole => (true, seen)  // `every` skips it
    case Reference(ref) =>
      if ref in seen then (false, seen)
      else if !IsPlain(heap, ref) then (false, seen + {ref})
      else
        assert heap.Keys - (seen + {ref}) < heap.Keys - seen by { assert ref in heap.Keys - seen; }
        CheckAll(heap, Children(heap, ref), seen + {ref})
  }

  /** `every`: from the first item on, until one fails. */
  function CheckAll(heap: Heap, vs: seq<Value>, seen: set<Ref>): (r: (bool, set<Ref>))
    ensures seen <= r.1
    decreases heap.Keys - seen, 2, |vs|
  {
    if |vs| == 0 then (true, seen)
    else
      var (ok, met) := Check(heap, vs[0], seen);
      if !ok then (false, met)
      else
        assert heap.Keys - met <= heap.Keys - seen;
        CheckAll(heap, vs[1..], met)
  }

  class Guard {
    var seen: set<Ref>

    constructor ()
      ensures seen == {}
    {
      seen := {};
    }

    method IsJsonValue(heap: Heap, v: Value) returns (ok: bool)
      modifies this
      ensures (ok, seen) == Check(heap, v, old(seen))
      decreases heap.Keys - seen, 1, 0
    {
      if !v.Reference? { return !v.Bad?; }
      if v.ref in seen { return false; }
      seen := seen + {v.ref};
      if v.ref !in heap || heap[v.ref].Exotic? { return false; }
      assert v.ref in heap.Keys - old(seen);
      ok := Every(heap, Children(heap, v.ref));
    }

    method Every(heap: Heap, vs: seq<Value>) returns (ok: bool)
      modifies this
      ensures (ok, seen) == CheckAll(heap, vs, old(seen))
      decreases heap.Keys - seen, 2, |vs|
    {
      if |vs| == 0 { return true; }
      ok := IsJsonValue(heap, vs[0]);
      if !ok { return; }
      assert heap.Keys - seen <= heap.Keys - old(seen);
      ok := Every(heap, vs[1..]);
    }
  }

  // ---------------------------------------------------------------- trees

  datatype Tree = Atom(json: Json) | Gap | Branch(ref: Ref, branches: seq<Tree>)

  /** The tree spells out the value, object by object. */
  predicate Spells(heap: Heap, v: Value, t: Tree)
    decreases t
  {
    match t
    case Atom(json) => v == Leaf(json)
    case Gap => v == Hole
    case Branch(ref, branches) =>
      v == Reference(ref) && IsPlain(heap, ref) && SpellAll(heap, Children(heap, ref), branches)
  }

  predicate SpellAll(heap: Heap, vs: seq<Value>, ts: seq<Tree>)
    decreases ts
  {
    |vs| == |ts| && (|ts| > 0 ==> Spells(heap, vs[0], ts[0]) && SpellAll(heap, vs[1..], ts[1..]))
  }

  function Refs(t: Tree): set<Ref>
    decreases t
  {
    if t.Branch? then {t.ref} + AllRefs(t.branches) else {}
  }

  function AllRefs(ts: seq<Tree>): set<Ref>
    decreases ts
  {
    if |ts| == 0 then {} else Refs(ts[0]) + AllRefs(ts[1..])
  }

  /** No object occurs in it twice. */
  predicate Unshared(t: Tree)
    decreases t
  {
    t.Branch? ==> t.ref !in AllRefs(t.branches) && AllUnshared(t.branches)
  }

  predicate AllUnshared(ts: seq<Tree>)
    decreases ts
  {
    |ts| > 0 ==> Unshared(ts[0]) && AllUnshared(ts[1..]) && Refs(ts[0]) !! AllRefs(ts[1..])
  }

  /** Passing the walk yields the tree it walked. */
  lemma {:induction false} PassedIsTree(heap: Heap, v: Value, seen: set<Ref>) returns (t: Tree)
    requires Check(heap, v, seen).0
    ensures Spells(heap, v, t) && Unshared(t) && Refs(t) !! seen && Check(heap, v, seen).1 == seen + Refs(t)
    decreases heap.Keys - seen, 1, 0
  {
    match v
    case Leaf(json) => t := Atom(json);
    case Hole => t := Gap;
    case Reference(ref) =>
      assert ref in heap.Keys - seen;
      var ts := PassedAreTrees(heap, Children(heap, ref), seen + {ref});
      t := Branch(ref, ts);
  }

  lemma {:induction false} PassedAreTrees(heap: Heap, vs: seq<Value>, seen: set<Ref>) returns (ts: seq<Tree>)
    requires CheckAll(heap, vs, seen).0
    ensures SpellAll(heap, vs, ts) && AllUnshared(ts) && AllRefs(ts) !! seen
    ensures CheckAll(heap, vs, seen).1 == seen + AllRefs(ts)
    decreases heap.Keys - seen, 2, |vs|
  {
    if |vs| == 0 {
      ts := [];
    } else {
      var met := Check(heap, vs[0], seen).1;
      var first := PassedIsTree(heap, vs[0], seen);
      assert heap.Keys - met <= heap.Keys - seen;
      var rest := PassedAreTrees(heap, vs[1..], met);
      ts := [first] + rest;
      assert ts[1..] == rest;
    }
  }

  lemma {:induction false} TreePasses(heap: Heap, v: Value, seen: set<Ref>, t: Tree)
    requires Spells(heap, v, t) && Unshared(t) && Refs(t) !! seen
    ensures Check(heap, v, seen) == (true, seen + Refs(t))
    decreases t
  {
    if t.Branch? {
      TreesPass(heap, Children(heap, t.ref), seen + {t.ref}, t.branches);
      assert seen + {t.ref} + AllRefs(t.branches) == seen + Refs(t);
    } else {
      assert seen + Refs(t) == seen;
    }
  }

  lemma {:induction false} TreesPass(heap: Heap, vs: seq<Value>, seen: set<Ref>, ts: seq<Tree>)
    requires SpellAll(heap, vs, ts) && AllUnshared(ts) && AllRefs(ts) !! seen
    ensures CheckAll(heap, vs, seen) == (true, seen + AllRefs(ts))
    decreases ts
  {
    if |ts| > 0 {
      TreePasses(heap, vs[0], seen, ts[0]);
      TreesPass(heap, vs[1..], seen + Refs(ts[0]), ts[1..]);
      assert seen + Refs(ts[0]) + AllRefs(ts[1..]) == seen + AllRefs(ts);
    } else {
      assert seen + AllRefs(ts) == seen;
    }
  }

  ghost predicate IsTree(heap: Heap, v: Value) { exists t :: Spells(heap, v, t) && Unshared(t) }

  /** The guard accepts exactly the finite trees of plain objects with good leaves: no cycle and nothing shared. */
  lemma AcceptedIffTree(heap: Heap, v: Value)
    ensures Check(heap, v, {}).0 <==> IsTree(heap, v)
  {
    if Check(heap, v, {}).0 {
      var t := PassedIsTree(heap, v, {});
    }
    if IsTree(heap, v) {
      var t :| Spells(heap, v, t) && Unshared(t);
      TreePasses(heap, v, {}, t);
    }
  }

  /** An object met twice on the way is refused even where JSON text would have no trouble with it. */
  lemma SharedIsRefused(heap: Heap, a: Ref, b: Ref)
    requires a != b && IsPlain(heap, a) && IsPlain(heap, b)
    requires Children(heap, a) == [Reference(b), Reference(b)] && Children(heap, b) == []
    ensures !Check(heap, Reference(a), {}).0
    ensures Spells(heap, Reference(a), Branch(a, [Branch(b, []), Branch(b, [])]))
  {
    var kids, branch := Children(heap, a), Branch(b, []);
    assert kids[1..] == [Reference(b)];
    assert CheckAll(heap, [], {a} + {b}) == (true, {a} + {b});
    assert {} + {a} == {a} && kids[0] == Reference(b) && Children(heap, b) == [];
    assert Check(heap, kids[0], {a}) == CheckAll(heap, [], {a} + {b});
    assert Check(heap, kids[0], {} + {a}) == (true, {a} + {b});
    assert !Check(heap, kids[1..][0], {a} + {b}).0;
    assert !CheckAll(heap, kids[1..], {a} + {b}).0;
    assert SpellAll(heap, [], []) && Spells(heap, Reference(b), branch);
    assert [branch, branch][1..] == [branch] && [branch][1..] == [] && kids[1..][1..] == [];
    assert SpellAll(heap, kids[1..], [branch]);
  }

  // ---------------------------------------------------------------- the JSON behind the graph

  /** What `JSON.stringify` sees: a hole is rendered as null. */
  function Unfold(heap: Heap, t: Tree): Json
    decreases t
  {
    match t
    case Atom(json) => json
    case Gap => JNull
    case Branch(ref, branches) =>
      if ref in heap && heap[ref].Record? then JObject(Zip(heap[ref].keys, UnfoldAll(heap, branches)))
      else JArray(UnfoldAll(heap, branches))
  }

  function UnfoldAll(heap: Heap, ts: seq<Tree>): (r: seq<Json>)
    ensures |r| == |ts| && forall k :: 0 <= k < |ts| ==> r[k] == Unfold(heap, ts[k])
    decreases ts
  {
    if |ts| == 0 then [] else [Unfold(heap, ts[0])] + UnfoldAll(heap, ts[1..])
  }

  function Zip(keys: seq<Text>, values: seq<Json>): seq<Member> {
    if |keys| == |values| then seq(|keys|, k requires 0 <= k < |keys| => Member(keys[k], values[k])) else []
  }

  /** An array spells its items in order, a plain object its values under their keys. */
  lemma UnfoldMirrors(heap: Heap, ref: Ref, branches: seq<Tree>)
    requires HeapOk(heap) && IsPlain(heap, ref) && |branches| == |Children(heap, ref)|
    ensures var json := Unfold(heap, Branch(ref, branches));
            && (heap[ref].List? ==>
                  json.JArray? && |json.items| == |branches|
                  && forall k :: 0 <= k < |branches| ==> json.items[k] == Unfold(heap, branches[k]))
            && (heap[ref].Record? ==>
                  json.JObject? && |json.members| == |branches|
                  && forall k :: 0 <= k < |branches| ==>
                       json.members[k] == Member(heap[ref].keys[k], Unfold(heap, branches[k])))
  {
    assert ObjectOk(heap[ref]);
  }

  lemma {:induction false} SpellsEach(heap: Heap, vs: seq<Value>, ts: seq<Tree>, k: nat)
    requires SpellAll(heap, vs, ts) && k < |ts|
    ensures |vs| == |ts| && Spells(heap, vs[k], ts[k])
    decreases k
  {
    if k > 0 { SpellsEach(heap, vs[1..], ts[1..], k - 1); }
  }

  /** What the guard lets through is a value the canonical text is defined for. */
  lemma {:induction false} SpelledIsAccepted(heap: Heap, v: Value, t: Tree)
    requires HeapOk(heap) && LeafOk(v) && Spells(heap, v, t)
    ensures Accepted(Unfold(heap, t))
    decreases t
  {
    if t.Branch? {
      var vs := Children(heap, t.ref);
      assert ObjectOk(heap[t.ref]);
      forall k | 0 <= k < |t.branches| ensures Accepted(Unfold(heap, t.branches[k])) {
        SpellsEach(heap, vs, t.branches, k);
        SpelledIsAccepted(heap, vs[k], t.branches[k]);
      }
      if heap[t.ref].Record? {
        assert |vs| == |t.branches|;
        assert Keys(Zip(heap[t.ref].keys, UnfoldAll(heap, t.branches))) == heap[t.ref].keys;
      }
    }
  }

  /** The canonical text of the graph. */
  function TextOf(heap: Heap, t: Tree): Text { CanonicalJson.CanonicalJson(Unfold(heap, t)) }

  /** For payloads that pass the guard, equal canonical texts mean equal trees up to member order. */
  lemma GuardedTextIdentifies(heap: Heap, v: Value, w: Value) returns (t: Tree, u: Tree)
    requires HeapOk(heap) && LeafOk(v) && LeafOk(w) && Check(heap, v, {}).0 && Check(heap, w, {}).0
    ensures Spells(heap, v, t) && Spells(heap, w, u)
    ensures TextOf(heap, t) == TextOf(heap, u) <==> SameTree(Unfold(heap, t), Unfold(heap, u))
  {
    t := PassedIsTree(heap, v, {});
    u := PassedIsTree(heap, w, {});
    SpelledIsAccepted(heap, v, t);
    SpelledIsAccepted(heap, w, u);
    CanonicalJsonIdentifies(Unfold(heap, t), Unfold(heap, u));
  }

  // ---------------------------------------------------------------- holes

  function Fill(v: Value): Value { if v.Hole? then Leaf(JNull) else v }

  function FillAll(vs: seq<Value>): (r: seq<Value>)
    ensures |r| == |vs| && forall k :: 0 <= k < |r| ==> r[k] == Fill(vs[k])
  {
    seq(|vs|, k requires 0 <= k < |vs| => Fill(vs[k]))
  }

  function FillObject(o: Object): Object {
    match o
    case List(items) => List(FillAll(items))
    case Record(keys, values) => Record(keys, FillAll(values))
    case Exotic => Exotic
  }

  /** The same graph with every hole filled by null. */
  function FillHeap(heap: Heap): Heap { map ref | ref in heap :: FillObject(heap[ref]) }

  function FillTree(t: Tree): Tree
    decreases t
  {
    match t
    case Atom(json) => t
    case Gap => Atom(JNull)
    case Branch(ref, branches) => Branch(ref, FillTrees(branches))
  }

  function FillTrees(ts: seq<Tree>): (r: seq<Tree>)
    ensures |r| == |ts|
    decreases ts
  {
    if |ts| == 0 then [] else [FillTree(ts[0])] + FillTrees(ts[1..])
  }

  lemma {:induction false} FilledSpells(heap: Heap, v: Value, t: Tree)
    requires Spells(heap, v, t)
    ensures Spells(FillHeap(heap), Fill(v), FillTree(t)) && Unfold(FillHeap(heap), FillTree(t)) == Unfold(heap, t)
    ensures Refs(FillTree(t)) == Refs(t) && (Unshared(FillTree(t)) <==> Unshared(t))
    decreases t
  {
    if t.Branch? {
      FilledSpellAll(heap, Children(heap, t.ref), t.branches);
    }
  }

  lemma {:induction false} FilledSpellAll(heap: Heap, vs: seq<Value>, ts: seq<Tree>)
    requires SpellAll(heap, vs, ts)
    ensures SpellAll(FillHeap(heap), FillAll(vs), FillTrees(ts))
            && UnfoldAll(FillHeap(heap), FillTrees(ts)) == UnfoldAll(heap, ts)
    ensures AllRefs(FillTrees(ts)) == AllRefs(ts) && (AllUnshared(FillTrees(ts)) <==> AllUnshared(ts))
    decreases ts
  {
    if |ts| > 0 {
      FilledSpells(heap, vs[0], ts[0]);
      FilledSpellAll(heap, vs[1..], ts[1..]);
      assert FillAll(vs)[1..] == FillAll(vs[1..]) && FillTrees(ts)[1..] == FillTrees(ts[1..]);
    }
  }

  /** A payload with holes passes the guard, and has the text of the one with null in their place. */
  lemma HolesReadAsNull(heap: Heap, v: Value) returns (t: Tree)
    requires Check(heap, v, {}).0
    ensures Spells(heap, v, t) && Spells(FillHeap(heap), Fill(v), FillTree(t)) && Check(FillHeap(heap), Fill(v), {}).0
    ensures TextOf(heap, t) == TextOf(FillHeap(heap), FillTree(t))
  {
    t := PassedIsTree(heap, v, {});
    FilledSpells(heap, v, t);
    TreePasses(FillHeap(heap), Fill(v), {}, FillTree(t));
  }
}
