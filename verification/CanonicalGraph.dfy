/**
 The traversal that turns strict JSON-compatible data into a key-sorted tree. The
 data is an object graph, which may share substructure; the traversal keeps the
 set of objects it is inside of and refuses to enter one of them again.
 */
module CanonicalGraph {
  import opened Wrappers
  import opened Sorting
  import opened Text
  import opened Json

  type Ref = nat

  /** A value of the host language; `Foreign` is anything JSON has no counterpart of. */
  datatype Value =
    | Nil
    | Truth(value: bool)
    | Finite(numeral: Numeral)
    | Characters(text: Text)
    | Pointer(ref: Ref)
    | Foreign

  /** A property holds data, or runs code. */
  datatype Slot = Data(value: Value) | Accessor

  /**
   An object. `plain` says that a list is dense and a record has only enumerable
   keys, and that neither has symbol keys or other properties. Anything else, such
   as an instance of a class, is exotic.
   */
  datatype Node =
    | List(slots: seq<Slot>, plain: bool)
    | Record(keys: seq<Text>, fields: map<Text, Slot>, plain: bool)
    | Exotic

  type Heap = map<Ref, Node>

  datatype Refusal = Cyclic | Unsupported

  /** Own keys are distinct and each has a property. */
  predicate IsHeap(heap: Heap) {
    forall r :: r in heap && heap[r].Record? ==>
      && (forall i, j :: 0 <= i < j < |heap[r].keys| ==> heap[r].keys[i] != heap[r].keys[j])
      && (forall i :: 0 <= i < |heap[r].keys| ==> heap[r].keys[i] in heap[r].fields)
  }

  /** The properties of an object in the order the traversal visits them. */
  function Slots(heap: Heap, r: Ref): seq<Slot>
    requires IsHeap(heap) && r in heap
  {
    match heap[r]
    case List(slots, _) => slots
    case Record(keys, fields, _) =>
      var sorted := SortedNames(heap, r);
      seq(|sorted|, i requires 0 <= i < |sorted| => fields[sorted[i]])
    case Exotic => []
  }

  function SortedNames(heap: Heap, r: Ref): (sorted: seq<Text>)
    requires IsHeap(heap) && r in heap && heap[r].Record?
    ensures multiset(sorted) == multiset(heap[r].keys)
    ensures forall i :: 0 <= i < |sorted| ==> sorted[i] in heap[r].fields
  {
    var keys := heap[r].keys;
    TextOrder();
    SortIsSorted(keys, LeqText);
    var sorted := Sort(keys, LeqText);
    assert forall i :: 0 <= i < |sorted| ==> sorted[i] in multiset(sorted);
    sorted
  }

  /** The value itself cannot be represented, whatever it contains. */
  predicate IsUnsupported(heap: Heap, v: Value)
    requires IsHeap(heap)
  {
    || v.Foreign?
    || (v.Pointer? && (v.ref !in heap || heap[v.ref].Exotic? || !heap[v.ref].plain || Accessor in Slots(heap, v.ref)))
  }

  // ----- unfoldings -----

  /** The tree is what the value looks like when followed everywhere, with the keys of each record sorted. */
  ghost predicate IsUnfolding(heap: Heap, v: Value, t: Json)
    requires IsHeap(heap)
    decreases t
  {
    match v
    case Nil => t == Null
    case Truth(b) => t == Bool(b)
    case Finite(n) => t == Number(n)
    case Characters(text) => t == String(text)
    case Foreign => false
    case Pointer(r) =>
      && !IsUnsupported(heap, v)
      && var slots := Slots(heap, r);
         if heap[r].List? then
           && t.Array? && |t.items| == |slots|
           && forall i :: 0 <= i < |slots| ==> slots[i].Data? && IsUnfolding(heap, slots[i].value, t.items[i])
         else
           && t.Object? && |t.entries| == |slots| == |SortedNames(heap, r)|
           && forall i :: 0 <= i < |slots| ==>
                && slots[i].Data? && t.entries[i].key == SortedNames(heap, r)[i]
                && IsUnfolding(heap, slots[i].value, t.entries[i].value)
  }

  // ----- paths -----

  predicate IsChild(heap: Heap, v: Value, child: Value)
    requires IsHeap(heap)
  {
    v.Pointer? && v.ref in heap && Data(child) in Slots(heap, v.ref)
  }

  ghost predicate IsPath(heap: Heap, path: seq<Value>)
    requires IsHeap(heap)
  {
    path != [] && forall i :: 0 < i < |path| ==> IsChild(heap, path[i - 1], path[i])
  }

  ghost predicate PathFrom(heap: Heap, v: Value, path: seq<Value>)
    requires IsHeap(heap)
  {
    IsPath(heap, path) && path[0] == v
  }

  /** A path from the value meets an object twice. */
  ghost predicate ReachesCycle(heap: Heap, v: Value)
    requires IsHeap(heap)
  {
    exists path: seq<Value>, i, j ::
      PathFrom(heap, v, path) && 0 <= i < j < |path| && path[i] == path[j] && path[j].Pointer?
  }

  ghost predicate ReachesUnsupported(heap: Heap, v: Value)
    requires IsHeap(heap)
  {
    exists path: seq<Value>, i :: PathFrom(heap, v, path) && 0 <= i < |path| && IsUnsupported(heap, path[i])
  }

  // ----- what has an unfolding -----

  function Child(t: Json, k: nat): Json
    requires (t.Array? && k < |t.items|) || (t.Object? && k < |t.entries|)
  {
    if t.Array? then t.items[k] else t.entries[k].value
  }

  /** The unfolding of a child is a child of the unfolding. */
  lemma {:induction false} ChildUnfolds(heap: Heap, v: Value, child: Value, t: Json) returns (t': Json)
    requires IsHeap(heap) && IsUnfolding(heap, v, t) && IsChild(heap, v, child)
    ensures t' < t && IsUnfolding(heap, child, t')
  {
    hide SortedNames;
    var slots := Slots(heap, v.ref);
    var k :| 0 <= k < |slots| && slots[k] == Data(child);
    t' := Child(t, k);
  }

  lemma {:induction false} PathUnfolds(heap: Heap, path: seq<Value>, i: nat, t: Json) returns (t': Json)
    requires IsHeap(heap) && IsPath(heap, path) && IsUnfolding(heap, path[0], t) && i < |path|
    ensures IsUnfolding(heap, path[i], t')
  {
    hide IsUnfolding, IsChild;
    if i == 0 {
      t' := t;
    } else {
      var t1 := ChildUnfolds(heap, path[0], path[1], t);
      assert IsPath(heap, path[1..]);
      t' := PathUnfolds(heap, path[1..], i - 1, t1);
    }
  }

  /** A value on a cycle has no unfolding: going round would make it smaller. */
  lemma {:induction false} CycleHasNoUnfolding(heap: Heap, path: seq<Value>, t: Json)
    requires IsHeap(heap) && IsPath(heap, path) && |path| > 1 && path[|path| - 1] == path[0]
    ensures !IsUnfolding(heap, path[0], t)
    decreases t
  {
    hide IsUnfolding, IsChild;
    if IsUnfolding(heap, path[0], t) {
      var t' := ChildUnfolds(heap, path[0], path[1], t);
      CycleHasNoUnfolding(heap, path[1..] + [path[1]], t');
    }
  }

  /** Whatever has an unfolding reaches neither a cycle nor anything unsupported. */
  lemma UnfoldingExcludes(heap: Heap, v: Value, t: Json)
    requires IsHeap(heap) && IsUnfolding(heap, v, t)
    ensures !ReachesCycle(heap, v) && !ReachesUnsupported(heap, v)
  {
    hide IsUnfolding, IsUnsupported, IsChild;
    if path: seq<Value>, i, j :| PathFrom(heap, v, path) && 0 <= i < j < |path| && path[i] == path[j] && path[j].Pointer? {
      var t' := PathUnfolds(heap, path, i, t);
      CycleHasNoUnfolding(heap, path[i..j + 1], t');
    }
    if path: seq<Value>, i :| PathFrom(heap, v, path) && 0 <= i < |path| && IsUnsupported(heap, path[i]) {
      var t' := PathUnfolds(heap, path, i, t);
      UnfoldingIsSupported(heap, path[i], t');
    }
  }

  lemma UnfoldingIsSupported(heap: Heap, v: Value, t: Json)
    requires IsHeap(heap) && IsUnfolding(heap, v, t)
    ensures !IsUnsupported(heap, v)
  {
  }

  /** A value has at most one unfolding. */
  lemma {:induction false} UnfoldingUnique(heap: Heap, v: Value, s: Json, t: Json)
    requires IsHeap(heap) && IsUnfolding(heap, v, s) && IsUnfolding(heap, v, t)
    ensures s == t
    decreases s
  {
    if v.Pointer? {
      hide SortedNames, IsUnsupported;
      var slots := Slots(heap, v.ref);
      forall k | 0 <= k < |slots| ensures Child(s, k) == Child(t, k) {
        UnfoldingUnique(heap, slots[k].value, Child(s, k), Child(t, k));
      }
      if s.Array? {
        assert s.items == t.items by {
          forall k | 0 <= k < |s.items| ensures s.items[k] == t.items[k] {
            assert Child(s, k) == Child(t, k);
          }
        }
      } else {
        assert s.entries == t.entries by {
          forall k | 0 <= k < |s.entries| ensures s.entries[k] == t.entries[k] {
            assert Child(s, k) == Child(t, k);
          }
        }
      }
    }
  }

  // ----- what an unfolding shows -----

  lemma NamesAscend(heap: Heap, r: Ref)
    requires IsHeap(heap) && r in heap && heap[r].Record?
    ensures Ascending(SortedNames(heap, r))
    ensures |SortedNames(heap, r)| == |heap[r].keys|
    ensures forall name :: name in SortedNames(heap, r) <==> name in heap[r].keys
  {
    SortAscends(heap[r].keys);
    var sorted := SortedNames(heap, r);
    assert |multiset(sorted)| == |multiset(heap[r].keys)|;
    forall name ensures name in sorted <==> name in heap[r].keys {
      assert name in multiset(sorted) <==> name in multiset(heap[r].keys);
    }
  }

  lemma {:induction false} UnfoldingAscends(heap: Heap, v: Value, t: Json)
    requires IsHeap(heap) && IsUnfolding(heap, v, t)
    ensures KeysAscend(t)
    decreases t
  {
    hide SortedNames;
    if v.Pointer? {
      var slots := Slots(heap, v.ref);
      if t.Object? {
        NamesAscend(heap, v.ref);
      }
      forall k | 0 <= k < |slots| ensures KeysAscend(Child(t, k)) {
        UnfoldingAscends(heap, slots[k].value, Child(t, k));
      }
      assert t.Array? ==> forall i :: 0 <= i < |t.items| ==> t.items[i] == Child(t, i);
      assert t.Object? ==> forall i :: 0 <= i < |t.entries| ==> t.entries[i].value == Child(t, i);
    }
  }

  /** A scalar unfolds to the same scalar. */
  lemma ScalarUnfolds(heap: Heap, v: Value, t: Json)
    requires IsHeap(heap) && !v.Pointer?
    ensures IsUnfolding(heap, v, t) <==>
      || (v == Nil && t == Null)
      || (t.Bool? && v == Truth(t.value))
      || (t.Number? && v == Finite(t.numeral))
      || (t.String? && v == Characters(t.text))
  {
  }

  /** A plain list of data unfolds to the unfoldings of its items, in order. */
  lemma ListUnfolds(heap: Heap, r: Ref, t: Json)
    requires IsHeap(heap) && r in heap && heap[r].List?
    ensures IsUnfolding(heap, Pointer(r), t) <==>
      var slots := heap[r].slots;
      && heap[r].plain && t.Array? && |t.items| == |slots|
      && forall i :: 0 <= i < |slots| ==> slots[i].Data? && IsUnfolding(heap, slots[i].value, t.items[i])
  {
  }

  /** A plain record of data unfolds to one entry for each key, with the unfolding of its property. */
  lemma RecordUnfolds(heap: Heap, r: Ref, t: Json)
    requires IsHeap(heap) && r in heap && heap[r].Record? && IsUnfolding(heap, Pointer(r), t)
    ensures heap[r].plain && t.Object? && |t.entries| == |heap[r].keys|
    ensures forall key :: key in heap[r].keys <==> key in KeysOf(t.entries)
    ensures forall i :: 0 <= i < |t.entries| ==>
      var key := t.entries[i].key;
      && key in heap[r].fields && heap[r].fields[key].Data?
      && IsUnfolding(heap, heap[r].fields[key].value, t.entries[i].value)
  {
    NamesAscend(heap, r);
    hide SortedNames;
    var names := SortedNames(heap, r);
    assert KeysOf(t.entries) == names;
  }

  // ----- the traversal -----

  /** A path of at least one step leads from one value to the other. */
  ghost predicate Leads(heap: Heap, u: Value, v: Value)
    requires IsHeap(heap)
  {
    exists path: seq<Value> :: PathFrom(heap, u, path) && |path| > 1 && path[|path| - 1] == v
  }

  lemma LeadsOn(heap: Heap, u: Value, v: Value, child: Value)
    requires IsHeap(heap) && (u == v || Leads(heap, u, v)) && IsChild(heap, v, child)
    ensures Leads(heap, u, child)
  {
    hide IsChild;
    if u == v {
      assert PathFrom(heap, u, [u, child]);
    } else {
      var path: seq<Value> :| PathFrom(heap, u, path) && |path| > 1 && path[|path| - 1] == v;
      assert PathFrom(heap, u, path + [child]);
    }
  }

  lemma SlotIsChild(heap: Heap, ref: Ref, i: nat)
    requires IsHeap(heap) && ref in heap && i < |Slots(heap, ref)| && Slots(heap, ref)[i].Data?
    ensures IsChild(heap, Pointer(ref), Slots(heap, ref)[i].value)
  {
    hide Slots;
  }

  /** Inside an object the traversal is inside of one object more, and so nearer to its end. */
  lemma InsideChild(heap: Heap, ref: Ref, before: set<Ref>, child: Value)
    requires IsHeap(heap) && ref in heap && ref !in before && IsChild(heap, Pointer(ref), child)
    requires forall a :: a in before ==> Leads(heap, Pointer(a), Pointer(ref))
    ensures forall a :: a in before + {ref} ==> Leads(heap, Pointer(a), child)
    ensures heap.Keys - (before + {ref}) < heap.Keys - before
  {
    hide Leads, IsChild;
    forall a | a in before + {ref} ensures Leads(heap, Pointer(a), child) {
      LeadsOn(heap, Pointer(a), Pointer(ref), child);
    }
    assert ref in heap.Keys - before && ref !in heap.Keys - (before + {ref});
  }

  /** What a child reaches, its parent reaches. */
  lemma ParentReaches(heap: Heap, v: Value, child: Value)
    requires IsHeap(heap) && IsChild(heap, v, child)
    ensures ReachesCycle(heap, child) ==> ReachesCycle(heap, v)
    ensures ReachesUnsupported(heap, child) ==> ReachesUnsupported(heap, v)
  {
    hide IsChild, IsUnsupported;
    if path: seq<Value>, i, j :| PathFrom(heap, child, path) && 0 <= i < j < |path| && path[i] == path[j]
                                 && path[j].Pointer? {
      var longer := [v] + path;
      assert PathFrom(heap, v, longer) && longer[i + 1] == longer[j + 1];
    }
    if path: seq<Value>, i :| PathFrom(heap, child, path) && 0 <= i < |path| && IsUnsupported(heap, path[i]) {
      var longer := [v] + path;
      assert PathFrom(heap, v, longer) && IsUnsupported(heap, longer[i + 1]);
    }
  }

  lemma ReachesItself(heap: Heap, v: Value)
    requires IsHeap(heap)
    ensures IsUnsupported(heap, v) ==> ReachesUnsupported(heap, v)
    ensures v.Pointer? && Leads(heap, v, v) ==> ReachesCycle(heap, v)
  {
    hide IsChild, IsUnsupported;
    if IsUnsupported(heap, v) {
      var path := [v];
      assert PathFrom(heap, v, path) && IsUnsupported(heap, path[0]);
    }
    if v.Pointer? && Leads(heap, v, v) {
      var path: seq<Value> :| PathFrom(heap, v, path) && |path| > 1 && path[|path| - 1] == v;
      assert path[0] == path[|path| - 1];
    }
  }

  /** A traversal yields the unfolding, or a reason why there is none. */
  ghost predicate Answers(heap: Heap, v: Value, r: Result<Json, Refusal>)
    requires IsHeap(heap)
  {
    match r
    case Success(t) => IsUnfolding(heap, v, t)
    case Failure(e) => if e == Cyclic then ReachesCycle(heap, v) else ReachesUnsupported(heap, v)
  }

  class Traversal {
    const heap: Heap
    var ancestors: set<Ref>

    constructor (heap: Heap)
      requires IsHeap(heap)
      ensures this.heap == heap && ancestors == {}
    {
      this.heap, this.ancestors := heap, {};
    }

    /** The traversal is inside of each ancestor. */
    ghost predicate Inside(v: Value)
      requires IsHeap(heap)
      reads this
    {
      forall a :: a in ancestors ==> Leads(heap, Pointer(a), v)
    }

    method ToValue(v: Value) returns (r: Result<Json, Refusal>)
      requires IsHeap(heap) && Inside(v)
      modifies this
      ensures ancestors == old(ancestors) && Answers(heap, v, r)
      decreases heap.Keys - ancestors, 2
    {
      ReachesItself(heap, v);
      match v
      case Nil => return Success(Null);
      case Truth(b) => return Success(Bool(b));
      case Finite(n) => return Success(Number(n));
      case Characters(text) => return Success(String(text));
      case Foreign => return Failure(Unsupported);
      case Pointer(ref) =>
        if ref !in heap || heap[ref].Exotic? {
          return Failure(Unsupported);
        }
        r := ToObject(ref);
    }

    /** A list or a record: entered unless the traversal is inside of it, and left again whatever happens. */
    method ToObject(ref: Ref) returns (r: Result<Json, Refusal>)
      requires IsHeap(heap) && Inside(Pointer(ref)) && ref in heap && !heap[ref].Exotic?
      modifies this
      ensures ancestors == old(ancestors) && Answers(heap, Pointer(ref), r)
      decreases heap.Keys - ancestors, 1
    {
      ReachesItself(heap, Pointer(ref));
      if ref in ancestors {
        return Failure(Cyclic);
      }
      if !heap[ref].plain {
        return Failure(Unsupported);
      }
      ancestors := ancestors + {ref};
      var children := ToChildren(ref, old(ancestors));
      ancestors := ancestors - {ref};
      if children.Failure? {
        return Failure(children.error);
      }
      r := Success(Assembled(heap, ref, children.value));
      AssembledUnfolds(heap, ref, children.value);
    }

    method ToChildren(ref: Ref, ghost before: set<Ref>) returns (r: Result<seq<Json>, Refusal>)
      requires IsHeap(heap) && ref in heap && !heap[ref].Exotic?
      requires ref !in before && ancestors == before + {ref}
      requires forall a :: a in before ==> Leads(heap, Pointer(a), Pointer(ref))
      modifies this
      ensures ancestors == old(ancestors)
      ensures r.Success? ==> Unfold(heap, Slots(heap, ref), r.value)
      ensures r.Failure? ==> Answers(heap, Pointer(ref), Failure(r.error))
      decreases heap.Keys - before, 0
    {
      hide IsUnfolding, Leads, IsChild, ReachesCycle, ReachesUnsupported, SortedNames;
      var slots := Slots(heap, ref);
      var children := [];
      for i := 0 to |slots|
        invariant ancestors == old(ancestors)
        invariant |children| == i && Unfold(heap, slots[..i], children)
      {
        if slots[i].Accessor? {
          ReachesItself(heap, Pointer(ref));
          return Failure(Unsupported);
        }
        var child := slots[i].value;
        SlotIsChild(heap, ref, i);
        InsideChild(heap, ref, before, child);
        var next := ToValue(child);
        ParentReaches(heap, Pointer(ref), child);
        if next.Failure? {
          return Failure(next.error);
        }
        children := children + [next.value];
      }
      assert slots[..|slots|] == slots;
      return Success(children);
    }
  }

  /** Each slot holds data, and each tree is the unfolding of its slot. */
  ghost predicate Unfold(heap: Heap, slots: seq<Slot>, trees: seq<Json>)
    requires IsHeap(heap)
  {
    |trees| == |slots| && forall i :: 0 <= i < |slots| ==> slots[i].Data? && IsUnfolding(heap, slots[i].value, trees[i])
  }

  function Assembled(heap: Heap, ref: Ref, children: seq<Json>): Json
    requires IsHeap(heap) && ref in heap && !heap[ref].Exotic? && |children| == |Slots(heap, ref)|
  {
    if heap[ref].List? then Array(children)
    else
      var names := SortedNames(heap, ref);
      Object(seq(|names|, i requires 0 <= i < |names| => Entry(names[i], children[i])))
  }

  lemma AssembledUnfolds(heap: Heap, ref: Ref, children: seq<Json>)
    requires IsHeap(heap) && ref in heap && !heap[ref].Exotic? && heap[ref].plain
    requires Unfold(heap, Slots(heap, ref), children)
    ensures IsUnfolding(heap, Pointer(ref), Assembled(heap, ref, children))
  {
    hide SortedNames;
    var t := Assembled(heap, ref, children);
    var slots := Slots(heap, ref);
    forall i | 0 <= i < |slots| ensures slots[i].Data? && IsUnfolding(heap, slots[i].value, Child(t, i)) {
    }
  }

  /**
   The traversal succeeds exactly if the value reaches neither a cycle nor anything
   unsupported, and then yields its one unfolding, shared substructure included.
   */
  method Canonical(heap: Heap, v: Value) returns (r: Result<Json, Refusal>)
    requires IsHeap(heap)
    ensures r.Success? <==> !ReachesCycle(heap, v) && !ReachesUnsupported(heap, v)
    ensures r.Success? ==> forall t :: IsUnfolding(heap, v, t) <==> t == r.value
    ensures r.Success? ==> KeysAscend(r.value)
    ensures r.Failure? ==> if r.error == Cyclic then ReachesCycle(heap, v) else ReachesUnsupported(heap, v)
    ensures r.Failure? ==> forall t :: !IsUnfolding(heap, v, t)
  {
    hide IsUnfolding, ReachesCycle, ReachesUnsupported;
    var traversal := new Traversal(heap);
    r := traversal.ToValue(v);
    forall t | IsUnfolding(heap, v, t) ensures r.Success? && t == r.value {
      UnfoldingExcludes(heap, v, t);
      UnfoldingUnique(heap, v, t, r.value);
    }
    if r.Success? {
      UnfoldingAscends(heap, v, r.value);
      UnfoldingExcludes(heap, v, r.value);
    }
  }
}
