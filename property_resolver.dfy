/** The product form's property list: the selected category's own properties
    followed by those of its parent, grandparent and so on, found by walking
    `parent._id` through the category list (components/ProductForm.tsx and
    components/ProductForm.js run the same loop).

    The source loop has three ways to end: the chain reaches a category with
    no parent (a result), a parent id resolves to nothing or to a category with
    no `properties` field (a TypeError), or the chain is cyclic and the loop
    never ends. `Outcome` names the three. The method stops a walk that is
    still running after as many steps as there are categories and reports
    `Diverges`; `DivergesForever` proves that such a walk would indeed never
    end, so the bound changes no outcome. */
module PropertyResolver {
  import opened Common

  datatype Outcome = Resolved(properties: seq<Property>) | Throws | Diverges

  /** What one turn of the `while` loop does from a given category. */
  datatype Step = Stop | Fail | Go(next: nat)

  /** `categories.find(({ _id }) => _id === id)`, as the index of the first
      match. Two absent ids are equal, as `undefined === undefined` is. */
  function FindIndex(categories: seq<Category>, id: Option<string>): (r: Option<nat>)
    ensures r.Some? ==> r.value < |categories| && categories[r.value].id == id
    ensures r.Some? ==> forall k :: 0 <= k < r.value ==> categories[k].id != id
    ensures r.None? ==> forall k :: 0 <= k < |categories| ==> categories[k].id != id
  {
    if |categories| == 0 then None
    else if categories[0].id == id then Some(0)
    else match FindIndex(categories[1..], id)
      case None => None
      case Some(k) => Some(k + 1)
  }

  /** The properties a category contributes: its own list, or nothing when the
      field is absent. */
  function Own(c: Category): seq<Property>
  {
    if c.properties.Some? then c.properties.value else []
  }

  /** One loop turn from `categories[i]`: no truthy `parent._id` ends the loop;
      a parent that is not found, or found without `properties`, makes
      `properties.push(...parentCategory.properties)` throw. */
  function ParentStep(categories: seq<Category>, i: nat): (s: Step)
    requires i < |categories|
    ensures s.Go? ==> s.next < |categories| && categories[s.next].properties.Some?
  {
    var parent := categories[i].parentId;
    if !TruthyText(parent) then Stop
    else match FindIndex(categories, parent)
      case None => Fail
      case Some(j) => if categories[j].properties.None? then Fail else Go(j)
  }

  function Prepend(ps: seq<Property>, o: Outcome): Outcome
  {
    if o.Resolved? then Resolved(ps + o.properties) else o
  }

  /** The ancestors' properties collected from `categories[i]` with at most
      `fuel` parent steps; a walk that needs one more step is `Diverges`. */
  function Walk(categories: seq<Category>, i: nat, fuel: nat): Outcome
    requires i < |categories|
    decreases fuel
  {
    match ParentStep(categories, i)
    case Stop => Resolved([])
    case Fail => Throws
    case Go(j) =>
      if fuel == 0 then Diverges
      else Prepend(Own(categories[j]), Walk(categories, j, fuel - 1))
  }

  /** Index of the selected category, or None when the list is empty, no
      category is selected, or its `_id` is not in the list. */
  function Selected(categories: seq<Category>, selected: Option<Category>): Option<nat>
  {
    if |categories| == 0 || selected.None? then None
    else FindIndex(categories, selected.value.id)
  }

  /** The property list the form computes, with the walk bounded by the number
      of categories. */
  function Resolve(categories: seq<Category>, selected: Option<Category>): (r: Outcome)
    ensures Selected(categories, selected).None? ==> r == Resolved([])
    ensures Selected(categories, selected).Some? ==>
      var i := Selected(categories, selected).value;
      i < |categories| &&
      (categories[i].properties.None? ==> r == Resolved([])) &&
      (categories[i].properties.Some? && !TruthyText(categories[i].parentId) ==>
         r == Resolved(categories[i].properties.value)) &&
      (categories[i].properties.Some? && ParentStep(categories, i) == Fail ==> r == Throws) &&
      (categories[i].properties.Some? && r.Resolved? ==>
         categories[i].properties.value <= r.properties)
  {
    match Selected(categories, selected)
    case None => Resolved([])
    case Some(i) =>
      if categories[i].properties.None? then Resolved([])
      else Prepend(Own(categories[i]), Walk(categories, i, |categories|))
  }

  lemma PrependPrepend(a: seq<Property>, b: seq<Property>, o: Outcome)
    ensures Prepend(a, Prepend(b, o)) == Prepend(a + b, o)
  {
    if o.Resolved? {
      assert a + (b + o.properties) == (a + b) + o.properties;
    }
  }

  /** The loop of ProductForm: `push` the selected category's properties, then
      follow `parent._id`, pushing each ancestor's properties in turn. */
  method ResolveProperties(categories: seq<Category>, category: Option<Category>) returns (r: Outcome)
    ensures r == Resolve(categories, category)
  {
    var properties: seq<Property> := [];
    if |categories| > 0 && category.Some? {
      var found := FindIndex(categories, category.value.id);
      if found.Some? && categories[found.value].properties.Some? {
        var current: nat := found.value;
        properties := properties + categories[current].properties.value;
        var steps: nat := 0;
        while TruthyText(categories[current].parentId)
          invariant current < |categories| && steps <= |categories|
          invariant Prepend(properties, Walk(categories, current, |categories| - steps))
                    == Resolve(categories, category)
          decreases |categories| - steps
        {
          var parent := FindIndex(categories, categories[current].parentId);
          if parent.None? || categories[parent.value].properties.None? {
            return Throws;
          }
          if steps == |categories| {
            return Diverges;
          }
          PrependPrepend(properties, categories[parent.value].properties.value,
                         Walk(categories, parent.value, |categories| - steps - 1));
          properties := properties + categories[parent.value].properties.value;
          current := parent.value;
          steps := steps + 1;
        }
      }
    }
    r := Resolved(properties);
  }

  // ---------------------------------------------------------------------------
  // The step bound changes no outcome.

  /** The category reached after `d` parent steps, if the walk gets that far. */
  function Reach(categories: seq<Category>, i: nat, d: nat): (r: Option<nat>)
    requires i < |categories|
    ensures r.Some? ==> r.value < |categories|
    decreases d
  {
    if d == 0 then Some(i)
    else match ParentStep(categories, i)
      case Go(j) => Reach(categories, j, d - 1)
      case _ => None
  }

  /** One step of a walk that goes on: the outcome diverges exactly when the
      parent's walk with one step less does, and `d` steps from here are
      `d - 1` steps from the parent. */
  lemma StepGo(categories: seq<Category>, i: nat, d: nat, f: nat)
    requires i < |categories| && ParentStep(categories, i).Go? && d > 0 && f > 0
    ensures var j := ParentStep(categories, i).next;
            && Reach(categories, i, d) == Reach(categories, j, d - 1)
            && (Walk(categories, i, f).Diverges? <==> Walk(categories, j, f - 1).Diverges?)
  {
  }

  lemma {:induction false} ReachCompose(categories: seq<Category>, i: nat, a: nat, e: nat)
    requires i < |categories| && Reach(categories, i, a).Some?
    ensures Reach(categories, i, a + e) == Reach(categories, Reach(categories, i, a).value, e)
    decreases a
  {
    if a > 0 {
      var j := ParentStep(categories, i).next;
      StepGo(categories, i, a, 1);
      StepGo(categories, i, a + e, 1);
      ReachCompose(categories, j, a - 1, e);
      assert a - 1 + e == a + e - 1;
    }
  }

  lemma {:induction false} WalkThrough(categories: seq<Category>, i: nat, d: nat, f: nat)
    requires i < |categories| && Reach(categories, i, d).Some? && d <= f
    ensures Walk(categories, i, f).Diverges? <==>
            Walk(categories, Reach(categories, i, d).value, f - d).Diverges?
    decreases d
  {
    if d > 0 {
      var j := ParentStep(categories, i).next;
      StepGo(categories, i, d, f);
      WalkThrough(categories, j, d - 1, f - 1);
      assert f - 1 - (d - 1) == f - d;
    } else {
      assert Reach(categories, i, d) == Some(i) && f - d == f;
    }
  }

  lemma {:induction false} WalkShort(categories: seq<Category>, i: nat, d: nat, f: nat)
    requires i < |categories| && Reach(categories, i, d).Some? && f < d
    ensures Walk(categories, i, f) == Diverges
    decreases d
  {
    match ParentStep(categories, i)
    case Go(j) =>
      if f > 0 {
        WalkShort(categories, j, d - 1, f - 1);
      }
  }

  /** A category that returns to itself after `d` steps never finishes. */
  lemma {:induction false} CycleDiverges(categories: seq<Category>, x: nat, d: nat, f: nat)
    requires x < |categories| && d >= 1 && Reach(categories, x, d) == Some(x)
    ensures Walk(categories, x, f) == Diverges
    decreases f
  {
    if f < d {
      WalkShort(categories, x, d, f);
    } else {
      WalkThrough(categories, x, d, f);
      CycleDiverges(categories, x, d, f - d);
    }
  }

  lemma {:induction false} DivergesReaches(categories: seq<Category>, i: nat, f: nat, k: nat)
    requires i < |categories| && Walk(categories, i, f) == Diverges && k <= f + 1
    ensures Reach(categories, i, k).Some?
    decreases k
  {
    if k > 0 {
      match ParentStep(categories, i)
      case Go(j) =>
        if f > 0 && k > 1 {
          DivergesReaches(categories, j, f - 1, k - 1);
        }
    }
  }

  function Elements(s: seq<nat>): set<nat>
  {
    set x | x in s
  }

  lemma {:induction false} DistinctCard(s: seq<nat>)
    requires forall a, b :: 0 <= a < b < |s| ==> s[a] != s[b]
    ensures |Elements(s)| == |s|
  {
    if |s| > 0 {
      DistinctCard(s[1..]);
      assert Elements(s) == {s[0]} + Elements(s[1..]);
      assert s[0] !in Elements(s[1..]);
    }
  }

  lemma {:induction false} BoundedCard(A: set<nat>, n: nat)
    requires forall x :: x in A ==> x < n
    ensures |A| <= n
  {
    if n > 0 {
      BoundedCard(A - {n - 1}, n - 1);
    } else {
      assert A == {};
    }
  }

  /** More than `n` values below `n` contain a repetition. */
  lemma Pigeonhole(s: seq<nat>, n: nat)
    requires |s| > n && forall k :: 0 <= k < |s| ==> s[k] < n
    ensures exists a, b :: 0 <= a < b < |s| && s[a] == s[b]
  {
    if forall a, b :: 0 <= a < b < |s| ==> s[a] != s[b] {
      DistinctCard(s);
      BoundedCard(Elements(s), n);
      assert false;
    }
  }

  lemma ReachesAll(categories: seq<Category>, i: nat)
    requires i < |categories| && Walk(categories, i, |categories|) == Diverges
    ensures forall k :: 0 <= k <= |categories| ==> Reach(categories, i, k).Some?
  {
    forall k | 0 <= k <= |categories| ensures Reach(categories, i, k).Some? {
      DivergesReaches(categories, i, |categories|, k);
    }
  }

  /** A walk still running after as many steps as there are categories
      passes some category twice: `a` steps in it reaches `x`, and `b - a`
      further steps bring it back to `x`. */
  lemma FindCycle(categories: seq<Category>, i: nat) returns (a: nat, b: nat, x: nat)
    requires i < |categories| && Walk(categories, i, |categories|) == Diverges
    ensures a < b && x < |categories|
    ensures Reach(categories, i, a) == Some(x) && Reach(categories, x, b - a) == Some(x)
  {
    var n := |categories|;
    ReachesAll(categories, i);
    var s := seq(n + 1, k requires 0 <= k <= n =>
                 var r := Reach(categories, i, k); if r.Some? then r.value else 0);
    Pigeonhole(s, n);
    a, b :| 0 <= a < b < |s| && s[a] == s[b];
    x := s[a];
    assert Reach(categories, i, a) == Some(x) && Reach(categories, i, b) == Some(x);
    ReachCompose(categories, i, a, b - a);
    assert a + (b - a) == b;
  }

  /** A walk still running after as many steps as there are categories has
      entered a cycle: no amount of further steps ends it. */
  lemma DivergesForever(categories: seq<Category>, i: nat, g: nat)
    requires i < |categories| && Walk(categories, i, |categories|) == Diverges
    ensures Walk(categories, i, g) == Diverges
  {
    var a, b, x := FindCycle(categories, i);
    if g < a {
      WalkShort(categories, i, a, g);
    } else {
      CycleDiverges(categories, x, b - a, g - a);
      WalkThrough(categories, i, a, g);
    }
  }

  lemma {:induction false} FuelMonotone(categories: seq<Category>, i: nat, f: nat, g: nat)
    requires i < |categories| && f <= g && !Walk(categories, i, f).Diverges?
    ensures Walk(categories, i, g) == Walk(categories, i, f)
    decreases f
  {
    match ParentStep(categories, i)
    case Stop =>
    case Fail =>
    case Go(j) => FuelMonotone(categories, j, f - 1, g - 1);
  }

  /** The bounded walk agrees with the source's unbounded loop: whenever the
      loop finishes after any number of steps, `Resolve` has that outcome. */
  lemma ResolveAgrees(categories: seq<Category>, selected: Option<Category>, g: nat)
    requires Selected(categories, selected).Some?
    requires categories[Selected(categories, selected).value].properties.Some?
    requires !Walk(categories, Selected(categories, selected).value, g).Diverges?
    ensures var i := Selected(categories, selected).value;
            Resolve(categories, selected) == Prepend(Own(categories[i]), Walk(categories, i, g))
  {
    var i := Selected(categories, selected).value;
    var n := |categories|;
    if Walk(categories, i, n).Diverges? {
      DivergesForever(categories, i, g);
    } else if g <= n {
      FuelMonotone(categories, i, g, n);
    } else {
      FuelMonotone(categories, i, n, g);
    }
  }

  /** `Resolve` reports `Diverges` exactly when the source's loop never ends. */
  lemma ResolveDivergesIffEndless(categories: seq<Category>, selected: Option<Category>)
    requires Selected(categories, selected).Some?
    ensures var i := Selected(categories, selected).value;
            Resolve(categories, selected) == Diverges <==>
            categories[i].properties.Some? && forall g: nat :: Walk(categories, i, g) == Diverges
  {
    var i := Selected(categories, selected).value;
    if Resolve(categories, selected) == Diverges {
      forall g: nat ensures Walk(categories, i, g) == Diverges {
        DivergesForever(categories, i, g);
      }
    } else if categories[i].properties.Some? {
      assert !Walk(categories, i, |categories|).Diverges?;
    }
  }

  // ---------------------------------------------------------------------------
  // Well-formed chains.

  /** `path` lists a category and its ancestors in order, every parent resolves
      and has `properties`, and the last one has no parent. */
  ghost predicate IsChain(categories: seq<Category>, path: seq<nat>)
  {
    && |path| >= 1
    && (forall k :: 0 <= k < |path| ==> path[k] < |categories|)
    && (forall k :: 0 <= k < |path| - 1 ==> ParentStep(categories, path[k]) == Go(path[k + 1]))
    && ParentStep(categories, path[|path| - 1]) == Stop
  }

  /** The properties of every category on a path, concatenated in path order. */
  function Concat(categories: seq<Category>, path: seq<nat>): seq<Property>
    requires forall k :: 0 <= k < |path| ==> path[k] < |categories|
  {
    if path == [] then [] else Own(categories[path[0]]) + Concat(categories, path[1..])
  }

  function SumCounts(categories: seq<Category>, path: seq<nat>): nat
    requires forall k :: 0 <= k < |path| ==> path[k] < |categories|
  {
    if path == [] then 0 else |Own(categories[path[0]])| + SumCounts(categories, path[1..])
  }

  lemma {:induction false} ConcatLength(categories: seq<Category>, path: seq<nat>)
    requires forall k :: 0 <= k < |path| ==> path[k] < |categories|
    ensures |Concat(categories, path)| == SumCounts(categories, path)
  {
    if path != [] {
      ConcatLength(categories, path[1..]);
    }
  }

  lemma {:induction false} ChainWalk(categories: seq<Category>, path: seq<nat>, f: nat)
    requires IsChain(categories, path) && f >= |path| - 1
    ensures Walk(categories, path[0], f) == Resolved(Concat(categories, path[1..]))
    decreases |path|
  {
    if |path| > 1 {
      assert ParentStep(categories, path[0]) == Go(path[1]);
      ChainWalk(categories, path[1..], f - 1);
      assert path[1..][1..] == path[2..];
    } else {
      assert path[1..] == [];
    }
  }

  /** On an acyclic chain whose parents all resolve, the result is the selected
      category's properties, then its parent's, then its grandparent's, each
      in declared order and without de-duplication; its length is the sum of
      the counts along the chain. */
  lemma ResolveChain(categories: seq<Category>, selected: Option<Category>, path: seq<nat>)
    requires IsChain(categories, path)
    requires Selected(categories, selected) == Some(path[0])
    requires categories[path[0]].properties.Some?
    ensures Resolve(categories, selected) == Resolved(Concat(categories, path))
    ensures |Resolve(categories, selected).properties| == SumCounts(categories, path)
  {
    ChainWalk(categories, path, |path| - 1);
    ResolveAgrees(categories, selected, |path| - 1);
    assert path == [path[0]] + path[1..];
    ConcatLength(categories, path);
  }

  /** `path` lists a category and ancestors whose parents all resolve, up to
      one whose parent is not found or has no `properties`. */
  ghost predicate IsBrokenChain(categories: seq<Category>, path: seq<nat>)
  {
    && |path| >= 1
    && (forall k :: 0 <= k < |path| ==> path[k] < |categories|)
    && (forall k :: 0 <= k < |path| - 1 ==> ParentStep(categories, path[k]) == Go(path[k + 1]))
    && ParentStep(categories, path[|path| - 1]) == Fail
  }

  lemma {:induction false} BrokenChainWalk(categories: seq<Category>, path: seq<nat>, f: nat)
    requires IsBrokenChain(categories, path) && f >= |path| - 1
    ensures Walk(categories, path[0], f) == Throws
    decreases |path|
  {
    if |path| > 1 {
      assert ParentStep(categories, path[0]) == Go(path[1]);
      BrokenChainWalk(categories, path[1..], f - 1);
    }
  }

  /** A break anywhere up the chain throws: when the selected category's
      ancestors resolve up to one whose parent is missing or has no
      `properties`, at whatever depth, the spread of `undefined` raises. */
  lemma ResolveBrokenChain(categories: seq<Category>, selected: Option<Category>, path: seq<nat>)
    requires IsBrokenChain(categories, path)
    requires Selected(categories, selected) == Some(path[0])
    requires categories[path[0]].properties.Some?
    ensures Resolve(categories, selected) == Throws
  {
    BrokenChainWalk(categories, path, |path| - 1);
    ResolveAgrees(categories, selected, |path| - 1);
  }

  /** A child, its parent, and a grandparent id that no category has: the
      walk pushes the parent's properties, then throws. */
  lemma MissingGrandparentThrows(child: seq<Property>, parent: seq<Property>)
    ensures var parentCat := Category(Some("p"), "Parent", Some("g"), Some(parent));
            var childCat := Category(Some("c"), "Child", Some("p"), Some(child));
            Resolve([parentCat, childCat], Some(childCat)) == Throws
  {
    var parentCat := Category(Some("p"), "Parent", Some("g"), Some(parent));
    var childCat := Category(Some("c"), "Child", Some("p"), Some(child));
    var cats := [parentCat, childCat];
    assert FindIndex(cats, Some("c")) == Some(1);
    assert FindIndex(cats, Some("p")) == Some(0);
    assert FindIndex(cats, Some("g")) == None by {
      assert cats[1..][1..] == [];
    }
    assert IsBrokenChain(cats, [1, 0]);
    ResolveBrokenChain(cats, Some(childCat), [1, 0]);
  }

  /** Two levels, a child and its root, each declaring `Color`: the child's
      properties come first and the repeated name is kept twice. */
  lemma TwoLevelKeepsDuplicates(child: seq<string>, root: seq<string>)
    ensures var color1 := Property("Color", child);
            var color2 := Property("Color", root);
            var rootCat := Category(Some("r"), "Root", None, Some([color2]));
            var childCat := Category(Some("c"), "Child", Some("r"), Some([color1]));
            Resolve([rootCat, childCat], Some(childCat)) == Resolved([color1, color2])
  {
    var color1 := Property("Color", child);
    var color2 := Property("Color", root);
    var rootCat := Category(Some("r"), "Root", None, Some([color2]));
    var childCat := Category(Some("c"), "Child", Some("r"), Some([color1]));
    var cats := [rootCat, childCat];
    assert FindIndex(cats, Some("c")) == Some(1);
    assert FindIndex(cats, Some("r")) == Some(0);
    assert IsChain(cats, [1, 0]);
    ResolveChain(cats, Some(childCat), [1, 0]);
    assert [1, 0][1..] == [0] && [0][1..] == [];
    assert Concat(cats, [0]) == [color2];
    assert Concat(cats, [1, 0]) == [color1] + [color2];
  }
}
