/**
 The two tree recursions of the website scanner: the depth of the DOM element tree and
 the number of non-empty nodes in the accessibility snapshot. Each is related to an
 independent, path-based description of the same quantity.
 */
module ScanTrees {
  import opened Json

  // ---------------------------------------------------------------- DOM depth

  /**
   A DOM tree node as the depth computation sees it: missing (None), an object without a
   `children` attribute (a text node), or an element with its children.
   */
  datatype DomTree = Absent | NoChildrenAttr | Node(children: seq<DomTree>)

  function Max(a: nat, b: nat): nat {
    if a < b then b else a
  }

  /**
   `_calculate_dom_depth`: 0 for a missing node or one without children, 1 for an
   element without children, else one more than the deepest child.
   */
  function DomDepth(t: DomTree): (d: nat)
    decreases t, 1
    ensures d == 0 <==> !t.Node?
    ensures t.Node? && t.children == [] ==> d == 1
  {
    match t
    case Absent => 0
    case NoChildrenAttr => 0
    case Node(children) => if |children| == 0 then 1 else 1 + DeepestChild(t, 0)
  }

  /** The greatest depth among the children of `t` from index `i` on. */
  function DeepestChild(t: DomTree, i: nat): nat
    requires t.Node? && i < |t.children|
    decreases t, 0, |t.children| - i
  {
    if i + 1 == |t.children| then DomDepth(t.children[i])
    else Max(DomDepth(t.children[i]), DeepestChild(t, i + 1))
  }

  /** A chain of child indices from the root whose every visited node is an element. */
  predicate ElementPath(t: DomTree, p: seq<nat>)
    decreases |p|
  {
    t.Node? && (p == [] || (p[0] < |t.children| && ElementPath(t.children[p[0]], p[1..])))
  }

  lemma DeepestChildBounds(t: DomTree, i: nat)
    requires t.Node? && i < |t.children|
    ensures forall j :: i <= j < |t.children| ==> DomDepth(t.children[j]) <= DeepestChild(t, i)
    ensures exists j :: i <= j < |t.children| && DomDepth(t.children[j]) == DeepestChild(t, i)
    decreases |t.children| - i
  {
    if i + 1 < |t.children| {
      DeepestChildBounds(t, i + 1);
    }
  }

  /** Every element chain is shorter than the depth: the depth bounds every branch. */
  lemma {:induction false} ElementPathBelowDepth(t: DomTree, p: seq<nat>)
    requires ElementPath(t, p)
    ensures |p| < DomDepth(t)
    decreases |p|
  {
    if p != [] {
      var child := t.children[p[0]];
      ElementPathBelowDepth(child, p[1..]);
      DeepestChildBounds(t, 0);
    }
  }

  /** Some element chain reaches the depth: the depth is attained. */
  lemma {:induction false} DeepestElementPath(t: DomTree) returns (p: seq<nat>)
    requires t.Node?
    ensures ElementPath(t, p) && |p| == DomDepth(t) - 1
    decreases t
  {
    if |t.children| == 0 {
      p := [];
    } else {
      DeepestChildBounds(t, 0);
      var j :| 0 <= j < |t.children| && DomDepth(t.children[j]) == DeepestChild(t, 0);
      var child := t.children[j];
      if child.Node? {
        var q := DeepestElementPath(child);
        p := [j] + q;
        assert p[1..] == q;
      } else {
        p := [];
      }
    }
  }

  // ---------------------------------------------------------------- accessibility count

  /**
   A node of the accessibility snapshot: None, or a dict with its other keys, whether it
   has a `children` key, and that list (empty when the key is absent).
   */
  datatype AxTree = AxNone | AxNode(attributes: map<string, Json>, hasChildrenKey: bool, children: seq<AxTree>)

  /** Python truthiness of a node: not None and not the empty dict. */
  predicate AxTruthy(t: AxTree) {
    t.AxNode? && (t.attributes != map[] || t.hasChildrenKey)
  }

  /** The children a node's `.get('children', [])` yields: none when the key is absent. */
  function Kids(t: AxTree): (kids: seq<AxTree>)
    ensures t.AxNode? && t.hasChildrenKey ==> kids == t.children
    ensures !t.AxNode? || !t.hasChildrenKey ==> kids == []
  {
    if t.AxNode? && t.hasChildrenKey then t.children else []
  }

  /** `_count_ax_elements`: 0 for a falsy node, else 1 plus the counts of its children. */
  function CountAx(t: AxTree): (n: nat)
    decreases t, 1
    ensures n == 0 <==> !AxTruthy(t)
  {
    if !AxTruthy(t) then 0 else 1 + SumCounts(t, 0)
  }

  /** The summed counts of the children of `t` from index `i` on. */
  function SumCounts(t: AxTree, i: nat): nat
    requires t.AxNode?
    decreases t, 0, |Kids(t)| - i
  {
    if i >= |Kids(t)| then 0
    else
      CountAx(Kids(t)[i]) + SumCounts(t, i + 1)
  }

  /** A chain of child indices from the root along which every node is truthy. */
  predicate Reached(t: AxTree, p: seq<nat>)
    decreases |p|
  {
    AxTruthy(t) && (p == [] || (p[0] < |Kids(t)| && Reached(Kids(t)[p[0]], p[1..])))
  }

  /** Prefix every path with a child index. */
  function Under(i: nat, paths: seq<seq<nat>>): (r: seq<seq<nat>>)
    ensures |r| == |paths|
    ensures forall k :: 0 <= k < |r| ==> r[k] == [i] + paths[k]
  {
    seq(|paths|, k requires 0 <= k < |paths| => [i] + paths[k])
  }

  /** The reached paths in pre-order: the root, then each child's paths in child order. */
  function AxPaths(t: AxTree): seq<seq<nat>>
    decreases t, 1
  {
    if !AxTruthy(t) then [] else [[]] + ChildPaths(t, 0)
  }

  function ChildPaths(t: AxTree, i: nat): seq<seq<nat>>
    requires t.AxNode?
    decreases t, 0, |Kids(t)| - i
  {
    if i >= |Kids(t)| then []
    else
      Under(i, AxPaths(Kids(t)[i])) + ChildPaths(t, i + 1)
  }

  /** The count is the number of reached nodes. */
  lemma {:induction false} CountIsPathCount(t: AxTree)
    ensures CountAx(t) == |AxPaths(t)|
    decreases t, 1
  {
    if AxTruthy(t) {
      SumIsChildPathCount(t, 0);
    }
  }

  lemma {:induction false} SumIsChildPathCount(t: AxTree, i: nat)
    requires t.AxNode?
    ensures SumCounts(t, i) == |ChildPaths(t, i)|
    decreases t, 0, |Kids(t)| - i
  {
    if i < |Kids(t)| {
      CountIsPathCount(Kids(t)[i]);
      SumIsChildPathCount(t, i + 1);
    }
  }

  /** Every listed path is reached, and every reached path is listed. */
  lemma {:induction false} AxPathsExact(t: AxTree, p: seq<nat>)
    ensures p in AxPaths(t) <==> Reached(t, p)
    decreases t, 1
  {
    if AxTruthy(t) && p != [] {
      ChildPathsExact(t, 0, p);
      assert p !in [[]];
    }
  }

  lemma {:induction false} ChildPathsExact(t: AxTree, i: nat, p: seq<nat>)
    requires t.AxNode? && p != []
    ensures p in ChildPaths(t, i) <==> i <= p[0] < |Kids(t)| && Reached(Kids(t)[p[0]], p[1..])
    decreases t, 0, |Kids(t)| - i
  {
    if i < |Kids(t)| {
      var child := Kids(t)[i];
      var mine := Under(i, AxPaths(child));
      ChildPathsExact(t, i + 1, p);
      AxPathsExact(child, p[1..]);
      if p[0] == i {
        if Reached(child, p[1..]) {
          var k :| 0 <= k < |AxPaths(child)| && AxPaths(child)[k] == p[1..];
          assert mine[k] == p;
        }
      }
      if p in mine {
        var k :| 0 <= k < |mine| && mine[k] == p;
        assert p[1..] == AxPaths(child)[k];
      }
    }
  }

  /** No two positions of `s` hold the same value. */
  predicate Distinct<T(==)>(s: seq<T>) {
    forall i, j :: 0 <= i < j < |s| ==> s[i] != s[j]
  }

  /** Every node is listed once: the path list has no repetitions. */
  lemma {:induction false} AxPathsDistinct(t: AxTree)
    ensures Distinct(AxPaths(t))
    decreases t, 1
  {
    if AxTruthy(t) {
      ChildPathsDistinct(t, 0);
      var paths := AxPaths(t);
      forall a, b | 0 <= a < b < |paths|
        ensures paths[a] != paths[b]
      {
        if a == 0 {
          assert paths[b] == ChildPaths(t, 0)[b - 1];
        } else {
          assert paths[a] == ChildPaths(t, 0)[a - 1];
          assert paths[b] == ChildPaths(t, 0)[b - 1];
        }
      }
    }
  }

  /** The child paths from index `i` on are distinct and start with a child index in [i, |Kids(t)|). */
  lemma {:induction false} ChildPathsDistinct(t: AxTree, i: nat)
    requires t.AxNode?
    ensures Distinct(ChildPaths(t, i))
    ensures forall k :: 0 <= k < |ChildPaths(t, i)| ==>
              ChildPaths(t, i)[k] != [] && i <= ChildPaths(t, i)[k][0] < |Kids(t)|
    decreases t, 0, |Kids(t)| - i
  {
    if i < |Kids(t)| {
      var child := Kids(t)[i];
      var mine := Under(i, AxPaths(child));
      var rest := ChildPaths(t, i + 1);
      AxPathsDistinct(child);
      ChildPathsDistinct(t, i + 1);
      var all := ChildPaths(t, i);
      assert all == mine + rest;
      forall a, b | 0 <= a < b < |all|
        ensures all[a] != all[b]
      {
        if b < |mine| {
          assert all[a][1..] == AxPaths(child)[a];
          assert all[b][1..] == AxPaths(child)[b];
        } else if a >= |mine| {
          assert all[a] == rest[a - |mine|];
          assert all[b] == rest[b - |mine|];
        } else {
          assert all[a][0] == i;
          assert all[b] == rest[b - |mine|];
        }
      }
      forall k | 0 <= k < |all|
        ensures all[k] != [] && i <= all[k][0] < |Kids(t)|
      {
        if k >= |mine| {
          assert all[k] == rest[k - |mine|];
        }
      }
    }
  }
}
