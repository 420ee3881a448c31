/**
 * The nObject resolver `getNObjectMobFromMob`: from any selected node, find the
 * nCloth or nRigid node it is related to, or give the null handle.
 *
 * The loop is modelled as written: its bound is the child count of the parent
 * (the start node itself, or the parent transform when a shape is selected), but
 * the children are fetched from the start node. When a shape is selected the two
 * differ, and fetching a child past the end of the start node's child list makes
 * the host raise; that outcome is `ChildOutOfRange`.
 */
module NObjectResolver {
  import opened Wrappers
  import opened SceneGraph

  /** The resolver's outcome: an nObject, the null handle, or the host's index error. */
  datatype Lookup = Found(node: NodeId) | Null | ChildOutOfRange

  /** A destination plug that is not null and belongs to an nCloth or nRigid node. */
  predicate IsNObjectDestination(g: Graph, d: Option<NodeId>) {
    d.Some? && IsNObject(g, d.value)
  }

  /** No child before index `k` (from index `x` on) contributes a match. */
  predicate NoMatchBetween(g: Graph, cs: seq<NodeId>, x: nat, k: nat)
    requires k <= |cs|
  {
    forall j :: x <= j < k ==> ChildMatch(g, cs[j]).None?
  }

  /**
   * The loop over the destinations of `worldMesh[0]`: null plugs and nodes that
   * are not nObjects are skipped, the first nObject wins.
   */
  function DestinationMatch(g: Graph, ds: Destinations): (r: Option<NodeId>)
    ensures r.Some? ==> IsNObject(g, r.value) && r in ds
    ensures r.None? <==> forall k :: 0 <= k < |ds| ==> !IsNObjectDestination(g, ds[k])
    decreases |ds|
  {
    if ds == [] then None
    else if IsNObjectDestination(g, ds[0]) then ds[0]
    else DestinationMatch(g, ds[1..])
  }

  /** The destination match is the FIRST nObject destination in plug order. */
  lemma {:induction false} DestinationMatchIsFirst(g: Graph, ds: Destinations, k: nat)
    requires k < |ds| && IsNObjectDestination(g, ds[k])
    requires forall j :: 0 <= j < k ==> !IsNObjectDestination(g, ds[j])
    ensures DestinationMatch(g, ds) == ds[k]
    decreases k
  {
    if k > 0 {
      DestinationMatchIsFirst(g, ds[1..], k - 1);
    }
  }

  /**
   * What a child that is not itself an nObject contributes: only a shape with a
   * `worldMesh` attribute holding at least one element can, through the
   * destinations of its first physical element.
   */
  function ShapeMatch(g: Graph, c: NodeId): (r: Option<NodeId>)
    ensures r.Some? ==> IsNObject(g, r.value)
    ensures r.Some? <==>
      IsShape(g, c) && Info(g, c).worldMesh.WorldMesh? && |Info(g, c).worldMesh.elements| > 0 &&
      exists k :: 0 <= k < |Info(g, c).worldMesh.elements[0]| &&
                  IsNObjectDestination(g, Info(g, c).worldMesh.elements[0][k])
  {
    var n := Info(g, c);
    if !n.isShape then None
    else match n.worldMesh
      case NoWorldMesh => None
      case WorldMesh(elements) =>
        if |elements| == 0 then None else DestinationMatch(g, elements[0])
  }

  /** What one child contributes to the search: itself when it is an nObject, else its shape match. */
  function ChildMatch(g: Graph, c: NodeId): (r: Option<NodeId>)
    ensures r.Some? ==> IsNObject(g, r.value)
    ensures IsNObject(g, c) ==> r == Some(c)
    ensures r.Some? && r != Some(c) ==>
      IsShape(g, c) && Info(g, c).worldMesh.WorldMesh? && |Info(g, c).worldMesh.elements| > 0 &&
      r in Info(g, c).worldMesh.elements[0]
  {
    if IsNObject(g, c) then Some(c) else ShapeMatch(g, c)
  }

  /**
   * The loop over child indices `x .. bound-1`, fetching each child from `start`.
   * The first child that contributes a match ends the search.
   */
  function ScanChildren(g: Graph, start: NodeId, bound: nat, x: nat): (r: Lookup)
    ensures r.Found? ==> IsNObject(g, r.node)
    ensures r.ChildOutOfRange? ==> |Children(g, start)| < bound
    decreases bound - x
  {
    if x >= bound then Null
    else if x >= |Children(g, start)| then ChildOutOfRange
    else match ChildMatch(g, Children(g, start)[x])
      case Some(n) => Found(n)
      case None => ScanChildren(g, start, bound, x + 1)
  }

  /** `getNObjectMobFromMob`. */
  function GetNObject(g: Graph, mob: NodeId): (r: Lookup)
    ensures !IsDag(g, mob) ==> r == Null
    ensures IsDag(g, mob) && IsNObject(g, mob) ==> r == Found(mob)
    ensures r.Found? ==> IsNObject(g, r.node)
    ensures r.ChildOutOfRange? ==>
      IsShape(g, mob) && |Children(g, mob)| < |Children(g, Parent(g, mob))|
  {
    if !IsDag(g, mob) then Null
    else if IsNObject(g, mob) then Found(mob)
    else
      var parent := if IsShape(g, mob) then Parent(g, mob) else mob;
      ScanChildren(g, mob, |Children(g, parent)|, 0)
  }

  /** A DAG node that is neither an nObject nor a shape: the search runs over its own children. */
  predicate IsTransformSearch(g: Graph, m: NodeId) {
    IsDag(g, m) && !IsNObject(g, m) && !IsShape(g, m)
  }

  lemma {:induction false} ScanFindsFirst(g: Graph, start: NodeId, bound: nat, x: nat, k: nat)
    requires x <= k < bound <= |Children(g, start)|
    requires ChildMatch(g, Children(g, start)[k]).Some?
    requires NoMatchBetween(g, Children(g, start), x, k)
    ensures ScanChildren(g, start, bound, x) == Found(ChildMatch(g, Children(g, start)[k]).value)
    decreases k - x
  {
    if x < k {
      ScanFindsFirst(g, start, bound, x + 1, k);
    }
  }

  lemma {:induction false} ScanNull(g: Graph, start: NodeId, bound: nat, x: nat)
    requires x <= bound <= |Children(g, start)|
    ensures ScanChildren(g, start, bound, x) == Null <==> NoMatchBetween(g, Children(g, start), x, bound)
    decreases bound - x
  {
    if x < bound {
      ScanNull(g, start, bound, x + 1);
    }
  }

  lemma {:induction false} ScanFoundIsFirst(g: Graph, start: NodeId, bound: nat, x: nat)
    requires x <= bound <= |Children(g, start)|
    requires ScanChildren(g, start, bound, x).Found?
    ensures exists k ::
              x <= k < bound &&
              ChildMatch(g, Children(g, start)[k]) == Some(ScanChildren(g, start, bound, x).node) &&
              NoMatchBetween(g, Children(g, start), x, k)
    decreases bound - x
  {
    var cs := Children(g, start);
    if ChildMatch(g, cs[x]).None? {
      ScanFoundIsFirst(g, start, bound, x + 1);
      var k :| x + 1 <= k < bound &&
        ChildMatch(g, cs[k]) == Some(ScanChildren(g, start, bound, x + 1).node) &&
        NoMatchBetween(g, cs, x + 1, k);
      assert NoMatchBetween(g, cs, x, k);
    } else {
      assert NoMatchBetween(g, cs, x, x);
    }
  }

  /**
   * From a transform, the first child (in child order) that contributes a match
   * is the result: either the child itself, or the first nObject among the
   * destinations of a shape child's `worldMesh[0]`.
   */
  lemma ResolveTransformFirstMatch(g: Graph, m: NodeId, k: nat)
    requires IsTransformSearch(g, m)
    requires k < |Children(g, m)| && ChildMatch(g, Children(g, m)[k]).Some?
    requires NoMatchBetween(g, Children(g, m), 0, k)
    ensures GetNObject(g, m) == Found(ChildMatch(g, Children(g, m)[k]).value)
  {
    ScanFindsFirst(g, m, |Children(g, m)|, 0, k);
  }

  /** From a transform, the null handle comes back exactly when no child contributes a match. */
  lemma ResolveTransformNull(g: Graph, m: NodeId)
    requires IsTransformSearch(g, m)
    ensures GetNObject(g, m) != ChildOutOfRange
    ensures GetNObject(g, m) == Null <==> NoMatchBetween(g, Children(g, m), 0, |Children(g, m)|)
  {
    ScanNull(g, m, |Children(g, m)|, 0);
  }

  /** From a transform, a found node is the match of some child, and no earlier child matched. */
  lemma ResolveTransformFoundIsFirst(g: Graph, m: NodeId)
    requires IsTransformSearch(g, m)
    requires GetNObject(g, m).Found?
    ensures exists k ::
              0 <= k < |Children(g, m)| &&
              ChildMatch(g, Children(g, m)[k]) == Some(GetNObject(g, m).node) &&
              NoMatchBetween(g, Children(g, m), 0, k)
  {
    ScanFoundIsFirst(g, m, |Children(g, m)|, 0);
  }

  lemma {:induction false} ScanOutOfRange(g: Graph, start: NodeId, bound: nat, x: nat)
    requires x <= |Children(g, start)| < bound
    requires NoMatchBetween(g, Children(g, start), x, |Children(g, start)|)
    ensures ScanChildren(g, start, bound, x) == ChildOutOfRange
    decreases |Children(g, start)| - x
  {
    if x < |Children(g, start)| {
      ScanOutOfRange(g, start, bound, x + 1);
    }
  }

  /**
   * The defect the plug-in's code notes in a comment at the child fetch: when a shape is
   * selected, the loop counts the parent's children but fetches the shape's
   * own, so unless one of the shape's own children matches first, the fetch
   * runs past the end and the host raises.
   */
  lemma ShapeSelectionOutOfRange(g: Graph, m: NodeId)
    requires IsDag(g, m) && !IsNObject(g, m) && IsShape(g, m)
    requires |Children(g, m)| < |Children(g, Parent(g, m))|
    requires NoMatchBetween(g, Children(g, m), 0, |Children(g, m)|)
    ensures GetNObject(g, m) == ChildOutOfRange
  {
    ScanOutOfRange(g, m, |Children(g, Parent(g, m))|, 0);
  }
}
