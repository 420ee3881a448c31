/**
 * The two commands over an attribute store that holds real arrays, updated in
 * place as the host's double-array data is. Each method is proved to follow the
 * step of the same name in module PerVertex.
 */
module Commands {
  import opened Wrappers
  import opened SceneGraph
  import opened NObjectResolver
  import opened PerVertex

  /** The scene graph and the double-array data bound to the per-vertex plugs. */
  class Scene {
    const graph: Graph
    var attrs: map<PlugRef, array<real>>

    /** No two plugs share one array. */
    ghost predicate Valid()
      reads this
    {
      forall p, q :: p in attrs && q in attrs && p != q ==> attrs[p] != attrs[q]
    }

    /** The store the arrays hold now. */
    ghost function Contents(): Store
      reads this, attrs.Values
    {
      map p | p in attrs :: attrs[p][..]
    }

    /** A scene whose per-vertex plugs all hold null data. */
    constructor (g: Graph)
      ensures Valid() && graph == g && attrs == map[] && Contents() == map[]
    {
      graph := g;
      attrs := map[];
    }
  }

  /** Every plug that held an array still holds that very array: data is written in place. */
  ghost predicate KeepsArrays(before: map<PlugRef, array<real>>, after: map<PlugRef, array<real>>) {
    forall q :: q in before ==> q in after && after[q] == before[q]
  }

  /** The undoable set command: its fields are the state shared by doIt, redoIt and undoIt. */
  class SetNClothPerVertexMaps {
    var prevWeights: Option<seq<real>>
    var currentWeights: seq<real>
    var target: NodeId
    var plugName: string
    var needsUndo: bool

    function State(): SetState
      reads this
    {
      SetState(prevWeights, currentWeights, target, plugName, needsUndo)
    }

    constructor ()
      ensures State() == InitialState
    {
      prevWeights := None;
      currentWeights := [];
      target := 0;
      plugName := "";
      needsUndo := false;
    }

    /** `doIt`, with the flags already parsed: `None` is a flag that was not given. */
    method DoIt(scene: Scene, name: Option<string>, selection: NodeId, weights: Option<seq<real>>)
      returns (outcome: Outcome<Error>)
      requires scene.Valid()
      modifies this, scene, scene.attrs.Values
      ensures scene.Valid()
      ensures Step(outcome, State(), scene.Contents()) ==
              DoItStep(scene.graph, old(State()), name, selection, weights, old(scene.Contents()))
      ensures KeepsArrays(old(scene.attrs), scene.attrs)
      ensures forall q :: q in scene.attrs && q !in old(scene.attrs) ==> fresh(scene.attrs[q])
    {
      ghost var store := scene.Contents();
      if name.None? {
        return Fail(MissingPlugName);
      }
      plugName := name.value;
      if !IsPerVertexName(plugName) {
        return Fail(InvalidPlugName);
      }
      target := selection;
      if weights.None? {
        return Fail(MissingVertexWeight);
      }
      currentWeights := weights.value;
      ghost var st := State();
      assert scene.Contents() == store;
      assert DoItStep(scene.graph, old(State()), name, selection, weights, store) == RedoStep(scene.graph, st, store);
      outcome := RedoIt(scene);
    }

    /**
     * `redoIt`: resolve the target; create the array from the weights when the
     * plug holds null data, else capture the overwritten prefix and write the
     * weights over it in place.
     */
    method RedoIt(scene: Scene) returns (outcome: Outcome<Error>)
      requires scene.Valid()
      modifies this, scene, scene.attrs.Values
      ensures scene.Valid()
      ensures Step(outcome, State(), scene.Contents()) == RedoStep(scene.graph, old(State()), old(scene.Contents()))
      ensures KeepsArrays(old(scene.attrs), scene.attrs)
      ensures forall q :: q in scene.attrs && q !in old(scene.attrs) ==> fresh(scene.attrs[q])
    {
      var l := GetNObject(scene.graph, target);
      if l.ChildOutOfRange? {
        return Fail(ChildIndexOutOfRange);
      }
      if l.Null? {
        return Fail(NoRelationship);
      }
      var p := PlugRef(l.node, plugName);
      if p !in scene.attrs {
        outcome := CreateOnPlug(scene, p);
      } else {
        outcome := OverwriteOnPlug(scene, p);
      }
    }

    /** `redoIt` on a plug that holds null data: attach a new array made from the weights. */
    method CreateOnPlug(scene: Scene, p: PlugRef) returns (outcome: Outcome<Error>)
      requires scene.Valid() && p !in scene.attrs
      modifies this, scene
      ensures scene.Valid() && p in scene.attrs && fresh(scene.attrs[p])
      ensures scene.attrs == old(scene.attrs)[p := scene.attrs[p]]
      ensures Step(outcome, State(), scene.Contents()) == RedoOnPlug(old(State()), old(scene.Contents()), p)
    {
      ghost var before := scene.Contents();
      var data := NewDoubleArray(currentWeights);
      scene.attrs := scene.attrs[p := data];
      assert scene.Contents() == before[p := currentWeights];
      needsUndo := true;
      return Pass;
    }

    /** `redoIt` on a plug that holds an array: capture its prefix and overwrite it in place. */
    method OverwriteOnPlug(scene: Scene, p: PlugRef) returns (outcome: Outcome<Error>)
      requires scene.Valid() && p in scene.attrs
      modifies this, scene.attrs[p]
      ensures Step(outcome, State(), scene.Contents()) == RedoOnPlug(old(State()), old(scene.Contents()), p)
    {
      ghost var st0 := State();
      var w := currentWeights;
      var data := scene.attrs[p];
      ghost var before := scene.Contents();
      ghost var a := data[..];
      var prev := CaptureAndWrite(data, w);
      forall q | q in scene.attrs && q != p
        ensures scene.attrs[q][..] == before[q]
      {
        assert scene.attrs[q] != data;
      }
      ghost var after := before[p := WritePrefix(a, w)];
      assert scene.Contents() == after;
      prevWeights := Some(prev);
      if |w| > data.Length {
        assert RedoOnPlug(st0, before, p) == Step(Fail(IndexOutOfRange), State(), after);
        return Fail(IndexOutOfRange);
      }
      needsUndo := true;
      assert RedoOnPlug(st0, before, p) == Step(Pass, State(), after);
      return Pass;
    }

    /**
     * `undoIt`: nothing when no undo is recorded; otherwise resolve the target
     * again and either zero every slot (no previous weights were captured) or
     * write the captured prefix back in place.
     */
    method UndoIt(scene: Scene) returns (outcome: Outcome<Error>)
      requires scene.Valid()
      modifies scene.attrs.Values
      ensures Step(outcome, State(), scene.Contents()) == UndoStep(scene.graph, State(), old(scene.Contents()))
    {
      if !needsUndo {
        return Pass;
      }
      var l := GetNObject(scene.graph, target);
      if l.ChildOutOfRange? {
        return Fail(ChildIndexOutOfRange);
      }
      if l.Null? {
        return Fail(NullObject);
      }
      outcome := UndoOnTarget(scene, PlugRef(l.node, plugName));
    }

    /** The rest of `undoIt`, on the plug the target resolved to. */
    method UndoOnTarget(scene: Scene, p: PlugRef) returns (outcome: Outcome<Error>)
      requires scene.Valid()
      modifies scene.attrs.Values
      ensures Step(outcome, State(), scene.Contents()) == UndoOnPlug(State(), old(scene.Contents()), p)
    {
      if p !in scene.attrs {
        return Fail(NullData);
      }
      var data := scene.attrs[p];
      ghost var before := scene.Contents();
      if prevWeights.None? || prevWeights.value == [] {
        ZeroFill(data);
        forall q | q in scene.attrs && q != p
          ensures scene.attrs[q][..] == before[q]
        {
          assert scene.attrs[q] != data;
        }
        assert scene.Contents() == before[p := data[..]];
        return Pass;
      }
      var prev := prevWeights.value;
      WriteBack(data, prev);
      forall q | q in scene.attrs && q != p
        ensures scene.attrs[q][..] == before[q]
      {
        assert scene.attrs[q] != data;
      }
      assert scene.Contents() == before[p := data[..]];
      outcome := if |prev| > data.Length then Fail(IndexOutOfRange) else Pass;
    }
  }

  /** `MFnDoubleArrayData.create`: a new array holding a copy of the weights. */
  method NewDoubleArray(w: seq<real>) returns (data: array<real>)
    ensures fresh(data) && data[..] == w
  {
    data := new real[|w|];
    for i := 0 to |w|
      invariant forall k :: 0 <= k < i ==> data[k] == w[k]
    {
      data[i] := w[i];
    }
  }

  /**
   * The redo loop over the weights: append the slot's old value to the captured
   * previous weights, then overwrite it. The loop stops early where the host
   * would raise, one index past the end of the array.
   */
  method CaptureAndWrite(data: array<real>, w: seq<real>) returns (prev: seq<real>)
    modifies data
    ensures data[..] == WritePrefix(old(data[..]), w)
    ensures prev == if |w| <= data.Length then old(data[..])[..|w|] else old(data[..])
  {
    prev := [];
    var i := 0;
    while i < |w| && i < data.Length
      invariant 0 <= i <= |w| && i <= data.Length
      invariant prev == old(data[..])[..i]
      invariant forall k :: 0 <= k < i ==> data[k] == w[k]
      invariant forall k :: i <= k < data.Length ==> data[k] == old(data[k])
    {
      prev := prev + [data[i]];
      data[i] := w[i];
      i := i + 1;
    }
    assert data[..] == WritePrefix(old(data[..]), w);
  }

  /** The undo loop that writes the captured previous weights back over the first slots. */
  method WriteBack(data: array<real>, prev: seq<real>)
    modifies data
    ensures data[..] == WritePrefix(old(data[..]), prev)
  {
    var i := 0;
    while i < |prev| && i < data.Length
      invariant 0 <= i <= |prev| && i <= data.Length
      invariant forall k :: 0 <= k < i ==> data[k] == prev[k]
      invariant forall k :: i <= k < data.Length ==> data[k] == old(data[k])
    {
      data[i] := prev[i];
      i := i + 1;
    }
    assert data[..] == WritePrefix(old(data[..]), prev);
  }

  /** The undo loop that sets every slot to zero when no previous weights were captured. */
  method ZeroFill(data: array<real>)
    modifies data
    ensures data[..] == Zeroed(data.Length)
  {
    for i := 0 to data.Length
      invariant forall k :: 0 <= k < i ==> data[k] == 0.0
    {
      data[i] := 0.0;
    }
    assert data[..] == Zeroed(data.Length);
  }

  /** The get command: reads the plug and returns a copy of its array, or an empty array when unset. */
  method GetNClothPerVertex(scene: Scene, name: Option<string>, selection: NodeId)
    returns (r: Result<seq<real>, Error>)
    ensures r == GetResult(scene.graph, scene.Contents(), name, selection)
  {
    if name.None? {
      return Err(MissingPlugName);
    }
    if !IsPerVertexName(name.value) {
      return Err(InvalidPlugName);
    }
    var l := GetNObject(scene.graph, selection);
    if l.ChildOutOfRange? {
      return Err(ChildIndexOutOfRange);
    }
    if l.Null? {
      return Err(NoRelationship);
    }
    var p := PlugRef(l.node, name.value);
    if p !in scene.attrs {
      return Ok([]);
    }
    return Ok(scene.attrs[p][..]);
  }
}
