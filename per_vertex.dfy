/**
 * The per-vertex attribute commands on values: the allow-list of attribute
 * names, the state of one set command, and the set / undo / redo / get steps
 * as functions from the old state and attribute store to the new ones.
 *
 * An attribute store maps a plug (node, attribute name) to the contents of its
 * double array; a plug that is not in the store holds null data (the attribute
 * is unset). The classes in module Commands are proved to follow these steps.
 */
module PerVertex {
  import opened Wrappers
  import opened SceneGraph
  import opened NObjectResolver

  /** The per-vertex attributes the commands are allowed to query and edit. */
  const PerVertexAttributeNames: seq<string> :=
    ["thicknessPerVertex", "bouncePerVertex", "frictionPerVertex",
     "dampPerVertex", "stickinessPerVertex", "collideStrengthPerVertex",
     "massPerVertex", "fieldMagnitudePerVertex", "stretchPerVertex",
     "compressionPerVertex", "bendPerVertex", "bendAngleDropoffPerVertex",
     "restitutionAnglePerVertex", "rigidityPerVertex", "deformPerVertex",
     "inputAttractPerVertex", "restLengthScalePerVertex", "liftPerVertex",
     "dragPerVertex", "tangentialDragPerVertex", "wrinklePerVertex"]

  predicate IsPerVertexName(name: string) {
    name in PerVertexAttributeNames
  }

  /** The allow-list holds 21 different names. */
  lemma AttributeNamesDistinct()
    ensures |PerVertexAttributeNames| == 21
    ensures forall i, j :: 0 <= i < j < |PerVertexAttributeNames| ==>
              PerVertexAttributeNames[i] != PerVertexAttributeNames[j]
  {
  }

  datatype PlugRef = PlugRef(node: NodeId, name: string)

  /** The double-array data of every plug that holds some; a missing plug holds null data. */
  type Store = map<PlugRef, seq<real>>

  /** The errors the commands raise. */
  datatype Error =
    | MissingPlugName      // "plugName flag must be set"
    | InvalidPlugName      // "Invalid Plug Name"
    | MissingVertexWeight  // "vertexWeight flag must be set"
    | NoRelationship       // "Selection has no relationship with nObjects"
    | ChildIndexOutOfRange // the resolver fetched a child past the end of the start node's list
    | NullObject           // undo resolved the null handle and the host refused to wrap it
    | NullData             // undo found null data under the plug and the host refused to wrap it
    | IndexOutOfRange      // a write loop ran past the end of the array

  /** The instance fields of one set command. */
  datatype SetState = SetState(
    prevWeights: Option<seq<real>>,
    currentWeights: seq<real>,
    target: NodeId,
    plugName: string,
    needsUndo: bool)

  /** The class-level defaults a fresh command starts from. */
  const InitialState: SetState := SetState(None, [], 0, "", false)

  /** The outcome of one step, with the command state and the store after it. */
  datatype Step = Step(outcome: Outcome<Error>, state: SetState, store: Store)

  /**
   * The in-place loop `data[i] = w[i]` over the indices of `w`: the slots
   * both sequences have are overwritten, the remaining slots of `a` keep their
   * values, and the length never changes. (Writes past the end of `a` raise.)
   */
  function WritePrefix(a: seq<real>, w: seq<real>): (r: seq<real>)
    ensures |r| == |a|
    ensures forall i :: 0 <= i < |a| ==> r[i] == if i < |w| then w[i] else a[i]
  {
    if |w| <= |a| then w + a[|w|..] else w[..|a|]
  }

  /** An array of `n` slots, all zero. */
  function Zeroed(n: nat): (r: seq<real>)
    ensures |r| == n
    ensures forall i :: 0 <= i < n ==> r[i] == 0.0
  {
    seq(n, _ => 0.0)
  }

  /** The plug the command's target resolves to, if it resolves to an nObject. */
  function TargetPlug(g: Graph, st: SetState): Option<PlugRef> {
    var l := GetNObject(g, st.target);
    if l.Found? then Some(PlugRef(l.node, st.plugName)) else None
  }

  /** The store outside the plug `p` is left as it was. */
  predicate OnlyTouches(store: Store, store': Store, p: Option<PlugRef>) {
    (forall q :: q in store' ==> q in store || Some(q) == p) &&
    (forall q :: q in store && Some(q) != p ==> q in store' && store'[q] == store[q])
  }

  /** `redoIt` once the target has resolved to the plug `p`. */
  function RedoOnPlug(st: SetState, store: Store, p: PlugRef): (r: Step)
    ensures OnlyTouches(store, r.store, Some(p))
  {
    var w := st.currentWeights;
    if p !in store then
      Step(Pass, st.(needsUndo := true), store[p := w])
    else
      var a := store[p];
      if |w| <= |a| then
        Step(Pass, st.(prevWeights := Some(a[..|w|]), needsUndo := true), store[p := WritePrefix(a, w)])
      else
        Step(Fail(IndexOutOfRange), st.(prevWeights := Some(a)), store[p := WritePrefix(a, w)])
  }

  /** `redoIt`. */
  function RedoStep(g: Graph, st: SetState, store: Store): (r: Step)
    ensures OnlyTouches(store, r.store, TargetPlug(g, st))
    ensures TargetPlug(g, st).None? ==> r.outcome.Fail? && r.state == st && r.store == store
    ensures r.state == st.(prevWeights := r.state.prevWeights, needsUndo := r.state.needsUndo)
    ensures r.outcome.Pass? ==> r.state.needsUndo
    ensures r.outcome.Fail? ==> r.state.needsUndo == st.needsUndo
  {
    match GetNObject(g, st.target)
    case ChildOutOfRange => Step(Fail(ChildIndexOutOfRange), st, store)
    case Null => Step(Fail(NoRelationship), st, store)
    case Found(n) => RedoOnPlug(st, store, PlugRef(n, st.plugName))
  }

  /** `undoIt` once the target has resolved to the plug `p`. */
  function UndoOnPlug(st: SetState, store: Store, p: PlugRef): (r: Step)
    ensures OnlyTouches(store, r.store, Some(p))
    ensures r.store.Keys == store.Keys
  {
    if p !in store then Step(Fail(NullData), st, store)
    else
      var a := store[p];
      if st.prevWeights.None? || st.prevWeights.value == [] then
        Step(Pass, st, store[p := Zeroed(|a|)])
      else
        var prev := st.prevWeights.value;
        Step(if |prev| <= |a| then Pass else Fail(IndexOutOfRange), st, store[p := WritePrefix(a, prev)])
  }

  /** `undoIt`: the command fields are never changed by an undo. */
  function UndoStep(g: Graph, st: SetState, store: Store): (r: Step)
    ensures OnlyTouches(store, r.store, TargetPlug(g, st))
    ensures r.state == st
    ensures r.store.Keys == store.Keys
    ensures !st.needsUndo ==> r.outcome.Pass? && r.store == store
  {
    if !st.needsUndo then Step(Pass, st, store)
    else match GetNObject(g, st.target)
      case ChildOutOfRange => Step(Fail(ChildIndexOutOfRange), st, store)
      case Null => Step(Fail(NullObject), st, store)
      case Found(n) => UndoOnPlug(st, store, PlugRef(n, st.plugName))
  }

  /**
   * `doIt` of the set command, on already-parsed flags: the plug name is checked
   * first, then the selection is remembered, then the weights are stored, and
   * the rest is `redoIt`.
   */
  function DoItStep(g: Graph, st: SetState, plugName: Option<string>, selection: NodeId,
                    weights: Option<seq<real>>, store: Store): (r: Step)
    ensures plugName.None? || !IsPerVertexName(plugName.value) ==>
              r.outcome.Fail? && r.store == store && r.state.needsUndo == st.needsUndo
    ensures r.outcome.Pass? ==>
              plugName.Some? && IsPerVertexName(plugName.value) && weights.Some? &&
              r.state.plugName == plugName.value && r.state.target == selection &&
              r.state.currentWeights == weights.value && r.state.needsUndo
    ensures plugName.Some? && IsPerVertexName(plugName.value) && weights.None? ==>
              r.outcome == Fail(MissingVertexWeight) && r.store == store
    ensures plugName.Some? && IsPerVertexName(plugName.value) && weights.Some? ==>
              r == RedoStep(g, st.(plugName := plugName.value, target := selection,
                                   currentWeights := weights.value), store)
  {
    if plugName.None? then Step(Fail(MissingPlugName), st, store)
    else
      var st1 := st.(plugName := plugName.value);
      if !IsPerVertexName(plugName.value) then Step(Fail(InvalidPlugName), st1, store)
      else
        var st2 := st1.(target := selection);
        if weights.None? then Step(Fail(MissingVertexWeight), st2, store)
        else RedoStep(g, st2.(currentWeights := weights.value), store)
  }

  /** `doIt` of the get command: the stored array, or the empty array when the attribute is unset. */
  function GetResult(g: Graph, store: Store, plugName: Option<string>, selection: NodeId): (r: Result<seq<real>, Error>)
    ensures r.Ok? ==> plugName.Some? && IsPerVertexName(plugName.value) && GetNObject(g, selection).Found?
    ensures r.Ok? && PlugRef(GetNObject(g, selection).node, plugName.value) in store ==>
              r.value == store[PlugRef(GetNObject(g, selection).node, plugName.value)]
    ensures r.Ok? && PlugRef(GetNObject(g, selection).node, plugName.value) !in store ==> r.value == []
    ensures plugName.Some? && IsPerVertexName(plugName.value) && GetNObject(g, selection).Found? ==>
              var p := PlugRef(GetNObject(g, selection).node, plugName.value);
              r == Ok(if p in store then store[p] else [])
  {
    if plugName.None? then Err(MissingPlugName)
    else if !IsPerVertexName(plugName.value) then Err(InvalidPlugName)
    else match GetNObject(g, selection)
      case ChildOutOfRange => Err(ChildIndexOutOfRange)
      case Null => Err(NoRelationship)
      case Found(n) =>
        var p := PlugRef(n, plugName.value);
        if p in store then Ok(store[p]) else Ok([])
  }

  // ----- Properties of the steps -----

  /**
   * A plug name outside the allow-list (or no plug name) is rejected before the
   * target is resolved: the outcome does not depend on the scene graph at all,
   * and no attribute is touched. This holds for both commands.
   */
  lemma InvalidNameRejectedBeforeResolving(g1: Graph, g2: Graph, st: SetState, plugName: Option<string>,
                                           selection: NodeId, weights: Option<seq<real>>, store: Store)
    requires plugName.None? || !IsPerVertexName(plugName.value)
    ensures DoItStep(g1, st, plugName, selection, weights, store) == DoItStep(g2, st, plugName, selection, weights, store)
    ensures DoItStep(g1, st, plugName, selection, weights, store).outcome.Fail?
    ensures DoItStep(g1, st, plugName, selection, weights, store).store == store
    ensures GetResult(g1, store, plugName, selection) == GetResult(g2, store, plugName, selection)
    ensures GetResult(g1, store, plugName, selection).Err?
  {
  }

  /** A target without a relationship to an nObject makes both redo and get fail, with nothing changed. */
  lemma NoRelationshipFails(g: Graph, st: SetState, store: Store)
    requires GetNObject(g, st.target) == Null
    ensures RedoStep(g, st, store) == Step(Fail(NoRelationship), st, store)
    ensures IsPerVertexName(st.plugName) ==> GetResult(g, store, Some(st.plugName), st.target) == Err(NoRelationship)
  {
  }

  /** Set on an unset attribute makes it exactly the weights; a following get returns them. */
  lemma SetUnsetThenGet(g: Graph, st: SetState, name: string, selection: NodeId, w: seq<real>, store: Store)
    requires IsPerVertexName(name) && GetNObject(g, selection).Found?
    requires PlugRef(GetNObject(g, selection).node, name) !in store
    ensures var r := DoItStep(g, st, Some(name), selection, Some(w), store);
            r.outcome == Pass && r.state.needsUndo &&
            r.store == store[PlugRef(GetNObject(g, selection).node, name) := w] &&
            GetResult(g, r.store, Some(name), selection) == Ok(w)
  {
  }

  /**
   * Set on an existing array `a` with weights no longer than it: the prefix is
   * overwritten, the rest and the length are kept, and the old prefix is
   * captured for undo.
   */
  lemma SetExistingOverwritesPrefix(g: Graph, st: SetState, store: Store)
    requires TargetPlug(g, st).Some? && TargetPlug(g, st).value in store
    requires |st.currentWeights| <= |store[TargetPlug(g, st).value]|
    ensures var p, a, w := TargetPlug(g, st).value, store[TargetPlug(g, st).value], st.currentWeights;
            var r := RedoStep(g, st, store);
            r.outcome == Pass && r.state.needsUndo && r.state.prevWeights == Some(a[..|w|]) &&
            p in r.store && |r.store[p]| == |a| &&
            (forall i :: 0 <= i < |w| ==> r.store[p][i] == w[i]) &&
            (forall i :: |w| <= i < |a| ==> r.store[p][i] == a[i])
  {
  }

  /** Undo of a set with non-empty weights over an existing array restores the store exactly. */
  lemma SetThenUndoRestores(g: Graph, st: SetState, store: Store)
    requires TargetPlug(g, st).Some? && TargetPlug(g, st).value in store
    requires 0 < |st.currentWeights| <= |store[TargetPlug(g, st).value]|
    ensures var r := RedoStep(g, st, store);
            UndoStep(g, r.state, r.store) == Step(Pass, r.state, store)
  {
    var p, a, w := TargetPlug(g, st).value, store[TargetPlug(g, st).value], st.currentWeights;
    var r := RedoStep(g, st, store);
    assert WritePrefix(r.store[p], a[..|w|]) == a;
    assert r.store[p := a] == store;
  }

  /**
   * Undo of a set with EMPTY weights over an existing array takes the zeroing
   * branch (the captured prefix is empty), so it does not give back the array.
   */
  lemma EmptySetThenUndoZeroes(g: Graph, st: SetState, store: Store)
    requires TargetPlug(g, st).Some? && TargetPlug(g, st).value in store
    requires st.currentWeights == []
    ensures var p, r := TargetPlug(g, st).value, RedoStep(g, st, store);
            r.store == store &&
            UndoStep(g, r.state, r.store) == Step(Pass, r.state, store[p := Zeroed(|store[p]|)])
  {
    var p, a := TargetPlug(g, st).value, store[TargetPlug(g, st).value];
    assert WritePrefix(a, []) == a;
    assert store[p := a] == store;
  }

  /** Undo with nothing recorded to undo changes nothing. */
  lemma UndoWithoutRecordIsNoOp(g: Graph, st: SetState, store: Store)
    requires !st.needsUndo
    ensures UndoStep(g, st, store) == Step(Pass, st, store)
  {
  }

  /**
   * Undo with no captured previous weights (none, or an empty array) zeroes every
   * slot: the array stays present and keeps its length.
   */
  lemma UndoWithoutPreviousZeroes(g: Graph, st: SetState, store: Store)
    requires st.needsUndo && TargetPlug(g, st).Some? && TargetPlug(g, st).value in store
    requires st.prevWeights.None? || st.prevWeights.value == []
    ensures var p, r := TargetPlug(g, st).value, UndoStep(g, st, store);
            r.outcome == Pass && p in r.store && |r.store[p]| == |store[p]| &&
            forall i :: 0 <= i < |store[p]| ==> r.store[p][i] == 0.0
  {
  }

  /**
   * Set on an unset attribute, then undo: the array stays allocated with one
   * zero per weight; it is not put back to the unset state.
   */
  lemma UnsetSetThenUndoZeroes(g: Graph, st: SetState, store: Store)
    requires TargetPlug(g, st).Some? && TargetPlug(g, st).value !in store
    requires st.prevWeights.None?
    ensures var p, r := TargetPlug(g, st).value, RedoStep(g, st, store);
            var u := UndoStep(g, r.state, r.store);
            u.outcome == Pass && u.store == store[p := Zeroed(|st.currentWeights|)]
  {
  }

  /**
   * Two successive set commands on the same plug with weights of the same
   * non-zero length: undoing the second gives back the store left by the first,
   * so a get returns the first weights when the attribute was unset before.
   */
  lemma TwoSetsUndoSecond(g: Graph, st1: SetState, st2: SetState, store: Store)
    requires TargetPlug(g, st1).Some? && TargetPlug(g, st2) == TargetPlug(g, st1)
    requires 0 < |st2.currentWeights| == |st1.currentWeights|
    requires var p := TargetPlug(g, st1).value; p !in store || |st1.currentWeights| <= |store[p]|
    ensures var r1 := RedoStep(g, st1, store);
            var r2 := RedoStep(g, st2, r1.store);
            r1.outcome == Pass && r2.outcome == Pass &&
            UndoStep(g, r2.state, r2.store).store == r1.store
    ensures var p, r1 := TargetPlug(g, st1).value, RedoStep(g, st1, store);
            IsPerVertexName(st1.plugName) && p !in store ==>
              GetResult(g, UndoStep(g, RedoStep(g, st2, r1.store).state, RedoStep(g, st2, r1.store).store).store,
                        Some(st1.plugName), st1.target) == Ok(st1.currentWeights)
  {
    var p, r1 := TargetPlug(g, st1).value, RedoStep(g, st1, store);
    assert p in r1.store && |r1.store[p]| >= |st2.currentWeights|;
    SetThenUndoRestores(g, st2, r1.store);
  }

  /**
   * The undo / redo cycle: after a successful redo, an undo followed by a redo
   * leaves the store as the first redo did, except when an existing array was
   * set with empty weights (whose undo zeroes it). Over an existing array it holds
   * whatever an earlier cycle captured, so it applies to every later cycle.
   */
  lemma RedoUndoRedo(g: Graph, st: SetState, store: Store)
    requires TargetPlug(g, st).Some?
    requires var p := TargetPlug(g, st).value;
             p !in store || 0 < |st.currentWeights| <= |store[p]|
    requires TargetPlug(g, st).value !in store ==> st.prevWeights.None?
    ensures var r1 := RedoStep(g, st, store);
            var u := UndoStep(g, r1.state, r1.store);
            var r2 := RedoStep(g, u.state, u.store);
            r1.outcome == Pass && u.outcome == Pass && r2.outcome == Pass && r2.store == r1.store
  {
    var p, w := TargetPlug(g, st).value, st.currentWeights;
    var r1 := RedoStep(g, st, store);
    if p in store {
      SetThenUndoRestores(g, st, store);
    } else {
      var u := UndoStep(g, r1.state, r1.store);
      assert u.store[p] == Zeroed(|w|);
      assert WritePrefix(Zeroed(|w|), w) == w;
      assert u.store[p := w] == r1.store;
    }
  }
}
