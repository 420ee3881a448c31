# nClothPerVertexEdit in Dafny

This project models the two commands of the nClothPerVertexEdit Maya plug-in.
`setNClothPerVertex` writes a per-vertex double array (thickness, bounce,
friction, …) on an nCloth or nRigid node. It is undoable. `getNClothPerVertex`
reads such an array back. Both commands share one resolver. The resolver takes
the selected node and finds the nCloth/nRigid node ("nObject") it belongs to.

Modules:

- `Wrappers` (wrappers.dfy): `Option`, `Result` and `Outcome`.
- `SceneGraph` (scene_graph.dfy): the scene graph as a value. Each node has its
  function-set flags (DAG node, shape, nCloth, nRigid), a parent, an ordered
  child list and a `worldMesh` plug. The plug holds, per physical element, the
  ordered destination plugs, some of which may be null. An id that is not in
  the graph acts as a null or deleted handle: it has no function set and no
  children.
- `NObjectResolver` (resolver.dfy): `getNObjectMobFromMob` as first-match
  functions over the child list and the destination list, plus lemmas.
- `PerVertex` (per_vertex.dfy): the 21-name allow-list, the fields of one set
  command (`SetState`), and the doIt / redoIt / undoIt / get steps. Each step is
  a function over an attribute store, a map from (node, attribute) to the array
  contents. A plug missing from the store holds null data, i.e. it is unset.
  The promised properties are lemmas over these functions.
- `Commands` (commands.dfy): the imperative form.
  - `Scene` holds the graph and one `array<real>` per plug that has data. Its
    invariant is that no two plugs share an array.
  - `SetNClothPerVertexMaps` is a class whose fields are the command's
    instance state.
  - Its `DoIt`, `RedoIt` and `UndoIt` update the arrays in place with loops. Each
    is proved to produce exactly the outcome, new fields and new store of the
    matching `PerVertex` step.
  - `GetNClothPerVertex` is a read-only method proved equal to `GetResult`.

Host errors are outcomes, not exceptions. That covers `cmds.error`, the
function-set constructors that refuse a null object, and Python's index errors.
Each error stops the method at the point where the plug-in's code would raise. Any
writes made before that point stay (see "Writes past the end" below).

Behaviour worth knowing, as the code does it:

- **Selected shape.** For a selected shape, the loop bound is the parent's
  child count, but children are fetched from the shape itself
  (plugin/nClothPerVertexEdit.py:56-66). The parent is not searched. When the
  shape has fewer children than its parent, the fetch runs past the end and the
  host raises. `ShapeSelectionOutOfRange` proves this outcome (`ChildOutOfRange`).
- **What redo captures.** Redo captures only the prefix it overwrites, not the
  whole old array (lines 212-215).
- **Undo's zeroing test.** Undo takes the zeroing branch when the captured
  weights are absent or empty (line 181). So undoing a set with no weights
  zeroes an existing array instead of leaving it alone
  (`EmptySetThenUndoZeroes`). The `-vw` flag can be given many times, and once
  it is set it holds at least one weight (lines 124-125, 155-159), so doIt
  never hands redoIt an empty list. Only a redoIt reached with empty
  weights takes this path.
- **Undo's failures are not "no relationship".** Undo does not check for a null
  target. The host then refuses to wrap the null object, or the null data
  (lines 171-180). These are the `NullObject` and `NullData` errors.
- **Writes past the end.** If the weights are longer than the existing array,
  the loop overwrites the whole array and then raises at the first index past
  the end. `_prev_weights` then holds the whole old array and `_needsUndo` is
  unchanged. Undo's restore loop fails the same way.

## Model

| member | source | states |
|---|---|---|
| NObjectResolver.DestinationMatch | plugin/nClothPerVertexEdit.py:79-87 | the result is a non-null destination that is an nObject; it is absent exactly when no destination is a non-null nObject |
| NObjectResolver.DestinationMatchIsFirst | plugin/nClothPerVertexEdit.py:79-85 | when destination k is the first non-null nObject, it is the result (first match in plug order) |
| NObjectResolver.ShapeMatch | plugin/nClothPerVertexEdit.py:70-87 | a child gives a match through its mesh exactly when it is a shape whose `worldMesh` has at least one element and its first element has an nObject destination; a shape with no `worldMesh` elements is skipped |
| NObjectResolver.ChildMatch | plugin/nClothPerVertexEdit.py:68-92 | a child that is an nObject matches as itself; any other match is an nObject among the destinations of the child's `worldMesh[0]` |
| NObjectResolver.ScanChildren | plugin/nClothPerVertexEdit.py:64-94 | the child loop yields only nObjects, and the index error happens only when the bound exceeds the start node's child count |
| NObjectResolver.GetNObject | plugin/nClothPerVertexEdit.py:37-94 | a non-DAG node gives the null handle; an nCloth or nRigid node gives itself; any found node is an nObject; the index error happens only for a selected shape with fewer children than its parent |
| NObjectResolver.ScanFindsFirst | plugin/nClothPerVertexEdit.py:64-92 | from index x, the first child that contributes a match decides the scan's result |
| NObjectResolver.ScanNull | plugin/nClothPerVertexEdit.py:64-94 | within the start node's child list, the scan gives null exactly when no child in range contributes a match |
| NObjectResolver.ScanFoundIsFirst | plugin/nClothPerVertexEdit.py:64-92 | a found node is the match of some child in range, and no earlier child matched |
| NObjectResolver.ScanOutOfRange | plugin/nClothPerVertexEdit.py:64-66 | when the bound exceeds the start node's child count and no child matches, the scan ends in the index error |
| NObjectResolver.ResolveTransformFirstMatch | plugin/nClothPerVertexEdit.py:64-92 | from a transform, the first matching child in child order gives the result: the child itself, or the first nObject destination of a shape child's `worldMesh[0]` |
| NObjectResolver.ResolveTransformNull | plugin/nClothPerVertexEdit.py:64-94 | from a transform, there is never an index error, and the result is null exactly when no child matches |
| NObjectResolver.ResolveTransformFoundIsFirst | plugin/nClothPerVertexEdit.py:64-92 | from a transform, a found node is the match of some child, and no earlier child matched |
| NObjectResolver.ShapeSelectionOutOfRange | plugin/nClothPerVertexEdit.py:55-66 | a selected shape with fewer children than its parent, none of them matching, makes the child fetch fail |
| PerVertex.AttributeNamesDistinct | plugin/nClothPerVertexEdit.py:9-16 | the allow-list holds exactly 21 names, all different |
| PerVertex.WritePrefix | plugin/nClothPerVertexEdit.py:213-215 | an in-place index-aligned write keeps the length; the overlapping slots take the new values and the others keep their old ones |
| PerVertex.Zeroed | plugin/nClothPerVertexEdit.py:181-183 | the zeroing loop gives n slots, all 0 |
| PerVertex.RedoOnPlug | plugin/nClothPerVertexEdit.py:195-217 | redo on a resolved plug touches that plug only |
| PerVertex.RedoStep | plugin/nClothPerVertexEdit.py:188-217 | redo changes only the resolved plug (no other node or attribute); an unresolved target fails with nothing changed; only `_prev_weights` and `_needsUndo` change; success sets `_needsUndo`, and failure leaves it as it was |
| PerVertex.UndoOnPlug | plugin/nClothPerVertexEdit.py:173-186 | undo on a resolved plug touches that plug only and never adds or removes an array |
| PerVertex.UndoStep | plugin/nClothPerVertexEdit.py:165-186 | undo changes no command field; it touches only the resolved plug and never allocates or frees an array; with `_needsUndo` false it changes nothing |
| PerVertex.DoItStep | plugin/nClothPerVertexEdit.py:138-163 | a missing or disallowed plug name fails with the store untouched and `_needsUndo` unchanged; an allowed name without weights fails with `MissingVertexWeight` and the store untouched; with an allowed name and weights, doIt is exactly redoIt on the fields updated with the name, the selection and the weights |
| PerVertex.GetResult | plugin/nClothPerVertexEdit.py:243-278 | succeeds exactly when the name is allowed and the selection resolves; the result is then the stored array, or the empty array when the attribute is unset |
| PerVertex.InvalidNameRejectedBeforeResolving | plugin/nClothPerVertexEdit.py:143-149 | with a disallowed or missing name, set and get fail whatever the scene graph is (the name is checked before any resolving) and no attribute is touched |
| PerVertex.NoRelationshipFails | plugin/nClothPerVertexEdit.py:190-193 | a target that resolves to null makes redo fail with "no relationship", with the fields and store unchanged, and makes get fail the same way |
| PerVertex.SetUnsetThenGet | plugin/nClothPerVertexEdit.py:203-209 | set on an unset attribute succeeds, makes the attribute exactly the weights and sets `_needsUndo`; a following get returns exactly the weights |
| PerVertex.SetExistingOverwritesPrefix | plugin/nClothPerVertexEdit.py:210-216 | set with weights W on an array A no longer than A gives A[i] = W[i] for every index i of W, keeps the other slots and the length, and captures the overwritten prefix of A |
| PerVertex.SetThenUndoRestores | plugin/nClothPerVertexEdit.py:184-186 | with non-empty weights over an existing array, undo after set gives back the whole store exactly |
| PerVertex.EmptySetThenUndoZeroes | plugin/nClothPerVertexEdit.py:181-183 | set with no weights leaves the store as it was, but the undo after it zeroes the array |
| PerVertex.UndoWithoutRecordIsNoOp | plugin/nClothPerVertexEdit.py:168-169 | undo with `_needsUndo` false changes nothing |
| PerVertex.UndoWithoutPreviousZeroes | plugin/nClothPerVertexEdit.py:179-183 | undo with no captured weights (absent or empty) sets every slot to 0; the array stays present and keeps its length |
| PerVertex.UnsetSetThenUndoZeroes | plugin/nClothPerVertexEdit.py:203-209 | set on an unset attribute, then undo, leaves a present array with one zero per weight, not the unset state |
| PerVertex.TwoSetsUndoSecond | plugin/nClothPerVertexEdit.py:211-216 | after two sets of the same non-zero length whose selections (the same or different) resolve to one plug, undoing the second gives back the first one's store; when the attribute was unset before, get then returns the first weights |
| PerVertex.RedoUndoRedo | plugin/nClothPerVertexEdit.py:165-217 | redo, undo, redo succeed and leave the store as the first redo did (for an unset attribute with nothing captured yet, or non-empty weights that fit an existing array, on any later cycle too) |
| Commands.SetNClothPerVertexMaps.constructor | plugin/nClothPerVertexEdit.py:105-109 | a new command starts from the class-level defaults: nothing captured, nothing to undo |
| Commands.SetNClothPerVertexMaps.DoIt | plugin/nClothPerVertexEdit.py:138-163 | the outcome, the new fields and the new arrays are exactly those of `DoItStep`; the arrays stay unshared, every plug that held an array keeps that very array, and a newly set plug gets a fresh one |
| Commands.SetNClothPerVertexMaps.RedoIt | plugin/nClothPerVertexEdit.py:188-217 | the outcome, new fields and new arrays are exactly those of `RedoStep`; an existing plug keeps its own array, written in place, and a newly set plug gets a fresh one |
| Commands.SetNClothPerVertexMaps.CreateOnPlug | plugin/nClothPerVertexEdit.py:203-209 | on null data, attaches a fresh, unshared array holding the weights to that plug only and sets `_needsUndo` |
| Commands.SetNClothPerVertexMaps.OverwriteOnPlug | plugin/nClothPerVertexEdit.py:210-217 | on existing data, writes in place into that plug's array only, as `RedoOnPlug` says |
| Commands.SetNClothPerVertexMaps.UndoIt | plugin/nClothPerVertexEdit.py:165-186 | the outcome and new arrays are exactly those of `UndoStep`; no field changes |
| Commands.SetNClothPerVertexMaps.UndoOnTarget | plugin/nClothPerVertexEdit.py:173-186 | on the resolved plug, zeroes or restores in place as `UndoOnPlug` says |
| Commands.NewDoubleArray | plugin/nClothPerVertexEdit.py:204-205 | a fresh array whose contents are the weights |
| Commands.CaptureAndWrite | plugin/nClothPerVertexEdit.py:212-215 | the array becomes `WritePrefix(old, w)`; the captured weights are the overwritten prefix, or the whole old array when the weights run past its end |
| Commands.WriteBack | plugin/nClothPerVertexEdit.py:185-186 | the array becomes `WritePrefix(old, prev)` |
| Commands.ZeroFill | plugin/nClothPerVertexEdit.py:182-183 | every slot of the array becomes 0 |
| Commands.GetNClothPerVertex | plugin/nClothPerVertexEdit.py:243-278 | reads without changing anything and returns exactly `GetResult` on the current arrays: a copy of the stored array, or the empty array when unset |

## Left out

- Plugin registration and deregistration, `maya_useNewAPI`, `creator`, `hasSyntax`,
  `isUndoable` and the syntax/flag declarations. This is host glue with no
  behaviour of its own.
- `MArgDatabase` parsing. The commands take the already-parsed flags: the
  plug name as `Option<string>`, the weights as `Option<seq<real>>` and the
  selection's first node as a node id. `None` means the flag was not given.
  `Some([])` is accepted for the weights although the parser never yields it.
- `getMobFromName`. It is a thin lookup over `objExists`/`MSelectionList`, and
  neither command uses it.
- Graph edits between doIt, undo and redo. The scene graph is constant.
  `MObjectHandle` stability is modelled only this far: a handle to a node that
  is not in the graph reads as the null object.
- `findPlug` on an attribute the node lacks. Every nObject is assumed to
  carry every attribute in the allow-list. A plug missing from the store means
  null data, not a missing attribute.
- `setResult`/`clearResult`. The get command's result is its return value.
- The host undo stack and when it calls undo and redo. The lemmas compose the
  steps in the orders the host uses.
- Floating point. Weights are only copied or set to zero, so they are `real`.
- Python's class-level attribute defaults. They are modelled as the initial
  per-instance state of each command.
