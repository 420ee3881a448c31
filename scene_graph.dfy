/**
 * An abstract view of the host's scene graph: just enough of each node for the
 * nObject resolver. A node carries its function-set flags (DAG node, shape,
 * nCloth, nRigid), its parent, its ordered children and, for a shape, the
 * destinations of each element of its `worldMesh` array plug.
 */
module SceneGraph {
  import opened Wrappers

  type NodeId = nat

  /** The destination plugs of one `worldMesh` element; `None` is a null plug. */
  type Destinations = seq<Option<NodeId>>

  /** The `worldMesh` attribute of a node: absent, or its physical elements in order. */
  datatype WorldMeshPlug = NoWorldMesh | WorldMesh(elements: seq<Destinations>)

  datatype Node = Node(
    isDag: bool,
    isShape: bool,
    isNCloth: bool,
    isNRigid: bool,
    parent: NodeId,
    children: seq<NodeId>,
    worldMesh: WorldMeshPlug)

  type Graph = map<NodeId, Node>

  /** What a null or deleted handle looks like: no function set at all, no children. */
  const NullNode: Node := Node(false, false, false, false, 0, [], NoWorldMesh)

  /** The node a handle designates; a handle that designates nothing behaves as a null object. */
  function Info(g: Graph, id: NodeId): (n: Node)
    ensures id !in g ==> !n.isDag && !n.isShape && !n.isNCloth && !n.isNRigid && n.children == []
  {
    if id in g then g[id] else NullNode
  }

  /** The node has the kNCloth or the kNRigid function set. */
  predicate IsNObject(g: Graph, id: NodeId) {
    Info(g, id).isNCloth || Info(g, id).isNRigid
  }

  predicate IsDag(g: Graph, id: NodeId) {
    Info(g, id).isDag
  }

  predicate IsShape(g: Graph, id: NodeId) {
    Info(g, id).isShape
  }

  function Children(g: Graph, id: NodeId): seq<NodeId> {
    Info(g, id).children
  }

  function Parent(g: Graph, id: NodeId): NodeId {
    Info(g, id).parent
  }
}
