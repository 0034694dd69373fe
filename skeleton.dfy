/**
 * The neuron records the scripts read from and write to a CATMAID project:
 * a skeleton of treenodes, its connectors, its name and its annotations.
 * Coordinates are integral nanometres.
 */
module Skeleton {
  import opened Wrappers

  datatype Vec3 = Vec3(x: int, y: int, z: int)

  function Plus(a: Vec3, b: Vec3): Vec3 {
    Vec3(a.x + b.x, a.y + b.y, a.z + b.z)
  }

  /** CATMAID's treenode types: 'root', 'slab', 'branch' and 'end'. */
  datatype NodeType = Root | Slab | Branch | End

  datatype Node = Node(id: nat, parent: Option<nat>, pos: Vec3, radius: int, kind: NodeType, editionTime: int)

  datatype Connector = Connector(id: nat, pos: Vec3)

  datatype Neuron = Neuron(skeletonId: nat, name: string, annotations: seq<string>, nodes: seq<Node>, connectors: seq<Connector>)

  /** The radius that marks primary-neurite nodes. */
  const PrimaryNeuriteRadius: int := 500

  /** The first node with the given id, as `nodes.at[id, ...]` reads it. */
  function NodeById(nodes: seq<Node>, id: nat): (r: Option<Node>)
    ensures r.Some? ==> r.value in nodes && r.value.id == id
    ensures r.None? ==> forall n :: n in nodes ==> n.id != id
  {
    if nodes == [] then None
    else if nodes[0].id == id then Some(nodes[0])
    else NodeById(nodes[1..], id)
  }

  /** Nodes whose parent is `id`, in table order. */
  function ChildrenOf(nodes: seq<Node>, id: nat): (r: seq<Node>)
    ensures forall n :: n in r <==> n in nodes && n.parent == Some(id)
    ensures |r| <= |nodes|
  {
    if nodes == [] then []
    else (if nodes[0].parent == Some(id) then [nodes[0]] else []) + ChildrenOf(nodes[1..], id)
  }
}
