/**
 * The dummy-node helpers of `manipulate_and_reupload_catmaid_neurons.py`:
 * a single-node neuron gets a second node at (-1, -1, z) so that the
 * client library can handle it, and those extra nodes are later deleted
 * again. Server calls are recorded as `DummyAction` values.
 */
module DummyNodes {
  import opened Wrappers
  import opened Skeleton

  datatype DummyAction =
    | AddNode(pos: Vec3, parent: nat)   // pymaid.add_node(pos, parent, confidence=1)
    | DeleteNodes(ids: seq<nat>)        // pymaid.delete_nodes(ids, 'TREENODE')

  datatype DummyError =
    | NoRemoteInstance  // AssertionError: remote_instance is None
    | NoDummyNodes      // ValueError: no neuron has a dummy node

  /** The node added under the single node of a neuron. */
  function DummyFor(n: Node): DummyAction {
    AddNode(Vec3(-1, -1, n.pos.z), n.id)
  }

  /** The additions for the neurons, in order: one per single-node neuron, none when faking. */
  function AddActions(neurons: seq<Neuron>, fake: bool): (r: seq<DummyAction>)
    ensures fake ==> r == []
    ensures |r| <= |neurons|
  {
    if neurons == [] then []
    else
      var last := neurons[|neurons| - 1];
      AddActions(neurons[..|neurons| - 1], fake) + (if |last.nodes| == 1 && !fake then [DummyFor(last.nodes[0])] else [])
  }

  /** `add_dummy_nodes_by_skid` on the fetched neurons. */
  method AddDummyNodes(neurons: seq<Neuron>, fake: bool, remote: Option<nat>) returns (r: Result<seq<DummyAction>, DummyError>)
    ensures remote.None? ==> r == Failure(NoRemoteInstance)
    ensures remote.Some? ==> r == Success(AddActions(neurons, fake))
  {
    if remote.None? {
      return Failure(NoRemoteInstance);
    }
    var responses: seq<DummyAction> := [];
    for i := 0 to |neurons|
      invariant responses == AddActions(neurons[..i], fake)
    {
      assert neurons[..i + 1][..i] == neurons[..i];
      if |neurons[i].nodes| != 1 {
        continue;
      }
      if !fake {
        responses := responses + [DummyFor(neurons[i].nodes[0])];
      }
    }
    assert neurons[..|neurons|] == neurons;
    r := Success(responses);
  }

  /**
   * Each addition sits at x = y = -1 at the depth of, and under, the only
   * node of some single-node neuron; and every single-node neuron gets one.
   */
  lemma {:induction false} AddActionsExactly(neurons: seq<Neuron>)
    ensures forall a :: a in AddActions(neurons, false) ==>
              exists n :: n in neurons && |n.nodes| == 1 && a == AddNode(Vec3(-1, -1, n.nodes[0].pos.z), n.nodes[0].id)
    ensures forall n :: n in neurons && |n.nodes| == 1 ==> DummyFor(n.nodes[0]) in AddActions(neurons, false)
    decreases |neurons|
  {
    if neurons != [] {
      var init := neurons[..|neurons| - 1];
      AddActionsExactly(init);
      assert forall n :: n in init ==> n in neurons;
      assert forall n :: n in neurons ==> n in init || n == neurons[|neurons| - 1];
    }
  }

  // ---- Deletion ----

  predicate AtDummy(n: Node, dx: int, dy: int) {
    n.pos.x == dx && n.pos.y == dy
  }

  /** A neuron the deletion considers: exactly two nodes, one of them at the dummy (x, y). */
  predicate HasDummyNode(n: Neuron, dx: int, dy: int) {
    |n.nodes| == 2 && (AtDummy(n.nodes[0], dx, dy) || AtDummy(n.nodes[1], dx, dy))
  }

  function WithDummyNodes(neurons: seq<Neuron>, dx: int, dy: int): (r: seq<Neuron>)
    ensures forall n :: n in r <==> n in neurons && HasDummyNode(n, dx, dy)
  {
    if neurons == [] then []
    else
      var last := neurons[|neurons| - 1];
      var init := neurons[..|neurons| - 1];
      assert forall n :: n in neurons <==> n in init || n == last;
      WithDummyNodes(init, dx, dy) + (if HasDummyNode(last, dx, dy) then [last] else [])
  }

  /** The ids of the nodes at the dummy (x, y), neuron by neuron and in node order. */
  function DummyIds(neurons: seq<Neuron>, dx: int, dy: int): (r: seq<nat>)
    ensures forall id :: id in r <==> exists n, m :: n in neurons && m in n.nodes && AtDummy(m, dx, dy) && m.id == id
  {
    if neurons == [] then []
    else
      var init := neurons[..|neurons| - 1];
      var last := neurons[|neurons| - 1];
      assert forall n :: n in neurons <==> n in init || n == last;
      DummyIds(init, dx, dy) + NodeIdsAt(last.nodes, dx, dy)
  }

  function NodeIdsAt(nodes: seq<Node>, dx: int, dy: int): (r: seq<nat>)
    ensures forall id :: id in r <==> exists m :: m in nodes && AtDummy(m, dx, dy) && m.id == id
  {
    if nodes == [] then []
    else
      assert forall m :: m in nodes <==> m == nodes[0] || m in nodes[1..];
      (if AtDummy(nodes[0], dx, dy) then [nodes[0].id] else []) + NodeIdsAt(nodes[1..], dx, dy)
  }

  /** `delete_dummy_nodes_by_skid` on the fetched neurons. */
  method DeleteDummyNodes(neurons: seq<Neuron>, dx: int, dy: int, fake: bool, remote: Option<nat>)
    returns (r: Result<seq<DummyAction>, DummyError>)
    ensures remote.None? ==> r == Failure(NoRemoteInstance)
    ensures remote.Some? && WithDummyNodes(neurons, dx, dy) == [] ==> r == Failure(NoDummyNodes)
    ensures remote.Some? && WithDummyNodes(neurons, dx, dy) != [] ==>
              r == Success(if fake then [] else [DeleteNodes(DummyIds(WithDummyNodes(neurons, dx, dy), dx, dy))])
  {
    if remote.None? {
      return Failure(NoRemoteInstance);
    }
    var kept: seq<Neuron> := [];
    for i := 0 to |neurons|
      invariant kept == WithDummyNodes(neurons[..i], dx, dy)
    {
      assert neurons[..i + 1][..i] == neurons[..i];
      if |neurons[i].nodes| != 2 {
        continue;
      }
      if !(AtDummy(neurons[i].nodes[0], dx, dy) || AtDummy(neurons[i].nodes[1], dx, dy)) {
        continue;
      }
      kept := kept + [neurons[i]];
    }
    assert neurons[..|neurons|] == neurons;
    if |kept| == 0 {
      return Failure(NoDummyNodes);
    }
    var toDelete := DummyIds(kept, dx, dy);
    if !fake {
      r := Success([DeleteNodes(toDelete)]);
    } else {
      r := Success([]);
    }
  }

  /**
   * Only nodes at the dummy (x, y) of two-node neurons are deleted: every
   * deleted id is such a node, and every such node is deleted.
   */
  lemma DeletesExactlyDummyNodes(neurons: seq<Neuron>, dx: int, dy: int, id: nat)
    ensures id in DummyIds(WithDummyNodes(neurons, dx, dy), dx, dy) <==>
              exists n, m :: n in neurons && |n.nodes| == 2 && m in n.nodes && AtDummy(m, dx, dy) && m.id == id
  {
    var kept := WithDummyNodes(neurons, dx, dy);
    if exists n, m :: n in neurons && |n.nodes| == 2 && m in n.nodes && AtDummy(m, dx, dy) && m.id == id {
      var n, m :| n in neurons && |n.nodes| == 2 && m in n.nodes && AtDummy(m, dx, dy) && m.id == id;
      assert HasDummyNode(n, dx, dy);
      assert n in kept;
    }
  }

  /** Adding a dummy node to a single-node neuron makes a neuron the deletion would pick up, node for node. */
  lemma AddThenDeleteFindsDummy(n: Neuron, dummyId: nat)
    requires |n.nodes| == 1
    ensures var d := DummyFor(n.nodes[0]);
            var added := n.(nodes := n.nodes + [Node(dummyId, Some(d.parent), d.pos, 0, End, 0)]);
            && HasDummyNode(added, -1, -1)
            && dummyId in NodeIdsAt(added.nodes, -1, -1)
  {
    var d := DummyFor(n.nodes[0]);
    var dummy := Node(dummyId, Some(d.parent), d.pos, 0, End, 0);
    var added := n.(nodes := n.nodes + [dummy]);
    assert added.nodes[1] == dummy;
    assert dummy in added.nodes;
  }
}
