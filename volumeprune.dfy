/**
 * `get_volume_pruned_neurons_by_skid`: the module-level volume cache and,
 * in 'fele' mode, the search for the two cut points of the primary neurite
 * (its first entry into and last exit from the volume).
 *
 * A volume is represented by the set of positions it contains, so
 * `navis.in_volume` is membership. The cuts themselves (`prune_distal_to`,
 * `prune_proximal_to`) and 'strict' pruning are library calls; the model
 * returns the cut points it would hand them.
 */
module VolumePrune {
  import opened Wrappers
  import opened Text
  import opened Skeleton

  datatype Volume = Volume(inside: set<Vec3>)

  datatype FeleError =
    | VolumeNotFound      // get_volume raised
    | AlreadyVolumePruned // 'pruned by vol' already in the name
    | NotMotorNeuron      // ValueError: no primary-neurite end
    | SeveralEnds         // ValueError: several primary-neurite ends
    | MissingNode         // KeyError: a walk asked for a node the table lacks
    | NoStartNode         // IndexError: the root has no child of positive radius
    | NoChild             // IndexError: a slab without a child
    | WalkTooLong         // more steps than nodes (the source would not stop)

  /** The module-level `volumes` dictionary. */
  class VolumeCache {
    var volumes: map<nat, Volume>

    constructor()
      ensures volumes == map[]
    {
      volumes := map[];
    }

    /**
     * A cached volume is returned as is; a missing one is fetched and
     * cached; a failed fetch raises and caches nothing.
     */
    method Get(volumeId: nat, fetch: nat -> Option<Volume>) returns (r: Result<Volume, FeleError>)
      modifies this
      ensures volumeId in old(volumes) ==> r == Success(old(volumes)[volumeId]) && volumes == old(volumes)
      ensures volumeId !in old(volumes) && fetch(volumeId).Some? ==>
                r == Success(fetch(volumeId).value) && volumes == old(volumes)[volumeId := fetch(volumeId).value]
      ensures volumeId !in old(volumes) && fetch(volumeId).None? ==> r == Failure(VolumeNotFound) && volumes == old(volumes)
    {
      if volumeId !in volumes {
        var fetched := fetch(volumeId);
        if fetched.None? {
          return Failure(VolumeNotFound);
        }
        volumes := volumes[volumeId := fetched.value];
      }
      r := Success(volumes[volumeId]);
    }
  }

  // ---- The primary-neurite end ----

  /** Some node of radius 500 has this node as its parent. */
  predicate HasFatChild(nodes: seq<Node>, id: nat) {
    exists c :: c in nodes && c.radius == PrimaryNeuriteRadius && c.parent == Some(id)
  }

  predicate IsNeuriteEnd(nodes: seq<Node>, n: Node) {
    n.radius == PrimaryNeuriteRadius && !HasFatChild(nodes, n.id)
  }

  /** The ids of the radius-500 nodes without a radius-500 child, in table order. */
  function NeuriteEnds(nodes: seq<Node>, table: seq<Node>): (r: seq<nat>)
    ensures |r| <= |table|
    ensures forall id :: id in r <==> exists n :: n in table && IsNeuriteEnd(nodes, n) && n.id == id
  {
    if table == [] then []
    else
      var rest := NeuriteEnds(nodes, table[1..]);
      assert forall n :: n in table <==> n == table[0] || n in table[1..];
      (if IsNeuriteEnd(nodes, table[0]) then [table[0].id] else []) + rest
  }

  function PrimaryNeuriteEnd(nodes: seq<Node>): (r: Result<nat, FeleError>)
    ensures r.Success? ==> exists n :: n in nodes && IsNeuriteEnd(nodes, n) && n.id == r.value
    ensures r == Failure(NotMotorNeuron) <==> forall n :: n in nodes ==> !IsNeuriteEnd(nodes, n)
  {
    var ends := NeuriteEnds(nodes, nodes);
    if |ends| == 0 then
      assert forall n :: n in nodes && IsNeuriteEnd(nodes, n) ==> n.id in ends;
      Failure(NotMotorNeuron)
    else if |ends| != 1 then
      assert ends[0] in ends;
      Failure(SeveralEnds)
    else
      assert ends[0] in ends;
      Success(ends[0])
  }

  /** Two ends with different ids make the walk raise. */
  lemma TwoEndsRaise(nodes: seq<Node>, a: Node, b: Node)
    requires a in nodes && b in nodes && IsNeuriteEnd(nodes, a) && IsNeuriteEnd(nodes, b) && a.id != b.id
    ensures PrimaryNeuriteEnd(nodes) == Failure(SeveralEnds)
  {
    var ends := NeuriteEnds(nodes, nodes);
    assert a.id in ends && b.id in ends;
    var i :| 0 <= i < |ends| && ends[i] == a.id;
    var j :| 0 <= j < |ends| && ends[j] == b.id;
    assert i != j;
  }

  // ---- The backward walk ----

  /** Where the backward walk stops: a branch point, or a node inside the volume. */
  predicate Stops(n: Node, v: Volume) {
    n.kind == Branch || n.pos in v.inside
  }

  /** `nodes.at[id, 'parent_id']`, a KeyError when the node or its parent is missing. */
  function ParentOf(nodes: seq<Node>, id: nat): Result<nat, FeleError> {
    match NodeById(nodes, id)
    case None => Failure(MissingNode)
    case Some(n) => if n.parent.None? then Failure(MissingNode) else Success(n.parent.value)
  }

  /**
   * From `current`, step to the parent while the parent neither is a
   * branch point nor lies inside the volume; the last node before the
   * first stopping ancestor is the distal cut.
   */
  function WalkBack(nodes: seq<Node>, v: Volume, current: nat, fuel: nat): Result<nat, FeleError>
    decreases fuel
  {
    match ParentOf(nodes, current)
    case Failure(e) => Failure(e)
    case Success(p) =>
      match NodeById(nodes, p)
      case None => Failure(MissingNode)
      case Some(pn) =>
        if Stops(pn, v) then Success(current)
        else if fuel == 0 then Failure(WalkTooLong)
        else WalkBack(nodes, v, p, fuel - 1)
  }

  method WalkBackward(nodes: seq<Node>, v: Volume, end: nat) returns (r: Result<nat, FeleError>)
    ensures r == WalkBack(nodes, v, end, |nodes|)
  {
    var first := ParentOf(nodes, end);
    if first.Failure? {
      return Failure(first.error);
    }
    var current := end;
    var parent := first.value;
    var fuel: nat := |nodes|;
    while true
      invariant ParentOf(nodes, current) == Success(parent)
      invariant WalkBack(nodes, v, current, fuel) == WalkBack(nodes, v, end, |nodes|)
      decreases fuel
    {
      var parentNode := NodeById(nodes, parent);
      if parentNode.None? {
        return Failure(MissingNode);
      }
      if Stops(parentNode.value, v) {
        return Success(current);
      }
      if fuel == 0 {
        return Failure(WalkTooLong);
      }
      var next := ParentOf(nodes, parent);
      if next.Failure? {
        return Failure(next.error);
      }
      current := parent;
      parent := next.value;
      fuel := fuel - 1;
    }
  }

  /** The k-th ancestor of a node, following parent ids through the table. */
  function Ancestor(nodes: seq<Node>, id: nat, k: nat): Option<nat> {
    if k == 0 then Some(id)
    else match Ancestor(nodes, id, k - 1)
      case None => None
      case Some(a) => if ParentOf(nodes, a).Success? then Some(ParentOf(nodes, a).value) else None
  }

  /** Ancestors `1..k` of `id` are in the table and none of them stops the walk. */
  predicate PassesThrough(nodes: seq<Node>, v: Volume, id: nat, k: nat) {
    forall j :: 1 <= j <= k ==>
      Ancestor(nodes, id, j).Some? && NodeById(nodes, Ancestor(nodes, id, j).value).Some?
      && !Stops(NodeById(nodes, Ancestor(nodes, id, j).value).value, v)
  }

  lemma {:induction false} AncestorShift(nodes: seq<Node>, id: nat, p: nat, k: nat)
    requires ParentOf(nodes, id) == Success(p)
    ensures Ancestor(nodes, id, k + 1) == Ancestor(nodes, p, k)
    decreases k
  {
    if k > 0 {
      AncestorShift(nodes, id, p, k - 1);
    }
  }

  /**
   * The distal cut is an ancestor (or the end itself) reached through nodes
   * that neither branch nor lie in the volume, and its own parent does one
   * or the other.
   */
  lemma {:induction false} WalkBackSound(nodes: seq<Node>, v: Volume, current: nat, fuel: nat)
    requires WalkBack(nodes, v, current, fuel).Success?
    ensures var c := WalkBack(nodes, v, current, fuel).value;
            && ParentOf(nodes, c).Success?
            && NodeById(nodes, ParentOf(nodes, c).value).Some?
            && Stops(NodeById(nodes, ParentOf(nodes, c).value).value, v)
            && exists k: nat :: k <= fuel && Ancestor(nodes, current, k) == Some(c) && PassesThrough(nodes, v, current, k)
    decreases fuel
  {
    var p := ParentOf(nodes, current).value;
    var pn := NodeById(nodes, p).value;
    var c := WalkBack(nodes, v, current, fuel).value;
    if Stops(pn, v) {
      assert Ancestor(nodes, current, 0) == Some(c);
      assert PassesThrough(nodes, v, current, 0);
    } else {
      WalkBackSound(nodes, v, p, fuel - 1);
      var k: nat :| k <= fuel - 1 && Ancestor(nodes, p, k) == Some(c) && PassesThrough(nodes, v, p, k);
      AncestorShift(nodes, current, p, k);
      forall j | 1 <= j <= k + 1
        ensures Ancestor(nodes, current, j).Some? && NodeById(nodes, Ancestor(nodes, current, j).value).Some?
                && !Stops(NodeById(nodes, Ancestor(nodes, current, j).value).value, v)
      {
        AncestorShift(nodes, current, p, j - 1);
        if j == 1 {
          assert Ancestor(nodes, p, 0) == Some(p);
        }
      }
      assert PassesThrough(nodes, v, current, k + 1);
    }
  }

  /** A node whose parent stops the walk is itself the distal cut. */
  lemma WalkBackStopsAtOnce(nodes: seq<Node>, v: Volume, current: nat, fuel: nat, p: nat)
    requires ParentOf(nodes, current) == Success(p) && NodeById(nodes, p).Some? && Stops(NodeById(nodes, p).value, v)
    ensures WalkBack(nodes, v, current, fuel) == Success(current)
  {
  }

  // ---- The forward walk ----

  /** `neuron.root[0]`: the first node without a parent. */
  function RootOf(nodes: seq<Node>): (r: Option<Node>)
    ensures r.Some? ==> r.value in nodes && r.value.parent.None?
    ensures r.None? ==> forall n :: n in nodes ==> n.parent.Some?
  {
    if nodes == [] then None
    else if nodes[0].parent.None? then Some(nodes[0])
    else RootOf(nodes[1..])
  }

  function PositiveRadius(ns: seq<Node>): (r: seq<Node>)
    ensures forall n :: n in r <==> n in ns && n.radius > 0
  {
    if ns == [] then []
    else (if ns[0].radius > 0 then [ns[0]] else []) + PositiveRadius(ns[1..])
  }

  /** Node `i` of the table is the first child of `id` with a positive radius. */
  predicate FirstPositiveChildAt(nodes: seq<Node>, id: nat, i: int) {
    && 0 <= i < |nodes| && nodes[i].parent == Some(id) && nodes[i].radius > 0
    && forall j :: 0 <= j < i ==> !(nodes[j].parent == Some(id) && nodes[j].radius > 0)
  }

  /**
   * The first positive-radius child of `id` is the first node of the table
   * that is a child of `id` with a positive radius.
   */
  lemma {:induction false} FirstPositiveChild(nodes: seq<Node>, id: nat)
    requires PositiveRadius(ChildrenOf(nodes, id)) != []
    ensures exists i :: FirstPositiveChildAt(nodes, id, i) && nodes[i] == PositiveRadius(ChildrenOf(nodes, id))[0]
  {
    var first := PositiveRadius(ChildrenOf(nodes, id));
    var later := PositiveRadius(ChildrenOf(nodes[1..], id));
    PositiveChildrenCons(nodes, id);
    if nodes[0].parent == Some(id) && nodes[0].radius > 0 {
      assert FirstPositiveChildAt(nodes, id, 0);
    } else {
      FirstPositiveChild(nodes[1..], id);
      var i :| FirstPositiveChildAt(nodes[1..], id, i) && nodes[1..][i] == later[0];
      assert FirstPositiveChildAt(nodes, id, i + 1);
    }
  }

  /** The positive-radius children of `id` are the first node's, if it is one, then those of the rest. */
  lemma PositiveChildrenCons(nodes: seq<Node>, id: nat)
    requires nodes != []
    ensures PositiveRadius(ChildrenOf(nodes, id))
            == (if nodes[0].parent == Some(id) && nodes[0].radius > 0 then [nodes[0]] else []) + PositiveRadius(ChildrenOf(nodes[1..], id))
  {
    var rest := ChildrenOf(nodes[1..], id);
    if nodes[0].parent == Some(id) {
      assert ChildrenOf(nodes, id) == [nodes[0]] + rest;
      assert ([nodes[0]] + rest)[1..] == rest;
    } else {
      assert ChildrenOf(nodes, id) == rest;
      assert [] + PositiveRadius(rest) == PositiveRadius(rest);
    }
  }

  /**
   * The walk's start: the first node of the table, in table order, that is
   * a child of the root with a positive radius. No root, and no such
   * child, raise.
   */
  function StartNode(nodes: seq<Node>): (r: Result<Node, FeleError>)
    ensures r == Failure(MissingNode) <==> RootOf(nodes).None?
    ensures r == Failure(NoStartNode) <==>
              RootOf(nodes).Some? && forall n :: n in nodes && n.parent == Some(RootOf(nodes).value.id) ==> n.radius <= 0
    ensures r.Success? ==> && RootOf(nodes).Some?
                           && exists i :: FirstPositiveChildAt(nodes, RootOf(nodes).value.id, i) && nodes[i] == r.value
  {
    match RootOf(nodes)
    case None => Failure(MissingNode)
    case Some(root) =>
      var candidates := PositiveRadius(ChildrenOf(nodes, root.id));
      if candidates == [] then Failure(NoStartNode)
      else
        FirstPositiveChild(nodes, root.id);
        Success(candidates[0])
  }

  /** Step to the first child while outside the volume on a slab. */
  function WalkForth(nodes: seq<Node>, v: Volume, current: Node, fuel: nat): (r: Result<Node, FeleError>)
    decreases fuel
  {
    if current.pos !in v.inside && current.kind == Slab then
      var children := ChildrenOf(nodes, current.id);
      if children == [] then Failure(NoChild)
      else if fuel == 0 then Failure(WalkTooLong)
      else WalkForth(nodes, v, children[0], fuel - 1)
    else Success(current)
  }

  method WalkForward(nodes: seq<Node>, v: Volume, start: Node) returns (r: Result<Node, FeleError>)
    ensures r == WalkForth(nodes, v, start, |nodes|)
  {
    var current := start;
    var fuel: nat := |nodes|;
    while current.pos !in v.inside && current.kind == Slab
      invariant WalkForth(nodes, v, current, fuel) == WalkForth(nodes, v, start, |nodes|)
      decreases fuel
    {
      var children := ChildrenOf(nodes, current.id);
      if children == [] {
        return Failure(NoChild);
      }
      if fuel == 0 {
        return Failure(WalkTooLong);
      }
      current := children[0];
      fuel := fuel - 1;
    }
    r := Success(current);
  }

  /** The proximal cut lies in the volume or is no slab, and it is the start node or a node of the table. */
  lemma {:induction false} WalkForthStops(nodes: seq<Node>, v: Volume, current: Node, fuel: nat)
    requires WalkForth(nodes, v, current, fuel).Success?
    ensures var m := WalkForth(nodes, v, current, fuel).value;
            && (m.pos in v.inside || m.kind != Slab)
            && (m == current || m in nodes)
    decreases fuel
  {
    if current.pos !in v.inside && current.kind == Slab {
      var children := ChildrenOf(nodes, current.id);
      assert children[0] in children;
      WalkForthStops(nodes, v, children[0], fuel - 1);
    }
  }

  // ---- One neuron ----

  /** The two cut points, and whether the warning about meeting a branch before the volume is shown. */
  datatype Cuts = Cuts(distal: nat, proximal: nat, warned: bool)

  function FeleCuts(nodes: seq<Node>, v: Volume): Result<Cuts, FeleError> {
    var end :- PrimaryNeuriteEnd(nodes);
    var distal :- WalkBack(nodes, v, end, |nodes|);
    var start :- StartNode(nodes);
    var proximal :- WalkForth(nodes, v, start, |nodes|);
    Success(Cuts(distal, proximal.id, proximal.pos !in v.inside))
  }

  method FindCuts(nodes: seq<Node>, v: Volume) returns (r: Result<Cuts, FeleError>)
    ensures r == FeleCuts(nodes, v)
  {
    var end :- PrimaryNeuriteEnd(nodes);
    var distal :- WalkBackward(nodes, v, end);
    var start :- StartNode(nodes);
    var proximal :- WalkForward(nodes, v, start);
    r := Success(Cuts(distal, proximal.id, proximal.pos !in v.inside));
  }

  /** The warning is shown exactly when the forward walk stopped at a branch or end outside the volume. */
  lemma CutsWarnOutsideVolume(nodes: seq<Node>, v: Volume)
    requires FeleCuts(nodes, v).Success?
    ensures var c := FeleCuts(nodes, v).value;
            exists m: Node :: m in nodes && m.id == c.proximal && (m.pos in v.inside || m.kind != Slab) && (c.warned <==> m.pos !in v.inside)
  {
    var start := StartNode(nodes).value;
    WalkForthStops(nodes, v, start, |nodes|);
    var m := WalkForth(nodes, v, start, |nodes|).value;
    assert m.id == FeleCuts(nodes, v).value.proximal;
  }

  function FeleAnnotation(volumeId: nat): string {
    "pruned (first entry, last exit) by vol " + NatToString(volumeId)
  }

  function StrictAnnotation(volumeId: nat): string {
    "pruned (strict) by vol " + NatToString(volumeId)
  }

  function PrunedName(name: string, volumeId: nat): string {
    name + " - pruned by vol " + NatToString(volumeId)
  }

  /**
   * The loop body for one neuron: the check on the name, the cut points in
   * 'fele' mode, the annotation of the mode, and the name.
   */
  function VolumePruned(n: Neuron, volumeId: nat, mode: string, v: Volume): Result<(Neuron, Option<Cuts>), FeleError> {
    if Contains(n.name, "pruned by vol") then Failure(AlreadyVolumePruned)
    else
      var cuts :- if mode != "fele" then Success(None)
                  else match FeleCuts(n.nodes, v)
                    case Failure(e) => Failure(e)
                    case Success(c) => Success(Some(c));
      var annotations :=
        if mode == "fele" then n.annotations + [FeleAnnotation(volumeId)]
        else if mode == "strict" then n.annotations + [StrictAnnotation(volumeId)]
        else n.annotations;
      Success((n.(annotations := annotations, name := PrunedName(n.name, volumeId)), cuts))
  }

  /**
   * The whole function over the fetched neurons: the volume from the
   * cache, then each neuron in place. On an exception the neurons before
   * the offending one are already rewritten; the model keeps the offending
   * one and the rest as they were.
   */
  method VolumePruneNeurons(cache: VolumeCache, neurons: array<Neuron>, volumeId: nat, mode: string, fetch: nat -> Option<Volume>)
    returns (r: Result<seq<Option<Cuts>>, FeleError>, done: nat)
    modifies cache, neurons
    ensures done <= neurons.Length
    ensures forall i :: done <= i < neurons.Length ==> neurons[i] == old(neurons[i])
    ensures volumeId in old(cache.volumes) ==> cache.volumes == old(cache.volumes)
    ensures volumeId !in old(cache.volumes) && fetch(volumeId).Some? ==>
              cache.volumes == old(cache.volumes)[volumeId := fetch(volumeId).value]
    ensures volumeId !in old(cache.volumes) && fetch(volumeId).None? ==>
              r == Failure(VolumeNotFound) && done == 0 && cache.volumes == old(cache.volumes)
    ensures volumeId in cache.volumes
            ==> forall i :: 0 <= i < done ==>
                  && VolumePruned(old(neurons[i]), volumeId, mode, cache.volumes[volumeId]).Success?
                  && neurons[i] == VolumePruned(old(neurons[i]), volumeId, mode, cache.volumes[volumeId]).value.0
    ensures volumeId in cache.volumes ==> (r.Success? <==> done == neurons.Length)
    ensures volumeId in cache.volumes && r.Failure? ==>
              && done < neurons.Length
              && VolumePruned(old(neurons[done]), volumeId, mode, cache.volumes[volumeId]).Failure?
              && r.error == VolumePruned(old(neurons[done]), volumeId, mode, cache.volumes[volumeId]).error
    ensures r.Success? ==>
              && volumeId in cache.volumes && done == neurons.Length && |r.value| == done
              && forall i :: 0 <= i < done ==> r.value[i] == VolumePruned(old(neurons[i]), volumeId, mode, cache.volumes[volumeId]).value.1
  {
    done := 0;
    var got := cache.Get(volumeId, fetch);
    if got.Failure? {
      return Failure(got.error), 0;
    }
    var v := got.value;
    var cuts: seq<Option<Cuts>> := [];
    ghost var cached := cache.volumes;
    while done < neurons.Length
      invariant done <= neurons.Length && |cuts| == done
      invariant cache.volumes == cached
      invariant volumeId in cache.volumes && cache.volumes[volumeId] == v
      invariant forall i :: done <= i < neurons.Length ==> neurons[i] == old(neurons[i])
      invariant forall i :: 0 <= i < done ==>
                  && VolumePruned(old(neurons[i]), volumeId, mode, v).Success?
                  && neurons[i] == VolumePruned(old(neurons[i]), volumeId, mode, v).value.0
                  && cuts[i] == VolumePruned(old(neurons[i]), volumeId, mode, v).value.1
    {
      var p := VolumePruned(neurons[done], volumeId, mode, v);
      if p.Failure? {
        return Failure(p.error), done;
      }
      neurons[done] := p.value.0;
      cuts := cuts + [p.value.1];
      done := done + 1;
    }
    r := Success(cuts);
  }

  // ---- Properties ----

  /** The pruned name contains 'pruned by vol', so pruning the result again raises. */
  lemma VolumePruneTwiceFails(n: Neuron, volumeId: nat, mode: string, v: Volume, volumeId2: nat, mode2: string, v2: Volume)
    requires VolumePruned(n, volumeId, mode, v).Success?
    ensures VolumePruned(VolumePruned(n, volumeId, mode, v).value.0, volumeId2, mode2, v2) == Failure(AlreadyVolumePruned)
  {
    var name := PrunedName(n.name, volumeId);
    assert name == n.name + " - " + "pruned by vol" + (" " + NatToString(volumeId));
    ContainsSelf("pruned by vol");
    ContainsInfix(n.name + " - ", "pruned by vol", " " + NatToString(volumeId), "pruned by vol");
  }

  /** In 'fele' mode the neuron gains exactly the first-entry-last-exit annotation, and the walk's cut points are returned. */
  lemma FelePruneAnnotates(n: Neuron, volumeId: nat, v: Volume)
    requires VolumePruned(n, volumeId, "fele", v).Success?
    ensures var (m, cuts) := VolumePruned(n, volumeId, "fele", v).value;
            && m.annotations == n.annotations + [FeleAnnotation(volumeId)]
            && FeleCuts(n.nodes, v).Success? && cuts == Some(FeleCuts(n.nodes, v).value)
            && m.nodes == n.nodes && m.skeletonId == n.skeletonId
  {
  }

  /** A neuron without a primary-neurite end cannot be pruned in 'fele' mode. */
  lemma NoEndNoFele(n: Neuron, volumeId: nat, v: Volume)
    requires !Contains(n.name, "pruned by vol")
    requires forall x :: x in n.nodes ==> !IsNeuriteEnd(n.nodes, x)
    ensures VolumePruned(n, volumeId, "fele", v) == Failure(NotMotorNeuron)
  {
  }
}
