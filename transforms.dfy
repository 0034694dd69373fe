/**
 * Two transforms of `manipulate_and_reupload_catmaid_neurons.py` that
 * rewrite the fetched neurons in place before they are uploaded:
 * translation by a vector, and pruning to the nodes of a given radius.
 */
module Transforms {
  import opened Wrappers
  import opened Text
  import opened Skeleton

  datatype TransformError =
    | BadTranslationLength  // ValueError: not [x, y, z]
    | BadUnit               // ValueError: unit neither 'nm' nor 'pixel'
    | ShortPixelSize        // IndexError reading pixel_size[0..2]
    | AlreadyRadiusPruned   // Exception: 'radius' already in the name
    | SeveralFragments      // Exception: the prune cut the skeleton apart

  // ---- Translation ----

  /**
   * The translation in nanometres: the checks on the translation and the
   * unit, then the component-wise scaling of a pixel translation.
   */
  function TranslationVector(translation: seq<int>, unit: string, pixelSize: seq<int>): (r: Result<Vec3, TransformError>)
    ensures r.Success? <==> |translation| == 3 && (unit == "nm" || (unit == "pixel" && |pixelSize| >= 3))
    ensures |translation| != 3 ==> r == Failure(BadTranslationLength)
    ensures |translation| == 3 && unit != "nm" && unit != "pixel" ==> r == Failure(BadUnit)
    ensures r.Success? && unit == "nm" ==> r.value == Vec3(translation[0], translation[1], translation[2])
    ensures r.Success? && unit == "pixel" ==>
              r.value == Vec3(translation[0] * pixelSize[0], translation[1] * pixelSize[1], translation[2] * pixelSize[2])
  {
    if |translation| != 3 then Failure(BadTranslationLength)
    else if unit != "nm" && unit != "pixel" then Failure(BadUnit)
    else if unit == "pixel" then
      if |pixelSize| < 3 then Failure(ShortPixelSize)
      else Success(Vec3(translation[0] * pixelSize[0], translation[1] * pixelSize[1], translation[2] * pixelSize[2]))
    else Success(Vec3(translation[0], translation[1], translation[2]))
  }

  function ShiftNodes(nodes: seq<Node>, t: Vec3): (r: seq<Node>)
    ensures |r| == |nodes|
    ensures forall i :: 0 <= i < |nodes| ==> r[i] == nodes[i].(pos := Plus(nodes[i].pos, t))
  {
    seq(|nodes|, i requires 0 <= i < |nodes| => nodes[i].(pos := Plus(nodes[i].pos, t)))
  }

  function ShiftConnectors(connectors: seq<Connector>, t: Vec3): (r: seq<Connector>)
    ensures |r| == |connectors|
    ensures forall i :: 0 <= i < |connectors| ==> r[i] == connectors[i].(pos := Plus(connectors[i].pos, t))
  {
    seq(|connectors|, i requires 0 <= i < |connectors| => connectors[i].(pos := Plus(connectors[i].pos, t)))
  }

  /** One neuron after the loop body: every node and connector shifted, the name marked. */
  function Translated(n: Neuron, t: Vec3): Neuron {
    n.(nodes := ShiftNodes(n.nodes, t), connectors := ShiftConnectors(n.connectors, t), name := n.name + " - translated")
  }

  /**
   * `get_translated_neurons_by_skid` on the fetched neurons: on a bad
   * translation or unit nothing is touched, otherwise every neuron is
   * translated in place.
   */
  method TranslateNeurons(neurons: array<Neuron>, translation: seq<int>, unit: string, pixelSize: seq<int>)
    returns (r: Result<Vec3, TransformError>)
    modifies neurons
    ensures r == TranslationVector(translation, unit, pixelSize)
    ensures r.Failure? ==> neurons[..] == old(neurons[..])
    ensures r.Success? ==> forall i :: 0 <= i < neurons.Length ==> neurons[i] == Translated(old(neurons[i]), r.value)
  {
    r := TranslationVector(translation, unit, pixelSize);
    if r.Failure? {
      return;
    }
    var t := r.value;
    for i := 0 to neurons.Length
      invariant forall j :: 0 <= j < i ==> neurons[j] == Translated(old(neurons[j]), t)
      invariant forall j :: i <= j < neurons.Length ==> neurons[j] == old(neurons[j])
    {
      neurons[i] := Translated(neurons[i], t);
    }
  }

  /** Translation moves everything rigidly: each node keeps its id, parent, radius and type. */
  lemma TranslationKeepsTopology(n: Neuron, t: Vec3)
    ensures |Translated(n, t).nodes| == |n.nodes|
    ensures forall i :: 0 <= i < |n.nodes| ==>
              var m := Translated(n, t).nodes[i];
              m.id == n.nodes[i].id && m.parent == n.nodes[i].parent && m.radius == n.nodes[i].radius
              && m.kind == n.nodes[i].kind && m.pos == Plus(n.nodes[i].pos, t)
    ensures Translated(n, t).annotations == n.annotations && Translated(n, t).skeletonId == n.skeletonId
  {
  }

  /** Shifting by t1 and then t2 puts every node and connector where shifting once by t1 + t2 does. */
  lemma TranslationsCompose(n: Neuron, t1: Vec3, t2: Vec3)
    ensures Translated(Translated(n, t1), t2).nodes == Translated(n, Plus(t1, t2)).nodes
    ensures Translated(Translated(n, t1), t2).connectors == Translated(n, Plus(t1, t2)).connectors
    ensures Translated(Translated(n, t1), t2).name == n.name + " - translated - translated"
  {
    assert Translated(Translated(n, t1), t2).name == (n.name + " - translated") + " - translated";
  }

  /** Translating by the zero vector leaves every node and connector where it was. */
  lemma TranslationByZero(n: Neuron)
    ensures Translated(n, Vec3(0, 0, 0)).nodes == n.nodes
    ensures Translated(n, Vec3(0, 0, 0)).connectors == n.connectors
  {
  }

  // ---- Radius pruning ----

  /** The nodes `subset_neuron` is given: radius at least the threshold, or equal to it. */
  predicate KeptByRadius(n: Node, threshold: int, keepLarger: bool) {
    if keepLarger then n.radius >= threshold else n.radius == threshold
  }

  function KeptIds(nodes: seq<Node>, threshold: int, keepLarger: bool): set<nat> {
    set n | n in nodes && KeptByRadius(n, threshold, keepLarger) :: n.id
  }

  /** A kept node whose parent was pruned away becomes a root of the subset. */
  function Orphaned(n: Node, ids: set<nat>): (r: Node)
    ensures r.id == n.id && r.radius == n.radius && r.pos == n.pos
    ensures r.parent.Some? ==> r.parent.value in ids
  {
    if n.parent.Some? && n.parent.value !in ids then n.(parent := None) else n
  }

  function SubsetNodes(nodes: seq<Node>, threshold: int, keepLarger: bool, ids: set<nat>): (r: seq<Node>)
    ensures |r| <= |nodes|
    ensures forall m :: m in r ==> KeptByRadius(m, threshold, keepLarger)
    ensures forall n :: n in nodes && KeptByRadius(n, threshold, keepLarger) ==> Orphaned(n, ids) in r
    ensures forall m :: m in r ==> exists x :: x in nodes && KeptByRadius(x, threshold, keepLarger) && m == Orphaned(x, ids)
  {
    if nodes == [] then []
    else
      var rest := SubsetNodes(nodes[1..], threshold, keepLarger, ids);
      assert forall n :: n in nodes && n != nodes[0] ==> n in nodes[1..];
      if KeptByRadius(nodes[0], threshold, keepLarger) then [Orphaned(nodes[0], ids)] + rest else rest
  }

  /** The node table after `navis.subset_neuron(neuron, kept, inplace=True)`. */
  function PrunedNodes(nodes: seq<Node>, threshold: int, keepLarger: bool): seq<Node> {
    SubsetNodes(nodes, threshold, keepLarger, KeptIds(nodes, threshold, keepLarger))
  }

  /** The number of skeletons in a node table: its roots. */
  function Fragments(nodes: seq<Node>): (r: nat)
    ensures r <= |nodes|
  {
    if nodes == [] then 0 else (if nodes[0].parent.None? then 1 else 0) + Fragments(nodes[1..])
  }

  const RadiusAnnotation: string := "pruned to nodes with radius 500"

  /**
   * One neuron through the loop body of `get_radius_pruned_neurons_by_skid`.
   * The annotation names radius 500 whatever the threshold; the name gains
   * the threshold actually used.
   */
  function RadiusPruned(n: Neuron, threshold: int, keepLarger: bool): Result<Neuron, TransformError> {
    if Contains(n.name, "radius") then Failure(AlreadyRadiusPruned)
    else
      var kept := PrunedNodes(n.nodes, threshold, keepLarger);
      if Fragments(kept) > 1 then Failure(SeveralFragments)
      else Success(n.(nodes := kept,
                      annotations := n.annotations + [RadiusAnnotation],
                      name := n.name + " - radius " + IntToString(threshold)))
  }

  /**
   * The loop over the fetched neurons. On an exception the neurons before
   * the offending one have already been pruned in place; the model keeps
   * the offending one and the rest as they were.
   */
  method RadiusPruneNeurons(neurons: array<Neuron>, threshold: int, keepLarger: bool)
    returns (r: Result<(), TransformError>, done: nat)
    modifies neurons
    ensures done <= neurons.Length
    ensures forall i :: 0 <= i < done ==> RadiusPruned(old(neurons[i]), threshold, keepLarger).Success?
    ensures forall i :: 0 <= i < done ==> neurons[i] == RadiusPruned(old(neurons[i]), threshold, keepLarger).value
    ensures forall i :: done <= i < neurons.Length ==> neurons[i] == old(neurons[i])
    ensures r.Success? <==> done == neurons.Length
    ensures r.Failure? ==> done < neurons.Length && RadiusPruned(old(neurons[done]), threshold, keepLarger).Failure?
    ensures r.Failure? ==> r.error == RadiusPruned(old(neurons[done]), threshold, keepLarger).error
  {
    done := 0;
    while done < neurons.Length
      invariant done <= neurons.Length
      invariant forall i :: 0 <= i < done ==> RadiusPruned(old(neurons[i]), threshold, keepLarger).Success?
      invariant forall i :: 0 <= i < done ==> neurons[i] == RadiusPruned(old(neurons[i]), threshold, keepLarger).value
      invariant forall i :: done <= i < neurons.Length ==> neurons[i] == old(neurons[i])
    {
      var p := RadiusPruned(neurons[done], threshold, keepLarger);
      if p.Failure? {
        r := p.PropagateFailure();
        return;
      }
      neurons[done] := p.value;
      done := done + 1;
    }
    r := Success(());
  }

  /** Pruning keeps exactly the nodes the radius rule selects, rerooting those whose parent went. */
  lemma RadiusPruneKeepsExactly(n: Neuron, threshold: int, keepLarger: bool)
    requires RadiusPruned(n, threshold, keepLarger).Success?
    ensures var p := RadiusPruned(n, threshold, keepLarger).value;
            && (forall m :: m in p.nodes ==> KeptByRadius(m, threshold, keepLarger))
            && (forall x :: x in n.nodes && KeptByRadius(x, threshold, keepLarger) ==>
                  Orphaned(x, KeptIds(n.nodes, threshold, keepLarger)) in p.nodes)
            && (forall m :: m in p.nodes ==> exists x :: x in n.nodes && KeptByRadius(x, threshold, keepLarger)
                                                        && m == Orphaned(x, KeptIds(n.nodes, threshold, keepLarger)))
            && Fragments(p.nodes) <= 1
            && p.annotations == n.annotations + [RadiusAnnotation]
  {
  }

  /** The pruned name contains 'radius', so pruning the result again raises. */
  lemma RadiusPruneTwiceFails(n: Neuron, threshold: int, keepLarger: bool, threshold2: int, keepLarger2: bool)
    requires RadiusPruned(n, threshold, keepLarger).Success?
    ensures RadiusPruned(RadiusPruned(n, threshold, keepLarger).value, threshold2, keepLarger2) == Failure(AlreadyRadiusPruned)
  {
    var name := n.name + " - radius " + IntToString(threshold);
    assert RadiusPruned(n, threshold, keepLarger).value.name == name;
    assert name == n.name + " - " + "radius" + (" " + IntToString(threshold));
    ContainsSelf("radius");
    ContainsInfix(n.name + " - ", "radius", " " + IntToString(threshold), "radius");
  }

  // ---- radius_prune_neurons_by_skid ----

  /** What `radius_prune_neurons_by_skid` hands to the uploader, as written: `keep_larger_radii=True` always. */
  function RadiusPruneForUploadAsWritten(n: Neuron, threshold: int, keepLarger: bool): Result<Neuron, TransformError> {
    RadiusPruned(n, threshold, true)
  }

  /** The same, passing the caller's `keep_larger_radii` through. */
  function RadiusPruneForUpload(n: Neuron, threshold: int, keepLarger: bool): (r: Result<Neuron, TransformError>)
    ensures r.Success? ==> forall m :: m in r.value.nodes ==> KeptByRadius(m, threshold, keepLarger)
  {
    RadiusPruned(n, threshold, keepLarger)
  }

  /**
   * With `keep_larger_radii=False`, the as-written wrapper still keeps a
   * radius-600 node when pruning to radius 500; the corrected one drops it.
   */
  lemma KeepLargerIgnoredAsWritten()
    ensures var node := Node(1, None, Vec3(0, 0, 0), 600, Root, 0);
            var n := Neuron(7, "a", [], [node], []);
            && RadiusPruneForUploadAsWritten(n, 500, false).Success?
            && RadiusPruneForUploadAsWritten(n, 500, false).value.nodes == [node]
            && RadiusPruneForUpload(n, 500, false).Success?
            && RadiusPruneForUpload(n, 500, false).value.nodes == []
  {
    var node := Node(1, None, Vec3(0, 0, 0), 600, Root, 0);
    NotContainsLonger("a", "radius");
    assert KeptIds([node], 500, true) == {1};
    assert PrunedNodes([node], 500, true) == [node];
    assert KeptIds([node], 500, false) == {};
    assert PrunedNodes([node], 500, false) == [];
  }
}
