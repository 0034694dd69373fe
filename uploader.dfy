/**
 * `upload_or_update_neurons`: for each source neuron, look for the target
 * skeleton that carries its linking annotation, then upload the neuron as a
 * new skeleton (no match), skip it (several matches, a refused prompt, or
 * `refuse_to_update`), or overwrite the one linked skeleton (one match).
 *
 * The server, the clock and the console are inputs (`Env`); uploads are
 * recorded as `Upload` values rather than performed.
 */
module Uploader {
  import opened Wrappers
  import opened Text
  import opened Escapes
  import opened Skeleton
  import opened Linking

  /** The two console prompts of the update path. */
  datatype Prompt = RenamePrompt | OverwritePrompt

  /** `user_input in ('y', 'Y')`. */
  predicate Accepts(answer: string) {
    answer == "y" || answer == "Y"
  }

  /** What the server, the clock and the console answer during one call. */
  datatype Env = Env(
    sourcePid: nat,
    sourceServer: string,
    targetPid: nat,
    targetServer: string,
    startTime: string,
    // target skeletons carrying an (escaped) annotation; [] when the query raises
    linkedSkids: string -> seq<nat>,
    // the target neuron with a skeleton id, and its neuron id
    linkedNeuron: nat -> Neuron,
    neuronIdOf: nat -> nat,
    // the answer typed at a prompt while handling the i-th neuron
    answer: (nat, Prompt) -> string,
    // the skeleton id in the upload response of the i-th neuron, if it has one
    uploadedSkid: nat -> Option<nat>,
    // `find_unlinked_connectors` on the target before and after the loop
    unlinkedStart: seq<nat>,
    unlinkedEnd: seq<nat>)

  datatype Options = Options(relation: string, annotateSource: bool, refuseToUpdate: bool, fake: bool)

  /** One `upload_neuron` call, and the reverse link added to the source neuron afterwards, if any. */
  datatype Upload = Upload(neuron: Neuron, skeletonId: Option<nat>, neuronId: Option<nat>, forceId: bool,
                           sourceAnnotation: Option<string>)

  datatype Decision = NewSkeleton | Skip | UpdateLinked(skid: nat) | UploadUnlinked

  datatype StepResult = StepResult(neuron: Neuron, action: Option<Upload>)

  function UpdatedAnnotation(startTime: string): string {
    UpdatedTag + " - " + startTime
  }

  /** `[a for a in annots if 'LINKED NEURON' not in a]`. */
  function StripLinked(annots: seq<string>): (r: seq<string>)
    ensures forall a :: a in r <==> a in annots && !Contains(a, LinkedTag)
    ensures |r| <= |annots|
  {
    if annots == [] then []
    else (if Contains(annots[0], LinkedTag) then [] else [annots[0]]) + StripLinked(annots[1..])
  }

  /** `[a for a in extra if a not in present]`. */
  function MissingFrom(extra: seq<string>, present: seq<string>): (r: seq<string>)
    ensures forall a :: a in r <==> a in extra && a !in present
    ensures |r| <= |extra|
  {
    if extra == [] then []
    else (if extra[0] in present then [] else [extra[0]]) + MissingFrom(extra[1..], present)
  }

  /** `min(edition_time)` over a non-empty node table. */
  function MinEditionTime(nodes: seq<Node>): (r: int)
    requires nodes != []
    ensures forall n :: n in nodes ==> r <= n.editionTime
    ensures exists n :: n in nodes && n.editionTime == r
  {
    if |nodes| == 1 then nodes[0].editionTime
    else
      var rest := MinEditionTime(nodes[1..]);
      if nodes[0].editionTime <= rest then nodes[0].editionTime else rest
  }

  /** `(edition_time != min(edition_time)).any()`; an empty table has no edited node. */
  predicate Edited(nodes: seq<Node>) {
    nodes != [] && exists n :: n in nodes && n.editionTime != MinEditionTime(nodes)
  }

  /** A skeleton counts as edited exactly when two of its nodes were last edited at different times. */
  lemma EditedIff(nodes: seq<Node>)
    ensures Edited(nodes) <==> exists m, n :: m in nodes && n in nodes && m.editionTime != n.editionTime
  {
    if exists m, n :: m in nodes && n in nodes && m.editionTime != n.editionTime {
      var m, n :| m in nodes && n in nodes && m.editionTime != n.editionTime;
      if m.editionTime == MinEditionTime(nodes) {
        assert n.editionTime != MinEditionTime(nodes);
      }
    }
  }

  /** The guards of the update path: a refused rename, a refused overwrite of edits, or `refuse_to_update` skip it. */
  predicate UpdateAllowed(source: Neuron, linked: Neuron, i: nat, opts: Options, env: Env) {
    (source.name == linked.name || Accepts(env.answer(i, RenamePrompt)))
    && (!Edited(linked.nodes) || Accepts(env.answer(i, OverwritePrompt)))
    && !opts.refuseToUpdate
  }

  /** The choice among the three outcomes, with several matches skipped as the message announces. */
  function Decide(matches: seq<nat>, source: Neuron, i: nat, opts: Options, env: Env): Decision {
    if |matches| == 0 then NewSkeleton
    else if |matches| > 1 then Skip
    else if UpdateAllowed(source, env.linkedNeuron(matches[0]), i, opts, env) then UpdateLinked(matches[0])
    else Skip
  }

  /** The choice as the loop body is written: with several matches nothing skips, so the neuron is uploaded anyway. */
  function DecideAsWritten(matches: seq<nat>, source: Neuron, i: nat, opts: Options, env: Env): Decision {
    if |matches| == 0 then NewSkeleton
    else if |matches| > 1 then UploadUnlinked
    else if UpdateAllowed(source, env.linkedNeuron(matches[0]), i, opts, env) then UpdateLinked(matches[0])
    else Skip
  }

  /** The annotation put on the source neuron after an upload: the template pointed at the target. */
  function SourceAnnotation(i: nat, opts: Options, env: Env): Option<string> {
    if !opts.annotateSource then None
    else match env.uploadedSkid(i)
      case None => None
      case Some(skid) => Some(LinkingAnnotation(opts.relation, skid, env.targetPid, env.targetServer))
  }

  function UploadUnlessFake(n: Neuron, skid: Option<nat>, nid: Option<nat>, forceId: bool, i: nat, opts: Options, env: Env): Option<Upload> {
    if opts.fake then None else Some(Upload(n, skid, nid, forceId, SourceAnnotation(i, opts, env)))
  }

  /** The source neuron's linking annotation, and its escaped form that the server is searched for. */
  function LinkOf(source: Neuron, opts: Options, env: Env): string {
    LinkingAnnotation(opts.relation, source.skeletonId, env.sourcePid, env.sourceServer)
  }

  function MatchesOf(source: Neuron, opts: Options, env: Env): seq<nat> {
    env.linkedSkids(Escaped(LinkOf(source, opts, env), ParenChars))
  }

  /** What happens to one neuron once the decision is taken; its linked-neuron annotations are already stripped. */
  function Apply(d: Decision, source: Neuron, i: nat, opts: Options, env: Env): StepResult {
    var n0 := source.(annotations := StripLinked(source.annotations));
    var stamp := UpdatedAnnotation(env.startTime);
    match d
    case Skip => StepResult(n0, None)
    case UploadUnlinked => StepResult(n0, UploadUnlessFake(n0, None, None, false, i, opts, env))
    case NewSkeleton =>
      var n := n0.(annotations := n0.annotations + [LinkOf(source, opts, env), stamp]);
      StepResult(n, UploadUnlessFake(n, None, None, false, i, opts, env))
    case UpdateLinked(skid) =>
      var kept := n0.annotations + [stamp];
      var n := n0.(annotations := kept + MissingFrom(env.linkedNeuron(skid).annotations, kept));
      StepResult(n, UploadUnlessFake(n, Some(skid), Some(env.neuronIdOf(skid)), true, i, opts, env))
  }

  /** One iteration of the loop over the neurons. */
  function Step(source: Neuron, i: nat, opts: Options, env: Env): StepResult {
    Apply(Decide(MatchesOf(source, opts, env), source, i, opts, env), source, i, opts, env)
  }

  function StepAsWritten(source: Neuron, i: nat, opts: Options, env: Env): StepResult {
    Apply(DecideAsWritten(MatchesOf(source, opts, env), source, i, opts, env), source, i, opts, env)
  }

  function ActionList(a: Option<Upload>): seq<Upload> {
    if a.Some? then [a.value] else []
  }

  /** `server_responses` after the loop over `ns`. */
  function Run(ns: seq<Neuron>, opts: Options, env: Env): (r: seq<Upload>)
    ensures |r| <= |ns|
    ensures opts.fake ==> r == []
  {
    if ns == [] then []
    else Run(ns[..|ns| - 1], opts, env) + ActionList(Step(ns[|ns| - 1], |ns| - 1, opts, env).action)
  }

  lemma RunExtends(ns: seq<Neuron>, k: nat, opts: Options, env: Env)
    requires k < |ns|
    ensures Run(ns[..k + 1], opts, env) == Run(ns[..k], opts, env) + ActionList(Step(ns[k], k, opts, env).action)
  {
    assert ns[..k + 1][..k] == ns[..k];
  }

  /** `set(unlinked_connectors_end).difference(set(unlinked_connectors_start))`. */
  function NewlyUnlinked(start: seq<nat>, end: seq<nat>): (r: set<nat>)
    ensures forall c :: c in r <==> c in end && c !in start
  {
    (set c | c in end) - (set c | c in start)
  }

  /**
   * The whole call. Each neuron of the list is rewritten in place as its
   * step says; the responses are those of the steps in order; the warning
   * set is computed only when the uploads are real.
   */
  method UploadOrUpdateNeurons(neurons: array<Neuron>, opts: Options, env: Env)
    returns (responses: seq<Upload>, newlyUnlinked: set<nat>)
    modifies neurons
    ensures forall i :: 0 <= i < neurons.Length ==> neurons[i] == Step(old(neurons[i]), i, opts, env).neuron
    ensures responses == Run(old(neurons[..]), opts, env)
    ensures newlyUnlinked == if opts.fake then {} else NewlyUnlinked(env.unlinkedStart, env.unlinkedEnd)
  {
    var before := neurons[..];
    responses := [];
    for i := 0 to neurons.Length
      invariant forall j :: 0 <= j < i ==> neurons[j] == Step(before[j], j, opts, env).neuron
      invariant forall j :: i <= j < neurons.Length ==> neurons[j] == before[j]
      invariant responses == Run(before[..i], opts, env)
    {
      var step := Step(neurons[i], i, opts, env);
      RunExtends(before, i, opts, env);
      neurons[i] := step.neuron;
      responses := responses + ActionList(step.action);
    }
    assert before[..neurons.Length] == before;
    if opts.fake {
      newlyUnlinked := {};
    } else {
      newlyUnlinked := NewlyUnlinked(env.unlinkedStart, env.unlinkedEnd);
    }
  }

  // ---- The three outcomes ----

  lemma UpdatedAnnotationTagged(startTime: string)
    ensures Contains(UpdatedAnnotation(startTime), LinkedTag)
  {
    var u := UpdatedAnnotation(startTime);
    assert u[13..13 + |LinkedTag|] == LinkedTag;
    OccursContains(u, LinkedTag, 13);
  }

  /**
   * No linked skeleton: the neuron goes up as a new skeleton carrying its
   * linking annotation and the time stamp, and these two are then its only
   * annotations that mention a linked neuron.
   */
  lemma NoMatchUploadsNew(source: Neuron, i: nat, opts: Options, env: Env)
    requires |MatchesOf(source, opts, env)| == 0
    ensures var r := Step(source, i, opts, env);
            && r.neuron.annotations == StripLinked(source.annotations) + [LinkOf(source, opts, env), UpdatedAnnotation(env.startTime)]
            && (forall a :: a in r.neuron.annotations && Contains(a, LinkedTag) <==>
                  a == LinkOf(source, opts, env) || a == UpdatedAnnotation(env.startTime))
            && (r.action.Some? <==> !opts.fake)
            && (r.action.Some? ==> r.action.value.skeletonId.None? && !r.action.value.forceId && r.action.value.neuron == r.neuron)
  {
    LinkingAnnotationTagged(opts.relation, source.skeletonId, env.sourcePid, env.sourceServer);
    UpdatedAnnotationTagged(env.startTime);
  }

  /** Several linked skeletons: nothing is uploaded and no skeleton id is chosen. */
  lemma SeveralMatchesSkip(source: Neuron, i: nat, opts: Options, env: Env)
    requires |MatchesOf(source, opts, env)| > 1
    ensures Step(source, i, opts, env).action.None?
    ensures Step(source, i, opts, env).neuron.annotations == StripLinked(source.annotations)
  {
  }

  /**
   * One linked skeleton: an upload happens exactly when no guard refuses it,
   * and then it overwrites the linked skeleton, by its own ids, with
   * `force_id` set.
   */
  lemma OneMatchUpdatesIff(source: Neuron, i: nat, opts: Options, env: Env)
    requires |MatchesOf(source, opts, env)| == 1 && !opts.fake
    ensures var skid := MatchesOf(source, opts, env)[0];
            var r := Step(source, i, opts, env);
            && (r.action.Some? <==> UpdateAllowed(source, env.linkedNeuron(skid), i, opts, env))
            && (r.action.Some? ==>
                  && r.action.value.skeletonId == Some(skid)
                  && r.action.value.neuronId == Some(env.neuronIdOf(skid))
                  && r.action.value.forceId)
  {
    var m := MatchesOf(source, opts, env);
    var n0 := source.(annotations := StripLinked(source.annotations));
    assert n0.name == source.name;
  }

  /**
   * An update removes none of the source neuron's remaining annotations,
   * adds the time stamp, and keeps every annotation of the linked neuron.
   */
  lemma UpdateKeepsAnnotations(source: Neuron, i: nat, opts: Options, env: Env, skid: nat)
    requires Decide(MatchesOf(source, opts, env), source, i, opts, env) == UpdateLinked(skid)
    ensures var annots := Step(source, i, opts, env).neuron.annotations;
            && StripLinked(source.annotations) + [UpdatedAnnotation(env.startTime)] <= annots
            && forall a :: a in env.linkedNeuron(skid).annotations ==> a in annots
  {
    var kept := StripLinked(source.annotations) + [UpdatedAnnotation(env.startTime)];
    var annots := Step(source, i, opts, env).neuron.annotations;
    assert annots == kept + MissingFrom(env.linkedNeuron(skid).annotations, kept);
    forall a | a in env.linkedNeuron(skid).annotations ensures a in annots {
      if a !in kept {
        assert a in MissingFrom(env.linkedNeuron(skid).annotations, kept);
      }
    }
  }

  /** A refused or skipped neuron is only stripped of its linked-neuron annotations, in memory. */
  lemma SkipOnlyStrips(source: Neuron, i: nat, opts: Options, env: Env)
    requires Decide(MatchesOf(source, opts, env), source, i, opts, env) == Skip
    ensures Step(source, i, opts, env) == StepResult(source.(annotations := StripLinked(source.annotations)), None)
    ensures forall a :: a in Step(source, i, opts, env).neuron.annotations ==> !Contains(a, LinkedTag)
  {
  }

  /** With `fake` set, no step uploads, so the call returns no responses. */
  lemma FakeUploadsNothing(ns: seq<Neuron>, opts: Options, env: Env)
    requires opts.fake
    ensures forall i :: 0 <= i < |ns| ==> Step(ns[i], i, opts, env).action.None?
  {
  }

  /** Every response of the call is a real upload of a neuron that was not skipped. */
  lemma {:induction false} RunOnlyUploadsUnskipped(ns: seq<Neuron>, opts: Options, env: Env)
    ensures forall u :: u in Run(ns, opts, env) ==>
              exists i :: 0 <= i < |ns| && Step(ns[i], i, opts, env).action == Some(u)
                && Decide(MatchesOf(ns[i], opts, env), ns[i], i, opts, env) != Skip
    decreases |ns|
  {
    if ns != [] {
      var init := ns[..|ns| - 1];
      RunOnlyUploadsUnskipped(init, opts, env);
      forall u | u in Run(ns, opts, env)
        ensures exists i :: 0 <= i < |ns| && Step(ns[i], i, opts, env).action == Some(u)
                  && Decide(MatchesOf(ns[i], opts, env), ns[i], i, opts, env) != Skip
      {
        if u in Run(init, opts, env) {
          var i :| 0 <= i < |init| && Step(init[i], i, opts, env).action == Some(u)
                   && Decide(MatchesOf(init[i], opts, env), init[i], i, opts, env) != Skip;
          assert init[i] == ns[i];
        } else {
          assert Step(ns[|ns| - 1], |ns| - 1, opts, env).action == Some(u);
        }
      }
    }
  }

  /**
   * The reverse link written on the source neuron names the uploaded
   * skeleton and the target project: the pusher's filter, run from the
   * target side, picks it up, and the skeleton id reads back.
   */
  lemma SourceAnnotationNamesUpload(i: nat, opts: Options, env: Env, skid: nat)
    requires opts.annotateSource && env.uploadedSkid(i) == Some(skid)
    requires !Contains(opts.relation + " ", SkeletonIdLabel)
    ensures SourceAnnotation(i, opts, env).Some?
    ensures MentionsSource(SourceAnnotation(i, opts, env).value, skid, env.targetPid)
    ensures ExtractSkid(SourceAnnotation(i, opts, env).value) == Some(NatToString(skid))
  {
    LinkingAnnotationMentionsSource(opts.relation, skid, env.targetPid, env.targetServer);
    ExtractSkidRoundTrip(opts.relation, skid, env.targetPid, env.targetServer);
  }

  // ---- Several matches, as written ----

  /**
   * As written, a neuron with several linked skeletons is uploaded when
   * `fake` is off, as a new skeleton (no skeleton id) whose annotations no
   * longer link it to anything: the duplicates grow by one.
   */
  lemma SeveralMatchesUploadUnlinkedAsWritten(source: Neuron, i: nat, opts: Options, env: Env)
    requires |MatchesOf(source, opts, env)| > 1 && !opts.fake
    ensures var r := StepAsWritten(source, i, opts, env);
            && r.action.Some? && r.action.value.skeletonId.None?
            && forall a :: a in r.action.value.neuron.annotations ==> !Contains(a, LinkedTag)
    ensures Step(source, i, opts, env).action.None?
  {
  }

  /** `server_responses` after the loop as written, several matches included. */
  function RunAsWritten(ns: seq<Neuron>, opts: Options, env: Env): (r: seq<Upload>)
    ensures |r| <= |ns|
  {
    if ns == [] then []
    else RunAsWritten(ns[..|ns| - 1], opts, env) + ActionList(StepAsWritten(ns[|ns| - 1], |ns| - 1, opts, env).action)
  }

  /** The loop as written and the corrected one agree unless some neuron has several linked skeletons. */
  lemma {:induction false} RunAsWrittenAgrees(ns: seq<Neuron>, opts: Options, env: Env)
    requires forall i :: 0 <= i < |ns| ==> |MatchesOf(ns[i], opts, env)| <= 1
    ensures RunAsWritten(ns, opts, env) == Run(ns, opts, env)
  {
    if ns != [] {
      var init, k := ns[..|ns| - 1], |ns| - 1;
      assert forall i :: 0 <= i < |init| ==> init[i] == ns[i];
      RunAsWrittenAgrees(init, opts, env);
      StepAsWrittenAgrees(ns[k], k, opts, env);
    }
  }

  lemma StepAsWrittenAgrees(source: Neuron, i: nat, opts: Options, env: Env)
    requires |MatchesOf(source, opts, env)| <= 1
    ensures StepAsWritten(source, i, opts, env) == Step(source, i, opts, env)
  {
    var m := MatchesOf(source, opts, env);
    assert DecideAsWritten(m, source, i, opts, env) == Decide(m, source, i, opts, env);
  }

  /** Every neuron the corrected loop uploads, the loop as written uploads too: it only adds the duplicates. */
  lemma {:induction false} RunAsWrittenUploadsAtLeast(ns: seq<Neuron>, opts: Options, env: Env)
    ensures |Run(ns, opts, env)| <= |RunAsWritten(ns, opts, env)|
  {
    if ns != [] {
      RunAsWrittenUploadsAtLeast(ns[..|ns| - 1], opts, env);
      var k := |ns| - 1;
      if Step(ns[k], k, opts, env).action.Some? {
        assert StepAsWritten(ns[k], k, opts, env).action.Some?;
      }
    }
  }
}
