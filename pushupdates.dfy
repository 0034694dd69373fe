/**
 * `push_all_updates_by_skid`: for each source skeleton, find the target
 * annotations that link to it, and for each one that names exactly one
 * target skeleton, re-run every transform whose relation key the escaped
 * annotation contains. With `recurse` set and `fake` off, the skeletons just
 * updated are pushed in turn, from the target project, until a pass finds
 * nothing to push.
 *
 * The transform calls are recorded as `Dispatched` values; the server's
 * answers, and which transform calls raise, are inputs (`PushEnv`). A
 * raising call ends the whole push there, with no `finally`: a chain that
 * has already switched the source project to the target leaves it so.
 */
module PushUpdates {
  import opened Wrappers
  import opened Text
  import opened Escapes
  import opened Linking

  /** One entry of `server_responses`: a date-skipped annotation, or a transform run for a source skeleton. */
  datatype PushRecord = Skipped(annot: string) | Dispatched(relation: string, sourceSkid: nat, sourcePid: nat)

  datatype PushEnv = PushEnv(
    // `get_annotation_list` on the target, fetched once before the loop
    allTargetAnnots: seq<string>,
    targetPid: nat,
    // target skeletons carrying an (escaped) annotation
    lookup: string -> seq<nat>,
    // the annotations of a target skeleton
    targetAnnotations: nat -> seq<string>,
    skipDates: seq<string>,
    // the transform for a relation key, run on a source skeleton, raises
    raises: (string, nat) -> bool)

  /** What a pass, or part of one, produces: the responses and the skeletons to push next. */
  datatype PassOut = PassOut(records: seq<PushRecord>, next: seq<nat>)

  function Join(a: PassOut, b: PassOut): PassOut {
    PassOut(a.records + b.records, a.next + b.next)
  }

  /** The source project handle, whose project id the recursion rewrites. */
  class SourceHandle {
    var projectId: nat

    constructor(pid: nat)
      ensures projectId == pid
    {
      projectId := pid;
    }
  }

  /** `[add_escapes(a) for a in all if 'skeleton id <skid> ' in a and 'project id <pid> ' in a]`. */
  function LinkAnnots(all: seq<string>, skid: nat, pid: nat): seq<string> {
    if all == [] then []
    else (if MentionsSource(all[0], skid, pid) then [Escaped(all[0], ParenChars)] else []) + LinkAnnots(all[1..], skid, pid)
  }

  /** The annotations considered are exactly the escaped forms of those that mention the source skeleton and project. */
  lemma {:induction false} LinkAnnotsExact(all: seq<string>, skid: nat, pid: nat)
    ensures |LinkAnnots(all, skid, pid)| <= |all|
    ensures forall a :: a in all && MentionsSource(a, skid, pid) ==> Escaped(a, ParenChars) in LinkAnnots(all, skid, pid)
    ensures forall x :: x in LinkAnnots(all, skid, pid) ==> exists a :: a in all && MentionsSource(a, skid, pid) && x == Escaped(a, ParenChars)
    decreases |all|
  {
    if all != [] {
      LinkAnnotsExact(all[1..], skid, pid);
      assert forall a :: a in all ==> a == all[0] || a in all[1..];
      assert forall a :: a in all[1..] ==> a in all;
    }
  }

  /** Some annotation of the target skeleton contains some skip date. */
  predicate DateSkipped(env: PushEnv, targetSkid: nat) {
    exists a, d :: a in env.targetAnnotations(targetSkid) && d in env.skipDates && Contains(a, d)
  }

  /** The response for one fired key: the transform, unless skip dates are given and one of them is found. */
  function KeyRecord(key: string, annot: string, skid: nat, pid: nat, targetSkid: nat, env: PushEnv): PushRecord {
    if |env.skipDates| == 0 || !DateSkipped(env, targetSkid) then Dispatched(key, skid, pid) else Skipped(annot)
  }

  function KeyRecords(fired: seq<string>, annot: string, skid: nat, pid: nat, targetSkid: nat, env: PushEnv): (r: seq<PushRecord>)
    ensures |r| == |fired|
  {
    seq(|fired|, i requires 0 <= i < |fired| => KeyRecord(fired[i], annot, skid, pid, targetSkid, env))
  }

  /** The responses and next skeletons of the loop over `keys`, for an annotation naming `target`. */
  function KeysOut(keys: seq<string>, annot: string, skid: nat, pid: nat, target: nat, env: PushEnv, chain: bool): PassOut {
    if keys == [] then PassOut([], [])
    else
      var prev := KeysOut(keys[..|keys| - 1], annot, skid, pid, target, env, chain);
      var key := keys[|keys| - 1];
      if Contains(annot, key) then Join(prev, PassOut([KeyRecord(key, annot, skid, pid, target, env)], if chain then [target] else []))
      else prev
  }

  /** What one escaped linking annotation contributes: nothing unless it names exactly one target skeleton. */
  function AnnotOut(annot: string, skid: nat, pid: nat, env: PushEnv, chain: bool): PassOut {
    var matches := env.lookup(annot);
    if |matches| != 1 then PassOut([], [])
    else KeysOut(RelationKeys, annot, skid, pid, matches[0], env, chain)
  }

  function AnnotsOut(annots: seq<string>, skid: nat, pid: nat, env: PushEnv, chain: bool): PassOut {
    if annots == [] then PassOut([], [])
    else Join(AnnotsOut(annots[..|annots| - 1], skid, pid, env, chain), AnnotOut(annots[|annots| - 1], skid, pid, env, chain))
  }

  function SkidOut(skid: nat, pid: nat, env: PushEnv, chain: bool): PassOut {
    AnnotsOut(LinkAnnots(env.allTargetAnnots, skid, pid), skid, pid, env, chain)
  }

  /** One pass of the while loop over `skids`, from project `pid`. */
  function PassOf(skids: seq<nat>, pid: nat, env: PushEnv, chain: bool): PassOut {
    if skids == [] then PassOut([], [])
    else Join(PassOf(skids[..|skids| - 1], pid, env, chain), SkidOut(skids[|skids| - 1], pid, env, chain))
  }

  /**
   * All the responses of the while loop, given what one pass from a project
   * does: the loop runs while the previous pass produced skeletons to push,
   * for at most `fuel` passes, and after the first pass of a chain the
   * target project is the source.
   */
  function PassesBy(pass: (seq<nat>, nat) -> PassOut, skids: seq<nat>, pid: nat, targetPid: nat, chain: bool, fuel: nat)
    : seq<PushRecord>
    decreases fuel
  {
    if skids == [] || fuel == 0 then []
    else
      var p := pass(skids, pid);
      p.records + PassesBy(pass, p.next, if chain then targetPid else pid, targetPid, chain, fuel - 1)
  }

  /** One pass of the loop as a function of the skeletons and the source project. */
  function Pass(env: PushEnv, chain: bool): (seq<nat>, nat) -> PassOut {
    (skids: seq<nat>, pid: nat) => PassOf(skids, pid, env, chain)
  }

  /** All the responses of the while loop, had no transform call raised. */
  function Passes(skids: seq<nat>, pid: nat, env: PushEnv, chain: bool, fuel: nat): seq<PushRecord> {
    PassesBy(Pass(env, chain), skids, pid, env.targetPid, chain, fuel)
  }

  /** A dispatch that raises. */
  predicate RaisesOn(rec: PushRecord, raises: (string, nat) -> bool) {
    rec.Dispatched? && raises(rec.relation, rec.sourceSkid)
  }

  /** The first raising dispatch of a log, if any. */
  function FirstRaise(records: seq<PushRecord>, raises: (string, nat) -> bool): (r: Option<nat>)
    ensures r.Some? ==> r.value < |records| && RaisesOn(records[r.value], raises)
                        && forall j :: 0 <= j < r.value ==> !RaisesOn(records[j], raises)
    ensures r.None? ==> forall j :: 0 <= j < |records| ==> !RaisesOn(records[j], raises)
  {
    if records == [] then None
    else if RaisesOn(records[0], raises) then Some(0)
    else match FirstRaise(records[1..], raises)
      case None => None
      case Some(i) => Some(i + 1)
  }

  /** How a push ends with an exception: the dispatches done before it, and the raising one. */
  datatype PushFailure = PushFailure(performed: seq<PushRecord>, raised: PushRecord)

  /** A log cut at its first raising dispatch. */
  function Cut(all: seq<PushRecord>, raises: (string, nat) -> bool): Result<seq<PushRecord>, PushFailure> {
    match FirstRaise(all, raises)
    case None => Success(all)
    case Some(i) => Failure(PushFailure(all[..i], all[i]))
  }

  /** An outcome preceded by the responses `done`. */
  function After(done: seq<PushRecord>, r: Result<seq<PushRecord>, PushFailure>): Result<seq<PushRecord>, PushFailure> {
    match r
    case Success(rest) => Success(done + rest)
    case Failure(e) => Failure(PushFailure(done + e.performed, e.raised))
  }

  /** A pass's responses, then the outcome `rest` of the passes after it unless one of those responses raises. */
  function Then(records: seq<PushRecord>, rest: Result<seq<PushRecord>, PushFailure>, raises: (string, nat) -> bool)
    : Result<seq<PushRecord>, PushFailure>
  {
    match FirstRaise(records, raises)
    case Some(i) => Failure(PushFailure(records[..i], records[i]))
    case None => After(records, rest)
  }

  /**
   * The outcome of the while loop, given what one pass does, when the
   * dispatches `raises` names raise: a pass runs until its first raising
   * dispatch, which ends the push.
   */
  function PushedBy(pass: (seq<nat>, nat) -> PassOut, skids: seq<nat>, pid: nat, targetPid: nat, chain: bool, fuel: nat,
                    raises: (string, nat) -> bool): Result<seq<PushRecord>, PushFailure>
    decreases fuel
  {
    if skids == [] || fuel == 0 then Success([])
    else
      var p := pass(skids, pid);
      Then(p.records, PushedBy(pass, p.next, if chain then targetPid else pid, targetPid, chain, fuel - 1, raises), raises)
  }

  /** The outcome of the while loop when the dispatches `raises` names raise. */
  function Pushed(skids: seq<nat>, pid: nat, env: PushEnv, chain: bool, fuel: nat, raises: (string, nat) -> bool)
    : Result<seq<PushRecord>, PushFailure>
  {
    PushedBy(Pass(env, chain), skids, pid, env.targetPid, chain, fuel, raises)
  }

  /**
   * Which dispatches raise as written: the `translation of` entry calls
   * `translate_neurons_by_skid(skids, **kwargs)` without the required
   * `translation`, a TypeError, besides whatever the server makes raise.
   */
  function RaisesAsWritten(env: PushEnv): (string, nat) -> bool {
    (key: string, skid: nat) => key == TranslationKey || env.raises(key, skid)
  }

  // ---- The loops ----

  lemma {:induction false} FiredKeysSnoc(annot: string, keys: seq<string>, k: nat)
    requires k < |keys|
    ensures FiredKeys(annot, keys[..k + 1]) == FiredKeys(annot, keys[..k]) + (if Contains(annot, keys[k]) then [keys[k]] else [])
    decreases k
  {
    if k == 0 {
      assert keys[..1][1..] == [];
    } else {
      var t := keys[1..];
      assert keys[..k + 1][1..] == t[..k];
      assert keys[..k][1..] == t[..k - 1];
      FiredKeysSnoc(annot, t, k - 1);
    }
  }

  /** The loop over the relation keys, in order, with no break after a match. */
  method DispatchKeys(keys: seq<string>, annot: string, skid: nat, pid: nat, target: nat, env: PushEnv, chain: bool)
    returns (out: PassOut)
    ensures out == KeysOut(keys, annot, skid, pid, target, env, chain)
  {
    out := PassOut([], []);
    for k := 0 to |keys|
      invariant out == KeysOut(keys[..k], annot, skid, pid, target, env, chain)
    {
      assert keys[..k + 1][..k] == keys[..k];
      if Contains(annot, keys[k]) {
        var rec := KeyRecord(keys[k], annot, skid, pid, target, env);
        out := Join(out, PassOut([rec], if chain then [target] else []));
      }
    }
    assert keys[..|keys|] == keys;
  }

  /** The body of `for target_annot in target_annots`: look the annotation up, then dispatch. */
  method DispatchAnnotation(annot: string, skid: nat, pid: nat, env: PushEnv, chain: bool) returns (out: PassOut)
    ensures out == AnnotOut(annot, skid, pid, env, chain)
  {
    var matches := env.lookup(annot);
    if |matches| != 1 {
      out := PassOut([], []);
    } else {
      out := DispatchKeys(RelationKeys, annot, skid, pid, matches[0], env, chain);
    }
  }

  /** The body of `for skid in skids`: every escaped annotation linking to the skeleton, in order. */
  method PushSkid(skid: nat, pid: nat, env: PushEnv, chain: bool) returns (out: PassOut)
    ensures out == SkidOut(skid, pid, env, chain)
  {
    var annots := LinkAnnots(env.allTargetAnnots, skid, pid);
    out := PassOut([], []);
    for j := 0 to |annots|
      invariant out == AnnotsOut(annots[..j], skid, pid, env, chain)
    {
      var annotOut := DispatchAnnotation(annots[j], skid, pid, env, chain);
      assert annots[..j + 1][..j] == annots[..j];
      out := Join(out, annotOut);
    }
    assert annots[..|annots|] == annots;
  }

  /** One pass: for each skeleton, for each escaped annotation linking to it. */
  method PushPass(skids: seq<nat>, pid: nat, env: PushEnv, chain: bool) returns (out: PassOut)
    ensures out == PassOf(skids, pid, env, chain)
  {
    out := PassOut([], []);
    for k := 0 to |skids|
      invariant out == PassOf(skids[..k], pid, env, chain)
    {
      var skidOut := PushSkid(skids[k], pid, env, chain);
      assert skids[..k + 1][..k] == skids[..k];
      out := Join(out, skidOut);
    }
    assert skids[..|skids|] == skids;
  }

  /**
   * The body of the while loop: one pass from the handle's current project,
   * after which a chain switches the source project to the target. A pass
   * with a raising dispatch stops there, before the switch, and `failed`
   * says how the push ends. The ghost parameters carry the loop's account:
   * `plan` is the log of the whole push had nothing raised, of which
   * `responses` is done and `fuel` passes are left.
   */
  method PushTurn(handle: SourceHandle, current: seq<nat>, env: PushEnv, chain: bool, responses: seq<PushRecord>,
                  ghost fuel: nat, ghost plan: seq<PushRecord>)
    returns (pass: PassOut, failed: Option<PushFailure>)
    requires current != [] && fuel > 0
    requires FirstRaise(responses, env.raises).None?
    requires responses + Passes(current, handle.projectId, env, chain, fuel) == plan
    modifies handle
    ensures handle.projectId == if chain && failed.None? then env.targetPid else old(handle.projectId)
    ensures !chain ==> pass.next == []
    ensures failed.Some? ==> && Failure(failed.value) == Cut(plan, env.raises)
                             && failed.value.raised.Dispatched? && failed.value.raised.sourcePid == old(handle.projectId)
    ensures failed.None? ==> && FirstRaise(responses + pass.records, env.raises).None?
                             && (responses + pass.records) + Passes(pass.next, handle.projectId, env, chain, fuel - 1) == plan
  {
    var pid := handle.projectId;
    pass := PushPass(current, pid, env, chain);
    PassesStep(responses, current, pid, env, chain, fuel, plan);
    var raised := FirstRaise(pass.records, env.raises);
    if raised.Some? {
      failed := Some(PushFailure(responses + pass.records[..raised.value], pass.records[raised.value]));
      CutRaisesIn(responses, pass.records, Passes(pass.next, if chain then env.targetPid else pid, env, chain, fuel - 1), env.raises);
      PassSourcedFrom(current, pid, env, chain);
      assert pass.records[raised.value] in pass.records;
    } else {
      failed := None;
      FirstRaiseConcat(responses, pass.records, env.raises);
      if chain {
        handle.projectId := env.targetPid;
      }
    }
    if !chain {
      NoNextWithoutChain(current, pid, env);
    }
  }

  /**
   * `push_all_updates_by_skid`: the while loop, then the source project's
   * id put back. The id is switched to the target's between passes of a
   * chain; it is back to its first value on a normal return, and when a
   * dispatch raises it is left on the project that dispatch came from.
   */
  method PushAllUpdates(handle: SourceHandle, skids: seq<nat>, recurse: bool, fake: bool, env: PushEnv, maxPasses: nat)
    returns (r: Result<seq<PushRecord>, PushFailure>)
    modifies handle
    ensures r == Pushed(skids, old(handle.projectId), env, recurse && !fake, maxPasses, env.raises)
    ensures r.Success? ==> handle.projectId == old(handle.projectId)
    ensures r.Failure? ==> r.error.raised.Dispatched? && handle.projectId == r.error.raised.sourcePid
  {
    var chain := recurse && !fake;
    var original := handle.projectId;
    PushedCutsPasses(skids, original, env, chain, maxPasses, env.raises);
    r := PushLoop(handle, skids, env, chain, maxPasses, Passes(skids, original, env, chain, maxPasses));
    if r.Success? && chain {
      handle.projectId := original;
    }
  }

  /**
   * The while loop, for at most `maxPasses` passes: it writes the log
   * `plan` of the whole push up to its first raising dispatch.
   */
  method PushLoop(handle: SourceHandle, skids: seq<nat>, env: PushEnv, chain: bool, maxPasses: nat, ghost plan: seq<PushRecord>)
    returns (r: Result<seq<PushRecord>, PushFailure>)
    requires plan == Passes(skids, handle.projectId, env, chain, maxPasses)
    modifies handle
    ensures r == Cut(plan, env.raises)
    ensures r.Success? && !chain ==> handle.projectId == old(handle.projectId)
    ensures r.Failure? ==> r.error.raised.Dispatched? && handle.projectId == r.error.raised.sourcePid
  {
    var responses := [];
    var current := skids;
    var newSkids := skids;
    var fuel := maxPasses;
    while |newSkids| > 0 && fuel > 0
      invariant |newSkids| > 0 ==> newSkids == current
      invariant !chain ==> handle.projectId == old(handle.projectId)
      invariant FirstRaise(responses, env.raises).None?
      invariant responses + Passes(newSkids, handle.projectId, env, chain, fuel) == plan
      decreases fuel
    {
      var pass, failed := PushTurn(handle, current, env, chain, responses, fuel, plan);
      if failed.Some? {
        return Failure(failed.value);
      }
      responses := responses + pass.records;
      newSkids := pass.next;
      if chain {
        current := newSkids;
      }
      fuel := fuel - 1;
    }
    LoopDone(responses, newSkids, handle.projectId, env, chain, fuel, plan);
    r := Success(responses);
  }

  /** The loop ends with the whole plan written, none of it raising. */
  lemma LoopDone(responses: seq<PushRecord>, skids: seq<nat>, pid: nat, env: PushEnv, chain: bool, fuel: nat, plan: seq<PushRecord>)
    requires skids == [] || fuel == 0
    requires FirstRaise(responses, env.raises).None?
    requires responses + Passes(skids, pid, env, chain, fuel) == plan
    ensures Cut(plan, env.raises) == Success(responses)
  {
    assert responses + [] == responses;
  }

  /** One turn of the while loop, without a raise, moves one pass from the plan to the responses. */
  lemma PassesStep(done: seq<PushRecord>, skids: seq<nat>, pid: nat, env: PushEnv, chain: bool, fuel: nat, plan: seq<PushRecord>)
    requires skids != [] && fuel > 0
    requires done + Passes(skids, pid, env, chain, fuel) == plan
    ensures var p := PassOf(skids, pid, env, chain);
            (done + p.records) + Passes(p.next, if chain then env.targetPid else pid, env, chain, fuel - 1) == plan
  {
    var p := PassOf(skids, pid, env, chain);
    var rest := Passes(p.next, if chain then env.targetPid else pid, env, chain, fuel - 1);
    assert done + (p.records + rest) == (done + p.records) + rest;
  }

  /** A raise in the pass after a raise-free `done` cuts the plan there. */
  lemma CutRaisesIn(done: seq<PushRecord>, records: seq<PushRecord>, rest: seq<PushRecord>, raises: (string, nat) -> bool)
    requires FirstRaise(done, raises).None? && FirstRaise(records, raises).Some?
    ensures var i := FirstRaise(records, raises).value;
            Cut((done + records) + rest, raises) == Failure(PushFailure(done + records[..i], records[i]))
  {
    ThenCut(records, rest, raises);
    ThenCut(done, records + rest, raises);
    assert (done + records) + rest == done + (records + rest);
  }

  // ---- Properties ----

  /** Without a chain, no annotation yields skeletons to push next. */
  lemma {:induction false} NoNextWithoutChain(skids: seq<nat>, pid: nat, env: PushEnv)
    ensures PassOf(skids, pid, env, false).next == []
    decreases |skids|
  {
    if skids != [] {
      NoNextWithoutChain(skids[..|skids| - 1], pid, env);
      NoNextInAnnots(LinkAnnots(env.allTargetAnnots, skids[|skids| - 1], pid), skids[|skids| - 1], pid, env);
    }
  }

  lemma {:induction false} NoNextInAnnots(annots: seq<string>, skid: nat, pid: nat, env: PushEnv)
    ensures AnnotsOut(annots, skid, pid, env, false).next == []
    decreases |annots|
  {
    if annots != [] {
      NoNextInAnnots(annots[..|annots| - 1], skid, pid, env);
      var last := annots[|annots| - 1];
      if |env.lookup(last)| == 1 {
        KeysOutFired(RelationKeys, last, skid, pid, env.lookup(last)[0], env, false);
      }
    }
  }

  /** A response sent from project `pid`: a skip, or a transform run on a skeleton of that project. */
  predicate SourcedFrom(rec: PushRecord, pid: nat) {
    rec.Dispatched? ==> rec.sourcePid == pid
  }

  /** Every transform a pass from project `pid` runs is run from that project. */
  lemma {:induction false} PassSourcedFrom(skids: seq<nat>, pid: nat, env: PushEnv, chain: bool)
    ensures forall rec :: rec in PassOf(skids, pid, env, chain).records ==> SourcedFrom(rec, pid)
    decreases |skids|
  {
    if skids != [] {
      var last := skids[|skids| - 1];
      PassSourcedFrom(skids[..|skids| - 1], pid, env, chain);
      AnnotsSourcedFrom(LinkAnnots(env.allTargetAnnots, last, pid), last, pid, env, chain);
    }
  }

  lemma {:induction false} AnnotsSourcedFrom(annots: seq<string>, skid: nat, pid: nat, env: PushEnv, chain: bool)
    ensures forall rec :: rec in AnnotsOut(annots, skid, pid, env, chain).records ==> SourcedFrom(rec, pid)
    decreases |annots|
  {
    if annots != [] {
      var last := annots[|annots| - 1];
      AnnotsSourcedFrom(annots[..|annots| - 1], skid, pid, env, chain);
      if |env.lookup(last)| == 1 {
        var target := env.lookup(last)[0];
        KeysOutFired(RelationKeys, last, skid, pid, target, env, chain);
        var records := KeyRecords(FiredKeys(last, RelationKeys), last, skid, pid, target, env);
        assert forall i :: 0 <= i < |records| ==> SourcedFrom(records[i], pid);
      }
    }
  }

  /** Every transform a pass runs is run from the project the pass is made from. */
  ghost predicate FromItsProject(pass: (seq<nat>, nat) -> PassOut) {
    forall skids: seq<nat>, pid: nat, rec :: rec in pass(skids, pid).records ==> SourcedFrom(rec, pid)
  }

  lemma PassFromItsProject(env: PushEnv, chain: bool)
    ensures FromItsProject(Pass(env, chain))
  {
    forall skids: seq<nat>, pid: nat
      ensures forall rec :: rec in Pass(env, chain)(skids, pid).records ==> SourcedFrom(rec, pid)
    {
      PassSourcedFrom(skids, pid, env, chain);
    }
  }

  lemma {:induction false} PassesBySourcedFrom(pass: (seq<nat>, nat) -> PassOut, skids: seq<nat>, pid: nat, targetPid: nat, chain: bool, fuel: nat)
    requires FromItsProject(pass)
    ensures forall rec :: rec in PassesBy(pass, skids, pid, targetPid, chain, fuel) ==> SourcedFrom(rec, pid) || (chain && SourcedFrom(rec, targetPid))
    decreases fuel
  {
    if skids != [] && fuel > 0 {
      PassesBySourcedFrom(pass, pass(skids, pid).next, if chain then targetPid else pid, targetPid, chain, fuel - 1);
    }
  }

  /** Every transform the loop runs is run from the source project or, in a chain, from the target. */
  lemma PassesSourcedFrom(skids: seq<nat>, pid: nat, env: PushEnv, chain: bool, fuel: nat)
    ensures forall rec :: rec in Passes(skids, pid, env, chain, fuel) ==> SourcedFrom(rec, pid) || (chain && SourcedFrom(rec, env.targetPid))
  {
    PassFromItsProject(env, chain);
    PassesBySourcedFrom(Pass(env, chain), skids, pid, env.targetPid, chain, fuel);
  }

  /** The dispatch that ends a push comes from the source project or, in a chain, from the target. */
  lemma PushedRaisedFrom(skids: seq<nat>, pid: nat, env: PushEnv, chain: bool, fuel: nat, raises: (string, nat) -> bool)
    ensures var r := Pushed(skids, pid, env, chain, fuel, raises);
            r.Failure? ==> r.error.raised.Dispatched? && (r.error.raised.sourcePid == pid || (chain && r.error.raised.sourcePid == env.targetPid))
  {
    var all := Passes(skids, pid, env, chain, fuel);
    PushedCutsPasses(skids, pid, env, chain, fuel, raises);
    PassesSourcedFrom(skids, pid, env, chain, fuel);
    if FirstRaise(all, raises).Some? {
      assert all[FirstRaise(all, raises).value] in all;
    }
  }

  /** How a pass's responses end a push that goes on with `rest`. */
  lemma ThenRaised(records: seq<PushRecord>, rest: Result<seq<PushRecord>, PushFailure>, raises: (string, nat) -> bool)
    ensures var r := Then(records, rest, raises);
            r.Failure? ==> if FirstRaise(records, raises).Some? then r.error.raised in records
                           else rest.Failure? && r.error.raised == rest.error.raised
  {
    if FirstRaise(records, raises).Some? {
      assert records[FirstRaise(records, raises).value] in records;
    }
  }

  /**
   * Where a raise leaves the source handle: on the source project when the
   * first pass raises, and on the target project when a later pass does.
   */
  lemma LeftOnRaisingProject(skids: seq<nat>, pid: nat, env: PushEnv, chain: bool, fuel: nat, raises: (string, nat) -> bool)
    ensures var r := Pushed(skids, pid, env, chain, fuel, raises);
            r.Failure? ==> r.error.raised.Dispatched? && r.error.raised.sourcePid == if FirstRaise(PassOf(skids, pid, env, chain).records, raises).Some? then pid else env.targetPid
  {
    if skids != [] && fuel > 0 {
      var p := PassOf(skids, pid, env, chain);
      var npid := if chain then env.targetPid else pid;
      PassSourcedFrom(skids, pid, env, chain);
      if !chain {
        NoNextWithoutChain(skids, pid, env);
      }
      PushedRaisedFrom(p.next, npid, env, chain, fuel - 1, raises);
      ThenRaised(p.records, Pushed(p.next, npid, env, chain, fuel - 1, raises), raises);
    }
  }

  /** Unless `recurse` is set and `fake` is off, the loop makes exactly one pass (none for no skeletons). */
  lemma OnePassUnlessChain(skids: seq<nat>, pid: nat, env: PushEnv, fuel: nat)
    requires fuel > 0
    ensures Passes(skids, pid, env, false, fuel) == PassOf(skids, pid, env, false).records
  {
    NoNextWithoutChain(skids, pid, env);
    if skids == [] {
      assert PassOf(skids, pid, env, false).records == [];
    } else {
      var p := Pass(env, false)(skids, pid);
      assert p == PassOf(skids, pid, env, false);
      assert PassesBy(Pass(env, false), p.next, pid, env.targetPid, false, fuel - 1) == [];
    }
  }

  lemma {:induction false} FirstRaiseConcat(a: seq<PushRecord>, b: seq<PushRecord>, raises: (string, nat) -> bool)
    ensures FirstRaise(a + b, raises) == match FirstRaise(a, raises)
                                         case Some(i) => Some(i)
                                         case None => match FirstRaise(b, raises)
                                                      case None => None
                                                      case Some(j) => Some(|a| + j)
    decreases |a|
  {
    if a == [] {
      assert a + b == b;
    } else {
      assert (a + b)[1..] == a[1..] + b;
      FirstRaiseConcat(a[1..], b, raises);
    }
  }

  /** A pass followed by the cut of the later responses is the cut of them all. */
  lemma ThenCut(records: seq<PushRecord>, rest: seq<PushRecord>, raises: (string, nat) -> bool)
    ensures Then(records, Cut(rest, raises), raises) == Cut(records + rest, raises)
  {
    FirstRaiseConcat(records, rest, raises);
    match FirstRaise(records, raises)
    case Some(i) =>
      assert (records + rest)[..i] == records[..i];
    case None =>
      match FirstRaise(rest, raises)
      case None =>
      case Some(j) =>
        assert (records + rest)[..|records| + j] == records + rest[..j];
  }

  lemma {:induction false} PushedByCutsPassesBy(pass: (seq<nat>, nat) -> PassOut, skids: seq<nat>, pid: nat, targetPid: nat, chain: bool, fuel: nat,
                                                raises: (string, nat) -> bool)
    ensures PushedBy(pass, skids, pid, targetPid, chain, fuel, raises) == Cut(PassesBy(pass, skids, pid, targetPid, chain, fuel), raises)
    decreases fuel
  {
    if skids != [] && fuel > 0 {
      var p := pass(skids, pid);
      var npid := if chain then targetPid else pid;
      PushedByCutsPassesBy(pass, p.next, npid, targetPid, chain, fuel - 1, raises);
      ThenCut(p.records, PassesBy(pass, p.next, npid, targetPid, chain, fuel - 1), raises);
    }
  }

  /**
   * A push ends at the first raising dispatch of the log it would have
   * written had nothing raised: it returns that whole log when no dispatch
   * of it raises, and otherwise fails with the dispatches before the first
   * raising one.
   */
  lemma PushedCutsPasses(skids: seq<nat>, pid: nat, env: PushEnv, chain: bool, fuel: nat, raises: (string, nat) -> bool)
    ensures Pushed(skids, pid, env, chain, fuel, raises) == Cut(Passes(skids, pid, env, chain, fuel), raises)
  {
    PushedByCutsPassesBy(Pass(env, chain), skids, pid, env.targetPid, chain, fuel, raises);
  }

  /** When no transform call raises, the push returns the whole log. */
  lemma NothingRaisesPushesAll(skids: seq<nat>, pid: nat, env: PushEnv, chain: bool, fuel: nat)
    requires forall key: string, skid: nat :: !env.raises(key, skid)
    ensures Pushed(skids, pid, env, chain, fuel, env.raises) == Success(Passes(skids, pid, env, chain, fuel))
  {
    PushedCutsPasses(skids, pid, env, chain, fuel, env.raises);
  }

  /** A `translation of` annotation naming one target skeleton, with no skip dates, dispatches the translation. */
  lemma TranslationAnnotationDispatches(annot: string, skid: nat, pid: nat, env: PushEnv, chain: bool)
    requires |env.lookup(annot)| == 1 && env.skipDates == []
    requires TranslationKey in FiredKeys(annot, RelationKeys)
    ensures Dispatched(TranslationKey, skid, pid) in AnnotOut(annot, skid, pid, env, chain).records
  {
    EveryContainedKeyFires(annot, skid, pid, env, chain);
    var fired := FiredKeys(annot, RelationKeys);
    var i :| 0 <= i < |fired| && fired[i] == TranslationKey;
    assert AnnotOut(annot, skid, pid, env, chain).records[i] == Dispatched(TranslationKey, skid, pid);
  }

  /** The first pass from one skeleton whose only linking annotation is `annot` is that annotation's output. */
  lemma SingleLinkPass(annot: string, skid: nat, pid: nat, env: PushEnv, chain: bool)
    requires LinkAnnots(env.allTargetAnnots, skid, pid) == [annot]
    ensures PassOf([skid], pid, env, chain).records == AnnotOut(annot, skid, pid, env, chain).records
  {
    assert [skid][..0] == [];
    assert [annot][..0] == [];
    var out := AnnotOut(annot, skid, pid, env, chain);
    assert AnnotsOut([annot], skid, pid, env, chain).records == [] + out.records;
    assert PassOf([skid], pid, env, chain).records == [] + out.records;
  }

  /**
   * As written, the `translation of` entry calls `translate_neurons_by_skid`
   * without its required `translation` argument, so a push that reaches a
   * translation link raises instead of updating it; when nothing else
   * raises, the raising call is that translation.
   */
  lemma TranslationPushRaisesAsWritten(annot: string, skid: nat, pid: nat, env: PushEnv, chain: bool, fuel: nat)
    requires fuel > 0 && LinkAnnots(env.allTargetAnnots, skid, pid) == [annot]
    requires |env.lookup(annot)| == 1 && env.skipDates == []
    requires TranslationKey in FiredKeys(annot, RelationKeys)
    ensures var r := Pushed([skid], pid, env, chain, fuel, RaisesAsWritten(env));
            && r.Failure?
            && ((forall key: string, s: nat :: !env.raises(key, s)) ==> r.error.raised == Dispatched(TranslationKey, skid, pid))
  {
    SingleLinkPass(annot, skid, pid, env, chain);
    AnnotRaisesAsWritten(annot, skid, pid, env, chain);
    PushedFirstPassRaises([skid], pid, env, chain, fuel, RaisesAsWritten(env));
  }

  /** The responses of such an annotation hold a dispatch that raises as written: the translation, when nothing else raises. */
  lemma AnnotRaisesAsWritten(annot: string, skid: nat, pid: nat, env: PushEnv, chain: bool)
    requires |env.lookup(annot)| == 1 && env.skipDates == []
    requires TranslationKey in FiredKeys(annot, RelationKeys)
    ensures var records := AnnotOut(annot, skid, pid, env, chain).records;
            var first := FirstRaise(records, RaisesAsWritten(env));
            && first.Some?
            && ((forall key: string, s: nat :: !env.raises(key, s)) ==> records[first.value] == Dispatched(TranslationKey, skid, pid))
  {
    var raises := RaisesAsWritten(env);
    var records := AnnotOut(annot, skid, pid, env, chain).records;
    TranslationAnnotationDispatches(annot, skid, pid, env, chain);
    EveryContainedKeyFires(annot, skid, pid, env, chain);
    var k :| 0 <= k < |records| && records[k] == Dispatched(TranslationKey, skid, pid);
    assert RaisesOn(records[k], raises);
  }

  /** A first pass with a raising dispatch fails the push there. */
  lemma PushedFirstPassRaises(skids: seq<nat>, pid: nat, env: PushEnv, chain: bool, fuel: nat, raises: (string, nat) -> bool)
    requires skids != [] && fuel > 0
    requires FirstRaise(PassOf(skids, pid, env, chain).records, raises).Some?
    ensures var records := PassOf(skids, pid, env, chain).records;
            var i := FirstRaise(records, raises).value;
            Pushed(skids, pid, env, chain, fuel, raises) == Failure(PushFailure(records[..i], records[i]))
  {
  }

  /**
   * Corrected: with the translation passed through, the same push updates
   * the translation and goes on, when no transform call raises.
   */
  lemma TranslationPushDispatches(annot: string, skid: nat, pid: nat, env: PushEnv, chain: bool, fuel: nat)
    requires fuel > 0 && LinkAnnots(env.allTargetAnnots, skid, pid) == [annot]
    requires |env.lookup(annot)| == 1 && env.skipDates == []
    requires TranslationKey in FiredKeys(annot, RelationKeys)
    requires forall key: string, s: nat :: !env.raises(key, s)
    ensures var r := Pushed([skid], pid, env, chain, fuel, env.raises);
            r.Success? && Dispatched(TranslationKey, skid, pid) in r.value
  {
    NothingRaisesPushesAll([skid], pid, env, chain, fuel);
    SingleLinkPass(annot, skid, pid, env, chain);
    TranslationAnnotationDispatches(annot, skid, pid, env, chain);
  }

  /**
   * No break after the first key: an annotation naming exactly one target
   * skeleton gives one response per key it contains, in key order, and the
   * response is the transform unless a skip date is found.
   */
  lemma EveryContainedKeyFires(annot: string, skid: nat, pid: nat, env: PushEnv, chain: bool)
    requires |env.lookup(annot)| == 1
    ensures var out := AnnotOut(annot, skid, pid, env, chain);
            var fired := FiredKeys(annot, RelationKeys);
            && |out.records| == |fired|
            && forall i :: 0 <= i < |fired| ==>
                 out.records[i] == (if |env.skipDates| == 0 || !DateSkipped(env, env.lookup(annot)[0])
                                    then Dispatched(fired[i], skid, pid) else Skipped(annot))
  {
    KeysOutFired(RelationKeys, annot, skid, pid, env.lookup(annot)[0], env, chain);
  }

  /** The key loop yields one response per fired key, in order, and (in a chain) the target once per fired key. */
  lemma {:induction false} KeysOutFired(keys: seq<string>, annot: string, skid: nat, pid: nat, target: nat, env: PushEnv, chain: bool)
    ensures var out := KeysOut(keys, annot, skid, pid, target, env, chain);
            var fired := FiredKeys(annot, keys);
            && out.records == KeyRecords(fired, annot, skid, pid, target, env)
            && out.next == (if chain then seq(|fired|, _ => target) else [])
    decreases |keys|
  {
    if keys != [] {
      var n := |keys| - 1;
      var prev := FiredKeys(annot, keys[..n]);
      KeysOutFired(keys[..n], annot, skid, pid, target, env, chain);
      FiredKeysSnoc(annot, keys, n);
      assert keys[..n + 1] == keys;
      if Contains(annot, keys[n]) {
        KeyRecordsSnoc(prev, keys[n], annot, skid, pid, target, env);
        assert seq(|prev|, _ => target) + [target] == seq(|prev| + 1, _ => target);
      }
    }
  }

  lemma KeyRecordsSnoc(fired: seq<string>, key: string, annot: string, skid: nat, pid: nat, target: nat, env: PushEnv)
    ensures KeyRecords(fired + [key], annot, skid, pid, target, env)
            == KeyRecords(fired, annot, skid, pid, target, env) + [KeyRecord(key, annot, skid, pid, target, env)]
  {
  }

  /** An annotation naming no target skeleton, or several, is passed over. */
  lemma AmbiguousAnnotationSkipped(annot: string, skid: nat, pid: nat, env: PushEnv, chain: bool)
    requires |env.lookup(annot)| != 1
    ensures AnnotOut(annot, skid, pid, env, chain) == PassOut([], [])
  {
  }

  /** Without skip dates, every fired key runs its transform; with a matching date, none does. */
  lemma SkipDatesDecide(annot: string, skid: nat, pid: nat, env: PushEnv, chain: bool)
    requires |env.lookup(annot)| == 1
    ensures |env.skipDates| == 0 ==>
              forall r :: r in AnnotOut(annot, skid, pid, env, chain).records ==> r.Dispatched? && r.sourceSkid == skid
    ensures DateSkipped(env, env.lookup(annot)[0]) ==>
              forall r :: r in AnnotOut(annot, skid, pid, env, chain).records ==> r == Skipped(annot)
  {
    var out := AnnotOut(annot, skid, pid, env, chain);
    EveryContainedKeyFires(annot, skid, pid, env, chain);
    forall r | r in out.records
      ensures |env.skipDates| == 0 ==> r.Dispatched? && r.sourceSkid == skid
      ensures DateSkipped(env, env.lookup(annot)[0]) ==> r == Skipped(annot)
    {
      var i :| 0 <= i < |out.records| && out.records[i] == r;
      if DateSkipped(env, env.lookup(annot)[0]) {
        var a, d :| a in env.targetAnnotations(env.lookup(annot)[0]) && d in env.skipDates && Contains(a, d);
        assert |env.skipDates| > 0;
      }
    }
  }

  /**
   * A linking annotation that the uploader wrote with one of the code's own
   * relations makes the pusher run that relation's transform again: the
   * relation's key is among the keys it fires.
   */
  lemma OwnRelationFires(relation: string, key: string, skid: nat, pid: nat, server: string)
    requires relation != "" && key in RelationKeys && Contains(Escaped(relation, ParenChars), key)
    ensures key in FiredKeys(Escaped(LinkingAnnotation(relation, skid, pid, server), ParenChars), RelationKeys)
  {
    KeyFiresOnLinkingAnnotation(relation, key, skid, pid, server);
  }

  /** The escaped copy relation is the copy key, so a copy's linking annotation re-runs the copy. */
  lemma CopyLinkRerunsCopy(skid: nat, pid: nat, server: string)
    ensures CopyKey in FiredKeys(Escaped(LinkingAnnotation(CopyRelation, skid, pid, server), ParenChars), RelationKeys)
  {
    CopyRelationEscapesToKey();
    ContainsSelf(CopyKey);
    OwnRelationFires(CopyRelation, CopyKey, skid, pid, server);
  }

  // ---- find_desyncs ----

  /** `[a for a in annots if a.startswith('LINKED NEURON')]`. */
  function Tagged(annots: seq<string>): (r: seq<string>)
    ensures forall a :: a in r <==> a in annots && LinkedTag <= a
  {
    if annots == [] then []
    else (if LinkedTag <= annots[0] then [annots[0]] else []) + Tagged(annots[1..])
  }

  function ExtractAll(annots: seq<string>): (r: Option<seq<string>>)
    ensures r.Some? ==> |r.value| == |annots|
    ensures r.Some? <==> forall a :: a in annots ==> ExtractSkid(a).Some?
  {
    if annots == [] then Some([])
    else match (ExtractSkid(annots[0]), ExtractAll(annots[1..]))
      case (Some(s), Some(rest)) => Some([s] + rest)
      case _ => None
  }

  datatype DesyncError = IndexError | AssertionError

  /**
   * The linked source skeleton of a target neuron, as `find_desyncs` reads
   * it: every tagged annotation is split (an IndexError when one has no
   * `skeleton id `), then exactly one must be tagged.
   */
  function LinkedSkidOf(annots: seq<string>): Result<string, DesyncError> {
    match ExtractAll(Tagged(annots))
    case None => Failure(IndexError)
    case Some(skids) => if |skids| != 1 then Failure(AssertionError) else Success(skids[0])
  }

  /**
   * A target neuron whose only tagged annotation is the linking annotation
   * of its source reads back that source's skeleton id.
   */
  lemma LinkedSkidOfLinkedNeuron(annots: seq<string>, relation: string, skid: nat, pid: nat, server: string)
    requires !Contains(relation + " ", SkeletonIdLabel)
    requires Tagged(annots) == [LinkingAnnotation(relation, skid, pid, server)]
    ensures LinkedSkidOf(annots) == Success(NatToString(skid))
  {
    ExtractSkidRoundTrip(relation, skid, pid, server);
  }

  /**
   * More than one tagged annotation fails: with the assertion when each
   * of them names a skeleton id, with the index error otherwise.
   */
  lemma SeveralTaggedFails(annots: seq<string>)
    requires |Tagged(annots)| > 1
    ensures (forall a :: a in Tagged(annots) ==> ExtractSkid(a).Some?) ==> LinkedSkidOf(annots) == Failure(AssertionError)
    ensures (exists a :: a in Tagged(annots) && ExtractSkid(a).None?) ==> LinkedSkidOf(annots) == Failure(IndexError)
  {
  }
}
