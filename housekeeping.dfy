/**
 * `housekeeping.py`: choosing the project to work on, finding and
 * deleting connectors that link to nothing, and purging annotations that
 * no neuron uses. Server calls are recorded as `HouseAction` values;
 * the server's answers and the console's are inputs.
 */
module Housekeeping {
  import opened Wrappers
  import opened Text
  import opened Escapes

  /** A project handle, identified by its project id. */
  datatype Instance = Instance(projectId: nat)

  /** The `remote_instance` argument: None, a name, or a handle. */
  datatype RemoteArg = NoArg | Name(name: string) | Given(instance: Instance)

  /**
   * `None` and 'source' mean the source project, 'target' the target
   * project, which is None when the connection has none; anything else is
   * used as given.
   */
  function Resolve(arg: RemoteArg, source: Instance, target: Option<Instance>): (r: RemoteArg)
    ensures arg == NoArg || arg == Name("source") ==> r == Given(source)
    ensures arg == Name("target") && target.Some? ==> r == Given(target.value)
    ensures arg == Name("target") && target.None? ==> r == NoArg
    ensures arg != NoArg && arg != Name("source") && arg != Name("target") ==> r == arg
  {
    if arg == NoArg || arg == Name("source") then Given(source)
    else if arg == Name("target") then (if target.Some? then Given(target.value) else NoArg)
    else arg
  }

  /**
   * `delete_unlinked_connectors` resolves and hands the result to
   * `find_unlinked_connectors`, which resolves again: a project resolves to
   * itself, and only a missing target, now None, would become the source.
   */
  lemma ResolveIdempotent(arg: RemoteArg, source: Instance, target: Option<Instance>)
    ensures var once := Resolve(arg, source, target);
            Resolve(once, source, target) == if once == NoArg then Given(source) else once
  {
  }

  // ---- Unlinked connectors ----

  /** A row of `get_connectors(None)`: the id and the (possibly null) type. */
  datatype ConnectorRow = ConnectorRow(id: nat, ctype: Option<string>)

  /** `connector_id[type.isnull()]`, in table order. */
  function Unlinked(rows: seq<ConnectorRow>): (r: seq<nat>)
    ensures |r| <= |rows|
  {
    if rows == [] then [] else (if rows[0].ctype.None? then [rows[0].id] else []) + Unlinked(rows[1..])
  }

  /** The ids returned are exactly those of the connectors whose type is null. */
  lemma {:induction false} UnlinkedIff(rows: seq<ConnectorRow>, id: nat)
    ensures id in Unlinked(rows) <==> exists c :: c in rows && c.ctype.None? && c.id == id
    decreases |rows|
  {
    if rows != [] {
      UnlinkedIff(rows[1..], id);
      assert forall c :: c in rows <==> c == rows[0] || c in rows[1..];
    }
  }

  /** The filter keeps table order: the unlinked ids of two tables one after the other are those of each, in turn. */
  lemma {:induction false} UnlinkedConcat(a: seq<ConnectorRow>, b: seq<ConnectorRow>)
    ensures Unlinked(a + b) == Unlinked(a) + Unlinked(b)
  {
    if a == [] {
      assert a + b == b;
    } else {
      var head := if a[0].ctype.None? then [a[0].id] else [];
      assert (a + b)[0] == a[0];
      assert (a + b)[1..] == a[1..] + b;
      UnlinkedConcat(a[1..], b);
      calc {
        Unlinked(a + b);
        head + Unlinked(a[1..] + b);
        head + (Unlinked(a[1..]) + Unlinked(b));
        (head + Unlinked(a[1..])) + Unlinked(b);
        Unlinked(a) + Unlinked(b);
      }
    }
  }

  datatype HouseAction =
    | DeleteConnector(id: nat, project: Instance)   // pymaid.delete_nodes(id, 'CONNECTOR')
    | AddAnnotation(skid: nat, annotation: string)
    | RemoveAnnotation(skid: nat, annotation: string)

  datatype HouseError =
    | NotAnInstance   // AttributeError: a project name other than 'source' or 'target' stays a string, and a missing target is None
    | NoDummyNeuron   // ValueError: no dummy neuron for the project

  predicate Confirms(answer: string) {
    answer == "Y" || answer == "y"
  }

  /**
   * `delete_unlinked_connectors`: a project name other than 'source' or
   * 'target' is left a string, and 'target' without a target project is
   * None; neither has `clear_cache`, which raises. Otherwise
   * nothing happens when there are no unlinked connectors or the answer is
   * not Y/y, and one deletion per unlinked connector, in order, after it.
   */
  method DeleteUnlinkedConnectors(arg: RemoteArg, source: Instance, target: Option<Instance>, rows: seq<ConnectorRow>, answer: string)
    returns (r: Result<seq<HouseAction>, HouseError>)
    ensures Resolve(arg, source, target).Given? <==> r.Success?
    ensures r.Failure? ==> r.error == NotAnInstance
    ensures r.Success? && (|Unlinked(rows)| == 0 || !Confirms(answer)) ==> r.value == []
    ensures r.Success? && |Unlinked(rows)| > 0 && Confirms(answer) ==>
              |r.value| == |Unlinked(rows)|
              && forall i :: 0 <= i < |r.value| ==>
                   r.value[i] == DeleteConnector(Unlinked(rows)[i], Resolve(arg, source, target).instance)
  {
    var remote := Resolve(arg, source, target);
    if !remote.Given? {
      return Failure(NotAnInstance);
    }
    var ids := Unlinked(rows);
    var actions := [];
    if |ids| == 0 || !Confirms(answer) {
      return Success(actions);
    }
    for i := 0 to |ids|
      invariant |actions| == i
      invariant forall j :: 0 <= j < i ==> actions[j] == DeleteConnector(ids[j], remote.instance)
    {
      actions := actions + [DeleteConnector(ids[i], remote.instance)];
    }
    r := Success(actions);
  }

  // ---- Purging unused annotations ----

  /** The dummy neuron of each known project, by project id. */
  function DummySkid(pid: nat): (r: Option<nat>)
    ensures r.Some? <==> pid in {2, 13, 38, 59}
  {
    if pid == 2 then Some(6401)
    else if pid == 13 then Some(120221)
    else if pid == 38 then Some(352154)
    else if pid == 59 then Some(665257)
    else None
  }

  /** An unused annotation is purged when forced, or when the answer, lower-cased, is 'y'. */
  predicate Purges(escaped: string, used: string -> nat, force: bool, answer: string -> string) {
    used(escaped) == 0 && (force || Lower(answer(escaped)) == "y")
  }

  /** The add-then-remove pairs for the annotation names, in order. */
  function PurgeActions(names: seq<string>, tmp: nat, used: string -> nat, force: bool, answer: string -> string): (r: seq<HouseAction>)
    ensures |r| % 2 == 0
  {
    if names == [] then []
    else
      var name := names[|names| - 1];
      PurgeActions(names[..|names| - 1], tmp, used, force, answer)
      + (if Purges(Escaped(name, RegexChars), used, force, answer) then [AddAnnotation(tmp, name), RemoveAnnotation(tmp, name)] else [])
  }

  lemma RegexCharsUsable()
    ensures Backslash !in RegexChars && Distinct(RegexChars)
  {
  }

  /**
   * `purge_unused_annotations`: the project argument is resolved as above,
   * and reading `project_id` from an unresolved one raises; the check on the
   * dummy-neuron table comes before any lookup; then each name is escaped,
   * its uses counted, and an unused one is attached to the dummy neuron and
   * detached again.
   */
  method PurgeUnusedAnnotations(arg: RemoteArg, source: Instance, target: Option<Instance>, names: seq<string>,
                                used: string -> nat, force: bool, answer: string -> string)
    returns (r: Result<seq<HouseAction>, HouseError>)
    ensures !Resolve(arg, source, target).Given? ==> r == Failure(NotAnInstance)
    ensures Resolve(arg, source, target).Given? ==>
              var pid := Resolve(arg, source, target).instance.projectId;
              && (DummySkid(pid).None? ==> r == Failure(NoDummyNeuron))
              && (DummySkid(pid).Some? ==> r == Success(PurgeActions(names, DummySkid(pid).value, used, force, answer)))
  {
    var remote := Resolve(arg, source, target);
    if !remote.Given? {
      return Failure(NotAnInstance);
    }
    var pid := remote.instance.projectId;
    var tmp := DummySkid(pid);
    if tmp.None? {
      return Failure(NoDummyNeuron);
    }
    RegexCharsUsable();
    var actions: seq<HouseAction> := [];
    for i := 0 to |names|
      invariant actions == PurgeActions(names[..i], tmp.value, used, force, answer)
    {
      assert names[..i + 1][..i] == names[..i];
      var escaped := AddEscapes(names[i], RegexChars);
      var count := used(escaped);
      if count > 0 {
        continue;
      }
      if !force && Lower(answer(escaped)) != "y" {
        continue;
      }
      actions := actions + [AddAnnotation(tmp.value, names[i]), RemoveAnnotation(tmp.value, names[i])];
    }
    assert names[..|names|] == names;
    r := Success(actions);
  }

  /**
   * An annotation is attached to the dummy neuron exactly when it is in the
   * list, unused, and purging it is forced or confirmed; so an annotation in
   * use is never touched.
   */
  lemma {:induction false} PurgedExactly(names: seq<string>, tmp: nat, used: string -> nat, force: bool, answer: string -> string, a: string)
    ensures AddAnnotation(tmp, a) in PurgeActions(names, tmp, used, force, answer) <==>
              a in names && Purges(Escaped(a, RegexChars), used, force, answer)
    decreases |names|
  {
    if names != [] {
      var init := names[..|names| - 1];
      PurgedExactly(init, tmp, used, force, answer, a);
      assert forall x :: x in names <==> x in init || x == names[|names| - 1];
    }
  }

  /** Every attachment is immediately followed by the detachment of the same annotation. */
  lemma {:induction false} PurgeActionsPaired(names: seq<string>, tmp: nat, used: string -> nat, force: bool, answer: string -> string)
    ensures var r := PurgeActions(names, tmp, used, force, answer);
            forall j :: 0 <= j < |r| && j % 2 == 0 ==>
              j + 1 < |r| && r[j].AddAnnotation? && r[j].skid == tmp && r[j + 1] == RemoveAnnotation(tmp, r[j].annotation)
    decreases |names|
  {
    if names != [] {
      var prev := PurgeActions(names[..|names| - 1], tmp, used, force, answer);
      var r := PurgeActions(names, tmp, used, force, answer);
      PurgeActionsPaired(names[..|names| - 1], tmp, used, force, answer);
      forall j | 0 <= j < |r| && j % 2 == 0
        ensures j + 1 < |r| && r[j].AddAnnotation? && r[j].skid == tmp && r[j + 1] == RemoveAnnotation(tmp, r[j].annotation)
      {
        if j < |prev| {
          assert r[j] == prev[j] && r[j + 1] == prev[j + 1];
        } else {
          var name := names[|names| - 1];
          assert r == prev + [AddAnnotation(tmp, name), RemoveAnnotation(tmp, name)];
          assert j == |prev|;
        }
      }
    }
  }

  // ---- The annotation the source purges ----

  /** As written, the annotation attached and detached is `remove_escapes(add_escapes(name))`. */
  function PurgedAnnotationAsWritten(name: string): string {
    Unescaped(Escaped(name, RegexChars))
  }

  /** For names without a backslash this is the name itself, as `PurgeUnusedAnnotations` has it. */
  lemma PurgedAnnotationAsWrittenWithoutBackslash(name: string)
    requires Backslash !in name
    ensures PurgedAnnotationAsWritten(name) == name
  {
    UnescapeEscaped(name, RegexChars);
  }

  /** The unused annotation `a\b` makes the as-written code attach and detach `ab` instead. */
  lemma BackslashNamePurgesAnother()
    ensures PurgedAnnotationAsWritten("a\\b") == "ab"
  {
    EscapedBackslashName();
    assert Unescaped("b") == "b";
    assert Unescaped("\\b") == "b";
  }

  lemma EscapedBackslashName()
    ensures Escaped("a\\b", RegexChars) == "a\\b"
  {
    assert Escaped("b", RegexChars) == "b";
    assert Escaped("\\b", RegexChars) == "\\b";
  }
}
