/**
 * `connections.py`: the nickname table for connection configs, the checks
 * `connect_to_catmaid` makes on a loaded config, and the project-id
 * getters and setters on the global project handles. Reading files and
 * creating client instances are not modelled; a config is the map that
 * `json.load` returns.
 */
module Connections {
  import opened Wrappers
  import opened Text

  // ---- Nicknames ----

  const BuiltinNicknames: map<string, string> := map[
    "fafb" := "virtualflybrain_FAFB.json",
    "brain" := "virtualflybrain_FAFB.json",
    "fanc" := "virtualflybrain_FANC.json",
    "vnc" := "virtualflybrain_FANC.json",
    "larva" := "virtualflybrain_L1larva.json",
    "l1" := "virtualflybrain_L1larva.json"]

  /** The module-level `connection_nicknames` dictionary. */
  class NicknameTable {
    var entries: map<string, string>

    constructor()
      ensures entries == BuiltinNicknames
    {
      entries := BuiltinNicknames;
    }

    /** `connection_nicknames.update(custom)`: custom entries win over built-in ones with the same key. */
    method Update(custom: map<string, string>)
      modifies this
      ensures entries == old(entries) + custom
      ensures forall k :: k in custom ==> entries[k] == custom[k]
      ensures forall k :: k in old(entries) && k !in custom ==> k in entries && entries[k] == old(entries)[k]
    {
      entries := entries + custom;
    }

    /** The config file name for a name or nickname: the table entry for its lower-case form, else the name itself. */
    function ConfigFileFor(name: string): (r: string)
      reads this
      ensures Lower(name) in entries ==> r == entries[Lower(name)]
      ensures Lower(name) !in entries ==> r == name
    {
      if Lower(name) in entries then entries[Lower(name)] else name
    }
  }

  /** With the built-in table, 'FANC' and 'vnc' name the same config file. */
  lemma NicknamesIgnoreCase(t: NicknameTable)
    requires t.entries == BuiltinNicknames
    ensures t.ConfigFileFor("FANC") == "virtualflybrain_FANC.json"
    ensures t.ConfigFileFor("vnc") == "virtualflybrain_FANC.json"
  {
    assert Lower("FANC") == "fanc";
    assert Lower("vnc") == "vnc";
  }

  /** Lower-casing is idempotent, so a name and its lower-case form resolve alike. */
  lemma ConfigFileForLowerCase(t: NicknameTable, name: string)
    requires Lower(name) in t.entries
    ensures t.ConfigFileFor(Lower(name)) == t.ConfigFileFor(name)
  {
    assert Lower(Lower(name)) == Lower(name);
  }

  // ---- The config ----

  /** A JSON value as `json.load` returns it. */
  datatype JsonValue =
    | JNull
    | JBool(b: bool)
    | JInt(i: int)
    | JFloat(f: real)
    | JString(s: string)
    | JArray(items: seq<JsonValue>)
    | JObject(fields: map<string, JsonValue>)

  /** Python truthiness: null, false, zero and every empty string, list and dict count as missing. */
  predicate Truthy(v: JsonValue) {
    match v
    case JNull => false
    case JBool(b) => b
    case JInt(i) => i != 0
    case JFloat(f) => f != 0.0
    case JString(s) => s != ""
    case JArray(items) => items != []
    case JObject(fields) => fields != map[]
  }

  /** `configs.get(key, None)`. */
  function Get(config: map<string, JsonValue>, key: string): JsonValue {
    if key in config then config[key] else JNull
  }

  predicate AllSet(config: map<string, JsonValue>, keys: seq<string>) {
    forall k :: k in keys ==> Truthy(Get(config, k))
  }

  predicate AnySet(config: map<string, JsonValue>, keys: seq<string>) {
    exists k :: k in keys && Truthy(Get(config, k))
  }

  const SourceFields: seq<string> := ["source_catmaid_url", "source_catmaid_account_to_use", "source_project_id"]
  const TargetFields: seq<string> := ["target_catmaid_url", "target_catmaid_account_to_use", "target_project_id"]

  /** A project the config describes: server, account and project id. */
  datatype Project = Project(url: JsonValue, account: JsonValue, projectId: JsonValue)

  function ProjectOf(config: map<string, JsonValue>, fields: seq<string>): Project
    requires |fields| == 3
  {
    Project(Get(config, fields[0]), Get(config, fields[1]), Get(config, fields[2]))
  }

  /** The return value: the pair when a target is configured, the source alone otherwise, and whether the warning is printed. */
  datatype Connection = Pair(source: Project, target: Project) | Single(source: Project, warned: bool)

  datatype ConnectError = SourceFieldsMissing  // ValueError naming the three source fields

  function Connect(config: map<string, JsonValue>): (r: Result<Connection, ConnectError>)
    ensures r.Failure? <==> !AllSet(config, SourceFields)
  {
    if !AllSet(config, SourceFields) then Failure(SourceFieldsMissing)
    else
      var source := ProjectOf(config, SourceFields);
      if AllSet(config, TargetFields) then Success(Pair(source, ProjectOf(config, TargetFields)))
      else Success(Single(source, AnySet(config, TargetFields)))
  }

  /**
   * The three outcomes for the target: all fields set gives the pair; some
   * but not all gives the source alone with a warning; none gives the
   * source alone silently.
   */
  lemma TargetOutcomes(config: map<string, JsonValue>)
    requires AllSet(config, SourceFields)
    ensures AllSet(config, TargetFields) ==> Connect(config).value.Pair?
    ensures !AllSet(config, TargetFields) && AnySet(config, TargetFields) ==> Connect(config).value == Single(ProjectOf(config, SourceFields), true)
    ensures !AnySet(config, TargetFields) ==> Connect(config).value == Single(ProjectOf(config, SourceFields), false)
    ensures Connect(config).value.source == ProjectOf(config, SourceFields)
  {
  }

  /** Truthiness, not presence, decides: a source project id of 0, 0.0, "" or [] is rejected like a missing one. */
  lemma FalsySourceProjectIdRejected(config: map<string, JsonValue>)
    requires !Truthy(Get(config, "source_project_id"))
    ensures Connect(config) == Failure(SourceFieldsMissing)
  {
    assert SourceFields[2] == "source_project_id";
  }

  /** With the source fields set, a config whose target id is 0 gets the source alone, with the warning if the other target fields are set. */
  lemma ZeroTargetProjectIdDropsTarget(config: map<string, JsonValue>)
    requires AllSet(config, SourceFields)
    requires Get(config, "target_project_id") == JInt(0) && Truthy(Get(config, "target_catmaid_url"))
    ensures Connect(config) == Success(Single(ProjectOf(config, SourceFields), true))
  {
    assert TargetFields[2] == "target_project_id";
    assert TargetFields[0] == "target_catmaid_url";
  }

  // ---- Project ids ----

  /** The global handles: the source project's id and, when a target project is defined, its id. */
  class Handles {
    var sourceId: nat
    var targetId: Option<nat>

    constructor(source: nat, target: Option<nat>)
      ensures sourceId == source && targetId == target
    {
      sourceId := source;
      targetId := target;
    }

    method GetSourceProjectId() returns (id: nat)
      ensures id == sourceId
    {
      id := sourceId;
    }

    method SetSourceProjectId(pid: nat) returns (id: nat)
      modifies this
      ensures sourceId == pid && id == pid
      ensures targetId == old(targetId)
    {
      sourceId := pid;
      id := GetSourceProjectId();
    }

    /** None when the target project is undefined. */
    method GetTargetProjectId() returns (id: Option<nat>)
      ensures id == targetId
    {
      if targetId.None? {
        return None;
      }
      id := targetId;
    }

    /** Without a target project nothing changes and None comes back. */
    method SetTargetProjectId(pid: nat) returns (id: Option<nat>)
      modifies this
      ensures old(targetId).None? ==> id.None? && targetId.None?
      ensures old(targetId).Some? ==> targetId == Some(pid) && id == Some(pid)
      ensures sourceId == old(sourceId)
    {
      if targetId.None? {
        return None;
      }
      targetId := Some(pid);
      id := GetTargetProjectId();
    }

    /** Both ids, the target one None when the target project is undefined. */
    method GetProjectIds() returns (ids: (nat, Option<nat>))
      ensures ids == (sourceId, targetId)
    {
      var s := GetSourceProjectId();
      var t := GetTargetProjectId();
      ids := (s, t);
    }

    /** The target id defaults to the source id. */
    method SetProjectIds(source: nat, target: Option<nat>) returns (ids: (nat, Option<nat>))
      modifies this
      ensures sourceId == source
      ensures var t := if target.None? then source else target.value;
              old(targetId).Some? ==> targetId == Some(t) && ids == (source, Some(t))
      ensures old(targetId).None? ==> targetId.None? && ids == (source, None)
    {
      var t := if target.None? then source else target.value;
      var s := SetSourceProjectId(source);
      var tt := SetTargetProjectId(t);
      ids := (s, tt);
    }
  }
}
