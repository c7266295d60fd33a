/** buildInferenceManifest in internal/controller/capability_controller.go. */
module InferenceManifest {
  import opened Wrappers
  import opened Text
  import opened Json

  datatype Model = Model(modelId: string, localPath: string)
  datatype Parallelism = Parallelism(tp: int, pp: int)
  datatype Executor = Executor(kind: string, fallbackMode: string, rayImage: string, mpImage: string,
                               launcherImage: string, dtype: string, runtimeClassName: string)
  datatype Fabric = Fabric(mode: string, policyMode: string, ttlSeconds: int)
  datatype Member = Member(siteId: string, nodeId: string, gpuCount: int)
  datatype CellSet = CellSet(replicas: int, nameFormat: string)

  // The fields of a K1sInferenceEndpoint that its manifest is built from. `name` and `namespace` are the object's
  // own; `members` tells a missing list (a nil slice) from an empty one.
  datatype Design = Design(
    name: string, namespace: string, model: Model, parallelism: Parallelism, executor: Executor, fabric: Fabric,
    members: Option<seq<Member>>, cellSet: Option<CellSet>)

  function DefaultI32(value: int, fallback: int): int {
    if value == 0 then fallback else value
  }

  function OrElse(value: string, fallback: string): string {
    if value != "" then value else fallback
  }

  // addString: an empty value leaves the key out
  function AddString(payload: map<string, Value>, key: string, value: string): map<string, Value> {
    if value != "" then payload[key := Text(value)] else payload
  }

  function Int(n: int): Value {
    Number(n as real)
  }

  function ExecutorPayload(e: Executor): map<string, Value> {
    AddString(AddString(AddString(AddString(AddString(AddString(
      map["type" := Text(OrElse(e.kind, "ray"))],
      "fallbackMode", e.fallbackMode), "rayImage", e.rayImage), "mpImage", e.mpImage),
      "launcherImage", e.launcherImage), "dtype", e.dtype), "runtimeClassName", e.runtimeClassName)
  }

  // json.Marshal of one member: omitempty drops a zero field
  function MemberPayload(m: Member): Value {
    var named := AddString(AddString(map[], "siteId", m.siteId), "nodeId", m.nodeId);
    Object(if m.gpuCount != 0 then named["gpuCount" := Int(m.gpuCount)] else named)
  }

  function MembersPayload(members: Option<seq<Member>>): Value {
    match members
    case None => Null
    case Some(ms) => List(seq(|ms|, i requires 0 <= i < |ms| => MemberPayload(ms[i])))
  }

  function CellPayload(d: Design): map<string, Value> {
    map["model" := Object(map["modelId" := Text(d.model.modelId), "localPath" := Text(d.model.localPath)]),
        "parallelism" := Object(map["tp" := Int(DefaultI32(d.parallelism.tp, 1)),
                                    "pp" := Int(DefaultI32(d.parallelism.pp, 1))]),
        "executor" := Object(ExecutorPayload(d.executor)),
        "fabric" := Object(map["mode" := Text(OrElse(d.fabric.mode, "lan_direct")),
                               "policyMode" := Text(OrElse(d.fabric.policyMode, "strict_membership")),
                               "ttlSeconds" := Int(DefaultI32(d.fabric.ttlSeconds, 300))]),
        "members" := MembersPayload(d.members),
        "linkMetrics" := List([])]
  }

  function SpecPayload(d: Design): map<string, Value> {
    match d.cellSet
    case None => CellPayload(d)
    case Some(cells) => map["replicas" := Int(DefaultI32(cells.replicas, 1)),
                            "nameFormat" := Text(OrElse(cells.nameFormat, "{set}-{i:03d}")),
                            "template" := Object(CellPayload(d))]
  }

  // None when spec.model.modelId is missing
  function Build(d: Design): Option<Value> {
    if d.model.modelId == "" then None
    else Some(Object(map[
      "apiVersion" := Text("ae.dev/v1alpha1"),
      "kind" := Text(if d.cellSet.Some? then "InferenceCellSet" else "InferenceCell"),
      "metadata" := Object(map[
        "name" := Text(d.name), "namespace" := Text(d.namespace),
        "labels" := Object(map["app.kubernetes.io/managed-by" := Text("k1s-operator"),
                               "operator.k1s.io/inference-endpoint" := Text(d.name)])]),
      "spec" := Object(SpecPayload(d))]))
  }

  // The design with every default written out. The member list and what is inside a member have no defaults.
  function Explicit(d: Design): Design {
    d.(parallelism := Parallelism(DefaultI32(d.parallelism.tp, 1), DefaultI32(d.parallelism.pp, 1)),
       executor := d.executor.(kind := OrElse(d.executor.kind, "ray")),
       fabric := Fabric(OrElse(d.fabric.mode, "lan_direct"), OrElse(d.fabric.policyMode, "strict_membership"),
                        DefaultI32(d.fabric.ttlSeconds, 300)),
       cellSet := if d.cellSet.None? then None
                  else Some(CellSet(DefaultI32(d.cellSet.value.replicas, 1),
                                    OrElse(d.cellSet.value.nameFormat, "{set}-{i:03d}"))))
  }

  lemma IntInjective(a: int, b: int)
    requires Int(a) == Int(b)
    ensures a == b
  {
    assert (a as real).Floor == a && (b as real).Floor == b;
  }

  lemma MemberInjective(a: Member, b: Member)
    requires MemberPayload(a) == MemberPayload(b)
    ensures a == b
  {
    var x, y := MemberPayload(a).fields, MemberPayload(b).fields;
    assert x == y;
    assert ("siteId" in x <==> a.siteId != "") && ("siteId" in y <==> b.siteId != "");
    assert ("nodeId" in x <==> a.nodeId != "") && ("nodeId" in y <==> b.nodeId != "");
    assert ("gpuCount" in x <==> a.gpuCount != 0) && ("gpuCount" in y <==> b.gpuCount != 0);
    if a.gpuCount != 0 {
      IntInjective(a.gpuCount, b.gpuCount);
    }
  }

  lemma MembersInjective(a: Option<seq<Member>>, b: Option<seq<Member>>)
    requires MembersPayload(a) == MembersPayload(b)
    ensures a == b
  {
    if a.Some? && b.Some? {
      var x, y := MembersPayload(a).items, MembersPayload(b).items;
      assert |a.value| == |x| == |y| == |b.value|;
      forall i | 0 <= i < |x| ensures a.value[i] == b.value[i] {
        assert x[i] == MemberPayload(a.value[i]) && y[i] == MemberPayload(b.value[i]);
        MemberInjective(a.value[i], b.value[i]);
      }
      assert a.value == b.value;
    }
  }

  lemma AddStringInjective(p: map<string, Value>, q: map<string, Value>, key: string, v: string, w: string)
    requires key !in p && key !in q
    requires AddString(p, key, v) == AddString(q, key, w)
    ensures p == q && v == w
  {
    var x, y := AddString(p, key, v), AddString(q, key, w);
    assert (key in x <==> v != "") && (key in y <==> w != "");
    assert p == x - {key} && q == y - {key};
  }

  lemma ExecutorInjective(a: Executor, b: Executor)
    requires ExecutorPayload(a) == ExecutorPayload(b)
    ensures a.(kind := OrElse(a.kind, "ray")) == b.(kind := OrElse(b.kind, "ray"))
  {
    var p0: map<string, Value> := map["type" := Text(OrElse(a.kind, "ray"))];
    var q0: map<string, Value> := map["type" := Text(OrElse(b.kind, "ray"))];
    var p1, q1 := AddString(p0, "fallbackMode", a.fallbackMode), AddString(q0, "fallbackMode", b.fallbackMode);
    var p2, q2 := AddString(p1, "rayImage", a.rayImage), AddString(q1, "rayImage", b.rayImage);
    var p3, q3 := AddString(p2, "mpImage", a.mpImage), AddString(q2, "mpImage", b.mpImage);
    var p4, q4 := AddString(p3, "launcherImage", a.launcherImage), AddString(q3, "launcherImage", b.launcherImage);
    var p5, q5 := AddString(p4, "dtype", a.dtype), AddString(q4, "dtype", b.dtype);
    // the seven keys differ in length
    assert |"type"| == 4 && |"dtype"| == 5 && |"mpImage"| == 7 && |"rayImage"| == 8;
    assert |"fallbackMode"| == 12 && |"launcherImage"| == 13 && |"runtimeClassName"| == 16;
    AddStringInjective(p5, q5, "runtimeClassName", a.runtimeClassName, b.runtimeClassName);
    AddStringInjective(p4, q4, "dtype", a.dtype, b.dtype);
    AddStringInjective(p3, q3, "launcherImage", a.launcherImage, b.launcherImage);
    AddStringInjective(p2, q2, "mpImage", a.mpImage, b.mpImage);
    AddStringInjective(p1, q1, "rayImage", a.rayImage, b.rayImage);
    AddStringInjective(p0, q0, "fallbackMode", a.fallbackMode, b.fallbackMode);
    assert p0["type"] == q0["type"];
  }

  lemma CellInjective(a: Design, b: Design)
    requires CellPayload(a) == CellPayload(b)
    ensures a.model == b.model && a.members == b.members
    ensures Explicit(a).parallelism == Explicit(b).parallelism
    ensures Explicit(a).executor == Explicit(b).executor && Explicit(a).fabric == Explicit(b).fabric
  {
    var x, y := CellPayload(a), CellPayload(b);
    assert x["model"] == y["model"] && x["parallelism"] == y["parallelism"] && x["executor"] == y["executor"];
    assert x["fabric"] == y["fabric"] && x["members"] == y["members"];
    MembersInjective(a.members, b.members);
    ExecutorInjective(a.executor, b.executor);
    var m, n := x["model"].fields, y["model"].fields;
    assert m["modelId"] == n["modelId"] && m["localPath"] == n["localPath"];
    var p, q := x["parallelism"].fields, y["parallelism"].fields;
    assert p["tp"] == q["tp"] && p["pp"] == q["pp"];
    IntInjective(DefaultI32(a.parallelism.tp, 1), DefaultI32(b.parallelism.tp, 1));
    IntInjective(DefaultI32(a.parallelism.pp, 1), DefaultI32(b.parallelism.pp, 1));
    var f, g := x["fabric"].fields, y["fabric"].fields;
    assert f["mode"] == g["mode"] && f["policyMode"] == g["policyMode"] && f["ttlSeconds"] == g["ttlSeconds"];
    IntInjective(DefaultI32(a.fabric.ttlSeconds, 300), DefaultI32(b.fabric.ttlSeconds, 300));
  }

  lemma SpecInjective(a: Design, b: Design)
    requires SpecPayload(a) == SpecPayload(b) && (a.cellSet.Some? <==> b.cellSet.Some?)
    ensures CellPayload(a) == CellPayload(b) && Explicit(a).cellSet == Explicit(b).cellSet
  {
    if a.cellSet.Some? {
      var x, y := SpecPayload(a), SpecPayload(b);
      assert x["replicas"] == y["replicas"] && x["nameFormat"] == y["nameFormat"] && x["template"] == y["template"];
      IntInjective(DefaultI32(a.cellSet.value.replicas, 1), DefaultI32(b.cellSet.value.replicas, 1));
    }
  }

  // Two accepted designs build the same manifest exactly when they agree once the defaults are written out.
  lemma SameManifestExactly(a: Design, b: Design)
    requires a.model.modelId != "" && b.model.modelId != ""
    ensures Build(a) == Build(b) <==> Explicit(a) == Explicit(b)
  {
    if Build(a) == Build(b) {
      var x, y := Build(a).value.fields, Build(b).value.fields;
      assert x["kind"] == y["kind"] && x["metadata"] == y["metadata"] && x["spec"] == y["spec"];
      assert |"InferenceCell"| == 13 && |"InferenceCellSet"| == 16;
      var m, n := x["metadata"].fields, y["metadata"].fields;
      assert m["name"] == n["name"] && m["namespace"] == n["namespace"];
      SpecInjective(a, b);
      CellInjective(a, b);
    }
    if Explicit(a) == Explicit(b) {
      ExplicitBuilds(a);
      ExplicitBuilds(b);
    }
  }

  // Writing a default out never changes the manifest.
  lemma ExplicitBuilds(d: Design)
    ensures Build(Explicit(d)) == Build(d)
  {
    var e := Explicit(d);
    assert ExecutorPayload(e.executor) == ExecutorPayload(d.executor);
    assert CellPayload(e) == CellPayload(d);
    assert SpecPayload(e) == SpecPayload(d);
  }

  // An empty member list is no default for a missing one: the manifests differ, [] against null.
  lemma EmptyMembersDiffer(d: Design)
    requires d.model.modelId != "" && d.members == None
    ensures Build(d.(members := Some([]))) != Build(d)
  {
    SameManifestExactly(d.(members := Some([])), d);
  }

  // ---------- the payload, path by path ----------

  // What stands under a path of keys
  function At(v: Value, path: seq<string>): Option<Value>
    decreases |path|
  {
    if path == [] then Some(v)
    else if v.Object? && path[0] in v.fields then At(v.fields[path[0]], path[1..])
    else None
  }

  lemma AtStep(v: Value, key: string, path: seq<string>)
    requires v.Object? && key in v.fields
    ensures At(v, [key] + path) == At(v.fields[key], path)
  {
    assert ([key] + path)[1..] == path;
  }

  lemma AtOne(v: Value, key: string)
    requires v.Object?
    ensures At(v, [key]) == if key in v.fields then Some(v.fields[key]) else None
  {
    assert key in v.fields ==> At(v.fields[key], [key][1..]) == Some(v.fields[key]);
  }

  lemma AtTwo(v: Value, a: string, b: string)
    requires v.Object? && a in v.fields && v.fields[a].Object?
    ensures At(v, [a, b]) == if b in v.fields[a].fields then Some(v.fields[a].fields[b]) else None
  {
    AtStep(v, a, [b]);
    assert [a, b] == [a] + [b];
    AtOne(v.fields[a], b);
  }

  // A missing model id is the one thing that is refused. Kind, names and labels of the payload
  lemma PayloadHeader(d: Design)
    ensures Build(d).Some? <==> d.model.modelId != ""
    ensures Build(d).Some? ==>
      var root := Build(d).value;
      && At(root, ["apiVersion"]) == Some(Text("ae.dev/v1alpha1"))
      && At(root, ["kind"]) == Some(Text(if d.cellSet.None? then "InferenceCell" else "InferenceCellSet"))
      && At(root, ["metadata", "name"]) == Some(Text(d.name))
      && At(root, ["metadata", "namespace"]) == Some(Text(d.namespace))
      && At(root, ["metadata", "labels"]) ==
           Some(Object(map["app.kubernetes.io/managed-by" := Text("k1s-operator"),
                           "operator.k1s.io/inference-endpoint" := Text(d.name)]))
  {
    if d.model.modelId != "" {
      var root := Build(d).value;
      AtOne(root, "apiVersion");
      AtOne(root, "kind");
      AtTwo(root, "metadata", "name");
      AtTwo(root, "metadata", "namespace");
      AtTwo(root, "metadata", "labels");
    }
  }

  // An optional text stands under its key exactly when it is not empty.
  ghost predicate Optional(v: Value, path: seq<string>, text: string) {
    At(v, path) == if text == "" then None else Some(Text(text))
  }

  // What the payload says of one cell
  ghost predicate DescribesCell(cell: Value, d: Design) {
    && At(cell, ["model", "modelId"]) == Some(Text(d.model.modelId))
    && At(cell, ["model", "localPath"]) == Some(Text(d.model.localPath))
    && At(cell, ["parallelism", "tp"]) == Some(Int(if d.parallelism.tp == 0 then 1 else d.parallelism.tp))
    && At(cell, ["parallelism", "pp"]) == Some(Int(if d.parallelism.pp == 0 then 1 else d.parallelism.pp))
    && At(cell, ["fabric", "mode"]) == Some(Text(if d.fabric.mode == "" then "lan_direct" else d.fabric.mode))
    && At(cell, ["fabric", "policyMode"]) ==
         Some(Text(if d.fabric.policyMode == "" then "strict_membership" else d.fabric.policyMode))
    && At(cell, ["fabric", "ttlSeconds"]) == Some(Int(if d.fabric.ttlSeconds == 0 then 300 else d.fabric.ttlSeconds))
    && At(cell, ["members"]) == Some(MembersPayload(d.members))
    && At(cell, ["linkMetrics"]) == Some(List([]))
    && DescribesExecutor(cell, d.executor)
  }

  ghost predicate DescribesExecutor(cell: Value, e: Executor) {
    && At(cell, ["executor", "type"]) == Some(Text(if e.kind == "" then "ray" else e.kind))
    && Optional(cell, ["executor", "fallbackMode"], e.fallbackMode)
    && Optional(cell, ["executor", "rayImage"], e.rayImage)
    && Optional(cell, ["executor", "mpImage"], e.mpImage)
    && Optional(cell, ["executor", "launcherImage"], e.launcherImage)
    && Optional(cell, ["executor", "dtype"], e.dtype)
    && Optional(cell, ["executor", "runtimeClassName"], e.runtimeClassName)
  }

  // Adding one text does what it says to its own key, and nothing to another.
  lemma AddStringAt(p: map<string, Value>, key: string, text: string, other: string)
    requires key !in p
    ensures var after := AddString(p, key, text);
      && (key in after <==> text != "") && (text != "" ==> after[key] == Text(text))
      && (other != key ==> (other in after <==> other in p) && (other in p ==> after[other] == p[other]))
  {
  }

  // A key of the executor's payload and the text under it
  ghost predicate Holds(payload: map<string, Value>, key: string, text: string) {
    if text == "" then key !in payload else key in payload && payload[key] == Text(text)
  }

  lemma ExecutorFields(e: Executor)
    ensures var payload := ExecutorPayload(e);
      && Holds(payload, "type", OrElse(e.kind, "ray")) && Holds(payload, "fallbackMode", e.fallbackMode)
      && Holds(payload, "rayImage", e.rayImage) && Holds(payload, "mpImage", e.mpImage)
      && Holds(payload, "launcherImage", e.launcherImage) && Holds(payload, "dtype", e.dtype)
      && Holds(payload, "runtimeClassName", e.runtimeClassName)
  {
    var p0: map<string, Value> := map["type" := Text(OrElse(e.kind, "ray"))];
    var p1 := AddString(p0, "fallbackMode", e.fallbackMode);
    var p2 := AddString(p1, "rayImage", e.rayImage);
    var p3 := AddString(p2, "mpImage", e.mpImage);
    var p4 := AddString(p3, "launcherImage", e.launcherImage);
    var p5 := AddString(p4, "dtype", e.dtype);
    // the seven keys differ in length
    assert |"type"| == 4 && |"dtype"| == 5 && |"mpImage"| == 7 && |"rayImage"| == 8;
    assert |"fallbackMode"| == 12 && |"launcherImage"| == 13 && |"runtimeClassName"| == 16;
    forall key ensures "runtimeClassName" != key ==> (key in ExecutorPayload(e) <==> key in p5) {
      AddStringAt(p5, "runtimeClassName", e.runtimeClassName, key);
    }
  }

  lemma ExecutorKeys(d: Design)
    ensures DescribesExecutor(Object(CellPayload(d)), d.executor)
  {
    var cell := Object(CellPayload(d));
    ExecutorFields(d.executor);
    AtTwo(cell, "executor", "type");
    AtTwo(cell, "executor", "fallbackMode");
    AtTwo(cell, "executor", "rayImage");
    AtTwo(cell, "executor", "mpImage");
    AtTwo(cell, "executor", "launcherImage");
    AtTwo(cell, "executor", "dtype");
    AtTwo(cell, "executor", "runtimeClassName");
  }

  lemma CellPaths(d: Design)
    ensures DescribesCell(Object(CellPayload(d)), d)
  {
    var cell := Object(CellPayload(d));
    AtTwo(cell, "model", "modelId");
    AtTwo(cell, "model", "localPath");
    AtTwo(cell, "parallelism", "tp");
    AtTwo(cell, "parallelism", "pp");
    AtTwo(cell, "fabric", "mode");
    AtTwo(cell, "fabric", "policyMode");
    AtTwo(cell, "fabric", "ttlSeconds");
    AtOne(cell, "members");
    AtOne(cell, "linkMetrics");
    ExecutorKeys(d);
  }

  // The spec of an accepted design's payload: a cell under spec or, for a cell set, under spec.template, beside the
  // number of replicas and the pattern of their names.
  lemma PayloadSpec(d: Design)
    requires Build(d).Some?
    ensures d.cellSet.None? ==>
      At(Build(d).value, ["spec"]) == Some(Object(CellPayload(d))) && DescribesCell(Object(CellPayload(d)), d)
    ensures d.cellSet.Some? ==>
      var root, cells := Build(d).value, d.cellSet.value;
      && At(root, ["spec", "replicas"]) == Some(Int(if cells.replicas == 0 then 1 else cells.replicas))
      && At(root, ["spec", "nameFormat"]) ==
           Some(Text(if cells.nameFormat == "" then "{set}-{i:03d}" else cells.nameFormat))
      && At(root, ["spec", "template"]) == Some(Object(CellPayload(d))) && DescribesCell(Object(CellPayload(d)), d)
  {
    var root := Build(d).value;
    CellPaths(d);
    AtOne(root, "spec");
    if d.cellSet.Some? {
      AtTwo(root, "spec", "replicas");
      AtTwo(root, "spec", "nameFormat");
      AtTwo(root, "spec", "template");
    }
  }

  // The member list: null where there is none, and else one object for each member, in order, zero fields left out.
  lemma MembersListed(members: Option<seq<Member>>)
    ensures members.None? ==> MembersPayload(members) == Null
    ensures members.Some? ==>
      var list := MembersPayload(members);
      && list.List? && |list.items| == |members.value|
      && forall i :: 0 <= i < |list.items| ==>
           && Optional(list.items[i], ["siteId"], members.value[i].siteId)
           && Optional(list.items[i], ["nodeId"], members.value[i].nodeId)
           && At(list.items[i], ["gpuCount"]) ==
                if members.value[i].gpuCount == 0 then None else Some(Int(members.value[i].gpuCount))
  {
    if members.Some? {
      var items := MembersPayload(members).items;
      forall i | 0 <= i < |items|
        ensures Optional(items[i], ["siteId"], members.value[i].siteId)
        ensures Optional(items[i], ["nodeId"], members.value[i].nodeId)
        ensures At(items[i], ["gpuCount"]) ==
                if members.value[i].gpuCount == 0 then None else Some(Int(members.value[i].gpuCount))
      {
        AtOne(items[i], "siteId");
        AtOne(items[i], "nodeId");
        AtOne(items[i], "gpuCount");
      }
    }
  }
}
