/** internal/k1s/status.go: reading the status payloads that k1s answers with. */
module K1sStatus {
  import opened Text
  import opened Json

  datatype Placement = Placement(node: string, ready: bool)

  datatype AppStatus = AppStatus(
    appName: string, name: string, namespace: string, ready: bool,
    desiredReplicas: int, readyReplicas: int, liveReplicas: int,
    revision: string, revisionStatus: string, image: string,
    ingressHost: string, ingressPath: string, placements: seq<Placement>)

  function PlacementOf(pod: map<string, Value>): Placement {
    Placement(Str(Field(pod, "node")), BoolV(Field(pod, "ready")))
  }

  function Placements(pods: seq<Value>): seq<Placement> {
    if pods == [] then []
    else
      var before, pod := Placements(pods[..|pods| - 1]), pods[|pods| - 1];
      if pod.Object? then before + [PlacementOf(pod.fields)] else before
  }

  // The pods at these places, in order, are those the placements were read from.
  ghost predicate ReadFrom(out: seq<Placement>, pods: seq<Value>, places: seq<nat>) {
    && |places| == |out|
    && (forall a, b :: 0 <= a < b < |places| ==> places[a] < places[b])
    && (forall a :: 0 <= a < |places| ==>
          && places[a] < |pods| && pods[places[a]].Object?
          && out[a].node == Str(Field(pods[places[a]].fields, "node"))
          && out[a].ready == BoolV(Field(pods[places[a]].fields, "ready")))
    && (forall i :: 0 <= i < |pods| && pods[i].Object? ==> i in places)
  }

  // One placement for each pod that is an object, in the order of the pods, read from that pod.
  lemma {:induction false} PlacementsKeepOrder(pods: seq<Value>) returns (places: seq<nat>)
    ensures ReadFrom(Placements(pods), pods, places)
  {
    if pods == [] {
      places := [];
    } else {
      var last := |pods| - 1;
      var before := PlacementsKeepOrder(pods[..last]);
      places := if pods[last].Object? then before + [last] else before;
      OneMorePod(Placements(pods[..last]), pods[..last], before, pods[last]);
      assert pods == pods[..last] + [pods[last]];
    }
  }

  lemma OneMorePod(out: seq<Placement>, pods: seq<Value>, places: seq<nat>, pod: Value)
    requires ReadFrom(out, pods, places)
    ensures if pod.Object? then ReadFrom(out + [PlacementOf(pod.fields)], pods + [pod], places + [|pods|])
            else ReadFrom(out, pods + [pod], places)
  {
    var more := places + [|pods|];
    assert more[|places|] == |pods|;
    forall i | 0 <= i < |pods| && (pods + [pod])[i].Object? ensures i in places {
      assert pods[i].Object?;
    }
    forall i | i in places ensures i in more {
      var a :| 0 <= a < |places| && places[a] == i;
      assert more[a] == i;
    }
  }

  function AppStatusOf(payload: map<string, Value>): AppStatus {
    var desired, ready := I32(Field(payload, "desired_replicas")), I32(Field(payload, "ready_replicas"));
    AppStatus(
      Str(Field(payload, "app_name")), Str(Field(payload, "name")), Str(Field(payload, "namespace")),
      desired > 0 && ready >= desired,
      desired, ready, I32(Field(payload, "live_replicas")),
      Str(Field(payload, "revision")), Str(Field(payload, "revision_status")), Str(Field(payload, "image")),
      Str(Field(payload, "ingress_host")), Str(Field(payload, "ingress_path")),
      if Field(payload, "pods").List? then Placements(Field(payload, "pods").items) else [])
  }

  method ParseAppStatus(payload: map<string, Value>) returns (status: AppStatus)
    ensures status == AppStatusOf(payload)
    ensures status.appName == Str(Field(payload, "app_name"))
    ensures status.name == Str(Field(payload, "name")) && status.namespace == Str(Field(payload, "namespace"))
    ensures status.ready <==>
            I32(Field(payload, "ready_replicas")) >= I32(Field(payload, "desired_replicas")) > 0
  {
    status := AppStatus(
      Str(Field(payload, "app_name")), Str(Field(payload, "name")), Str(Field(payload, "namespace")), false,
      I32(Field(payload, "desired_replicas")), I32(Field(payload, "ready_replicas")),
      I32(Field(payload, "live_replicas")),
      Str(Field(payload, "revision")), Str(Field(payload, "revision_status")), Str(Field(payload, "image")),
      Str(Field(payload, "ingress_host")), Str(Field(payload, "ingress_path")), []);
    status := status.(ready := status.desiredReplicas > 0 && status.readyReplicas >= status.desiredReplicas);
    var rawPods := Field(payload, "pods");
    if rawPods.List? {
      var pods, start := rawPods.items, status;
      for i := 0 to |pods|
        invariant status == start.(placements := Placements(pods[..i]))
      {
        assert pods[..i + 1][..i] == pods[..i];
        if !pods[i].Object? {
          continue;
        }
        var pod := pods[i].fields;
        status := status.(placements := status.placements + [PlacementOf(pod)]);
      }
      assert pods[..|pods|] == pods;
    }
  }

  datatype InferenceStatus = InferenceStatus(
    kind: string, name: string, namespace: string, phase: string, status: string, ready: bool,
    apiEndpoint: string, activeExecutor: string, desired: int, readyCount: int)

  predicate EqualFoldReady(value: string) {
    value == "ready" || value == "Ready" || value == "READY"
  }

  function InferenceStatusOf(payload: map<string, Value>): InferenceStatus {
    var phase := FirstNonEmpty([Str(Field(payload, "phase")), Str(Field(payload, "status"))]);
    var kind := Str(Field(payload, "kind"));
    var desired, count := I32(Field(payload, "desired")), I32(Field(payload, "ready"));
    var ready := BoolV(Field(payload, "ready")) || EqualFoldReady(phase);
    InferenceStatus(
      kind, Str(Field(payload, "name")), Str(Field(payload, "namespace")), phase, Str(Field(payload, "status")),
      if kind == "InferenceCellSet" && desired > 0 then ready || count >= desired else ready,
      Str(Field(payload, "api_endpoint")), Str(Field(payload, "active_executor")), desired, count)
  }

  // When an inference payload says ready, in terms of what k1s sent: its ready flag is true in one of the accepted
  // spellings, or its phase (its status, where there is no phase) is, or it is a set with enough cells ready.
  ghost predicate SaysReady(payload: map<string, Value>) {
    var phase, status := Str(Field(payload, "phase")), Str(Field(payload, "status"));
    || Field(payload, "ready") in {Bool(true), Text("true"), Text("True"), Text("READY"), Text("Ready")}
    || (if phase != "" then phase else status) in {"ready", "Ready", "READY"}
    || (Str(Field(payload, "kind")) == "InferenceCellSet"
        && I32(Field(payload, "ready")) >= I32(Field(payload, "desired")) > 0)
  }

  lemma ReadyExactly(payload: map<string, Value>)
    ensures InferenceStatusOf(payload).ready <==> SaysReady(payload)
  {
    var phase, status := Str(Field(payload, "phase")), Str(Field(payload, "status"));
    FirstExactly([phase, status], if phase != "" then 0 else if status != "" then 1 else 2);
  }
}
