/** K1sInferenceEndpointReconciler in internal/controller/capability_controller.go. */
module Endpoint {
  import opened Wrappers
  import opened Text
  import opened Digests
  import opened Json
  import opened Resources
  import opened K1s
  import opened K1sStatus
  import C = Conditions
  import LeaderRetry
  import opened Kube
  import opened InferenceManifest
  import opened Workloads

  datatype EndpointSpec = EndpointSpec(design: Design, deletePolicy: DeletePolicy)

  datatype EndpointRecord = EndpointRecord(
    ready: bool, phase: string, cellName: string, cellSetName: string, apiEndpoint: string, activeExecutor: string,
    conditions: seq<C.Condition>)

  type EndpointObject = Object<EndpointSpec, EndpointRecord>
  type EndpointState = State<EndpointSpec, EndpointRecord>
  type EndpointStep = Step<EndpointSpec, EndpointRecord>

  // json.Marshal of the payload
  type Marshaller = Value -> Raw

  // The payloads of different manifests have different texts.
  ghost predicate TellsManifestsApart(marshal: Marshaller) {
    forall a: Design, b: Design ::
      Build(a).Some? && Build(b).Some? && marshal(Build(a).value) == marshal(Build(b).value) ==> Build(a) == Build(b)
  }

  // applyObservedInferenceStatus
  function Observe(st: EndpointRecord, seen: InferenceStatus): EndpointRecord {
    var after := st.(ready := seen.ready, phase := FirstNonEmpty([seen.phase, seen.status, st.phase]),
                     apiEndpoint := FirstNonEmpty([seen.apiEndpoint, st.apiEndpoint]),
                     activeExecutor := FirstNonEmpty([seen.activeExecutor, st.activeExecutor]));
    if seen.kind == "InferenceCellSet" then
      after.(cellName := "", cellSetName := FirstNonEmpty([seen.name, st.cellSetName]))
    else after.(cellName := FirstNonEmpty([seen.name, st.cellName]))
  }

  function Start(obj: EndpointObject, result: map<string, Value>): EndpointRecord {
    var d := obj.spec.design;
    var phase := FirstNonEmpty([TextOnly(result, "phase"), TextOnly(result, "status"), "Applied"]);
    EndpointRecord(ToLower(phase) == "ready", phase,
                   if d.cellSet.Some? then "" else d.name, if d.cellSet.Some? then d.name else "",
                   TextOnly(result, "api_endpoint"), TextOnly(result, "active_executor"),
                   C.SetCondition(obj.status.conditions, C.Accepted, true, C.IsReady))
  }

  // The status of a pass that got past the hash gate
  function Completion(obj: EndpointObject, result: map<string, Value>, applyOk: bool, seen: Option<InferenceStatus>)
    : EndpointRecord
  {
    var st := Start(obj, result);
    var after :=
      if !applyOk then
        st.(ready := false, phase := "Unsupported",
            conditions := C.SetCondition(st.conditions, C.Applied, false, C.Unsupported))
      else
        var applied := C.SetCondition(st.conditions, C.Applied, true, C.WasApplied);
        match seen
        case Some(observed) => Observe(st, observed).(conditions := applied)
        case None => st.(ready := false, conditions := C.SetCondition(applied, C.Ready, false, C.Unavailable));
    after.(conditions := C.SetCondition(after.conditions, C.Ready, after.ready, C.ReasonForBool(after.ready)))
  }

  function Observed(seen: Option<map<string, Value>>): Option<InferenceStatus> {
    if seen.Some? then Some(InferenceStatusOf(seen.value)) else None
  }

  function Render(obj: EndpointObject, verdict: Verdict): EndpointRecord {
    var (ctype, reason) := match verdict
      case NoCredentials => (C.CredentialsValid, C.Missing)
      case CleanupFailed => (C.Applied, C.Unavailable)
      case _ => (C.Accepted, C.Invalid);
    if verdict.Done? then Completion(obj, verdict.result, verdict.applyOk, Observed(verdict.seen))
    else obj.status.(conditions := C.SetCondition(obj.status.conditions, ctype, false, reason))
  }

  function EndpointKey(d: Design): Key {
    Key(if d.cellSet.Some? then "InferenceCellSet" else "InferenceCell", d.namespace, d.name)
  }

  function EndpointTarget(d: Design): Target {
    if d.cellSet.Some? then CellSetTarget(d.namespace, d.name) else CellTarget(d.namespace, d.name)
  }

  function EndpointManifest(marshal: Marshaller, d: Design): Option<Raw> {
    match Build(d)
    case None => None
    case Some(payload) => Some(marshal(payload))
  }

  // inferenceStatusForEndpoint
  function StatusRoutes(d: Design): Routes {
    Routes(InferenceStatusRoute(d.cellSet.Some?, d.namespace, d.name), None)
  }

  function EndpointKit(marshal: Marshaller, obj: EndpointObject): Kit<EndpointRecord> {
    var d := obj.spec.design;
    Kit(obj.spec.deletePolicy.Orphan?, EndpointTarget(d), EndpointKey(d), EndpointManifest(marshal, d), StatusRoutes(d),
        verdict => Render(obj, verdict))
  }

  function EndpointKits(marshal: Marshaller): Kits<EndpointSpec, EndpointRecord> {
    (obj: EndpointObject) => EndpointKit(marshal, obj)
  }

  class Reconciler {
    const marshal: Marshaller

    constructor (marshal: Marshaller)
      ensures this.marshal == marshal
    {
      this.marshal := marshal;
    }

    // inferenceStatusForEndpoint
    method ReadStatus(api: Client, d: Design) returns (err: LeaderRetry.Err, observed: InferenceStatus)
      modifies api
      ensures var (k, call) := Read(old(api.State()), OracleOf(api.script), StatusRoutes(d));
        && api.State() == k
        && (err.Nil? <==> call.answer.Ok?) && (LeaderRetry.IsNotFound(err) <==> call.answer.NotFound?)
        && (err.Nil? ==> observed == InferenceStatusOf(call.fields))
    {
      var out;
      err, out := api.GetJSON(InferenceStatusRoute(d.cellSet.Some?, d.namespace, d.name));
      observed := InferenceStatusOf(out);
    }

    method Reconcile(kube: Server<EndpointSpec, EndpointRecord>, api: Client, w: Weather) returns (failed: bool)
      modifies kube, api
      ensures var obj := old(kube.obj);
        var out := ReconcileWorkload(obj, EndpointKit(marshal, obj), old(api.State()), OracleOf(api.script), w);
        kube.obj == out.obj && api.State() == out.k1s && failed == out.failed
    {
      var endpoint := kube.obj;
      if Gone(endpoint) {
        return false;
      }
      if !w.get {
        return true;
      }
      var status, design := endpoint.status, endpoint.spec.design;
      if !w.client {
        status := status.(conditions := C.SetCondition(status.conditions, C.CredentialsValid, false, C.Missing));
        failed := kube.PatchStatus(w.statusWrite, status);
        return;
      }
      if endpoint.deleting {
        if CAPABILITY_FINALIZER in endpoint.finalizers {
          if endpoint.spec.deletePolicy != Orphan {
            var deleteErr;
            if design.cellSet.Some? {
              deleteErr := api.Delete(CellSetTarget(design.namespace, design.name));
            } else {
              deleteErr := api.Delete(CellTarget(design.namespace, design.name));
            }
            if !deleteErr.Nil? && !LeaderRetry.IsNotFound(deleteErr) {
              status := status.(conditions := C.SetCondition(status.conditions, C.Applied, false, C.Unavailable));
              var _ := kube.PatchStatus(w.statusWrite, status);
              return true;
            }
          }
          var finalizers := RemoveString(endpoint.finalizers, CAPABILITY_FINALIZER);
          failed := kube.PatchFinalizers(w.finalizerWrite, finalizers);
          return;
        }
        return false;
      }
      if CAPABILITY_FINALIZER !in endpoint.finalizers {
        failed := kube.PatchFinalizers(w.finalizerWrite, endpoint.finalizers + [CAPABILITY_FINALIZER]);
        return;
      }
      var manifest := EndpointManifest(marshal, design);
      if manifest.None? {
        status := status.(conditions := C.SetCondition(status.conditions, C.Accepted, false, C.Invalid));
        failed := kube.PatchStatus(w.statusWrite, status);
        return;
      }
      failed := Sync(kube, api, w, manifest.value);
    }

    // The hash gate: read when the annotation matches, apply when it does not or the read answered 404.
    method PassGate(api: Client, endpoint: EndpointObject, manifest: Raw, manifestHash: Digest)
      returns (shouldApply: bool, applyErr: LeaderRetry.Err, result: map<string, Value>, observedOK: bool,
               observed: InferenceStatus)
      requires manifestHash == HashBytes(manifest)
      modifies api
      ensures var key := EndpointKey(endpoint.spec.design);
        var gate := RunGate(endpoint.annotation, key, manifest, StatusRoutes(endpoint.spec.design), old(api.State()),
                            OracleOf(api.script));
        && api.State() == gate.k1s && shouldApply == gate.applying
        && (applyErr.Nil? <==> gate.applied.answer.Ok?)
        && (observedOK <==> gate.seen.Some?) && (observedOK ==> observed == InferenceStatusOf(gate.seen.value))
        && result == if gate.applying && applyErr.Nil? then gate.applied.fields else map[]
    {
      shouldApply := endpoint.annotation != Some(manifestHash);
      observed, observedOK := InferenceStatusOf(map[]), false;
      if !shouldApply {
        var statusErr;
        statusErr, observed := ReadStatus(api, endpoint.spec.design);
        observedOK := statusErr.Nil?;
        if LeaderRetry.IsNotFound(statusErr) {
          shouldApply := true;
        }
      }
      applyErr, result := LeaderRetry.Nil, map[];
      if shouldApply {
        applyErr, result := api.Apply(EndpointKey(endpoint.spec.design), manifest);
        if !applyErr.Nil? {
          result := map[];
        }
      }
    }

    // From the hash gate on
    method Sync(kube: Server<EndpointSpec, EndpointRecord>, api: Client, w: Weather,
                manifest: Raw)
      returns (failed: bool)
      requires EndpointKit(marshal, kube.obj).manifest == Some(manifest)
      modifies kube, api
      ensures var obj := old(kube.obj);
        var out := Work(obj, EndpointKit(marshal, obj), manifest, old(api.State()), OracleOf(api.script), w);
        kube.obj == out.obj && api.State() == out.k1s && failed == out.failed
    {
      var endpoint := kube.obj;
      var manifestHash := HashBytes(manifest);
      var shouldApply, applyErr, result, observedOK, observed := PassGate(api, endpoint, manifest, manifestHash);
      if shouldApply && applyErr.Nil? {
        var lost := kube.PatchLastAppliedHash(w.annotationWrite, manifestHash);
        if lost {
          return true;
        }
      }
      if applyErr.Nil? && !observedOK {
        var statusErr;
        statusErr, observed := ReadStatus(api, endpoint.spec.design);
        observedOK := statusErr.Nil?;
      }
      var status := Conclude(endpoint, result, applyErr.Nil?, observedOK, observed);
      failed := kube.PatchStatus(w.statusWrite, status);
    }

    // What the status says of the endpoint before the outcome of Apply and of the status read is looked at
    method Begin(endpoint: EndpointObject, result: map<string, Value>) returns (status: EndpointRecord)
      ensures status == Start(endpoint, result)
    {
      status := endpoint.status;
      status := status.(cellName := endpoint.spec.design.name, cellSetName := "");
      if endpoint.spec.design.cellSet.Some? {
        status := status.(cellName := "", cellSetName := endpoint.spec.design.name);
      }
      status := status.(phase := FirstNonEmpty([TextOnly(result, "phase"), TextOnly(result, "status"), "Applied"]));
      status := status.(ready := ToLower(status.phase) == "ready");
      status := status.(apiEndpoint := TextOnly(result, "api_endpoint"));
      status := status.(activeExecutor := TextOnly(result, "active_executor"));
      status := status.(conditions := C.SetCondition(status.conditions, C.Accepted, true, C.IsReady));
    }

    method Conclude(endpoint: EndpointObject, result: map<string, Value>, applyOk: bool, observedOK: bool,
                    observed: InferenceStatus)
      returns (status: EndpointRecord)
      ensures status == Completion(endpoint, result, applyOk, if observedOK then Some(observed) else None)
    {
      status := Begin(endpoint, result);
      var conditions := status.conditions;
      if !applyOk {
        status := status.(ready := false, phase := "Unsupported");
        conditions := C.SetCondition(conditions, C.Applied, false, C.Unsupported);
      } else {
        conditions := C.SetCondition(conditions, C.Applied, true, C.WasApplied);
        if observedOK {
          status := Observe(status, observed);
        } else {
          status := status.(ready := false);
          conditions := C.SetCondition(conditions, C.Ready, false, C.Unavailable);
        }
      }
      status := status.(conditions := C.SetCondition(conditions, C.Ready, status.ready, C.ReasonForBool(status.ready)));
    }
  }

  // ---------- honest status ----------

  // Ready says whether the endpoint is ready, Applied whether no Apply failed, and Accepted that it is accepted.
  ghost predicate SaysReadiness(conditions: seq<C.Condition>, applied: bool, ready: bool) {
    && C.Entry(conditions, C.Ready) ==
         Some(C.Condition(C.Ready, ready, if ready then C.IsReady else C.Unavailable))
    && C.Entry(conditions, C.Applied) ==
         Some(C.Condition(C.Applied, applied, if applied then C.WasApplied else C.Unsupported))
    && C.Entry(conditions, C.Accepted) == Some(C.Condition(C.Accepted, true, C.IsReady))
  }

  // The conditions of a completed pass; without a payload, Ready is set twice.
  lemma CompletionConditions(cs: seq<C.Condition>, applied: bool, why: C.Reason, twice: bool, ready: bool)
    requires why == if applied then C.WasApplied else C.Unsupported
    ensures var c2 := C.SetCondition(C.SetCondition(cs, C.Accepted, true, C.IsReady), C.Applied, applied, why);
      var c3 := if twice then C.SetCondition(c2, C.Ready, false, C.Unavailable) else c2;
      SaysReadiness(C.SetCondition(c3, C.Ready, ready, C.ReasonForBool(ready)), applied, ready)
  {
    var c1 := C.SetCondition(cs, C.Accepted, true, C.IsReady);
    var c2 := C.SetCondition(c1, C.Applied, applied, why);
    var c3 := if twice then C.SetCondition(c2, C.Ready, false, C.Unavailable) else c2;
    C.SetConditionReads(cs, C.Accepted, true, C.IsReady, C.Accepted);
    C.SetConditionReads(c1, C.Applied, applied, why, C.Accepted);
    C.SetConditionReads(c1, C.Applied, applied, why, C.Applied);
    forall t ensures C.Entry(C.SetCondition(c3, C.Ready, ready, C.ReasonForBool(ready)), t) ==
        if t == C.Ready then Some(C.Condition(C.Ready, ready, C.ReasonForBool(ready))) else C.Entry(c2, t)
    {
      C.SetConditionReads(c2, C.Ready, false, C.Unavailable, t);
      C.SetConditionReads(c3, C.Ready, ready, C.ReasonForBool(ready), t);
    }
  }

  lemma CompletionHonest(obj: EndpointObject, result: map<string, Value>, applyOk: bool, seen: Option<InferenceStatus>)
    ensures var st := Completion(obj, result, applyOk, seen);
      && (st.ready <==> applyOk && seen.Some? && seen.value.ready)
      && SaysReadiness(st.conditions, applyOk, st.ready)
  {
    CompletionConditions(obj.status.conditions, applyOk, if applyOk then C.WasApplied else C.Unsupported,
                         applyOk && seen.None?, Completion(obj, result, applyOk, seen).ready);
  }

  // A completed pass reports Ready exactly when no Apply failed in it and the status it read says ready.
  lemma CompletedPassIsHonest(marshal: Marshaller, s: EndpointState, o: Oracle, w: Weather)
    ensures var out := RunPass(EndpointKits(marshal), s, o, w);
      out.stage.Finished? && w.statusWrite.Written? ==>
      var st, verdict := out.obj.status, out.stage.verdict;
      && verdict.Done?
      && (st.ready <==> verdict.applyOk && verdict.seen.Some? && SaysReady(verdict.seen.value))
      && SaysReadiness(st.conditions, verdict.applyOk, st.ready)
  {
    var stage := RunPass(EndpointKits(marshal), s, o, w).stage;
    if stage.Finished? && w.statusWrite.Written? {
      FinishedRenders(EndpointKits(marshal), s, o, w);
      var verdict := stage.verdict;
      assert EndpointKits(marshal)(s.obj).render(verdict) == Render(s.obj, verdict);
      CompletionHonest(s.obj, verdict.result, verdict.applyOk, Observed(verdict.seen));
      if verdict.seen.Some? {
        ReadyExactly(verdict.seen.value);
      }
    }
  }

  // ---------- what an edit does to the hash gate ----------

  // An edit of an accepted endpoint leaves its hash as it was exactly when the designs agree once defaults are written
  // out.
  lemma HashChangesExactly(marshal: Marshaller, a: Design, b: Design)
    requires TellsManifestsApart(marshal) && a.model.modelId != "" && b.model.modelId != ""
    ensures var x, y := EndpointManifest(marshal, a), EndpointManifest(marshal, b);
      x.Some? && y.Some? && (HashBytes(x.value) == HashBytes(y.value) <==> Explicit(a) == Explicit(b))
  {
    SameManifestExactly(a, b);
  }

  // With the resource present, a pass over an endpoint whose annotation is that of design a sends an Apply for
  // design b exactly when b differs from a in more than defaults.
  lemma EditReappliesExactly(marshal: Marshaller, s: EndpointState, o: Oracle, w: Weather, a: Design)
    requires TellsManifestsApart(marshal) && a.model.modelId != "" && s.obj.spec.design.model.modelId != ""
    requires s.obj.annotation == Some(HashBytes(EndpointManifest(marshal, a).value))
    requires !s.obj.deleting && CAPABILITY_FINALIZER in s.obj.finalizers && w.get && w.client
    requires !o(0).answer.NotFound?
    ensures SentApplies(EndpointKits(marshal), s, Pass(o, w)) ==
            if Explicit(s.obj.spec.design) == Explicit(a) then 0 else 1
  {
    var kits := EndpointKits(marshal);
    HashChangesExactly(marshal, a, s.obj.spec.design);
    assert kits(s.obj) == EndpointKit(marshal, s.obj);
    GateSends(kits, s, o, w, EndpointManifest(marshal, s.obj.spec.design).value);
    assert Read(Store(s.remote, 0, []), o, kits(s.obj).routes).1 == o(0);
  }

  // ---------- deletion ----------

  // An endpoint's delete addresses its own resource, so while name, namespace and the presence of cellSet stay,
  // the finalizer goes only after everything the endpoint put on k1s.
  lemma ReleaseLeavesNothing(marshal: Marshaller, states: seq<EndpointState>,
                             steps: seq<EndpointStep>, d: Design, j: nat)
    requires IsRun(EndpointKits(marshal), states, steps) && j < |steps| && states[0].remote == map[]
    requires forall x :: 0 <= x < |states| ==> EndpointKey(states[x].obj.spec.design) == EndpointKey(d)
    requires steps[j].Pass?
    requires RunPass(EndpointKits(marshal), states[j], steps[j].o, steps[j].w).stage == CleanedUp(true)
    requires states[j].obj.spec.deletePolicy.Delete?
    ensures states[j + 1].remote == map[]
  {
    var kits := EndpointKits(marshal);
    forall x | 0 <= x < |states| ensures kits(states[x].obj).key == EndpointKey(d) {
      assert kits(states[x].obj) == EndpointKit(marshal, states[x].obj);
    }
    assert kits(states[j].obj) == EndpointKit(marshal, states[j].obj);
    assert "InferenceCell" != "InferenceCellSet" by {
      assert |"InferenceCell"| == 13 && |"InferenceCellSet"| == 16;
    }
    assert "InferenceCell" != "Deployment" && "InferenceCellSet" != "Deployment" by {
      assert |"Deployment"| == 10 && |"InferenceCell"| == 13 && |"InferenceCellSet"| == 16;
    }
    Workloads.ReleaseLeavesNothing(kits, states, steps, EndpointKey(d), j);
  }

  // An endpoint's delete addresses what a design of the same name, namespace and presence of cellSet would put there.
  lemma DeletesExactly(d: Design, later: Design)
    ensures TargetOf(EndpointKey(d)) == Some(EndpointTarget(later)) <==>
            d.name == later.name && d.namespace == later.namespace && d.cellSet.Some? == later.cellSet.Some?
  {
    assert |"Deployment"| == 10 && |"InferenceCell"| == 13 && |"InferenceCellSet"| == 16;
  }

  // For every run, whatever is edited and fails: the cleanup that drops the finalizer leaves nothing behind exactly
  // when each resource that an earlier pass applied, and that is still there, is the one the design names now.
  lemma LeavesNothingExactly(marshal: Marshaller, states: seq<EndpointState>, steps: seq<EndpointStep>, j: nat)
    requires IsRun(EndpointKits(marshal), states, steps) && j < |steps| && states[0].remote == map[] && steps[j].Pass?
    requires states[j].obj.spec.deletePolicy.Delete?
    requires RunPass(EndpointKits(marshal), states[j], steps[j].o, steps[j].w).stage == CleanedUp(true)
    ensures states[j + 1].remote == map[] <==>
      forall i :: 0 <= i < j && AppliedAndThere(EndpointKits(marshal), states, steps, i, j) ==>
        var d, later := states[i].obj.spec.design, states[j].obj.spec.design;
        d.name == later.name && d.namespace == later.namespace && d.cellSet.Some? == later.cellSet.Some?
  {
    var kits := EndpointKits(marshal);
    assert kits(states[j].obj) == EndpointKit(marshal, states[j].obj);
    Workloads.LeavesNothingExactly(kits, states, steps, j);
    forall i | 0 <= i < j
      ensures kits(states[i].obj).key == EndpointKey(states[i].obj.spec.design)
      ensures var d, later := states[i].obj.spec.design, states[j].obj.spec.design;
        TargetOf(EndpointKey(d)) == Some(kits(states[j].obj).target) <==>
        d.name == later.name && d.namespace == later.namespace && d.cellSet.Some? == later.cellSet.Some?
    {
      assert kits(states[i].obj) == EndpointKit(marshal, states[i].obj);
      DeletesExactly(states[i].obj.spec.design, states[j].obj.spec.design);
    }
  }

  // Delete an endpoint whose cellSet was added or removed after it was applied: the other kind is deleted, and the
  // resource stays.
  lemma CellSetEditLeaks(marshal: Marshaller, s: EndpointState, before: Design, o: Oracle, w: Weather)
    requires s.obj.spec.design.cellSet.Some? != before.cellSet.Some?
    requires EndpointKey(before) in s.remote && s.obj.spec.deletePolicy.Delete?
    requires RunPass(EndpointKits(marshal), s, o, w).stage == CleanedUp(true)
    ensures EndpointKey(before) in RunPass(EndpointKits(marshal), s, o, w).k1s.remote
  {
    var kits := EndpointKits(marshal);
    assert kits(s.obj) == EndpointKit(marshal, s.obj);
    DeletesExactly(before, s.obj.spec.design);
  }

  // A whole run, in which nothing fails: apply, edit the design, mark, clean up. What was applied stays for good
  // exactly when the edit changed name or namespace or added or removed cellSet.
  lemma EditLeaksExactly(marshal: Marshaller, s: EndpointState, edited: Design)
    returns (states: seq<EndpointState>, steps: seq<EndpointStep>)
    requires Live(s) && s.obj.spec.deletePolicy.Delete? && EndpointManifest(marshal, s.obj.spec.design).Some?
    requires s.obj.annotation != Some(HashBytes(EndpointManifest(marshal, s.obj.spec.design).value))
    ensures IsRun(EndpointKits(marshal), states, steps) && |steps| == 4 && states[0] == s
    ensures states[2].obj.spec.design == edited && DropsFinalizer(EndpointKits(marshal), states[3], steps[3], states[4])
    ensures var d := s.obj.spec.design;
      EndpointKey(d) in states[4].remote <==>
      d.name != edited.name || d.namespace != edited.namespace || d.cellSet.Some? != edited.cellSet.Some?
  {
    var d := s.obj.spec.design;
    assert EndpointKits(marshal)(s.obj) == EndpointKit(marshal, s.obj);
    states, steps := ApplyThenEdit(EndpointKits(marshal), s, EndpointManifest(marshal, d).value,
                                   s.obj.spec.(design := edited));
    var marked := states[2].obj.(deleting := true);
    assert EndpointKits(marshal)(marked) == EndpointKit(marshal, marked);
    DeletesExactly(d, edited);
    states, steps := MarkAndCleanUp(EndpointKits(marshal), states, steps, EndpointKey(d));
  }
}
