/** K1sAppReconciler in internal/controller/capability_controller.go. */
module App {
  import opened Wrappers
  import opened Text
  import opened Digests
  import opened Json
  import opened Resources
  import opened K1s
  import opened K1sStatus
  import C = Conditions
  import LeaderRetry
  import opened Kube
  import opened Workloads

  // `name` is metadata.name.
  datatype AppSpec = AppSpec(name: string, manifest: Raw, deletePolicy: DeletePolicy)

  datatype AppRecord = AppRecord(
    appName: string, ready: bool, phase: string, endpoint: string,
    desired: int, readyReplicas: int, live: int, image: string, revision: string, conditions: seq<C.Condition>)

  type AppObject = Object<AppSpec, AppRecord>
  type AppState = State<AppSpec, AppRecord>
  type AppStep = Step<AppSpec, AppRecord>

  function KindFromManifest(decode: Decoder, raw: Raw): string {
    match decode(raw)
    case NotJson => ""
    case Header(kind, _, _) => kind
  }

  // appRefFromManifest
  function AppRef(decode: Decoder, raw: Raw): (string, string) {
    match decode(raw)
    case NotJson => ("default", "")
    case Header(_, namespace, name) => (OrDefault(namespace), name)
  }

  function AppNameFromManifest(decode: Decoder, raw: Raw): string {
    var (namespace, name) := AppRef(decode, raw);
    DeleteName(namespace, name)
  }

  function AppDeleteName(decode: Decoder, obj: AppObject): string {
    FirstNonEmpty([obj.status.appName, AppNameFromManifest(decode, obj.spec.manifest), obj.spec.name])
  }

  // The path segment of the first status route; a slash in it brings in the second route.
  function StatusRef(namespace: string, name: string): string {
    if namespace != "" && namespace != "default" then namespace + "/" + name else name
  }

  // The two routes of Client.AppStatus
  function StatusRoutes(namespace: string, name: string): Routes {
    var appRef := StatusRef(namespace, name);
    Routes(AppStatusRoute(appRef), if '/' in appRef then Some(AppStatusRoute(DashedRef(appRef))) else None)
  }

  function ObservedEndpoint(seen: AppStatus): string {
    if seen.ingressHost == "" then ""
    else if seen.ingressPath == "" || seen.ingressPath == "/" then seen.ingressHost
    else seen.ingressHost + seen.ingressPath
  }

  // applyObservedAppStatus
  function Observe(st: AppRecord, seen: AppStatus): AppRecord {
    st.(appName := FirstNonEmpty([seen.appName, st.appName]), ready := seen.ready,
        phase := FirstNonEmpty([seen.revisionStatus, st.phase]), endpoint := ObservedEndpoint(seen),
        desired := seen.desiredReplicas, readyReplicas := seen.readyReplicas, live := seen.liveReplicas,
        image := seen.image, revision := seen.revision)
  }

  function Rejection(decode: Decoder, obj: AppObject): AppRecord {
    var st := obj.status;
    var accepted := C.SetCondition(st.conditions, C.Accepted, false, C.Invalid);
    if obj.spec.manifest == [] then st.(conditions := accepted)
    else st.(appName := AppNameFromManifest(decode, obj.spec.manifest),
             conditions := C.SetCondition(accepted, C.Ready, false, C.Invalid))
  }

  // The status of a pass that got past the hash gate
  function Completion(decode: Decoder, obj: AppObject, result: map<string, Value>, applyOk: bool,
                      seen: Option<AppStatus>): AppRecord {
    var phase := FirstNonEmpty([TextOnly(result, "status"), "Applied"]);
    var st := obj.status.(
      appName := FirstNonEmpty([TextOnly(result, "app"), AppNameFromManifest(decode, obj.spec.manifest),
                                obj.spec.name]),
      phase := phase, ready := ToLower(phase) == "ready" || ToLower(phase) == "live");
    var accepted := C.SetCondition(st.conditions, C.Accepted, true, C.IsReady);
    var (observed, conditions) :=
      if !applyOk then
        (st.(ready := false),
         C.SetCondition(C.SetCondition(accepted, C.Applied, false, C.Unavailable), C.AppReady, false, C.Unavailable))
      else
        var applied := C.SetCondition(accepted, C.Applied, true, C.WasApplied);
        match seen
        case Some(status) =>
          var after := Observe(st, status);
          (after, C.SetCondition(applied, C.AppReady, after.ready, C.ReasonForBool(after.ready)))
        case None => (st.(ready := false), C.SetCondition(applied, C.AppReady, false, C.Unavailable));
    observed.(conditions := C.SetCondition(conditions, C.Ready, observed.ready, C.ReasonForBool(observed.ready)))
  }

  function Observed(seen: Option<map<string, Value>>): Option<AppStatus> {
    if seen.Some? then Some(AppStatusOf(seen.value)) else None
  }

  function Render(decode: Decoder, obj: AppObject, verdict: Verdict): AppRecord {
    var st := obj.status;
    match verdict
    case NoCredentials => st.(conditions := C.SetCondition(st.conditions, C.CredentialsValid, false, C.Missing))
    case CleanupFailed => st.(conditions := C.SetCondition(st.conditions, C.Applied, false, C.Unavailable))
    case Rejected => Rejection(decode, obj)
    case Done(result, applyOk, seen) => Completion(decode, obj, result, applyOk, Observed(seen))
  }

  function AppKit(decode: Decoder, obj: AppObject): Kit<AppRecord> {
    var raw := obj.spec.manifest;
    var (namespace, name) := AppRef(decode, raw);
    Kit(obj.spec.deletePolicy.Orphan?, AppTarget(AppDeleteName(decode, obj)), ManifestKey(decode, raw),
        if raw == [] || KindFromManifest(decode, raw) != "Deployment" then None else Some(raw),
        StatusRoutes(namespace, name), verdict => Render(decode, obj, verdict))
  }

  function AppKits(decode: Decoder): Kits<AppSpec, AppRecord> {
    (obj: AppObject) => AppKit(decode, obj)
  }

  class Reconciler {
    const decode: Decoder

    constructor (decode: Decoder)
      ensures this.decode == decode
    {
      this.decode := decode;
    }

    // Client.AppStatus
    method ReadStatus(api: Client, namespace: string, name: string) returns (err: LeaderRetry.Err, observed: AppStatus)
      modifies api
      ensures var (k, call) := Read(old(api.State()), OracleOf(api.script), StatusRoutes(namespace, name));
        && api.State() == k
        && (err.Nil? <==> call.answer.Ok?) && (LeaderRetry.IsNotFound(err) <==> call.answer.NotFound?)
        && (err.Nil? ==> observed == AppStatusOf(call.fields))
    {
      var appRef := StatusRef(namespace, name);
      var out;
      err, out := api.GetJSON(AppStatusRoute(appRef));
      if !err.Nil? && '/' in appRef {
        err, out := api.GetJSON(AppStatusRoute(DashedRef(appRef)));
      }
      observed := ParseAppStatus(out);
    }

    method Reconcile(kube: Server<AppSpec, AppRecord>, api: Client, w: Weather) returns (failed: bool)
      modifies kube, api
      ensures var obj := old(kube.obj);
        var out := ReconcileWorkload(obj, AppKit(decode, obj), old(api.State()), OracleOf(api.script), w);
        kube.obj == out.obj && api.State() == out.k1s && failed == out.failed
    {
      var app := kube.obj;
      if Gone(app) {
        return false;
      }
      if !w.get {
        return true;
      }
      var status := app.status;
      if !w.client {
        status := status.(conditions := C.SetCondition(status.conditions, C.CredentialsValid, false, C.Missing));
        failed := kube.PatchStatus(w.statusWrite, status);
        return;
      }
      if app.deleting {
        if CAPABILITY_FINALIZER in app.finalizers {
          if app.spec.deletePolicy != Orphan {
            var err := api.Delete(AppTarget(AppDeleteName(decode, app)));
            if !err.Nil? && !LeaderRetry.IsNotFound(err) {
              status := status.(conditions := C.SetCondition(status.conditions, C.Applied, false, C.Unavailable));
              var _ := kube.PatchStatus(w.statusWrite, status);
              return true;
            }
          }
          var finalizers := RemoveString(app.finalizers, CAPABILITY_FINALIZER);
          failed := kube.PatchFinalizers(w.finalizerWrite, finalizers);
          return;
        }
        return false;
      }
      if CAPABILITY_FINALIZER !in app.finalizers {
        failed := kube.PatchFinalizers(w.finalizerWrite, app.finalizers + [CAPABILITY_FINALIZER]);
        return;
      }
      var raw := app.spec.manifest;
      if |raw| == 0 {
        status := status.(conditions := C.SetCondition(status.conditions, C.Accepted, false, C.Invalid));
        failed := kube.PatchStatus(w.statusWrite, status);
        return;
      }
      if KindFromManifest(decode, raw) != "Deployment" {
        status := status.(appName := AppNameFromManifest(decode, raw));
        status := status.(conditions := C.SetCondition(status.conditions, C.Accepted, false, C.Invalid));
        status := status.(conditions := C.SetCondition(status.conditions, C.Ready, false, C.Invalid));
        failed := kube.PatchStatus(w.statusWrite, status);
        return;
      }
      failed := Sync(kube, api, w);
    }

    // The hash gate: read when the annotation matches, apply when it does not or the read answered 404.
    method PassGate(api: Client, app: AppObject, manifestHash: Digest)
      returns (shouldApply: bool, applyErr: LeaderRetry.Err, result: map<string, Value>, observedOK: bool,
               observed: AppStatus)
      requires manifestHash == HashBytes(app.spec.manifest)
      modifies api
      ensures var kit := AppKit(decode, app);
        var gate := RunGate(app.annotation, kit.key, app.spec.manifest, kit.routes, old(api.State()),
                            OracleOf(api.script));
        && api.State() == gate.k1s && shouldApply == gate.applying
        && (applyErr.Nil? <==> gate.applied.answer.Ok?)
        && (observedOK <==> gate.seen.Some?) && (observedOK ==> observed == AppStatusOf(gate.seen.value))
        && result == if gate.applying && applyErr.Nil? then gate.applied.fields else map[]
    {
      var raw := app.spec.manifest;
      shouldApply := app.annotation != Some(manifestHash);
      var (namespace, name) := AppRef(decode, raw);
      observed, observedOK := AppStatusOf(map[]), false;
      if !shouldApply {
        var statusErr;
        statusErr, observed := ReadStatus(api, namespace, name);
        observedOK := statusErr.Nil?;
        if LeaderRetry.IsNotFound(statusErr) {
          shouldApply := true;
        }
      }
      applyErr, result := LeaderRetry.Nil, map[];
      if shouldApply {
        applyErr, result := api.Apply(ManifestKey(decode, raw), raw);
        if !applyErr.Nil? {
          result := map[];
        }
      }
    }

    // From the hash gate on
    method Sync(kube: Server<AppSpec, AppRecord>, api: Client, w: Weather) returns (failed: bool)
      requires AppKit(decode, kube.obj).manifest == Some(kube.obj.spec.manifest)
      modifies kube, api
      ensures var obj := old(kube.obj);
        var out := Work(obj, AppKit(decode, obj), obj.spec.manifest, old(api.State()), OracleOf(api.script), w);
        kube.obj == out.obj && api.State() == out.k1s && failed == out.failed
    {
      var app, raw := kube.obj, kube.obj.spec.manifest;
      var manifestHash := HashBytes(raw);
      var shouldApply, applyErr, result, observedOK, observed := PassGate(api, app, manifestHash);
      if shouldApply && applyErr.Nil? {
        var lost := kube.PatchLastAppliedHash(w.annotationWrite, manifestHash);
        if lost {
          return true;
        }
      }
      var (namespace, name) := AppRef(decode, raw);
      if applyErr.Nil? && !observedOK {
        var statusErr;
        statusErr, observed := ReadStatus(api, namespace, name);
        observedOK := statusErr.Nil?;
      }
      ghost var stage := Work(app, AppKit(decode, app), raw, old(api.State()), OracleOf(api.script), w).stage;
      ghost var seen := stage.verdict.seen;
      RenderDone(app, result, applyErr.Nil?, seen);
      failed := Report(kube, app, w, result, applyErr.Nil?, observedOK, observed, seen);
    }

    // The final status write
    method Report(kube: Server<AppSpec, AppRecord>, app: AppObject, w: Weather, result: map<string, Value>,
                  applyOk: bool,
                  observedOK: bool, observed: AppStatus, ghost seen: Option<map<string, Value>>)
      returns (failed: bool)
      requires applyOk ==> Observed(seen) == if observedOK then Some(observed) else None
      modifies kube
      ensures var status := Completion(decode, app, result, applyOk, Observed(seen));
        kube.obj == PutStatus(old(kube.obj), w.statusWrite, status)
      ensures failed == !w.statusWrite.Written?
    {
      var status := Conclude(app, result, applyOk, observedOK, observed);
      SeenMatters(app, result, applyOk, Observed(seen), if observedOK then Some(observed) else None);
      failed := kube.PatchStatus(w.statusWrite, status);
    }

    lemma RenderDone(app: AppObject, result: map<string, Value>, applyOk: bool, seen: Option<map<string, Value>>)
      ensures AppKit(decode, app).render(Done(result, applyOk, seen)) ==
              Completion(decode, app, result, applyOk, Observed(seen))
    {
    }

    // After a failed Apply nothing that was read goes into the status.
    lemma SeenMatters(app: AppObject, result: map<string, Value>, applyOk: bool, a: Option<AppStatus>,
                      b: Option<AppStatus>)
      requires applyOk ==> a == b
      ensures Completion(decode, app, result, applyOk, a) == Completion(decode, app, result, applyOk, b)
    {
    }

    // The status of a pass that got past the hash gate
    method Conclude(app: AppObject, result: map<string, Value>, applyOk: bool, observedOK: bool, observed: AppStatus)
      returns (status: AppRecord)
      ensures status == Completion(decode, app, result, applyOk, if observedOK then Some(observed) else None)
    {
      status := app.status;
      var named := AppNameFromManifest(decode, app.spec.manifest);
      status := status.(appName := FirstNonEmpty([TextOnly(result, "app"), named, app.spec.name]));
      status := status.(phase := FirstNonEmpty([TextOnly(result, "status"), "Applied"]));
      status := status.(ready := ToLower(status.phase) == "ready" || ToLower(status.phase) == "live");
      var conditions := C.SetCondition(status.conditions, C.Accepted, true, C.IsReady);
      if !applyOk {
        conditions := C.SetCondition(conditions, C.Applied, false, C.Unavailable);
        conditions := C.SetCondition(conditions, C.AppReady, false, C.Unavailable);
        status := status.(ready := false);
      } else {
        conditions := C.SetCondition(conditions, C.Applied, true, C.WasApplied);
        if observedOK {
          status := Observe(status, observed);
          conditions := C.SetCondition(conditions, C.AppReady, status.ready, C.ReasonForBool(status.ready));
        } else {
          status := status.(ready := false);
          conditions := C.SetCondition(conditions, C.AppReady, false, C.Unavailable);
        }
      }
      conditions := C.SetCondition(conditions, C.Ready, status.ready, C.ReasonForBool(status.ready));
      status := status.(conditions := conditions);
    }
  }

  // strings.ReplaceAll(ref, "/", "--")
  function DashedRef(ref: string): string {
    if ref == "" then "" else (if ref[0] == '/' then "--" else [ref[0]]) + DashedRef(ref[1..])
  }

  // ---------- honest status ----------

  lemma CompletionConditions(cs: seq<C.Condition>, applied: bool, ar: C.Reason, appReady: bool, pr: C.Reason,
                             ready: bool, rr: C.Reason)
    ensures var c1 := C.SetCondition(cs, C.Accepted, true, C.IsReady);
      var c2 := C.SetCondition(c1, C.Applied, applied, ar);
      var c3 := C.SetCondition(c2, C.AppReady, appReady, pr);
      var c4 := C.SetCondition(c3, C.Ready, ready, rr);
      && C.Entry(c4, C.Accepted) == Some(C.Condition(C.Accepted, true, C.IsReady))
      && C.Entry(c4, C.Applied) == Some(C.Condition(C.Applied, applied, ar))
      && C.Entry(c4, C.AppReady) == Some(C.Condition(C.AppReady, appReady, pr))
      && C.Entry(c4, C.Ready) == Some(C.Condition(C.Ready, ready, rr))
  {
    var c1 := C.SetCondition(cs, C.Accepted, true, C.IsReady);
    var c2 := C.SetCondition(c1, C.Applied, applied, ar);
    var c3 := C.SetCondition(c2, C.AppReady, appReady, pr);
    C.SetConditionReads(cs, C.Accepted, true, C.IsReady, C.Accepted);
    C.SetConditionReads(c1, C.Applied, applied, ar, C.Accepted);
    C.SetConditionReads(c1, C.Applied, applied, ar, C.Applied);
    C.SetConditionReads(c2, C.AppReady, appReady, pr, C.Accepted);
    C.SetConditionReads(c2, C.AppReady, appReady, pr, C.Applied);
    C.SetConditionReads(c2, C.AppReady, appReady, pr, C.AppReady);
    C.SetConditionReads(c3, C.Ready, ready, rr, C.Accepted);
    C.SetConditionReads(c3, C.Ready, ready, rr, C.Applied);
    C.SetConditionReads(c3, C.Ready, ready, rr, C.AppReady);
    C.SetConditionReads(c3, C.Ready, ready, rr, C.Ready);
  }

  // What the status read says about replicas
  predicate ReplicasReady(seen: Option<map<string, Value>>) {
    && seen.Some?
    && I32(Field(seen.value, "desired_replicas")) > 0
    && I32(Field(seen.value, "ready_replicas")) >= I32(Field(seen.value, "desired_replicas"))
  }

  // Ready and AppReady say whether the app is ready, Applied whether no Apply failed, and Accepted that it is accepted.
  ghost predicate SaysReadiness(conditions: seq<C.Condition>, applied: bool, ready: bool) {
    var why := if ready then C.IsReady else C.Unavailable;
    && C.Entry(conditions, C.Ready) == Some(C.Condition(C.Ready, ready, why))
    && C.Entry(conditions, C.AppReady) == Some(C.Condition(C.AppReady, ready, why))
    && C.Entry(conditions, C.Applied) ==
         Some(C.Condition(C.Applied, applied, if applied then C.WasApplied else C.Unavailable))
    && C.Entry(conditions, C.Accepted) == Some(C.Condition(C.Accepted, true, C.IsReady))
  }

  // Readiness honesty of a completed pass: Ready holds exactly when no Apply failed in it, the app's status was
  // read in it, some replicas are desired and that many are ready. The phase that Apply reports plays no part.
  lemma CompletedPassIsHonest(decode: Decoder, s: AppState, o: Oracle, w: Weather)
    ensures var out := RunPass(AppKits(decode), s, o, w);
      out.stage.Finished? && w.statusWrite.Written? ==>
      var st, verdict := out.obj.status, out.stage.verdict;
      && verdict.Done?
      && (st.ready <==> verdict.applyOk && ReplicasReady(verdict.seen))
      && SaysReadiness(st.conditions, verdict.applyOk, st.ready)
  {
    var stage := RunPass(AppKits(decode), s, o, w).stage;
    if stage.Finished? && w.statusWrite.Written? {
      FinishedRenders(AppKits(decode), s, o, w);
      RenderHonest(decode, s.obj, stage.verdict);
    }
  }

  lemma RenderHonest(decode: Decoder, obj: AppObject, verdict: Verdict)
    requires verdict.Done?
    ensures var st := AppKits(decode)(obj).render(verdict);
      && (st.ready <==> verdict.applyOk && ReplicasReady(verdict.seen))
      && SaysReadiness(st.conditions, verdict.applyOk, st.ready)
  {
    CompletionHonest(decode, obj, verdict.result, verdict.applyOk, verdict.seen);
  }

  lemma CompletionHonest(decode: Decoder, obj: AppObject, result: map<string, Value>, applyOk: bool,
                         seen: Option<map<string, Value>>)
    ensures var st := Completion(decode, obj, result, applyOk, Observed(seen));
      && (st.ready <==> applyOk && ReplicasReady(seen))
      && SaysReadiness(st.conditions, applyOk, st.ready)
  {
    var ready := applyOk && ReplicasReady(seen);
    CompletionConditions(obj.status.conditions, applyOk, if applyOk then C.WasApplied else C.Unavailable,
                         ready, C.ReasonForBool(ready), ready, C.ReasonForBool(ready));
  }

  // A pass that refuses the manifest's kind sets the Ready condition to False and leaves status.ready as it was,
  // so the two agree afterwards exactly when the app was not Ready before.
  lemma RejectedKindKeepsReady(decode: Decoder, obj: AppObject)
    requires obj.spec.manifest != [] && KindFromManifest(decode, obj.spec.manifest) != "Deployment"
    ensures var st := AppKit(decode, obj).render(Rejected);
      && C.Status(st.conditions, C.Ready) == Some(false) && st.ready == obj.status.ready
      && (C.Status(st.conditions, C.Ready) == Some(st.ready) <==> !obj.status.ready)
  {
    var accepted := C.SetCondition(obj.status.conditions, C.Accepted, false, C.Invalid);
    C.SetConditionReads(accepted, C.Ready, false, C.Invalid, C.Ready);
  }

  // status.ready and the Ready condition say the same.
  predicate Agrees(st: AppRecord) {
    C.Status(st.conditions, C.Ready) == Some(true) <==> st.ready
  }

  // A pass that refuses the kind of a Ready app's manifest, and whose status write gets through.
  predicate RefusesReady(decode: Decoder, s: AppState, step: AppStep) {
    && step.Pass? && RunPass(AppKits(decode), s, step.o, step.w).stage.Refused?
    && s.obj.spec.manifest != [] && s.obj.status.ready
    && (step.w.statusWrite.Written? || step.w.statusWrite.effect)
  }

  // What each verdict does to the agreement.
  lemma RenderAgrees(decode: Decoder, obj: AppObject, verdict: Verdict)
    requires verdict.Rejected? ==> AppKit(decode, obj).manifest.None?
    ensures Agrees(AppKit(decode, obj).render(verdict)) <==>
            if verdict.Done? then true
            else if verdict.Rejected? && obj.spec.manifest != [] then !obj.status.ready
            else Agrees(obj.status)
  {
    match verdict
    case NoCredentials =>
      C.SetConditionReads(obj.status.conditions, C.CredentialsValid, false, C.Missing, C.Ready);
    case CleanupFailed =>
      C.SetConditionReads(obj.status.conditions, C.Applied, false, C.Unavailable, C.Ready);
    case Rejected =>
      C.SetConditionReads(obj.status.conditions, C.Accepted, false, C.Invalid, C.Ready);
      if obj.spec.manifest != [] {
        RejectedKindKeepsReady(decode, obj);
      }
    case Done(_, _, _) =>
      RenderHonest(decode, obj, verdict);
  }

  // Exactly what a step does to the agreement: only a pass that refuses the kind of a Ready app breaks it.
  lemma StepAgrees(decode: Decoder, s: AppState, step: AppStep, after: AppState)
    requires Next(AppKits(decode), s, step, after) && Agrees(s.obj.status)
    ensures Agrees(after.obj.status) <==> !RefusesReady(decode, s, step)
  {
    var kits := AppKits(decode);
    if step.Pass? {
      assert kits(s.obj) == AppKit(decode, s.obj);
      PassStatus(kits, s, step.o, step.w);
      var stage := RunPass(kits, s, step.o, step.w).stage;
      RenderAgrees(decode, s.obj, NoCredentials);
      RenderAgrees(decode, s.obj, CleanupFailed);
      if stage.Refused? {
        RenderAgrees(decode, s.obj, Rejected);
      }
      if stage.Finished? {
        RenderAgrees(decode, s.obj, stage.verdict);
      }
    }
  }

  // Over runs: status.ready and the Ready condition agree until a pass refuses the kind of a Ready app.
  lemma {:induction false} AgreesUntilRefused(decode: Decoder, states: seq<AppState>, steps: seq<AppStep>, i: nat)
    requires IsRun(AppKits(decode), states, steps) && i < |states| && Agrees(states[0].obj.status)
    requires forall x :: 0 <= x < i ==> !RefusesReady(decode, states[x], steps[x])
    ensures Agrees(states[i].obj.status)
  {
    if i > 0 {
      AgreesUntilRefused(decode, states, steps, i - 1);
      StepAgrees(decode, states[i - 1], steps[i - 1], states[i]);
    }
  }

  // ---------- deletion ----------

  // What the delete of an app addresses, whatever became of its manifest since: the Deployments filed under the delete
  // name in its status, or under its manifest's or its own name while that is empty.
  lemma DeletesExactly(decode: Decoder, obj: AppObject, key: Key)
    ensures var recorded, named := obj.status.appName, AppNameFromManifest(decode, obj.spec.manifest);
      TargetOf(key) == Some(AppKit(decode, obj).target) <==>
      && key.kind == "Deployment"
      && DeleteName(key.namespace, key.name) ==
           if recorded != "" then recorded else if named != "" then named else obj.spec.name
  {
    FirstOfThree(obj.status.appName, AppNameFromManifest(decode, obj.spec.manifest), obj.spec.name);
  }

  // An accepted manifest is filed as a Deployment under its delete name.
  lemma AcceptedKey(decode: Decoder, obj: AppObject)
    requires AppKit(decode, obj).manifest.Some?
    ensures var key := AppKit(decode, obj).key;
      key.kind == "Deployment" && DeleteName(key.namespace, key.name) == AppNameFromManifest(decode, obj.spec.manifest)
  {
  }

  // The delete of an app addresses the resource its manifest names exactly when the name recorded in its status,
  // if any, is that resource's.
  lemma DeletesItsOwnExactly(decode: Decoder, obj: AppObject)
    requires AppKit(decode, obj).manifest.Some? && AppRef(decode, obj.spec.manifest).1 != ""
    ensures TargetOf(AppKit(decode, obj).key) == Some(AppKit(decode, obj).target) <==>
            obj.status.appName == "" || obj.status.appName == AppNameFromManifest(decode, obj.spec.manifest)
  {
    var named := AppNameFromManifest(decode, obj.spec.manifest);
    assert named != "";
    FirstOfThree(obj.status.appName, named, obj.spec.name);
  }

  // With one manifest name all along and k1s reporting no other name for it, the finalizer goes only after everything
  // the app put on k1s.
  lemma ReleaseLeavesNothing(decode: Decoder, states: seq<AppState>, steps: seq<AppStep>, key: Key, j: nat)
    requires IsRun(AppKits(decode), states, steps) && j < |steps| && states[0].remote == map[]
    requires forall x :: 0 <= x < |states| ==> ManifestKey(decode, states[x].obj.spec.manifest) == key
    requires steps[j].Pass? && RunPass(AppKits(decode), states[j], steps[j].o, steps[j].w).stage == CleanedUp(true)
    requires states[j].obj.spec.deletePolicy.Delete?
    requires AppKit(decode, states[j].obj).manifest.Some? && AppRef(decode, states[j].obj.spec.manifest).1 != ""
    requires states[j].obj.status.appName == "" ||
             states[j].obj.status.appName == AppNameFromManifest(decode, states[j].obj.spec.manifest)
    ensures states[j + 1].remote == map[]
  {
    var kits := AppKits(decode);
    forall x | 0 <= x < |states| ensures kits(states[x].obj).key == key {
      assert kits(states[x].obj) == AppKit(decode, states[x].obj);
    }
    assert kits(states[j].obj) == AppKit(decode, states[j].obj);
    DeletesItsOwnExactly(decode, states[j].obj);
    Workloads.ReleaseLeavesNothing(kits, states, steps, key, j);
  }

  // For every run, whatever is edited and fails: the cleanup that drops the finalizer leaves nothing behind exactly
  // when each Deployment that an earlier pass applied, and that is still there, has the delete name the app has now.
  lemma LeavesNothingExactly(decode: Decoder, states: seq<AppState>, steps: seq<AppStep>, j: nat)
    requires IsRun(AppKits(decode), states, steps) && j < |steps| && states[0].remote == map[] && steps[j].Pass?
    requires states[j].obj.spec.deletePolicy.Delete?
    requires RunPass(AppKits(decode), states[j], steps[j].o, steps[j].w).stage == CleanedUp(true)
    ensures states[j + 1].remote == map[] <==>
      forall i :: 0 <= i < j && AppliedAndThere(AppKits(decode), states, steps, i, j) ==>
        AppNameFromManifest(decode, states[i].obj.spec.manifest) == AppDeleteName(decode, states[j].obj)
  {
    var kits := AppKits(decode);
    assert kits(states[j].obj) == AppKit(decode, states[j].obj);
    Workloads.LeavesNothingExactly(kits, states, steps, j);
    forall i | 0 <= i < j && SentApplies(kits, states[i], steps[i]) > 0
      ensures kits(states[i].obj).key == ManifestKey(decode, states[i].obj.spec.manifest)
      ensures TargetOf(kits(states[i].obj).key) == Some(kits(states[j].obj).target) <==>
              AppNameFromManifest(decode, states[i].obj.spec.manifest) == AppDeleteName(decode, states[j].obj)
    {
      SentIsAccepted(decode, states[i], steps[i]);
    }
  }

  lemma SentIsAccepted(decode: Decoder, s: AppState, step: AppStep)
    requires SentApplies(AppKits(decode), s, step) > 0
    ensures var key := AppKits(decode)(s.obj).key;
      && key == ManifestKey(decode, s.obj.spec.manifest) && key.kind == "Deployment"
      && DeleteName(key.namespace, key.name) == AppNameFromManifest(decode, s.obj.spec.manifest)
  {
    var kits := AppKits(decode);
    assert kits(s.obj) == AppKit(decode, s.obj);
    PassSends(kits, s, step.o, step.w);
    AcceptedKey(decode, s.obj);
  }

  // Apply one Deployment, edit the manifest to another, let a pass apply that, and delete the app: nothing fails, and
  // the first Deployment stays for good exactly when the two have different delete names.
  lemma RenameLeaks(decode: Decoder, s: AppState, renamed: Raw)
    returns (states: seq<AppState>, steps: seq<AppStep>)
    requires Live(s) && s.obj.spec.deletePolicy.Delete? && renamed != s.obj.spec.manifest
    requires AppKit(decode, s.obj).manifest == Some(s.obj.spec.manifest)
    requires s.obj.annotation != Some(HashBytes(s.obj.spec.manifest))
    requires renamed != [] && KindFromManifest(decode, renamed) == "Deployment"
    requires AppNameFromManifest(decode, renamed) != ""
    ensures IsRun(AppKits(decode), states, steps) && |steps| == 5 && states[0] == s
    ensures DropsFinalizer(AppKits(decode), states[4], steps[4], states[5])
    ensures ManifestKey(decode, s.obj.spec.manifest) in states[5].remote <==>
            AppNameFromManifest(decode, renamed) != AppNameFromManifest(decode, s.obj.spec.manifest)
  {
    var key := ManifestKey(decode, s.obj.spec.manifest);
    states, steps := AppliedThenEdited(decode, s, renamed);
    var s3 := RenamedPass(decode, states[2], s.obj.spec.manifest);
    states, steps := PassMarkAndCleanUp(AppKits(decode), states, steps, s3, key);
  }

  // Apply a Deployment, edit the manifest to a kind that is refused, let a pass refuse it, and delete the app: nothing
  // fails, the delete goes to the refused manifest's name (the app's own, where that is empty), and the Deployment
  // stays for good exactly when this is not its delete name.
  lemma RefusedKindLeaks(decode: Decoder, s: AppState, refused: Raw)
    returns (states: seq<AppState>, steps: seq<AppStep>)
    requires Live(s) && s.obj.spec.deletePolicy.Delete?
    requires AppKit(decode, s.obj).manifest == Some(s.obj.spec.manifest)
    requires s.obj.annotation != Some(HashBytes(s.obj.spec.manifest))
    requires refused != [] && KindFromManifest(decode, refused) != "Deployment"
    ensures IsRun(AppKits(decode), states, steps) && |steps| == 5 && states[0] == s
    ensures DropsFinalizer(AppKits(decode), states[4], steps[4], states[5])
    ensures var redirected := AppNameFromManifest(decode, refused);
      ManifestKey(decode, s.obj.spec.manifest) in states[5].remote <==>
      (if redirected != "" then redirected else s.obj.spec.name) != AppNameFromManifest(decode, s.obj.spec.manifest)
  {
    var key := ManifestKey(decode, s.obj.spec.manifest);
    states, steps := AppliedThenEdited(decode, s, refused);
    var s3 := RefusedPass(decode, states[2], s.obj.spec.manifest);
    states, steps := PassMarkAndCleanUp(AppKits(decode), states, steps, s3, key);
  }

  // The name that a pass in which nothing fails writes into the status
  lemma FineAppName(decode: Decoder, obj: AppObject)
    requires AppNameFromManifest(decode, obj.spec.manifest) != ""
    ensures AppKit(decode, obj).render(Done(map[], true, Some(map[]))).appName ==
            AppNameFromManifest(decode, obj.spec.manifest)
  {
    var named := AppNameFromManifest(decode, obj.spec.manifest);
    FirstOfThree("", named, obj.spec.name);
    assert TextOnly(map[], "app") == "" && AppStatusOf(map[]).appName == "";
    assert FirstNonEmpty(["", named]) == named by {
      assert ["", named][1..] == [named];
    }
    assert Observed(Some(map[])) == Some(AppStatusOf(map[]));
  }

  // Where the delete of an app goes, compared with a Deployment it applied
  lemma AimsAt(decode: Decoder, applied: Raw, later: AppObject, name: string)
    requires applied != [] && KindFromManifest(decode, applied) == "Deployment"
    requires var recorded, named := later.status.appName, AppNameFromManifest(decode, later.spec.manifest);
      name == if recorded != "" then recorded else if named != "" then named else later.spec.name
    ensures var target := AppKits(decode)(later.(deleting := true)).target;
      TargetOf(ManifestKey(decode, applied)) == Some(target) <==> name == AppNameFromManifest(decode, applied)
  {
    assert AppKits(decode)(later.(deleting := true)) == AppKit(decode, later.(deleting := true));
    DeletesExactly(decode, later.(deleting := true), ManifestKey(decode, applied));
  }

  lemma AppliedThenEdited(decode: Decoder, s: AppState, edited: Raw)
    returns (states: seq<AppState>, steps: seq<AppStep>)
    requires Live(s) && AppKit(decode, s.obj).manifest == Some(s.obj.spec.manifest)
    requires s.obj.annotation != Some(HashBytes(s.obj.spec.manifest))
    ensures IsRun(AppKits(decode), states, steps) && |steps| == 2 && states[0] == s && Live(states[2])
    ensures states[2].obj.spec == s.obj.spec.(manifest := edited)
    ensures states[2].obj.annotation == Some(HashBytes(s.obj.spec.manifest))
    ensures ManifestKey(decode, s.obj.spec.manifest) in states[2].remote
  {
    assert AppKits(decode)(s.obj) == AppKit(decode, s.obj);
    states, steps := ApplyThenEdit(AppKits(decode), s, s.obj.spec.manifest, s.obj.spec.(manifest := edited));
  }

  // A pass in which nothing fails applies another Deployment, and the delete now goes to that.
  lemma RenamedPass(decode: Decoder, s: AppState, applied: Raw) returns (after: AppState)
    requires Live(s) && s.obj.spec.deletePolicy.Delete? && s.obj.annotation != Some(HashBytes(s.obj.spec.manifest))
    requires applied != [] && KindFromManifest(decode, applied) == "Deployment"
    requires AppKit(decode, s.obj).manifest == Some(s.obj.spec.manifest)
    requires AppNameFromManifest(decode, s.obj.spec.manifest) != ""
    ensures Next(AppKits(decode), s, Pass(AlwaysOk(), FINE), after)
    ensures s.remote.Keys <= after.remote.Keys && CAPABILITY_FINALIZER in after.obj.finalizers
    ensures var kit := AppKits(decode)(after.obj.(deleting := true));
      && !kit.orphan
      && (TargetOf(ManifestKey(decode, applied)) == Some(kit.target) <==>
            AppNameFromManifest(decode, s.obj.spec.manifest) == AppNameFromManifest(decode, applied))
  {
    assert AppKits(decode)(s.obj) == AppKit(decode, s.obj);
    after := FineApply(AppKits(decode), s, s.obj.spec.manifest);
    FineAppName(decode, s.obj);
    AimsAt(decode, applied, after.obj, AppNameFromManifest(decode, s.obj.spec.manifest));
  }

  // A pass in which nothing fails refuses the kind, and the delete now goes to the refused manifest's name.
  lemma RefusedPass(decode: Decoder, s: AppState, applied: Raw) returns (after: AppState)
    requires Live(s) && s.obj.spec.deletePolicy.Delete?
    requires applied != [] && KindFromManifest(decode, applied) == "Deployment"
    requires s.obj.spec.manifest != [] && AppKit(decode, s.obj).manifest == None
    ensures Next(AppKits(decode), s, Pass(AlwaysOk(), FINE), after)
    ensures after.remote == s.remote && CAPABILITY_FINALIZER in after.obj.finalizers
    ensures var redirected := AppNameFromManifest(decode, s.obj.spec.manifest);
      var kit := AppKits(decode)(after.obj.(deleting := true));
      && !kit.orphan
      && (TargetOf(ManifestKey(decode, applied)) == Some(kit.target) <==>
            (if redirected != "" then redirected else s.obj.spec.name) == AppNameFromManifest(decode, applied))
  {
    assert AppKits(decode)(s.obj) == AppKit(decode, s.obj);
    FineRefusal(AppKits(decode), s);
    after := State(s.obj.(status := Rejection(decode, s.obj)), s.remote);
    var redirected := AppNameFromManifest(decode, s.obj.spec.manifest);
    AimsAt(decode, applied, after.obj, if redirected != "" then redirected else s.obj.spec.name);
  }
}
