/**
 What a K1sApp's status says after a pass, field by field, in terms of what k1s answered, and what the next cleanup
 deletes because of it.
 */
module AppReports {
  import opened Wrappers
  import opened Text
  import opened Digests
  import opened Json
  import opened Resources
  import opened K1s
  import opened K1sStatus
  import C = Conditions
  import opened Kube
  import opened Workloads
  import opened WorkloadReports
  import opened App

  // host, and the path unless it is empty or the root
  ghost predicate IsEndpoint(endpoint: string, host: string, path: string) {
    endpoint == if host == "" || path in {"", "/"} then host else host + path
  }

  // What a status payload from k1s puts into the status
  ghost predicate Mirrors(st: AppRecord, payload: map<string, Value>) {
    && st.desired == I32(Field(payload, "desired_replicas"))
    && st.readyReplicas == I32(Field(payload, "ready_replicas"))
    && st.live == I32(Field(payload, "live_replicas"))
    && st.image == Str(Field(payload, "image"))
    && st.revision == Str(Field(payload, "revision"))
    && IsEndpoint(st.endpoint, Str(Field(payload, "ingress_host")), Str(Field(payload, "ingress_path")))
  }

  // The observed fields are those of another status.
  ghost predicate KeepsObserved(st: AppRecord, before: AppRecord) {
    && st.desired == before.desired && st.readyReplicas == before.readyReplicas && st.live == before.live
    && st.image == before.image && st.revision == before.revision && st.endpoint == before.endpoint
  }

  ghost predicate Records(decode: Decoder, before: AppObject, st: AppRecord, verdict: Verdict)
    requires verdict.Done?
  {
    var named := [TextOnly(verdict.result, "app"), AppNameFromManifest(decode, before.spec.manifest), before.spec.name];
    var phases := [TextOnly(verdict.result, "status"), "Applied"];
    if verdict.applyOk && verdict.seen.Some? then
      var payload := verdict.seen.value;
      && Mirrors(st, payload)
      && st.appName == FirstNonEmpty([Str(Field(payload, "app_name"))] + named)
      && st.phase == FirstNonEmpty([Str(Field(payload, "revision_status"))] + phases)
    else
      KeepsObserved(st, before.status) && st.appName == FirstNonEmpty(named) && st.phase == FirstNonEmpty(phases)
  }

  lemma CompletionRecords(decode: Decoder, obj: AppObject, verdict: Verdict)
    requires verdict.Done?
    ensures Records(decode, obj, Render(decode, obj, verdict), verdict)
  {
    var named := [TextOnly(verdict.result, "app"), AppNameFromManifest(decode, obj.spec.manifest), obj.spec.name];
    var phases := [TextOnly(verdict.result, "status"), "Applied"];
    if verdict.applyOk && verdict.seen.Some? {
      var payload := verdict.seen.value;
      FirstOfFirst([Str(Field(payload, "app_name"))], named);
      FirstOfFirst([Str(Field(payload, "revision_status"))], phases);
      assert [Str(Field(payload, "app_name"))] + [FirstNonEmpty(named)] ==
             [Str(Field(payload, "app_name")), FirstNonEmpty(named)];
      assert [Str(Field(payload, "revision_status"))] + [FirstNonEmpty(phases)] ==
             [Str(Field(payload, "revision_status")), FirstNonEmpty(phases)];
    }
  }

  // Every field of a completed pass's status, from the k1s payload it read where it read one, from the Apply result,
  // the manifest and the app itself otherwise.
  lemma CompletedPassRecords(decode: Decoder, s: AppState, o: Oracle, w: Weather)
    ensures var out := RunPass(AppKits(decode), s, o, w);
      out.stage.Finished? && w.statusWrite.Written? ==>
        && out.stage.verdict.Done? && Concludes(out.stage.verdict, out.k1s.trace)
        && Records(decode, s.obj, out.obj.status, out.stage.verdict)
  {
    PassConcludes(AppKits(decode), s, o, w);
    var out := RunPass(AppKits(decode), s, o, w);
    if out.stage.Finished? && w.statusWrite.Written? {
      FinishedRenders(AppKits(decode), s, o, w);
      assert AppKits(decode)(s.obj) == AppKit(decode, s.obj);
      CompletionRecords(decode, s.obj, out.stage.verdict);
    }
  }

  // The deletion follows the payload: after a pass that read a payload with an app name, whatever users edit, the next
  // cleanup asks k1s to delete that app, and addresses exactly the Deployments with that delete name.
  lemma CleanupFollowsPayload(decode: Decoder, s: AppState, o: Oracle, w: Weather, marked: AppObject, o2: Oracle,
                              w2: Weather)
    requires var out := RunPass(AppKits(decode), s, o, w);
      && out.stage.Finished? && w.statusWrite.Written? && out.stage.verdict.Done?
      && out.stage.verdict.applyOk && out.stage.verdict.seen.Some?
      && Str(Field(out.stage.verdict.seen.value, "app_name")) != ""
      && EditOk(out.obj, marked) && CAPABILITY_FINALIZER in out.obj.finalizers
    requires marked.deleting && marked.spec.deletePolicy.Delete? && w2.get && w2.client
    ensures var out := RunPass(AppKits(decode), s, o, w);
      var reported := Str(Field(out.stage.verdict.seen.value, "app_name"));
      && RunPass(AppKits(decode), State(marked, out.k1s.remote), o2, w2).k1s.trace ==
           [SentDelete(AppTarget(reported), o2(0))]
      && forall key :: TargetOf(key) == Some(AppTarget(reported)) <==>
           key.kind == "Deployment" && DeleteName(key.namespace, key.name) == reported
  {
    CompletedPassRecords(decode, s, o, w);
    var out := RunPass(AppKits(decode), s, o, w);
    var reported := Str(Field(out.stage.verdict.seen.value, "app_name"));
    assert marked.status.appName == reported;
    assert AppKits(decode)(marked) == AppKit(decode, marked);
    FirstExactly([marked.status.appName, AppNameFromManifest(decode, marked.spec.manifest), marked.spec.name], 0);
    CleanupReports(AppKits(decode), State(marked, out.k1s.remote), o2, w2);
  }

  // ---------- where the status is read ----------

  lemma {:induction false} DashedPlain(s: string)
    requires SlashFree(s)
    ensures DashedRef(s) == s
  {
    if s != "" {
      assert s[0] in s;
      DashedPlain(s[1..]);
    }
  }

  lemma {:induction false} DashedTail(ns: string, name: string)
    requires SlashFree(ns) && SlashFree(name)
    ensures DashedRef(ns + "/" + name) == ns + "--" + name
  {
    var whole := ns + "/" + name;
    if ns == "" {
      assert whole[1..] == name;
      DashedPlain(name);
    } else {
      assert ns[0] in ns && whole[1..] == ns[1..] + "/" + name;
      DashedTail(ns[1..], name);
    }
  }

  // Where a status is asked for, for names without slashes: under the delete name of the app's manifest, in another
  // than the default namespace after a first try with a slash.
  lemma StatusIsOfTheApp(decode: Decoder, obj: AppObject)
    requires var (ns, name) := AppRef(decode, obj.spec.manifest); SlashFree(ns) && SlashFree(name)
    ensures var (ns, name) := AppRef(decode, obj.spec.manifest);
      var named := AppStatusRoute(AppNameFromManifest(decode, obj.spec.manifest));
      AppKit(decode, obj).routes ==
        if ns == "default" then Routes(named, None) else Routes(AppStatusRoute(ns + "/" + name), Some(named))
  {
    var (ns, name) := AppRef(decode, obj.spec.manifest);
    var whole := ns + "/" + name;
    assert whole[|ns|] == '/';
    DashedTail(ns, name);
  }

  // ---------- refusals ----------

  // A pass that gets to the spec of a live app refuses it exactly when its manifest is no Deployment.
  lemma RefusedExactly(decode: Decoder, s: AppState, o: Oracle, w: Weather)
    requires Live(s) && w.get && w.client
    ensures RunPass(AppKits(decode), s, o, w).stage.Refused? <==>
      !(s.obj.spec.manifest != [] && decode(s.obj.spec.manifest).Header?
        && decode(s.obj.spec.manifest).kind == "Deployment")
  {
    assert AppKits(decode)(s.obj) == AppKit(decode, s.obj);
  }

  // Nothing is sent then, and the status changes in no more than this: Accepted turns False, and for a manifest that is
  // there, Ready too, and the name becomes that manifest's.
  lemma RefusalRecords(decode: Decoder, s: AppState, o: Oracle, w: Weather)
    requires RunPass(AppKits(decode), s, o, w).stage.Refused? && w.statusWrite.Written?
    ensures var out := RunPass(AppKits(decode), s, o, w);
      var st, given := out.obj.status, s.obj.spec.manifest != [];
      && out.k1s == Store(s.remote, 0, []) && out.obj == s.obj.(status := st)
      && st == s.obj.status.(appName := st.appName, conditions := st.conditions)
      && st.appName == (if given then AppNameFromManifest(decode, s.obj.spec.manifest) else s.obj.status.appName)
      && C.Entry(st.conditions, C.Accepted) == Some(C.Condition(C.Accepted, false, C.Invalid))
      && C.Entry(st.conditions, C.Ready) ==
           (if given then Some(C.Condition(C.Ready, false, C.Invalid)) else C.Entry(s.obj.status.conditions, C.Ready))
  {
    assert AppKits(decode)(s.obj) == AppKit(decode, s.obj);
    PassStatus(AppKits(decode), s, o, w);
    RejectionReads(decode, s.obj);
  }

  lemma RejectionReads(decode: Decoder, obj: AppObject)
    ensures var st, given := Rejection(decode, obj), obj.spec.manifest != [];
      && C.Entry(st.conditions, C.Accepted) == Some(C.Condition(C.Accepted, false, C.Invalid))
      && C.Entry(st.conditions, C.Ready) ==
           (if given then Some(C.Condition(C.Ready, false, C.Invalid)) else C.Entry(obj.status.conditions, C.Ready))
  {
    var accepted := C.SetCondition(obj.status.conditions, C.Accepted, false, C.Invalid);
    C.SetConditionReads(obj.status.conditions, C.Accepted, false, C.Invalid, C.Accepted);
    C.SetConditionReads(obj.status.conditions, C.Accepted, false, C.Invalid, C.Ready);
    C.SetConditionReads(accepted, C.Ready, false, C.Invalid, C.Accepted);
    C.SetConditionReads(accepted, C.Ready, false, C.Invalid, C.Ready);
  }

  // Missing credentials and a failed delete change one condition and nothing else in the status.
  lemma FailureConditions(decode: Decoder, obj: AppObject)
    ensures var st := AppKit(decode, obj).render(NoCredentials);
      && st == obj.status.(conditions := st.conditions)
      && C.Entry(st.conditions, C.CredentialsValid) == Some(C.Condition(C.CredentialsValid, false, C.Missing))
    ensures var st := AppKit(decode, obj).render(CleanupFailed);
      && st == obj.status.(conditions := st.conditions)
      && C.Entry(st.conditions, C.Applied) == Some(C.Condition(C.Applied, false, C.Unavailable))
  {
    C.SetConditionReads(obj.status.conditions, C.CredentialsValid, false, C.Missing, C.CredentialsValid);
    C.SetConditionReads(obj.status.conditions, C.Applied, false, C.Unavailable, C.Applied);
  }

  // A cleanup under the Orphan policy sends nothing, and one under the other deletes.
  lemma PolicyIsObeyed(decode: Decoder, s: AppState, o: Oracle, w: Weather)
    requires s.obj.deleting && CAPABILITY_FINALIZER in s.obj.finalizers && w.get && w.client
    ensures RunPass(AppKits(decode), s, o, w).k1s.trace ==
      if s.obj.spec.deletePolicy.Orphan? then [] else [SentDelete(AppTarget(AppDeleteName(decode, s.obj)), o(0))]
  {
    assert AppKits(decode)(s.obj) == AppKit(decode, s.obj);
    CleanupReports(AppKits(decode), s, o, w);
  }

  // The app says that its credentials are missing.
  predicate SaysMissing(st: AppRecord) {
    C.Entry(st.conditions, C.CredentialsValid) == Some(C.Condition(C.CredentialsValid, false, C.Missing))
  }

  lemma RenderKeepsMissing(decode: Decoder, obj: AppObject, verdict: Verdict)
    requires SaysMissing(obj.status)
    ensures SaysMissing(Render(decode, obj, verdict))
  {
    forall cs: seq<C.Condition>, t: C.ConditionType, status: bool, reason: C.Reason
      ensures C.Entry(C.SetCondition(cs, t, status, reason), C.CredentialsValid) ==
        if t == C.CredentialsValid then Some(C.Condition(t, status, reason)) else C.Entry(cs, C.CredentialsValid)
    {
      C.SetConditionReads(cs, t, status, reason, C.CredentialsValid);
    }
  }

  // Nothing ever takes CredentialsValid=False back.
  lemma MissingIsForEver(decode: Decoder, states: seq<AppState>, steps: seq<AppStep>, i: nat, j: nat)
    requires IsRun(AppKits(decode), states, steps) && i <= j < |states| && SaysMissing(states[i].obj.status)
    ensures SaysMissing(states[j].obj.status)
  {
    forall obj: AppObject, verdict: Verdict | SaysMissing(obj.status)
      ensures SaysMissing(AppKits(decode)(obj).render(verdict))
    {
      assert AppKits(decode)(obj) == AppKit(decode, obj);
      RenderKeepsMissing(decode, obj, verdict);
    }
    RenderedForEver(AppKits(decode), states, steps, SaysMissing, i, j);
  }
}
