/**
 What a K1sInferenceEndpoint's status says after a pass, field by field, in terms of what k1s answered, and that the
 status it reads, the manifest it applies and the resource it deletes are one resource.
 */
module EndpointReports {
  import opened Wrappers
  import opened Text
  import opened Digests
  import opened Json
  import opened Resources
  import opened K1s
  import opened K1sStatus
  import C = Conditions
  import opened Kube
  import opened InferenceManifest
  import opened Workloads
  import opened WorkloadReports
  import opened Endpoint

  // A cell set's name is recorded as that, anything else's as a cell's; k1s's name goes before the endpoint's own.
  ghost predicate NamesCells(st: EndpointRecord, d: Design, seen: Option<map<string, Value>>) {
    var reported := if seen.Some? then Str(Field(seen.value, "name")) else "";
    var own, ownSet := if d.cellSet.None? then d.name else "", if d.cellSet.Some? then d.name else "";
    if seen.Some? && Str(Field(seen.value, "kind")) == "InferenceCellSet" then
      st.cellName == "" && st.cellSetName == FirstNonEmpty([reported, ownSet])
    else st.cellName == FirstNonEmpty([reported, own]) && st.cellSetName == ownSet
  }

  ghost predicate Records(obj: EndpointObject, st: EndpointRecord, verdict: Verdict)
    requires verdict.Done?
  {
    var result := verdict.result;
    var phases := [TextOnly(result, "phase"), TextOnly(result, "status"), "Applied"];
    && NamesCells(st, obj.spec.design, if verdict.applyOk then verdict.seen else None)
    && if verdict.applyOk && verdict.seen.Some? then
         var payload := verdict.seen.value;
         && st.phase == FirstNonEmpty([Str(Field(payload, "phase")), Str(Field(payload, "status"))] + phases)
         && st.apiEndpoint == FirstNonEmpty([Str(Field(payload, "api_endpoint")), TextOnly(result, "api_endpoint")])
         && st.activeExecutor ==
              FirstNonEmpty([Str(Field(payload, "active_executor")), TextOnly(result, "active_executor")])
       else
         && st.phase == (if verdict.applyOk then FirstNonEmpty(phases) else "Unsupported")
         && st.apiEndpoint == TextOnly(result, "api_endpoint")
         && st.activeExecutor == TextOnly(result, "active_executor")
  }

  lemma PhaseRecorded(phase: string, status: string, phases: seq<string>)
    ensures FirstNonEmpty([FirstNonEmpty([phase, status]), status, FirstNonEmpty(phases)]) ==
            FirstNonEmpty([phase, status] + phases)
  {
    var chosen := FirstNonEmpty([phase, status]);
    FirstExactly([phase, status], if phase != "" then 0 else if status != "" then 1 else 2);
    FirstOfThree(chosen, status, FirstNonEmpty(phases));
    FirstOfFirst([phase, status], phases);
    FirstOfThree(phase, status, FirstNonEmpty(phases));
    assert [phase, status] + [FirstNonEmpty(phases)] == [phase, status, FirstNonEmpty(phases)];
  }

  lemma FirstOfOne(a: string)
    ensures FirstNonEmpty(["", a]) == a
  {
    FirstExactly(["", a], if a != "" then 1 else 2);
  }

  lemma CompletionRecords(obj: EndpointObject, verdict: Verdict)
    requires verdict.Done?
    ensures Records(obj, Render(obj, verdict), verdict)
  {
    var phases := [TextOnly(verdict.result, "phase"), TextOnly(verdict.result, "status"), "Applied"];
    FirstOfOne(obj.spec.design.name);
    FirstOfOne("");
    if verdict.applyOk && verdict.seen.Some? {
      PhaseRecorded(Str(Field(verdict.seen.value, "phase")), Str(Field(verdict.seen.value, "status")), phases);
    }
  }

  // Every field of a completed pass's status, from the k1s payload it read where it read one, from the Apply result and
  // the endpoint itself otherwise.
  lemma CompletedPassRecords(marshal: Marshaller, s: EndpointState, o: Oracle, w: Weather)
    ensures var out := RunPass(EndpointKits(marshal), s, o, w);
      out.stage.Finished? && w.statusWrite.Written? ==>
        && out.stage.verdict.Done? && Concludes(out.stage.verdict, out.k1s.trace)
        && Records(s.obj, out.obj.status, out.stage.verdict)
  {
    PassConcludes(EndpointKits(marshal), s, o, w);
    var out := RunPass(EndpointKits(marshal), s, o, w);
    if out.stage.Finished? && w.statusWrite.Written? {
      FinishedRenders(EndpointKits(marshal), s, o, w);
      assert EndpointKits(marshal)(s.obj) == EndpointKit(marshal, s.obj);
      CompletionRecords(s.obj, out.stage.verdict);
    }
  }

  // ---------- one resource ----------

  // The pass's requests are about one resource: the one that the payload it applies names by kind, namespace and name.
  lemma OneResource(marshal: Marshaller, s: EndpointState, o: Oracle, w: Weather, e: nat)
    requires e < |RunPass(EndpointKits(marshal), s, o, w).k1s.trace|
    ensures var d, sent := s.obj.spec.design, RunPass(EndpointKits(marshal), s, o, w).k1s.trace[e];
      match sent
      case SentApply(raw, _) => Build(d).Some? && raw == marshal(Build(d).value)
      case SentDelete(target, _) =>
        target == if d.cellSet.Some? then CellSetTarget(d.namespace, d.name) else CellTarget(d.namespace, d.name)
      case SentRead(route, _) => route == InferenceStatusRoute(d.cellSet.Some?, d.namespace, d.name)
  {
    assert EndpointKits(marshal)(s.obj) == EndpointKit(marshal, s.obj);
    PassConcludes(EndpointKits(marshal), s, o, w);
  }

  lemma PayloadNamesKey(d: Design)
    requires d.model.modelId != ""
    ensures Build(d).Some?
    ensures At(Build(d).value, ["kind"]) == Some(Text(EndpointKey(d).kind))
    ensures At(Build(d).value, ["metadata", "namespace"]) == Some(Text(EndpointKey(d).namespace))
    ensures At(Build(d).value, ["metadata", "name"]) == Some(Text(EndpointKey(d).name))
  {
    PayloadHeader(d);
  }

  // A cleanup under the Orphan policy sends nothing, and one under the other deletes that resource.
  lemma PolicyIsObeyed(marshal: Marshaller, s: EndpointState, o: Oracle, w: Weather)
    requires s.obj.deleting && CAPABILITY_FINALIZER in s.obj.finalizers && w.get && w.client
    ensures var trace := RunPass(EndpointKits(marshal), s, o, w).k1s.trace;
      && (s.obj.spec.deletePolicy.Orphan? ==> trace == [])
      && (s.obj.spec.deletePolicy.Delete? ==>
            && |trace| == 1 && trace[0].SentDelete?
            && Some(trace[0].target) == TargetOf(EndpointKey(s.obj.spec.design)))
  {
    assert EndpointKits(marshal)(s.obj) == EndpointKit(marshal, s.obj);
    CleanupReports(EndpointKits(marshal), s, o, w);
    DeletesExactly(s.obj.spec.design, s.obj.spec.design);
  }

  // ---------- refusals ----------

  // A pass that gets to the spec of a live endpoint refuses it exactly when the model id is missing; nothing is sent
  // then, and of the status only the Accepted condition changes.
  lemma RefusedExactly(marshal: Marshaller, s: EndpointState, o: Oracle, w: Weather)
    requires Live(s) && w.get && w.client
    ensures var out := RunPass(EndpointKits(marshal), s, o, w);
      && (out.stage.Refused? <==> s.obj.spec.design.model.modelId == "")
      && (out.stage.Refused? && w.statusWrite.Written? ==>
            && out.k1s == Store(s.remote, 0, [])
            && out.obj == s.obj.(status := s.obj.status.(conditions := out.obj.status.conditions))
            && C.Entry(out.obj.status.conditions, C.Accepted) == Some(C.Condition(C.Accepted, false, C.Invalid)))
  {
    assert EndpointKits(marshal)(s.obj) == EndpointKit(marshal, s.obj);
    C.SetConditionReads(s.obj.status.conditions, C.Accepted, false, C.Invalid, C.Accepted);
  }

  // Missing credentials and a failed delete change one condition and nothing else in the status.
  lemma FailureConditions(marshal: Marshaller, obj: EndpointObject)
    ensures var st := EndpointKit(marshal, obj).render(NoCredentials);
      && st == obj.status.(conditions := st.conditions)
      && C.Entry(st.conditions, C.CredentialsValid) == Some(C.Condition(C.CredentialsValid, false, C.Missing))
    ensures var st := EndpointKit(marshal, obj).render(CleanupFailed);
      && st == obj.status.(conditions := st.conditions)
      && C.Entry(st.conditions, C.Applied) == Some(C.Condition(C.Applied, false, C.Unavailable))
  {
    C.SetConditionReads(obj.status.conditions, C.CredentialsValid, false, C.Missing, C.CredentialsValid);
    C.SetConditionReads(obj.status.conditions, C.Applied, false, C.Unavailable, C.Applied);
  }

  // The endpoint says that its credentials are missing.
  predicate SaysMissing(st: EndpointRecord) {
    C.Entry(st.conditions, C.CredentialsValid) == Some(C.Condition(C.CredentialsValid, false, C.Missing))
  }

  lemma RenderKeepsMissing(obj: EndpointObject, verdict: Verdict)
    requires SaysMissing(obj.status)
    ensures SaysMissing(Render(obj, verdict))
  {
    forall cs: seq<C.Condition>, t: C.ConditionType, status: bool, reason: C.Reason
      ensures C.Entry(C.SetCondition(cs, t, status, reason), C.CredentialsValid) ==
        if t == C.CredentialsValid then Some(C.Condition(t, status, reason)) else C.Entry(cs, C.CredentialsValid)
    {
      C.SetConditionReads(cs, t, status, reason, C.CredentialsValid);
    }
  }

  // Nothing ever takes CredentialsValid=False back.
  lemma MissingIsForEver(marshal: Marshaller, states: seq<EndpointState>, steps: seq<EndpointStep>, i: nat, j: nat)
    requires IsRun(EndpointKits(marshal), states, steps) && i <= j < |states| && SaysMissing(states[i].obj.status)
    ensures SaysMissing(states[j].obj.status)
  {
    forall obj: EndpointObject, verdict: Verdict | SaysMissing(obj.status)
      ensures SaysMissing(EndpointKits(marshal)(obj).render(verdict))
    {
      assert EndpointKits(marshal)(obj) == EndpointKit(marshal, obj);
      RenderKeepsMissing(obj, verdict);
    }
    RenderedForEver(EndpointKits(marshal), states, steps, SaysMissing, i, j);
  }
}
