/**
 What one pass over a K1sResourceSet does before it gets to work and what it tells about itself: which lists it
 accepts, the finalizer of a new set, its status fields and conditions, and the error it returns.
 */
module SetReports {
  import opened Wrappers
  import opened Text
  import opened Digests
  import opened KindLists
  import opened Resources
  import opened K1s
  import C = Conditions
  import opened Kube
  import opened ResourceSet
  import opened SetSteps
  import opened SetRuns
  import opened SetConvergence

  // ---------- what is accepted ----------

  // A manifest with a kind and a name, whose kind the operator permits and the set's own list, if it has one, names.
  ghost predicate Acceptable(op: Operator, obj: SetObject, raw: Raw) {
    var header := op.decode(raw);
    && header.Header? && header.kind != "" && header.name != ""
    && Permits(op.allowedKinds, header.kind)
    && (Lists(obj.spec.allowedKinds) ==> Occurs(obj.spec.allowedKinds, header.kind))
  }

  // The inventory entry of a manifest, from its header and its bytes
  ghost predicate Describes(op: Operator, r: Resource, raw: Raw) {
    var header := op.decode(raw);
    && header.Header? && r.kind == header.kind && r.name == header.name && r.hash == Sha256(raw)
    && r.namespace == if header.namespace != "" then header.namespace else "default"
  }

  // A list of manifests is accepted exactly when every manifest is acceptable and the set's own kinds stay within the
  // operator's; the plan then has one entry for each manifest, in order.
  lemma AcceptedExactly(op: Operator, obj: SetObject)
    ensures PlanOf(op, obj).1 <==>
      && (forall x :: x != "" && Occurs(obj.spec.allowedKinds, x) ==> Permits(op.allowedKinds, x))
      && (forall i :: 0 <= i < |obj.spec.manifests| ==> Acceptable(op, obj, obj.spec.manifests[i]))
    ensures PlanOf(op, obj).1 ==>
      && |PlanOf(op, obj).0| == |obj.spec.manifests|
      && forall i :: 0 <= i < |obj.spec.manifests| ==> Describes(op, PlanOf(op, obj).0[i], obj.spec.manifests[i])
  {
    AllowedExactly(op.allowedKinds, obj.spec.allowedKinds);
    var allowed := Allowed(op.allowedKinds, obj.spec.allowedKinds);
    if allowed.Some? {
      DesiredMeaning(op.decode, allowed.value, obj.spec.manifests);
      forall raw ensures Acceptable(op, obj, raw) <==>
          ManagedResource(op.decode, raw).Some? && ManagedResource(op.decode, raw).value.kind in allowed.value
      {
      }
    }
  }

  // ---------- the finalizer of a new set ----------

  // A pass over a live set without the capability finalizer does nothing but append it, and reports failure exactly
  // when that write was not acknowledged.
  lemma AddsFinalizerExactly(op: Operator, s: State, o: Oracle, w: Weather)
    requires !s.obj.deleting && CAPABILITY_FINALIZER !in s.obj.finalizers && w.get && w.client
    ensures var out := RunPass(op, s, o, w);
      && out.k1s == Store(s.remote, 0, [])
      && out.obj == s.obj.(finalizers := out.obj.finalizers)
      && (out.obj.finalizers == s.obj.finalizers + [CAPABILITY_FINALIZER] <==>
            w.finalizerWrite.Written? || w.finalizerWrite.effect)
      && (out.obj.finalizers == s.obj.finalizers <==> !w.finalizerWrite.Written? && !w.finalizerWrite.effect)
      && (out.failed <==> !w.finalizerWrite.Written?)
  {
    assert |s.obj.finalizers + [CAPABILITY_FINALIZER]| > |s.obj.finalizers|;
  }

  // So a new set with an accepted list gets through in two passes: one whose finalizer write is acknowledged, and one
  // whose deletes and applies go well.
  lemma NewSetSyncs(op: Operator, s: State, o1: Oracle, w1: Weather, o2: Oracle) returns (states: seq<State>)
    requires !s.obj.deleting && CAPABILITY_FINALIZER !in s.obj.finalizers && PlanOf(op, s.obj).1
    requires w1.get && w1.client && w1.finalizerWrite.Written?
    requires Routed(PlannedDeletes(op, s.obj))
    requires var n := |PlannedDeletes(op, s.obj)|;
      forall c: nat :: (c < n ==> !o2(c).answer.Failed?) && (n <= c < n + |s.obj.spec.manifests| ==> o2(c).answer.Ok?)
    ensures IsRun(op, states, [Pass(o1, w1), Pass(o2, FINE)]) && states[0] == s
    ensures Synced(op, states[1], Pass(o2, FINE)) && states[2].obj.status.ready
    ensures states[1].obj == s.obj.(finalizers := s.obj.finalizers + [CAPABILITY_FINALIZER])
  {
    AddsFinalizerExactly(op, s, o1, w1);
    var s1 := State(RunPass(op, s, o1, w1).obj, s.remote);
    assert PlanOf(op, s1.obj) == PlanOf(op, s.obj) && PlannedDeletes(op, s1.obj) == PlannedDeletes(op, s.obj);
    FairPassSyncs(op, s1, o2);
    var out := RunPass(op, s1, o2, FINE);
    states := [s, s1, State(out.obj, out.k1s.remote)];
  }

  // Without credentials a pass sends nothing and says so.
  lemma NoCredentialsReported(op: Operator, s: State, o: Oracle, w: Weather)
    requires !Gone(s.obj) && w.get && !w.client
    ensures var out := RunPass(op, s, o, w);
      && out.k1s == Store(s.remote, 0, []) && (out.failed <==> !w.statusWrite.Written?)
      && (w.statusWrite.Written? ==>
            && out.obj == s.obj.(status := s.obj.status.(conditions := out.obj.status.conditions))
            && C.Entry(out.obj.status.conditions, C.CredentialsValid) ==
                 Some(C.Condition(C.CredentialsValid, false, C.Missing)))
  {
    C.SetConditionReads(s.obj.status.conditions, C.CredentialsValid, false, C.Missing, C.CredentialsValid);
  }

  // A pass that cannot read its object fails and does nothing; one whose object is gone, or is marked for deletion and
  // already released, has nothing to do.
  lemma IdlePasses(op: Operator, s: State, o: Oracle, w: Weather)
    ensures Gone(s.obj) ==> RunPass(op, s, o, w) == Outcome(s.obj, Store(s.remote, 0, []), false, Idle)
    ensures !Gone(s.obj) && !w.get ==> RunPass(op, s, o, w) == Outcome(s.obj, Store(s.remote, 0, []), true, Idle)
    ensures s.obj.deleting && CAPABILITY_FINALIZER !in s.obj.finalizers && w.get && w.client ==>
      RunPass(op, s, o, w) == Outcome(s.obj, Store(s.remote, 0, []), false, Idle)
  {
  }

  // ---------- failed passes ----------

  // Some entry cannot be deleted: its kind has no route, or one of the calls, one per entry, fails.
  ghost predicate CleanupFails(obj: SetObject, o: Oracle) {
    && obj.spec.deletePolicy.Delete?
    && !(Routed(obj.status.managed) && forall c :: 0 <= c < |obj.status.managed| ==> !o(c).answer.Failed?)
  }

  // A cleanup that fails is reported as failed, so that it is tried again: the finalizer and the inventory stay, and
  // the Applied condition turns False.
  lemma FailedCleanupIsRetried(op: Operator, s: State, o: Oracle, w: Weather)
    requires s.obj.deleting && CAPABILITY_FINALIZER in s.obj.finalizers && w.get && w.client
    ensures var out := RunPass(op, s, o, w);
      && (out.stage == CleanedUp(false) <==> CleanupFails(s.obj, o))
      && (CleanupFails(s.obj, o) ==>
            && out.failed && out.obj.finalizers == s.obj.finalizers
            && out.obj.status == s.obj.status.(conditions := out.obj.status.conditions)
            && (w.statusWrite.Written? ==>
                  C.Entry(out.obj.status.conditions, C.Applied) == Some(C.Condition(C.Applied, false, C.Unavailable))))
      && (!CleanupFails(s.obj, o) ==> (out.failed <==> !w.finalizerWrite.Written?))
  {
    SweepSucceedsExactly(Store(s.remote, 0, []), o, s.obj.status.managed);
    C.SetConditionReads(s.obj.status.conditions, C.Applied, false, C.Unavailable, C.Applied);
  }

  // A pass over a live set that has its finalizer reports failure exactly when its object was not read or a write it
  // came to was not acknowledged. A failed delete or Apply shows in the status alone.
  lemma FailsExactly(op: Operator, s: State, o: Oracle, w: Weather)
    requires !s.obj.deleting && CAPABILITY_FINALIZER in s.obj.finalizers
    ensures RunPass(op, s, o, w).failed <==>
      || !w.get
      || !w.statusWrite.Written?
      || (w.client && WentWell(op, s.obj, o) && ShouldApply(s.obj) && !w.annotationWrite.Written?)
  {
    if PlanOf(op, s.obj).1 {
      StagesGoWell(op, s.obj, Store(s.remote, 0, []), o);
    }
  }

  // ---------- the applied count ----------

  // The Apply requests that succeeded
  function OkApplies(trace: seq<Sent>): nat {
    if trace == [] then 0
    else
      var last := trace[|trace| - 1];
      OkApplies(trace[..|trace| - 1]) + if last.SentApply? && last.applied.answer.Ok? then 1 else 0
  }

  lemma OkAppliesOneMore(a: seq<Sent>, x: Sent)
    ensures OkApplies(a + [x]) == OkApplies(a) + if x.SentApply? && x.applied.answer.Ok? then 1 else 0
  {
    assert (a + [x])[..|a + [x]| - 1] == a;
  }

  lemma {:induction false} SweepAppliesNothing(k: Store, o: Oracle, rs: seq<Resource>)
    ensures OkApplies(Sweep(k, o, rs).0.trace) == OkApplies(k.trace)
    decreases |rs|
  {
    if rs != [] && TargetOf(KeyOf(rs[0])).Some? {
      var target := TargetOf(KeyOf(rs[0])).value;
      OkAppliesOneMore(k.trace, SentDelete(target, o(k.calls)));
      SweepAppliesNothing(AfterDelete(k, o, target), o, rs[1..]);
    }
  }

  lemma {:induction false} ApplyAllCounts(k: Store, o: Oracle, decode: Decoder, ms: seq<Raw>, applied: nat)
    ensures var (after, _, count) := ApplyAll(k, o, decode, ms, applied);
      count - applied == OkApplies(after.trace) - OkApplies(k.trace)
    decreases |ms|
  {
    if ms != [] {
      OkAppliesOneMore(k.trace, SentApply(ms[0], o(k.calls)));
      ApplyAllCounts(AfterApply(k, o, ManifestKey(decode, ms[0]), ms[0]), o, decode, ms[1..], applied + 1);
    }
  }

  lemma StagesCount(op: Operator, obj: SetObject, k: Store, o: Oracle)
    requires PlanOf(op, obj).1 && k.calls == 0 && k.trace == []
    ensures var (pruned, ok) := PruneStage(obj, PlanOf(op, obj).0, k, o);
      var (done, good, applied) := ApplyStage(op.decode, obj, pruned, ok, o);
      applied == if !ShouldApply(obj) && WentWell(op, obj, o) then |obj.spec.manifests| else OkApplies(done.trace)
  {
    StagesGoWell(op, obj, k, o);
    SweepAppliesNothing(k, o, PlannedDeletes(op, obj));
    var (pruned, ok) := PruneStage(obj, PlanOf(op, obj).0, k, o);
    ApplyAllCounts(pruned, o, op.decode, obj.spec.manifests, 0);
  }

  // status.applied after a pass that wrote its status: the Apply requests of this pass that succeeded or, where the
  // annotation matched and nothing failed, the number of manifests.
  lemma AppliedCount(op: Operator, s: State, o: Oracle, w: Weather)
    requires w.statusWrite.Written? && w.annotationWrite.Written?
    ensures var out := RunPass(op, s, o, w);
      out.stage.Worked? || out.stage.Refused? ==>
        out.obj.status.applied == Int32(if !ShouldApply(s.obj) && WentWell(op, s.obj, o) then |s.obj.spec.manifests|
                                        else OkApplies(out.k1s.trace))
  {
    if PlanOf(op, s.obj).1 {
      StagesCount(op, s.obj, Store(s.remote, 0, []), o);
    }
  }

  // ---------- conditions that are not the pass's own ----------

  // The conditions a pass with credentials may write
  const OWN: set<C.ConditionType> := {C.Ready, C.Applied, C.PolicyAllowed}

  lemma SetConditionsKeeps(conditions: seq<C.Condition>, p: bool, pr: C.Reason, a: bool, ar: C.Reason, r: bool,
                           rr: C.Reason, t: C.ConditionType)
    requires t !in OWN
    ensures C.Entry(SetConditions(conditions, p, pr, a, ar, r, rr), t) == C.Entry(conditions, t)
  {
    var c1 := C.SetCondition(conditions, C.PolicyAllowed, p, pr);
    var c2 := C.SetCondition(c1, C.Applied, a, ar);
    C.SetConditionReads(conditions, C.PolicyAllowed, p, pr, t);
    C.SetConditionReads(c1, C.Applied, a, ar, t);
    C.SetConditionReads(c2, C.Ready, r, rr, t);
  }

  lemma WorkStatusKeeps(st: SetStatus, ok: bool, applied: nat, total: nat, desired: seq<Resource>, t: C.ConditionType)
    requires t !in OWN
    ensures C.Entry(WorkStatus(st, ok, applied, total, desired).conditions, t) == C.Entry(st.conditions, t)
  {
    var ready := WorkStatus(st, ok, applied, total, desired).ready;
    SetConditionsKeeps(st.conditions, ok, if ok then C.IsReady else C.Denied,
                       ok, if ok then C.WasApplied else C.Unavailable, ready, C.ReasonForBool(ready), t);
  }

  lemma FinishKeeps(obj: SetObject, desired: seq<Resource>, k: Store, ok: bool, applied: nat, w: Weather,
                    t: C.ConditionType)
    requires t !in OWN
    ensures C.Entry(Finish(obj, desired, k, ok, applied, w).obj.status.conditions, t) ==
            C.Entry(obj.status.conditions, t)
  {
    WorkStatusKeeps(obj.status, ok, applied, |obj.spec.manifests|, desired, t);
  }

  lemma WorkKeeps(op: Operator, allowed: set<string>, obj: SetObject, k: Store, o: Oracle, w: Weather,
                  t: C.ConditionType)
    requires t !in OWN
    ensures C.Entry(Work(op, allowed, obj, k, o, w).obj.status.conditions, t) == C.Entry(obj.status.conditions, t)
  {
    var (desired, planned) := Desired(op.decode, allowed, obj.spec.manifests);
    if planned {
      var (pruned, ok) := PruneStage(obj, desired, k, o);
      var (done, good, applied) := ApplyStage(op.decode, obj, pruned, ok, o);
      FinishKeeps(obj, desired, done, good, applied, w, t);
    } else {
      WorkStatusKeeps(obj.status, false, 0, |obj.spec.manifests|, desired, t);
    }
  }

  // A pass that has credentials leaves every condition but these three as it was.
  lemma PassKeepsOthers(op: Operator, s: State, o: Oracle, w: Weather, t: C.ConditionType)
    requires t !in OWN && w.client
    ensures C.Entry(RunPass(op, s, o, w).obj.status.conditions, t) == C.Entry(s.obj.status.conditions, t)
  {
    if s.obj.deleting {
      C.SetConditionReads(s.obj.status.conditions, C.Applied, false, C.Unavailable, t);
      return;
    }
    SetConditionsKeeps(s.obj.status.conditions, false, C.Denied, false, C.Denied, false, C.Denied, t);
    var allowed := Allowed(op.allowedKinds, s.obj.spec.allowedKinds);
    if allowed.Some? {
      WorkKeeps(op, allowed.value, s.obj, Store(s.remote, 0, []), o, w, t);
    }
  }

  // The set says that its credentials are missing.
  ghost predicate SaysMissing(obj: SetObject) {
    C.Entry(obj.status.conditions, C.CredentialsValid) == Some(C.Condition(C.CredentialsValid, false, C.Missing))
  }

  lemma StepKeepsMissing(op: Operator, s: State, step: Step, after: State)
    requires Next(op, s, step, after) && SaysMissing(s.obj)
    ensures SaysMissing(after.obj)
  {
    if step.Pass? {
      if step.w.client {
        PassKeepsOthers(op, s, step.o, step.w, C.CredentialsValid);
      } else {
        C.SetConditionReads(s.obj.status.conditions, C.CredentialsValid, false, C.Missing, C.CredentialsValid);
      }
    }
  }

  // Nothing ever takes CredentialsValid=False back: once a pass without credentials has written it, it stays for all
  // of the run, however many passes succeed.
  lemma {:induction false} MissingIsForEver(op: Operator, states: seq<State>, steps: seq<Step>, i: nat, j: nat)
    requires IsRun(op, states, steps) && i <= j < |states| && SaysMissing(states[i].obj)
    ensures SaysMissing(states[j].obj)
    decreases j
  {
    if i < j {
      MissingIsForEver(op, states, steps, i, j - 1);
      StepKeepsMissing(op, states[j - 1], steps[j - 1], states[j]);
    }
  }
}
