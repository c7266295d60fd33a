/**
 Runs of one K1sResourceSet: reconcile passes whose calls end in every possible way, with user edits and the mark
 for deletion in between. A run is a sequence of states and the steps between them.
 */
module SetRuns {
  import opened Wrappers
  import opened Digests
  import opened KindLists
  import opened Resources
  import opened K1s
  import opened Kube
  import C = Conditions
  import LeaderRetry
  import opened ResourceSet
  import opened SetSteps
  import opened FinalizerProtocol

  // The persisted object, and what this set put on k1s that is still there
  datatype State = State(obj: SetObject, remote: map<Key, Raw>)

  datatype Step = Edit(after: SetObject) | Pass(o: Oracle, w: Weather)

  function RunPass(op: Operator, s: State, o: Oracle, w: Weather): Outcome {
    ReconcileSet(op, s.obj, Store(s.remote, 0, []), o, w)
  }

  ghost predicate Next(op: Operator, s: State, step: Step, after: State) {
    match step
    case Edit(obj) => EditOk(s.obj, obj) && after == State(obj, s.remote)
    case Pass(o, w) => var out := RunPass(op, s, o, w); after == State(out.obj, out.k1s.remote)
  }

  ghost predicate IsRun(op: Operator, states: seq<State>, steps: seq<Step>) {
    && |states| == |steps| + 1
    && forall i :: 0 <= i < |steps| ==> Next(op, states[i], steps[i], states[i + 1])
  }

  // ---------- finalizer safety ----------

  ghost predicate SentAnApply(op: Operator, s: State, step: Step) {
    step.Pass? && exists e :: 0 <= e < |RunPass(op, s, step.o, step.w).k1s.trace| &&
                              RunPass(op, s, step.o, step.w).k1s.trace[e].SentApply?
  }

  // Every entry of the inventory was deleted with success or 404, the e-th by the pass's e-th call.
  ghost predicate AllAcknowledged(s: State, o: Oracle) {
    forall e :: 0 <= e < |s.obj.status.managed| ==>
      TargetOf(KeyOf(s.obj.status.managed[e])).Some? && !o(e).answer.Failed?
  }

  // A deletion pass drops the capability finalizer and no other, after Orphan or a complete cleanup.
  ghost predicate DropsFinalizer(s: State, step: Step, after: State) {
    && step.Pass? && s.obj.deleting && CAPABILITY_FINALIZER in s.obj.finalizers
    && after.obj.finalizers == WithoutString(s.obj.finalizers, CAPABILITY_FINALIZER)
    && (s.obj.spec.deletePolicy.Orphan? || AllAcknowledged(s, step.o))
  }

  function ViewOf(s: State): View {
    View(s.obj.deleting, s.obj.finalizers)
  }

  ghost function ActOf(op: Operator, s: State, step: Step): Act {
    Act(SentAnApply(op, s, step), step.Pass? && RunPass(op, s, step.o, step.w).stage == CleanedUp(true))
  }

  // A cleanup that counts as done ran to the end of the inventory, unless it was skipped under Orphan.
  lemma CleanupSwept(op: Operator, s: State, o: Oracle, w: Weather)
    requires RunPass(op, s, o, w).stage == CleanedUp(true)
    ensures s.obj.deleting && CAPABILITY_FINALIZER in s.obj.finalizers
    ensures s.obj.spec.deletePolicy.Delete? ==>
      Sweep(Store(s.remote, 0, []), o, s.obj.status.managed) == (RunPass(op, s, o, w).k1s, true)
  {
  }

  // The e-th call of a whole sweep deletes the e-th entry.
  lemma WholeSweepSent(k: Store, o: Oracle, rs: seq<Resource>, e: nat)
    requires Sweep(k, o, rs).1 && k.calls == 0 && k.trace == [] && e < |rs|
    ensures var trace, target := Sweep(k, o, rs).0.trace, TargetOf(KeyOf(rs[e]));
      && target.Some? && |trace| == |rs| && trace[e] == SentDelete(target.value, o(e)) && !o(e).answer.Failed?
  {
    SweepTrace(k, o, rs);
    SweepSucceedsExactly(k, o, rs);
    assert DeleteSent(k, o, rs, Sweep(k, o, rs).0.trace, e);
  }

  lemma CleanupAcknowledged(op: Operator, s: State, o: Oracle, w: Weather)
    requires RunPass(op, s, o, w).stage == CleanedUp(true)
    ensures s.obj.spec.deletePolicy.Orphan? || AllAcknowledged(s, o)
  {
    CleanupSwept(op, s, o, w);
    if s.obj.spec.deletePolicy.Delete? {
      forall e | 0 <= e < |s.obj.status.managed|
        ensures TargetOf(KeyOf(s.obj.status.managed[e])).Some? && !o(e).answer.Failed?
      {
        WholeSweepSent(Store(s.remote, 0, []), o, s.obj.status.managed, e);
      }
    }
  }

  // What a pass does to the mark for deletion and the finalizers
  lemma PassFinalizers(op: Operator, s: State, o: Oracle, w: Weather)
    ensures var out := RunPass(op, s, o, w);
      && out.obj.deleting == s.obj.deleting
      && (out.obj.finalizers == s.obj.finalizers
          || (!s.obj.deleting && CAPABILITY_FINALIZER !in s.obj.finalizers && out.stage.Idle?
              && out.obj.finalizers == s.obj.finalizers + [CAPABILITY_FINALIZER])
          || (s.obj.deleting && CAPABILITY_FINALIZER in s.obj.finalizers && out.stage == CleanedUp(true)
              && out.obj.finalizers == WithoutString(s.obj.finalizers, CAPABILITY_FINALIZER)))
      && (out.stage.Worked? ==> !s.obj.deleting && CAPABILITY_FINALIZER in s.obj.finalizers)
  {
  }

  // A pass is a move of the finalizer protocol.
  lemma StepIsMove(op: Operator, s: State, step: Step, after: State)
    requires Next(op, s, step, after)
    ensures Move(ViewOf(s), ActOf(op, s, step), ViewOf(after))
  {
    if step.Pass? {
      var out := RunPass(op, s, step.o, step.w);
      PassFinalizers(op, s, step.o, step.w);
      if SentAnApply(op, s, step) {
        var e :| 0 <= e < |out.k1s.trace| && out.k1s.trace[e].SentApply?;
        WorkTrace(op, s, step.o, step.w, e);
      }
    }
  }

  ghost function Views(states: seq<State>): seq<View> {
    seq(|states|, i requires 0 <= i < |states| => ViewOf(states[i]))
  }

  ghost function Acts(op: Operator, states: seq<State>, steps: seq<Step>): seq<Act>
    requires |states| == |steps| + 1
  {
    seq(|steps|, i requires 0 <= i < |steps| => ActOf(op, states[i], steps[i]))
  }

  lemma RunFollowsProtocol(op: Operator, states: seq<State>, steps: seq<Step>)
    requires IsRun(op, states, steps)
    ensures FinalizerProtocol.IsRun(Views(states), Acts(op, states, steps))
  {
    forall i | 0 <= i < |steps| ensures Move(Views(states)[i], Acts(op, states, steps)[i], Views(states)[i + 1]) {
      StepIsMove(op, states[i], steps[i], states[i + 1]);
    }
  }

  // Once an Apply was sent, the finalizer is there until a deletion pass that finished its cleanup drops it.
  lemma FinalizerSafety(op: Operator, states: seq<State>, steps: seq<Step>, i: nat, j: nat)
    requires IsRun(op, states, steps) && i < j < |states| && SentAnApply(op, states[i], steps[i])
    ensures CAPABILITY_FINALIZER in states[j].obj.finalizers ||
            exists k :: i < k < j && DropsFinalizer(states[k], steps[k], states[k + 1])
  {
    RunFollowsProtocol(op, states, steps);
    var views, acts := Views(states), Acts(op, states, steps);
    HeldUntilReleased(views, acts, i, j);
    if !Held(views[j]) {
      var k :| i < k < j && Released(views[k], acts[k], views[k + 1]);
      CleanupAcknowledged(op, states[k], steps[k].o, steps[k].w);
      assert DropsFinalizer(states[k], steps[k], states[k + 1]);
    }
  }

  // From the mark for deletion on, and so after the drop, no pass sends an Apply.
  lemma NoApplyOnceDeleting(op: Operator, states: seq<State>, steps: seq<Step>, k: nat, j: nat)
    requires IsRun(op, states, steps) && k <= j < |steps| && states[k].obj.deleting
    ensures !SentAnApply(op, states[j], steps[j])
  {
    RunFollowsProtocol(op, states, steps);
    FinalizerProtocol.NoApplyOnceDeleting(Views(states), Acts(op, states, steps), k, j);
  }

  // Down to the wire: a pass that counts its cleanup as done had, for every inventory entry, some replica answer
  // that entry's delete request with success or with 404.
  lemma CleanupWasAnswered(op: Operator, s: State, script: nat -> LeaderRetry.Script, w: Weather, e: nat)
    returns (r: nat)
    requires RunPass(op, s, OracleOf(script), w).stage == CleanedUp(true)
    requires s.obj.spec.deletePolicy.Delete? && e < |s.obj.status.managed|
    ensures r < |LeaderRetry.Retry(script(e)).dests| && LeaderRetry.Acknowledges(script(e).replies(r))
    ensures TargetOf(KeyOf(s.obj.status.managed[e])).Some?
    ensures |RunPass(op, s, OracleOf(script), w).k1s.trace| == |s.obj.status.managed|
    ensures RunPass(op, s, OracleOf(script), w).k1s.trace[e] ==
            SentDelete(TargetOf(KeyOf(s.obj.status.managed[e])).value, CallOf(script(e)))
  {
    CleanupSwept(op, s, OracleOf(script), w);
    WholeSweepSent(Store(s.remote, 0, []), OracleOf(script), s.obj.status.managed, e);
    assert OracleOf(script)(e) == CallOf(script(e));
    r := LeaderRetry.DoneWasAnswered(script(e));
  }

  // ---------- policy ----------

  // Every recorded kind is one the operator permits.
  ghost predicate KindsPermitted(op: Operator, rs: seq<Resource>) {
    forall r :: r in rs ==> Permits(op.allowedKinds, r.kind)
  }

  // A pass that is not a deletion sends nothing unless every manifest parsed and has a kind that the operator permits
  // and, where the set lists kinds of its own, the set names.
  lemma NothingSentUnlessAllowed(op: Operator, s: State, o: Oracle, w: Weather, i: nat)
    requires !s.obj.deleting && RunPass(op, s, o, w).k1s.trace != [] && i < |s.obj.spec.manifests|
    ensures var allowed := Allowed(op.allowedKinds, s.obj.spec.allowedKinds);
      var r := ManagedResource(op.decode, s.obj.spec.manifests[i]);
      && allowed.Some? && r.Some? && r.value.kind in allowed.value && r.value.kind in Cap(op.allowedKinds)
      && Permits(op.allowedKinds, r.value.kind)
      && (Lists(s.obj.spec.allowedKinds) ==> Occurs(s.obj.spec.allowedKinds, r.value.kind))
  {
    NarrowsOnly(op.allowedKinds, s.obj.spec.allowedKinds);
    AllowedExactly(op.allowedKinds, s.obj.spec.allowedKinds);
    DesiredMeaning(op.decode, Allowed(op.allowedKinds, s.obj.spec.allowedKinds).value, s.obj.spec.manifests);
  }

  // The inventory a pass leaves: the old one, or the plan for all manifests once nothing failed before that write.
  lemma InventoryChange(op: Operator, s: State, o: Oracle, w: Weather)
    ensures var out := RunPass(op, s, o, w);
      out.obj.status.managed != s.obj.status.managed ==>
        && !s.obj.deleting && out.stage.Worked?
        && out.obj.annotation == Some(ManifestSetHash(s.obj.spec.manifests))
        && var allowed := Allowed(op.allowedKinds, s.obj.spec.allowedKinds);
           allowed.Some? && Desired(op.decode, allowed.value, s.obj.spec.manifests) == (out.obj.status.managed, true)
    ensures RunPass(op, s, o, w).stage != Idle && RunPass(op, s, o, w).failed && w.statusWrite.Written? ==>
      RunPass(op, s, o, w).obj.status.managed == s.obj.status.managed
  {
  }

  lemma StagesAllOk(decode: Decoder, obj: SetObject, desired: seq<Resource>, k: Store, o: Oracle, c: nat)
    requires k.calls == 0
    ensures var (pruned, ok) := PruneStage(obj, desired, k, o);
      var (done, good, applied) := ApplyStage(decode, obj, pruned, ok, o);
      good ==> applied == |obj.spec.manifests| && (c < done.calls ==> !o(c).answer.Failed?)
  {
    SweepTrace(k, o, Stale(obj.status.managed, KeyStrings(desired)));
    var (pruned, ok) := PruneStage(obj, desired, k, o);
    ApplyAllTrace(pruned, o, decode, obj.spec.manifests, 0);
  }

  // A pass changes the inventory only if no call in it failed, and then its status is Ready.
  lemma InventoryChangesOnSuccess(op: Operator, s: State, o: Oracle, w: Weather, c: nat)
    requires RunPass(op, s, o, w).obj.status.managed != s.obj.status.managed
    ensures RunPass(op, s, o, w).obj.status.ready
    ensures c < RunPass(op, s, o, w).k1s.calls ==> !o(c).answer.Failed?
  {
    InventoryChange(op, s, o, w);
    var allowed := Allowed(op.allowedKinds, s.obj.spec.allowedKinds).value;
    StagesAllOk(op.decode, s.obj, Desired(op.decode, allowed, s.obj.spec.manifests).0, Store(s.remote, 0, []), o, c);
  }

  lemma StepRecordsInCap(op: Operator, s: State, step: Step, after: State)
    requires Next(op, s, step, after) && KindsPermitted(op, s.obj.status.managed)
    ensures KindsPermitted(op, after.obj.status.managed)
  {
    if step.Pass? && after.obj.status.managed != s.obj.status.managed {
      InventoryChange(op, s, step.o, step.w);
      AllowedExactly(op.allowedKinds, s.obj.spec.allowedKinds);
      DesiredMeaning(op.decode, Allowed(op.allowedKinds, s.obj.spec.allowedKinds).value, s.obj.spec.manifests);
    }
  }

  // Whatever users write into spec.allowedKinds, no kind outside the operator's cap is ever recorded.
  lemma {:induction false} RecordedKindsInCap(op: Operator, states: seq<State>, steps: seq<Step>, j: nat)
    requires IsRun(op, states, steps) && j < |states|
    requires KindsPermitted(op, states[0].obj.status.managed)
    ensures KindsPermitted(op, states[j].obj.status.managed)
  {
    if j > 0 {
      RecordedKindsInCap(op, states, steps, j - 1);
      StepRecordsInCap(op, states[j - 1], steps[j - 1], states[j]);
    }
  }

  // The trace of a working pass: deletes of stale entries, then applies of manifests.
  lemma StagesTrace(decode: Decoder, obj: SetObject, desired: seq<Resource>, k: Store, o: Oracle, e: nat)
    requires k.trace == []
    ensures var (pruned, ok) := PruneStage(obj, desired, k, o);
      var trace := ApplyStage(decode, obj, pruned, ok, o).0.trace;
      e < |trace| && trace[e].SentApply? ==> ShouldApply(obj) && trace[e].raw in obj.spec.manifests
  {
    var stale := Stale(obj.status.managed, KeyStrings(desired));
    SweepTrace(k, o, stale);
    var (pruned, ok) := PruneStage(obj, desired, k, o);
    forall d | 0 <= d < |pruned.trace| ensures !pruned.trace[d].SentApply? {
      assert DeleteSent(k, o, stale, pruned.trace, d);
    }
    var ms := obj.spec.manifests;
    ApplyAllTrace(pruned, o, decode, ms, 0);
    var trace := ApplyAll(pruned, o, decode, ms, 0).0.trace;
    if |pruned.trace| <= e < |trace| {
      assert trace[|pruned.trace| + (e - |pruned.trace|)] ==
             SentApply(ms[e - |pruned.trace|], o(pruned.calls + (e - |pruned.trace|)));
      assert ms[e - |pruned.trace|] in ms;
    }
  }

  lemma DeletionSendsNoApply(obj: SetObject, k: Store, o: Oracle, w: Weather, e: nat)
    requires k.trace == [] && e < |CleanUp(obj, k, o, w).k1s.trace|
    ensures !CleanUp(obj, k, o, w).k1s.trace[e].SentApply?
  {
    SweepTrace(k, o, obj.status.managed);
    var trace := Sweep(k, o, obj.status.managed).0.trace;
    if e < |trace| {
      assert DeleteSent(k, o, obj.status.managed, trace, e);
    }
  }

  lemma WorkTrace(op: Operator, s: State, o: Oracle, w: Weather, e: nat)
    requires e < |RunPass(op, s, o, w).k1s.trace| && RunPass(op, s, o, w).k1s.trace[e].SentApply?
    ensures RunPass(op, s, o, w).stage.Worked? && ShouldApply(s.obj)
    ensures RunPass(op, s, o, w).k1s.trace[e].raw in s.obj.spec.manifests
  {
    var k := Store(s.remote, 0, []);
    if s.obj.deleting {
      DeletionSendsNoApply(s.obj, k, o, w, e);
    } else {
      var allowed := Allowed(op.allowedKinds, s.obj.spec.allowedKinds);
      if allowed.Some? {
        StagesTrace(op.decode, s.obj, Desired(op.decode, allowed.value, s.obj.spec.manifests).0, k, o, e);
      }
    }
  }

  lemma AppliedKindsInCap(op: Operator, s: State, o: Oracle, w: Weather, e: nat)
    requires e < |RunPass(op, s, o, w).k1s.trace| && RunPass(op, s, o, w).k1s.trace[e].SentApply?
    ensures Permits(op.allowedKinds, ManifestKey(op.decode, RunPass(op, s, o, w).k1s.trace[e].raw).kind)
  {
    WorkTrace(op, s, o, w, e);
    var i :| 0 <= i < |s.obj.spec.manifests| && s.obj.spec.manifests[i] == RunPass(op, s, o, w).k1s.trace[e].raw;
    NothingSentUnlessAllowed(op, s, o, w, i);
  }

  // With a cap inside the three built-in kinds, a cleanup that stops has a delete call to blame, never a kind.
  lemma CleanupStopsOnlyOnFailedCalls(op: Operator, states: seq<State>, steps: seq<Step>, j: nat)
    requires IsRun(op, states, steps) && j < |steps| && steps[j].Pass?
    requires states[0].obj.status.managed == []
    requires Cap(op.allowedKinds) <= {"Deployment", "InferenceCell", "InferenceCellSet"}
    requires RunPass(op, states[j], steps[j].o, steps[j].w).stage == CleanedUp(false)
    ensures var trace := RunPass(op, states[j], steps[j].o, steps[j].w).k1s.trace;
      trace != [] && trace[|trace| - 1].SentDelete? && trace[|trace| - 1].deleted.answer.Failed?
  {
    RecordedKindsInCap(op, states, steps, j);
    PermittedAreRouted(op, states[j].obj.status.managed);
    CleanupStopped(op, states[j], steps[j].o, steps[j].w);
    SweepStopsOnFailedCall(Store(states[j].remote, 0, []), steps[j].o, states[j].obj.status.managed);
  }

  lemma CleanupStopped(op: Operator, s: State, o: Oracle, w: Weather)
    requires RunPass(op, s, o, w).stage == CleanedUp(false)
    ensures Sweep(Store(s.remote, 0, []), o, s.obj.status.managed) == (RunPass(op, s, o, w).k1s, false)
  {
  }

  lemma PermittedAreRouted(op: Operator, rs: seq<Resource>)
    requires KindsPermitted(op, rs) && Cap(op.allowedKinds) <= {"Deployment", "InferenceCell", "InferenceCellSet"}
    ensures Routed(rs)
  {
    CapMeaning(op.allowedKinds);
    forall r | r in rs ensures TargetOf(KeyOf(r)).Some? {
      assert r.kind in Cap(op.allowedKinds);
    }
  }

  lemma SweepStopsOnFailedCall(k: Store, o: Oracle, rs: seq<Resource>)
    requires k.trace == [] && !Sweep(k, o, rs).1 && Routed(rs)
    ensures var trace := Sweep(k, o, rs).0.trace;
      trace != [] && trace[|trace| - 1].SentDelete? && trace[|trace| - 1].deleted.answer.Failed?
  {
    SweepTrace(k, o, rs);
    var after := Sweep(k, o, rs).0;
    var n := after.calls - k.calls;
    if n < |rs| {
      assert rs[n] in rs;
    }
    if n > 0 {
      assert DeleteSent(k, o, rs, after.trace, n - 1);
    }
  }

  // ---------- honest status ----------

  ghost predicate Honest(st: SetStatus) {
    && (C.Status(st.conditions, C.Ready) == Some(true) <==> st.ready)
    && (st.ready ==> st.applied == Text.Int32(|st.managed|))
  }

  lemma SetConditionsRead(conditions: seq<C.Condition>, p: bool, pr: C.Reason, a: bool, ar: C.Reason, r: bool,
                          rr: C.Reason)
    ensures var after := SetConditions(conditions, p, pr, a, ar, r, rr);
      && C.Entry(after, C.Ready) == Some(C.Condition(C.Ready, r, rr))
      && C.Entry(after, C.Applied) == Some(C.Condition(C.Applied, a, ar))
      && C.Entry(after, C.PolicyAllowed) == Some(C.Condition(C.PolicyAllowed, p, pr))
  {
    var c1 := C.SetCondition(conditions, C.PolicyAllowed, p, pr);
    var c2 := C.SetCondition(c1, C.Applied, a, ar);
    C.SetConditionReads(conditions, C.PolicyAllowed, p, pr, C.PolicyAllowed);
    C.SetConditionReads(c1, C.Applied, a, ar, C.PolicyAllowed);
    C.SetConditionReads(c1, C.Applied, a, ar, C.Applied);
    C.SetConditionReads(c2, C.Ready, r, rr, C.PolicyAllowed);
    C.SetConditionReads(c2, C.Ready, r, rr, C.Applied);
    C.SetConditionReads(c2, C.Ready, r, rr, C.Ready);
  }

  lemma WorkStatusReads(st: SetStatus, ok: bool, applied: nat, total: nat, desired: seq<Resource>)
    requires ok ==> applied == total
    ensures SaysThrice(WorkStatus(st, ok, applied, total, desired), ok, false)
  {
    SetConditionsRead(st.conditions, ok, if ok then C.IsReady else C.Denied,
                      ok, if ok then C.WasApplied else C.Unavailable, ok, C.ReasonForBool(ok));
  }

  lemma WorkStatusHonest(st: SetStatus, ok: bool, applied: nat, total: nat, desired: seq<Resource>)
    requires ok ==> applied == total == |desired|
    ensures Honest(WorkStatus(st, ok, applied, total, desired))
  {
    WorkStatusReads(st, ok, applied, total, desired);
  }

  lemma FinishHonest(obj: SetObject, desired: seq<Resource>, k: Store, ok: bool, applied: nat, w: Weather)
    requires Honest(obj.status) && (ok ==> applied == |obj.spec.manifests| == |desired|)
    ensures Honest(Finish(obj, desired, k, ok, applied, w).obj.status)
  {
    WorkStatusHonest(obj.status, ok, applied, |obj.spec.manifests|, desired);
  }

  lemma WorkKeepsHonesty(op: Operator, allowed: set<string>, s: State, o: Oracle, w: Weather)
    requires Honest(s.obj.status)
    ensures Honest(Work(op, allowed, s.obj, Store(s.remote, 0, []), o, w).obj.status)
  {
    var k, ms := Store(s.remote, 0, []), s.obj.spec.manifests;
    var (desired, planned) := Desired(op.decode, allowed, ms);
    DesiredMeaning(op.decode, allowed, ms);
    if !planned {
      WorkStatusHonest(s.obj.status, false, 0, |ms|, desired);
    } else {
      var (pruned, ok) := PruneStage(s.obj, desired, k, o);
      ApplyAllTrace(pruned, o, op.decode, ms, 0);
      var (done, good, applied) := ApplyStage(op.decode, s.obj, pruned, ok, o);
      assert good ==> applied == |ms|;
      FinishHonest(s.obj, desired, done, good, applied, w);
    }
  }

  lemma PassKeepsHonesty(op: Operator, s: State, o: Oracle, w: Weather)
    requires Honest(s.obj.status)
    ensures Honest(RunPass(op, s, o, w).obj.status)
  {
    var st := s.obj.status;
    if s.obj.deleting || !w.client {
      C.SetConditionReads(st.conditions, C.CredentialsValid, false, C.Missing, C.Ready);
      C.SetConditionReads(st.conditions, C.Applied, false, C.Unavailable, C.Ready);
    } else {
      SetConditionsRead(st.conditions, false, C.Denied, false, C.Denied, false, C.Denied);
      match Allowed(op.allowedKinds, s.obj.spec.allowedKinds)
      case None =>
      case Some(allowed) => WorkKeepsHonesty(op, allowed, s, o, w);
    }
  }

  lemma StepKeepsHonesty(op: Operator, s: State, step: Step, after: State)
    requires Next(op, s, step, after) && Honest(s.obj.status)
    ensures Honest(after.obj.status)
  {
    if step.Pass? {
      PassKeepsHonesty(op, s, step.o, step.w);
    }
  }

  // Ready, Applied and PolicyAllowed all say `ok`; where they do not, Applied and Ready give as their reason whether
  // it was the set's own kinds that were refused.
  ghost predicate SaysThrice(st: SetStatus, ok: bool, refused: bool) {
    var why := if refused then C.Denied else C.Unavailable;
    && st.ready == ok
    && C.Entry(st.conditions, C.Ready) == Some(C.Condition(C.Ready, ok, if ok then C.IsReady else why))
    && C.Entry(st.conditions, C.Applied) == Some(C.Condition(C.Applied, ok, if ok then C.WasApplied else why))
    && C.Entry(st.conditions, C.PolicyAllowed) ==
         Some(C.Condition(C.PolicyAllowed, ok, if ok then C.IsReady else C.Denied))
  }

  // ---------- when a pass goes through ----------

  // The entries for the manifests, and whether policy and parsing let all of them through
  function PlanOf(op: Operator, obj: SetObject): (seq<Resource>, bool) {
    var allowed := Allowed(op.allowedKinds, obj.spec.allowedKinds);
    if allowed.Some? then Desired(op.decode, allowed.value, obj.spec.manifests) else ([], false)
  }

  // The entries a pass sets out to prune
  function PlannedDeletes(op: Operator, obj: SetObject): seq<Resource> {
    if obj.spec.prune then Stale(obj.status.managed, KeyStrings(PlanOf(op, obj).0)) else []
  }

  // Nothing is wrong with the plan, every delete has a route and does not fail, every Apply is answered with success.
  ghost predicate WentWell(op: Operator, obj: SetObject, o: Oracle) {
    var deletes := PlannedDeletes(op, obj);
    && PlanOf(op, obj).1 && Routed(deletes)
    && (forall c :: 0 <= c < |deletes| ==> !o(c).answer.Failed?)
    && (ShouldApply(obj) ==> forall c :: |deletes| <= c < |deletes| + |obj.spec.manifests| ==> o(c).answer.Ok?)
  }

  lemma StagesGoWell(op: Operator, obj: SetObject, k: Store, o: Oracle)
    requires PlanOf(op, obj).1 && k.calls == 0
    ensures var (pruned, ok) := PruneStage(obj, PlanOf(op, obj).0, k, o);
      var (done, good, applied) := ApplyStage(op.decode, obj, pruned, ok, o);
      (good <==> WentWell(op, obj, o)) && (good ==> applied == |obj.spec.manifests|)
  {
    var (desired, _) := PlanOf(op, obj);
    SweepSucceedsExactly(k, o, Stale(obj.status.managed, KeyStrings(desired)));
    ApplySucceedsExactly(PruneStage(obj, desired, k, o).0, o, op.decode, obj.spec.manifests, 0);
  }

  lemma WorkSaysThrice(op: Operator, allowed: set<string>, s: State, o: Oracle, w: Weather)
    requires Allowed(op.allowedKinds, s.obj.spec.allowedKinds) == Some(allowed)
    requires w.statusWrite.Written? && w.annotationWrite.Written?
    ensures SaysThrice(Work(op, allowed, s.obj, Store(s.remote, 0, []), o, w).obj.status, WentWell(op, s.obj, o), false)
  {
    var k, ms := Store(s.remote, 0, []), s.obj.spec.manifests;
    var (desired, planned) := PlanOf(op, s.obj);
    if planned {
      StagesGoWell(op, s.obj, k, o);
      var (pruned, ok) := PruneStage(s.obj, desired, k, o);
      var (done, good, applied) := ApplyStage(op.decode, s.obj, pruned, ok, o);
      WorkStatusReads(s.obj.status, good, applied, |ms|, desired);
    } else {
      WorkStatusReads(s.obj.status, false, 0, |ms|, desired);
    }
  }

  // A pass that reaches its final status write says one thing in three conditions: whether its plan, its deletes and
  // its applies all went well, and if not, whether it was the set's own kinds that were refused.
  lemma CompletedPassConditions(op: Operator, s: State, o: Oracle, w: Weather)
    requires w.statusWrite.Written? && w.annotationWrite.Written?
    ensures var out := RunPass(op, s, o, w);
      out.stage.Worked? || out.stage.Refused? ==>
        SaysThrice(out.obj.status, WentWell(op, s.obj, o), Allowed(op.allowedKinds, s.obj.spec.allowedKinds).None?)
  {
    SetConditionsRead(s.obj.status.conditions, false, C.Denied, false, C.Denied, false, C.Denied);
    var allowed := Allowed(op.allowedKinds, s.obj.spec.allowedKinds);
    if allowed.Some? {
      WorkSaysThrice(op, allowed.value, s, o, w);
    }
  }

  // A pass is synced exactly when the set is live, the pass went well and no write it needed was lost.
  lemma SyncsExactly(op: Operator, s: State, o: Oracle, w: Weather)
    ensures var stage := RunPass(op, s, o, w).stage;
      stage.Worked? && stage.synced <==>
        && w.get && w.client && !s.obj.deleting && CAPABILITY_FINALIZER in s.obj.finalizers
        && WentWell(op, s.obj, o)
        && (ShouldApply(s.obj) ==> w.annotationWrite.Written?) && w.statusWrite.Written?
  {
    if PlanOf(op, s.obj).1 {
      StagesGoWell(op, s.obj, Store(s.remote, 0, []), o);
    }
  }

  // In every reachable state the Ready condition says what status.ready says, and Ready means the count of
  // applied manifests is the size of the inventory.
  lemma {:induction false} StatusHonesty(op: Operator, states: seq<State>, steps: seq<Step>, j: nat)
    requires IsRun(op, states, steps) && j < |states| && Honest(states[0].obj.status)
    ensures Honest(states[j].obj.status)
  {
    if j > 0 {
      StatusHonesty(op, states, steps, j - 1);
      StepKeepsHonesty(op, states[j - 1], steps[j - 1], states[j]);
    }
  }
}
