/**
 What K1sApp and K1sInferenceEndpoint have in common: one object, one manifest, one resource on k1s, the finalizer
 protocol, and a hash gate that also re-applies when the status read answers 404. A Kit says what is particular to
 an object; App and Endpoint build theirs, and the runs below hold for every kit.
 */
module Workloads {
  import opened Wrappers
  import opened Digests
  import opened Json
  import opened Resources
  import opened K1s
  import opened Kube
  import opened FinalizerProtocol
  import LeaderRetry

  // How a pass that read the object ended, as far as the status is concerned. `result` is what Apply returned.
  datatype Verdict =
    | NoCredentials
    | CleanupFailed
    | Rejected
    | Done(result: map<string, Value>, applyOk: bool, seen: Option<map<string, Value>>)

  // Where the status is read, and where it is read next if that fails
  datatype Routes = Routes(first: Route, second: Option<Route>)

  // manifest: None when the spec is rejected
  datatype Kit<Status> = Kit(orphan: bool, target: Target, key: Key, manifest: Option<Raw>, routes: Routes,
                             render: Verdict -> Status)

  datatype Stage = Idle | Refused | CleanedUp(complete: bool) | Unstamped | Finished(verdict: Verdict)

  datatype Outcome<Spec, Status> = Outcome(obj: Object<Spec, Status>, k1s: Store, failed: bool, stage: Stage)

  function Read(k: Store, o: Oracle, routes: Routes): (Store, Call) {
    var first := AfterRead(k, o, routes.first);
    if o(k.calls).answer.Ok? || routes.second.None? then (first, o(k.calls))
    else (AfterRead(first, o, routes.second.value), o(first.calls))
  }

  // The hash gate: what is read and applied, up to the annotation write.
  datatype Gate = Gate(k1s: Store, applying: bool, applied: Call, seen: Option<map<string, Value>>)

  const NO_CALL: Call := Call(Ok, false, map[])

  function RunGate(annotation: Option<Digest>, key: Key, raw: Raw, routes: Routes, k: Store, o: Oracle): Gate {
    var matched := annotation == Some(HashBytes(raw));
    var (k1, read) := if matched then Read(k, o, routes) else (k, Call(NotFound, false, map[]));
    if read.answer.NotFound? then Gate(AfterApply(k1, o, key, raw), true, o(k1.calls), None)
    else Gate(k1, false, NO_CALL, if read.answer.Ok? then Some(read.fields) else None)
  }

  function Work<Spec, Status>(obj: Object<Spec, Status>, kit: Kit<Status>, raw: Raw, k: Store, o: Oracle, w: Weather)
    : Outcome<Spec, Status>
  {
    var gate := RunGate(obj.annotation, kit.key, raw, kit.routes, k, o);
    var applyOk := gate.applied.answer.Ok?;
    var stamping := gate.applying && applyOk;
    var obj1 := if stamping then PutHash(obj, w.annotationWrite, HashBytes(raw)) else obj;
    if stamping && !w.annotationWrite.Written? then Outcome(obj1, gate.k1s, true, Unstamped)
    else
      var result := if stamping then gate.applied.fields else map[];
      var (k2, seen) :=
        if !applyOk || gate.seen.Some? then (gate.k1s, gate.seen)
        else var (k3, read) := Read(gate.k1s, o, kit.routes); (k3, if read.answer.Ok? then Some(read.fields) else None);
      var verdict := Done(result, applyOk, seen);
      Outcome(PutStatus(obj1, w.statusWrite, kit.render(verdict)), k2, !w.statusWrite.Written?, Finished(verdict))
  }

  function CleanUp<Spec, Status>(obj: Object<Spec, Status>, kit: Kit<Status>, k: Store, o: Oracle, w: Weather)
    : Outcome<Spec, Status>
  {
    var swept := if kit.orphan then k else AfterDelete(k, o, kit.target);
    if !kit.orphan && o(k.calls).answer.Failed? then
      Outcome(PutStatus(obj, w.statusWrite, kit.render(CleanupFailed)), swept, true, CleanedUp(false))
    else
      Outcome(PutFinalizers(obj, w.finalizerWrite, WithoutString(obj.finalizers, CAPABILITY_FINALIZER)), swept,
              !w.finalizerWrite.Written?, CleanedUp(true))
  }

  function ReconcileWorkload<Spec, Status>(obj: Object<Spec, Status>, kit: Kit<Status>, k: Store, o: Oracle, w: Weather)
    : Outcome<Spec, Status>
  {
    if Gone(obj) then Outcome(obj, k, false, Idle)
    else if !w.get then Outcome(obj, k, true, Idle)
    else if !w.client then
      Outcome(PutStatus(obj, w.statusWrite, kit.render(NoCredentials)), k, !w.statusWrite.Written?, Idle)
    else if obj.deleting then
      if CAPABILITY_FINALIZER in obj.finalizers then CleanUp(obj, kit, k, o, w) else Outcome(obj, k, false, Idle)
    else if CAPABILITY_FINALIZER !in obj.finalizers then
      Outcome(PutFinalizers(obj, w.finalizerWrite, obj.finalizers + [CAPABILITY_FINALIZER]), k,
              !w.finalizerWrite.Written?, Idle)
    else
      match kit.manifest
      case None => Outcome(PutStatus(obj, w.statusWrite, kit.render(Rejected)), k, !w.statusWrite.Written?, Refused)
      case Some(raw) => Work(obj, kit, raw, k, o, w)
  }

  // ---------- runs ----------

  datatype State<Spec, Status> = State(obj: Object<Spec, Status>, remote: map<Key, Raw>)

  datatype Step<Spec, Status> = Edit(after: Object<Spec, Status>) | Pass(o: Oracle, w: Weather)

  type Kits<!Spec, !Status> = Object<Spec, Status> -> Kit<Status>

  function RunPass<Spec, Status>(kits: Kits<Spec, Status>, s: State<Spec, Status>, o: Oracle, w: Weather)
    : Outcome<Spec, Status>
  {
    ReconcileWorkload(s.obj, kits(s.obj), Store(s.remote, 0, []), o, w)
  }

  ghost predicate Next<Spec, Status>(kits: Kits<Spec, Status>, s: State<Spec, Status>, step: Step<Spec, Status>,
                                     after: State<Spec, Status>) {
    match step
    case Edit(obj) => EditOk(s.obj, obj) && after == State(obj, s.remote)
    case Pass(o, w) => var out := RunPass(kits, s, o, w); after == State(out.obj, out.k1s.remote)
  }

  ghost predicate IsRun<Spec, Status>(kits: Kits<Spec, Status>, states: seq<State<Spec, Status>>,
                                      steps: seq<Step<Spec, Status>>) {
    && |states| == |steps| + 1
    && forall i :: 0 <= i < |steps| ==> Next(kits, states[i], steps[i], states[i + 1])
  }

  lemma OneMoreStep<Spec, Status>(kits: Kits<Spec, Status>, states: seq<State<Spec, Status>>,
                                  steps: seq<Step<Spec, Status>>,
                                  step: Step<Spec, Status>, after: State<Spec, Status>)
    requires IsRun(kits, states, steps) && Next(kits, states[|steps|], step, after)
    ensures IsRun(kits, states + [after], steps + [step])
  {
  }

  // The status a completed pass leaves is the one its kit renders.
  lemma FinishedRenders<Spec, Status>(kits: Kits<Spec, Status>, s: State<Spec, Status>, o: Oracle, w: Weather)
    requires RunPass(kits, s, o, w).stage.Finished? && w.statusWrite.Written?
    ensures var out := RunPass(kits, s, o, w);
      out.stage.verdict.Done? && out.obj.status == kits(s.obj).render(out.stage.verdict)
  {
  }

  // Where the status after a pass comes from.
  lemma PassStatus<Spec, Status>(kits: Kits<Spec, Status>, s: State<Spec, Status>, o: Oracle, w: Weather)
    ensures var out, kit := RunPass(kits, s, o, w), kits(s.obj);
      match out.stage
      case Refused => kit.manifest.None? && out.obj.status == Persist(w.statusWrite, s.obj.status, kit.render(Rejected))
      case Finished(verdict) =>
        verdict.Done? && out.obj.status == Persist(w.statusWrite, s.obj.status, kit.render(verdict))
      case _ => out.obj.status in [s.obj.status, kit.render(NoCredentials), kit.render(CleanupFailed)]
  {
  }

  // ---------- what one pass sends ----------

  function Applies(trace: seq<Sent>): nat {
    if trace == [] then 0 else Applies(trace[..|trace| - 1]) + if trace[|trace| - 1].SentApply? then 1 else 0
  }

  lemma AppliesOneMore(a: seq<Sent>, x: Sent)
    ensures Applies(a + [x]) == Applies(a) + if x.SentApply? then 1 else 0
  {
    assert (a + [x])[..|a + [x]| - 1] == a;
  }

  // The gate applied or wrote in vain: the Apply, or the annotation write after it, was not answered well.
  predicate GateFailed<Spec, Status>(kits: Kits<Spec, Status>, s: State<Spec, Status>, o: Oracle, w: Weather) {
    var stage := RunPass(kits, s, o, w).stage;
    stage.Unstamped? || (stage.Finished? && stage.verdict.Done? && !stage.verdict.applyOk)
  }

  // The annotation matched, and the status read that followed answered 404.
  predicate ReadNotFound<Spec, Status>(kits: Kits<Spec, Status>, s: State<Spec, Status>, o: Oracle) {
    var kit := kits(s.obj);
    && kit.manifest.Some? && s.obj.annotation == Some(HashBytes(kit.manifest.value))
    && Read(Store(s.remote, 0, []), o, kit.routes).1.answer.NotFound?
  }

  predicate Matches<Spec, Status>(kits: Kits<Spec, Status>, s: State<Spec, Status>) {
    kits(s.obj).manifest.Some? && s.obj.annotation == Some(HashBytes(kits(s.obj).manifest.value))
  }

  lemma ReadSendsNoApply(k: Store, o: Oracle, routes: Routes)
    ensures Applies(Read(k, o, routes).0.trace) == Applies(k.trace)
    ensures Read(k, o, routes).0.remote == k.remote
  {
    var first := AfterRead(k, o, routes.first);
    AppliesOneMore(k.trace, SentRead(routes.first, o(k.calls)));
    if routes.second.Some? {
      AppliesOneMore(first.trace, SentRead(routes.second.value, o(first.calls)));
    }
  }

  lemma GateAlone(annotation: Option<Digest>, key: Key, raw: Raw, routes: Routes, k: Store, o: Oracle)
    requires k.trace == []
    ensures var gate := RunGate(annotation, key, raw, routes, k, o);
      && (gate.applying <==> annotation != Some(HashBytes(raw)) || Read(k, o, routes).1.answer.NotFound?)
      && Applies(gate.k1s.trace) == (if gate.applying then 1 else 0)
      && (gate.k1s.remote == k.remote || (gate.applying && gate.k1s.remote == k.remote[key := raw]))
  {
    if annotation == Some(HashBytes(raw)) {
      ReadSendsNoApply(k, o, routes);
      ApplySendsOne(Read(k, o, routes).0, o, key, raw);
    } else {
      ApplySendsOne(k, o, key, raw);
    }
  }

  lemma ApplySendsOne(k: Store, o: Oracle, key: Key, raw: Raw)
    ensures Applies(AfterApply(k, o, key, raw).trace) == Applies(k.trace) + 1
  {
    AppliesOneMore(k.trace, SentApply(raw, o(k.calls)));
  }

  // A working pass sends one Apply or none: one when the annotation does not match or the read answered 404.
  lemma GateSends<Spec, Status>(kits: Kits<Spec, Status>, s: State<Spec, Status>, o: Oracle, w: Weather, raw: Raw)
    requires kits(s.obj).manifest == Some(raw)
    ensures var out := Work(s.obj, kits(s.obj), raw, Store(s.remote, 0, []), o, w);
      && Applies(out.k1s.trace) == (if !Matches(kits, s) || ReadNotFound(kits, s, o) then 1 else 0)
      && (out.k1s.remote == s.remote ||
          (Applies(out.k1s.trace) == 1 && out.k1s.remote == s.remote[kits(s.obj).key := raw]))
  {
    var k, kit := Store(s.remote, 0, []), kits(s.obj);
    GateAlone(s.obj.annotation, kit.key, raw, kit.routes, k, o);
    var gate := RunGate(s.obj.annotation, kit.key, raw, kit.routes, k, o);
    ReadSendsNoApply(gate.k1s, o, kit.routes);
    var out := Work(s.obj, kit, raw, k, o, w);
    assert out.k1s == gate.k1s || out.k1s == Read(gate.k1s, o, kit.routes).0;
  }

  lemma CleanUpSendsNoApply<Spec, Status>(obj: Object<Spec, Status>, kit: Kit<Status>, k: Store, o: Oracle, w: Weather)
    requires k.trace == []
    ensures Applies(CleanUp(obj, kit, k, o, w).k1s.trace) == 0
  {
    AppliesOneMore([], SentDelete(kit.target, o(k.calls)));
  }

  // A pass sends nothing but what its gate sends, and only while the object lives and holds the finalizer.
  lemma PassSends<Spec, Status>(kits: Kits<Spec, Status>, s: State<Spec, Status>, o: Oracle, w: Weather)
    ensures var out := RunPass(kits, s, o, w);
      && Applies(out.k1s.trace) <= 1
      && (Applies(out.k1s.trace) == 1 ==>
            && !s.obj.deleting && CAPABILITY_FINALIZER in s.obj.finalizers && kits(s.obj).manifest.Some?
            && (!Matches(kits, s) || ReadNotFound(kits, s, o)))
  {
    CleanUpSendsNoApply(s.obj, kits(s.obj), Store(s.remote, 0, []), o, w);
    if kits(s.obj).manifest.Some? {
      GateSends(kits, s, o, w, kits(s.obj).manifest.value);
    }
  }

  // ---------- finalizer safety ----------

  function SentApplies<Spec, Status>(kits: Kits<Spec, Status>, s: State<Spec, Status>, step: Step<Spec, Status>): nat {
    if step.Pass? then Applies(RunPass(kits, s, step.o, step.w).k1s.trace) else 0
  }

  // The drop of the finalizer: by a deletion pass, after Orphan or after its one delete, call 0, was answered
  // with success or 404.
  ghost predicate DropsFinalizer<Spec, Status>(kits: Kits<Spec, Status>, s: State<Spec, Status>,
                                               step: Step<Spec, Status>,
                                               after: State<Spec, Status>) {
    && step.Pass? && s.obj.deleting && CAPABILITY_FINALIZER in s.obj.finalizers
    && after.obj.finalizers == WithoutString(s.obj.finalizers, CAPABILITY_FINALIZER)
    && (kits(s.obj).orphan ||
        (RunPass(kits, s, step.o, step.w).k1s.trace == [SentDelete(kits(s.obj).target, step.o(0))]
         && !step.o(0).answer.Failed?))
  }

  function ViewOf<Spec, Status>(s: State<Spec, Status>): View {
    View(s.obj.deleting, s.obj.finalizers)
  }

  function ActOf<Spec, Status>(kits: Kits<Spec, Status>, s: State<Spec, Status>, step: Step<Spec, Status>): Act {
    Act(SentApplies(kits, s, step) > 0, step.Pass? && RunPass(kits, s, step.o, step.w).stage == CleanedUp(true))
  }

  lemma StepIsMove<Spec, Status>(kits: Kits<Spec, Status>, s: State<Spec, Status>, step: Step<Spec, Status>,
                                 after: State<Spec, Status>)
    requires Next(kits, s, step, after)
    ensures Move(ViewOf(s), ActOf(kits, s, step), ViewOf(after))
    ensures Released(ViewOf(s), ActOf(kits, s, step), ViewOf(after)) ==> DropsFinalizer(kits, s, step, after)
  {
    if step.Pass? {
      PassSends(kits, s, step.o, step.w);
    }
  }

  ghost function Views<Spec, Status>(states: seq<State<Spec, Status>>): seq<View> {
    seq(|states|, i requires 0 <= i < |states| => ViewOf(states[i]))
  }

  ghost function Acts<Spec, Status>(kits: Kits<Spec, Status>, states: seq<State<Spec, Status>>,
                                    steps: seq<Step<Spec, Status>>): seq<Act>
    requires |states| == |steps| + 1
  {
    seq(|steps|, i requires 0 <= i < |steps| => ActOf(kits, states[i], steps[i]))
  }

  lemma RunFollowsProtocol<Spec, Status>(kits: Kits<Spec, Status>, states: seq<State<Spec, Status>>,
                                         steps: seq<Step<Spec, Status>>)
    requires IsRun(kits, states, steps)
    ensures FinalizerProtocol.IsRun(Views(states), Acts(kits, states, steps))
  {
    forall i | 0 <= i < |steps| ensures Move(Views(states)[i], Acts(kits, states, steps)[i], Views(states)[i + 1]) {
      StepIsMove(kits, states[i], steps[i], states[i + 1]);
    }
  }

  // Once an Apply was sent, the finalizer is there until a deletion pass with an acknowledged delete drops it.
  lemma FinalizerSafety<Spec, Status>(kits: Kits<Spec, Status>, states: seq<State<Spec, Status>>,
                                      steps: seq<Step<Spec, Status>>,
                                      i: nat, j: nat)
    requires IsRun(kits, states, steps) && i < j < |states| && SentApplies(kits, states[i], steps[i]) > 0
    ensures CAPABILITY_FINALIZER in states[j].obj.finalizers ||
            exists k :: i < k < j && DropsFinalizer(kits, states[k], steps[k], states[k + 1])
  {
    RunFollowsProtocol(kits, states, steps);
    var views, acts := Views(states), Acts(kits, states, steps);
    HeldUntilReleased(views, acts, i, j);
    if !Held(views[j]) {
      var k :| i < k < j && Released(views[k], acts[k], views[k + 1]);
      StepIsMove(kits, states[k], steps[k], states[k + 1]);
    }
  }

  lemma NoApplyOnceDeleting<Spec, Status>(kits: Kits<Spec, Status>, states: seq<State<Spec, Status>>,
                                          steps: seq<Step<Spec, Status>>,
                                          k: nat, j: nat)
    requires IsRun(kits, states, steps) && k <= j < |steps| && states[k].obj.deleting
    ensures SentApplies(kits, states[j], steps[j]) == 0
  {
    RunFollowsProtocol(kits, states, steps);
    FinalizerProtocol.NoApplyOnceDeleting(Views(states), Acts(kits, states, steps), k, j);
  }

  // Down to the wire: without Orphan, some replica answered the delete with success or 404.
  lemma CleanupWasAnswered<Spec, Status>(kits: Kits<Spec, Status>, s: State<Spec, Status>,
                                         script: nat -> LeaderRetry.Script, w: Weather)
    returns (r: nat)
    requires RunPass(kits, s, OracleOf(script), w).stage == CleanedUp(true) && !kits(s.obj).orphan
    ensures r < |LeaderRetry.Retry(script(0)).dests| && LeaderRetry.Acknowledges(script(0).replies(r))
    ensures RunPass(kits, s, OracleOf(script), w).k1s.trace == [SentDelete(kits(s.obj).target, CallOf(script(0)))]
  {
    assert !OracleOf(script)(0).answer.Failed?;
    r := LeaderRetry.DoneWasAnswered(script(0));
  }

  // ---------- how often a manifest is applied ----------

  function CountApplies<Spec, Status>(kits: Kits<Spec, Status>, states: seq<State<Spec, Status>>,
                                      steps: seq<Step<Spec, Status>>, n: nat): nat
    requires n <= |steps| < |states|
  {
    if n == 0 then 0 else CountApplies(kits, states, steps, n - 1) + SentApplies(kits, states[n - 1], steps[n - 1])
  }

  // Passes whose Apply or annotation write failed, plus passes whose status read answered 404
  function CountExcuses<Spec, Status>(kits: Kits<Spec, Status>, states: seq<State<Spec, Status>>,
                                      steps: seq<Step<Spec, Status>>, n: nat): nat
    requires n <= |steps| < |states|
  {
    if n == 0 then 0
    else
      var s, step := states[n - 1], steps[n - 1];
      CountExcuses(kits, states, steps, n - 1)
      + (if step.Pass? && GateFailed(kits, s, step.o, step.w) then 1 else 0)
      + (if step.Pass? && ReadNotFound(kits, s, step.o) then 1 else 0)
  }

  lemma WorkStamps<Spec, Status>(kits: Kits<Spec, Status>, s: State<Spec, Status>, o: Oracle, w: Weather, raw: Raw)
    requires kits(s.obj).manifest == Some(raw)
    ensures var out := Work(s.obj, kits(s.obj), raw, Store(s.remote, 0, []), o, w);
      && (out.obj.annotation == s.obj.annotation || out.obj.annotation == Some(HashBytes(raw)))
      && (Matches(kits, s) && !ReadNotFound(kits, s, o) ==> out.obj.annotation == s.obj.annotation)
      && (!Matches(kits, s) || ReadNotFound(kits, s, o) ==>
            out.stage.Unstamped? || !out.stage.verdict.applyOk || out.obj.annotation == Some(HashBytes(raw)))
  {
  }

  lemma QuietPass<Spec, Status>(kits: Kits<Spec, Status>, s: State<Spec, Status>, o: Oracle, w: Weather)
    requires || kits(s.obj).manifest.None? || s.obj.deleting || CAPABILITY_FINALIZER !in s.obj.finalizers
             || !w.get || !w.client
    ensures Applies(RunPass(kits, s, o, w).k1s.trace) == 0 && RunPass(kits, s, o, w).obj.annotation == s.obj.annotation
  {
    PassSends(kits, s, o, w);
    AppliesOneMore([], SentDelete(kits(s.obj).target, o(0)));
    assert [] + [SentDelete(kits(s.obj).target, o(0))] == [SentDelete(kits(s.obj).target, o(0))];
  }

  // One step: an Apply without an excuse is sent where the annotation does not match, and leaves it matching.
  lemma ApplySettles<Spec, Status>(kits: Kits<Spec, Status>, s: State<Spec, Status>, step: Step<Spec, Status>,
                                   after: State<Spec, Status>, m: Option<Raw>)
    requires Next(kits, s, step, after) && kits(s.obj).manifest == m && kits(after.obj).manifest == m
    ensures Matches(kits, s) ==> Matches(kits, after)
    ensures SentApplies(kits, s, step) <= 1
    ensures step.Pass? && SentApplies(kits, s, step) == 1 && !GateFailed(kits, s, step.o, step.w) ==>
      Matches(kits, after) && (ReadNotFound(kits, s, step.o) || !Matches(kits, s))
  {
    if step.Pass? {
      if m.None? || s.obj.deleting || CAPABILITY_FINALIZER !in s.obj.finalizers || !step.w.get || !step.w.client {
        QuietPass(kits, s, step.o, step.w);
      } else {
        GateSends(kits, s, step.o, step.w, m.value);
        WorkStamps(kits, s, step.o, step.w, m.value);
      }
    }
  }

  // Along a run with one manifest: no more Applies than one, plus one for each pass in which the Apply or the
  // annotation write failed, plus one for each status read that answered 404.
  lemma {:induction false} ReapplyBound<Spec, Status>(kits: Kits<Spec, Status>, states: seq<State<Spec, Status>>,
                                                      steps: seq<Step<Spec, Status>>, m: Option<Raw>, n: nat)
    requires IsRun(kits, states, steps) && n <= |steps|
    requires forall x :: 0 <= x < |states| ==> kits(states[x].obj).manifest == m
    ensures CountApplies(kits, states, steps, n) + (if Matches(kits, states[n]) then 0 else 1) <=
            CountExcuses(kits, states, steps, n) + (if Matches(kits, states[0]) then 0 else 1)
  {
    if n > 0 {
      ReapplyBound(kits, states, steps, m, n - 1);
      ApplySettles(kits, states[n - 1], steps[n - 1], states[n], m);
    }
  }

  // ---------- the hash gate ----------

  // No pass applies another manifest to the resource, and no cleanup deletes it.
  ghost predicate Quiet<Spec, Status>(kits: Kits<Spec, Status>, s: State<Spec, Status>, step: Step<Spec, Status>,
                                      raw: Raw) {
    && (SentApplies(kits, s, step) > 0 ==> kits(s.obj).manifest == Some(raw))
    && (step.Pass? && RunPass(kits, s, step.o, step.w).stage.CleanedUp? ==> kits(s.obj).orphan)
  }

  lemma QuietKeepsHeld<Spec, Status>(kits: Kits<Spec, Status>, s: State<Spec, Status>, step: Step<Spec, Status>,
                                     after: State<Spec, Status>, key: Key, raw: Raw)
    requires Next(kits, s, step, after) && Quiet(kits, s, step, raw) && kits(s.obj).key == key
    requires s.obj.annotation == Some(HashBytes(raw)) && key in s.remote && s.remote[key] == raw
    ensures after.obj.annotation == Some(HashBytes(raw)) && key in after.remote && after.remote[key] == raw
  {
    if step.Pass? {
      var kit := kits(s.obj);
      if kit.manifest.None? || !Live(s) || !step.w.get || !step.w.client {
        QuietPass(kits, s, step.o, step.w);
      } else {
        GateSends(kits, s, step.o, step.w, kit.manifest.value);
        WorkStamps(kits, s, step.o, step.w, kit.manifest.value);
      }
    }
  }

  // Hash-gate soundness for one resource: once the annotation and k1s agree on a manifest, they go on agreeing for
  // as long as no pass sends an Apply of another manifest and no cleanup starts.
  lemma {:induction false} MatchIsHeld<Spec, Status>(kits: Kits<Spec, Status>, states: seq<State<Spec, Status>>,
                                                     steps: seq<Step<Spec, Status>>, key: Key, raw: Raw, j: nat, i: nat)
    requires IsRun(kits, states, steps) && j <= i < |states|
    requires forall x :: j <= x < i ==> kits(states[x].obj).key == key && Quiet(kits, states[x], steps[x], raw)
    requires states[j].obj.annotation == Some(HashBytes(raw)) && key in states[j].remote && states[j].remote[key] == raw
    ensures states[i].obj.annotation == Some(HashBytes(raw)) && key in states[i].remote && states[i].remote[key] == raw
  {
    if j < i {
      MatchIsHeld(kits, states, steps, key, raw, j, i - 1);
      QuietKeepsHeld(kits, states[i - 1], steps[i - 1], states[i], key, raw);
    }
  }

  // The annotation, if there is one, is the hash of what k1s holds under this key.
  ghost predicate Truthful<Spec, Status>(s: State<Spec, Status>, key: Key) {
    s.obj.annotation.Some? ==> key in s.remote && s.obj.annotation.value == HashBytes(s.remote[key])
  }

  // The Apply took effect on k1s and its hash did not get into the annotation; or the cleanup's delete took effect.
  predicate Blinds<Spec, Status>(kits: Kits<Spec, Status>, s: State<Spec, Status>, o: Oracle, w: Weather) {
    var kit, call := kits(s.obj), o(0);
    && s.obj.annotation.Some? && w.get && w.client && CAPABILITY_FINALIZER in s.obj.finalizers
    && if s.obj.deleting then
         !kit.orphan && TargetOf(kit.key) == Some(kit.target) && (!call.answer.Failed? || call.effect)
       else
         && kit.manifest.Some? && !Matches(kits, s)
         && (call.answer.Ok? || call.effect)
         && !(call.answer.Ok? && (w.annotationWrite.Written? || w.annotationWrite.effect))
  }

  lemma DeletionBlindsExactly<Spec, Status>(kits: Kits<Spec, Status>, s: State<Spec, Status>, o: Oracle, w: Weather)
    requires Truthful(s, kits(s.obj).key) && s.obj.deleting
    ensures !Truthful(State(RunPass(kits, s, o, w).obj, RunPass(kits, s, o, w).k1s.remote), kits(s.obj).key) <==>
            Blinds(kits, s, o, w)
  {
  }

  // Where the annotation does not match, call 0 is the Apply.
  lemma MismatchedWork<Spec, Status>(kits: Kits<Spec, Status>, s: State<Spec, Status>, o: Oracle, w: Weather, raw: Raw)
    requires kits(s.obj).manifest == Some(raw) && !Matches(kits, s)
    ensures var out, call := Work(s.obj, kits(s.obj), raw, Store(s.remote, 0, []), o, w), o(0);
      && out.k1s.remote ==
           (if call.answer.Ok? || call.effect then s.remote[kits(s.obj).key := raw] else s.remote)
      && out.obj.annotation ==
           (if call.answer.Ok? then Persist(w.annotationWrite, s.obj.annotation, Some(HashBytes(raw)))
            else s.obj.annotation)
  {
    var k, kit := Store(s.remote, 0, []), kits(s.obj);
    var gate := RunGate(s.obj.annotation, kit.key, raw, kit.routes, k, o);
    assert gate == Gate(AfterApply(k, o, kit.key, raw), true, o(0), None);
    ReadSendsNoApply(gate.k1s, o, kit.routes);
  }

  // Where it matches and is truthful, even an Apply after a 404 finds what it brings.
  lemma MatchedWork<Spec, Status>(kits: Kits<Spec, Status>, s: State<Spec, Status>, o: Oracle, w: Weather, raw: Raw)
    requires kits(s.obj).manifest == Some(raw) && Matches(kits, s) && Truthful(s, kits(s.obj).key)
    ensures var out := Work(s.obj, kits(s.obj), raw, Store(s.remote, 0, []), o, w);
      out.k1s.remote == s.remote && out.obj.annotation == s.obj.annotation
  {
    GateSends(kits, s, o, w, raw);
    WorkStamps(kits, s, o, w, raw);
    assert s.remote[kits(s.obj).key := raw] == s.remote;
  }

  lemma WorkBlindsExactly<Spec, Status>(kits: Kits<Spec, Status>, s: State<Spec, Status>, o: Oracle, w: Weather,
                                        raw: Raw)
    requires Truthful(s, kits(s.obj).key) && kits(s.obj).manifest == Some(raw)
    ensures var out := Work(s.obj, kits(s.obj), raw, Store(s.remote, 0, []), o, w);
      !Truthful(State(out.obj, out.k1s.remote), kits(s.obj).key) <==>
        && s.obj.annotation.Some? && !Matches(kits, s)
        && (o(0).answer.Ok? || o(0).effect)
        && !(o(0).answer.Ok? && (w.annotationWrite.Written? || w.annotationWrite.effect))
  {
    if Matches(kits, s) {
      MatchedWork(kits, s, o, w, raw);
    } else {
      MismatchedWork(kits, s, o, w, raw);
    }
  }

  // Exactly when one pass makes a truthful annotation lie, for every object, answer and weather: its Apply of another
  // manifest took effect and the new hash did not get through, or its cleanup deleted the resource.
  lemma PassBlindsExactly<Spec, Status>(kits: Kits<Spec, Status>, s: State<Spec, Status>, o: Oracle, w: Weather)
    requires Truthful(s, kits(s.obj).key)
    ensures !Truthful(State(RunPass(kits, s, o, w).obj, RunPass(kits, s, o, w).k1s.remote), kits(s.obj).key) <==>
            Blinds(kits, s, o, w)
  {
    if s.obj.deleting {
      DeletionBlindsExactly(kits, s, o, w);
    } else if kits(s.obj).manifest.Some? {
      WorkBlindsExactly(kits, s, o, w, kits(s.obj).manifest.value);
    }
  }

  predicate StepBlinds<Spec, Status>(kits: Kits<Spec, Status>, s: State<Spec, Status>, step: Step<Spec, Status>) {
    step.Pass? && Blinds(kits, s, step.o, step.w)
  }

  lemma StepStaysTruthful<Spec, Status>(kits: Kits<Spec, Status>, states: seq<State<Spec, Status>>,
                                        steps: seq<Step<Spec, Status>>, key: Key, x: nat)
    requires IsRun(kits, states, steps) && x < |steps| && kits(states[x].obj).key == key
    requires Truthful(states[x], key) && !StepBlinds(kits, states[x], steps[x])
    ensures Truthful(states[x + 1], key)
  {
    assert Next(kits, states[x], steps[x], states[x + 1]);
    if steps[x].Pass? {
      PassBlindsExactly(kits, states[x], steps[x].o, steps[x].w);
    }
  }

  // So along a run with one key the annotation tells the truth until a pass blinds it.
  lemma {:induction false} TruthfulUntilBlinded<Spec, Status>(
      kits: Kits<Spec, Status>, states: seq<State<Spec, Status>>, steps: seq<Step<Spec, Status>>,
      key: Key, j: nat, i: nat)
    requires IsRun(kits, states, steps) && j <= i < |states| && Truthful(states[j], key)
    requires forall x :: j <= x < i ==> kits(states[x].obj).key == key && !StepBlinds(kits, states[x], steps[x])
    ensures Truthful(states[i], key)
    decreases i
  {
    if j < i {
      TruthfulUntilBlinded(kits, states, steps, key, j, i - 1);
      StepStaysTruthful(kits, states, steps, key, i - 1);
    }
  }

  const STAMP_LOST: Weather := FINE.(annotationWrite := Lost(false))

  predicate Live<Spec, Status>(s: State<Spec, Status>) {
    !s.obj.deleting && CAPABILITY_FINALIZER in s.obj.finalizers
  }

  // An Apply goes well and the annotation write after it is lost without effect.
  lemma LostStamp<Spec, Status>(kits: Kits<Spec, Status>, s: State<Spec, Status>, raw: Raw)
    requires Live(s) && kits(s.obj).manifest == Some(raw) && s.obj.annotation != Some(HashBytes(raw))
    ensures Next(kits, s, Pass(AlwaysOk(), STAMP_LOST), State(s.obj, s.remote[kits(s.obj).key := raw]))
  {
  }

  // Where the annotation matches and the status read goes well, nothing is sent.
  lemma MatchingPass<Spec, Status>(kits: Kits<Spec, Status>, s: State<Spec, Status>,
                                   raw: Raw)
    returns (after: State<Spec, Status>)
    requires Live(s) && kits(s.obj).manifest == Some(raw) && s.obj.annotation == Some(HashBytes(raw))
    ensures Next(kits, s, Pass(AlwaysOk(), FINE), after) && SentApplies(kits, s, Pass(AlwaysOk(), FINE)) == 0
    ensures after.remote == s.remote && after.obj == s.obj.(status := after.obj.status)
  {
    GateSends(kits, s, AlwaysOk(), FINE, raw);
    WorkStamps(kits, s, AlwaysOk(), FINE, raw);
    after := State(RunPass(kits, s, AlwaysOk(), FINE).obj, s.remote);
  }

  // Why MatchIsHeld asks that no other manifest was sent: manifest B is applied, its annotation write is lost, and the
  // spec goes back to manifest A. The annotation matches A, so nothing is applied, and k1s keeps running B.
  lemma LostStampHidesRevert<Spec, Status>(kits: Kits<Spec, Status>, s: State<Spec, Status>, objB: Object<Spec, Status>,
                                           rawA: Raw, rawB: Raw)
    returns (states: seq<State<Spec, Status>>, steps: seq<Step<Spec, Status>>)
    requires Live(s) && s.obj.annotation == Some(HashBytes(rawA)) && rawA != rawB
    requires EditOk(s.obj, objB) && !objB.deleting && kits(objB).key == kits(s.obj).key
    requires kits(s.obj).manifest == Some(rawA) && kits(objB).manifest == Some(rawB)
    ensures IsRun(kits, states, steps) && |steps| == 4 && states[0] == s
    ensures states[4].obj == s.obj.(status := states[4].obj.status)
    ensures steps[3].Pass? && SentApplies(kits, states[3], steps[3]) == 0
    ensures kits(s.obj).key in states[4].remote && states[4].remote[kits(s.obj).key] == rawB
  {
    var s1 := State(objB, s.remote);
    LostStamp(kits, s1, rawB);
    var s2 := State(objB, s.remote[kits(s.obj).key := rawB]);
    var s3 := State(s.obj, s2.remote);
    var s4 := MatchingPass(kits, s3, rawA);
    var p1: Step<Spec, Status>, p3: Step<Spec, Status> := Pass(AlwaysOk(), STAMP_LOST), Pass(AlwaysOk(), FINE);
    var e0: Step<Spec, Status>, e2: Step<Spec, Status> := Edit(objB), Edit(s.obj);
    OneMoreStep(kits, [s], [], e0, s1);
    OneMoreStep(kits, [s, s1], [e0], p1, s2);
    OneMoreStep(kits, [s, s1, s2], [e0, p1], e2, s3);
    OneMoreStep(kits, [s, s1, s2, s3], [e0, p1, e2], p3, s4);
    states, steps := [s, s1, s2, s3] + [s4], [e0, p1, e2] + [p3];
  }

  // ---------- what is left on k1s ----------

  // A cleanup that drops the finalizer without Orphan leaves nothing on k1s exactly when its one delete
  // addresses everything the object still has there.
  lemma NothingLeftBehindExactly<Spec, Status>(kits: Kits<Spec, Status>, s: State<Spec, Status>, o: Oracle, w: Weather)
    requires RunPass(kits, s, o, w).stage == CleanedUp(true) && !kits(s.obj).orphan
    ensures RunPass(kits, s, o, w).k1s.remote == map[] <==>
            forall key :: key in s.remote ==> TargetOf(key) == Some(kits(s.obj).target)
  {
    var after := RunPass(kits, s, o, w).k1s.remote;
    assert after == Without(s.remote, kits(s.obj).target);
    assert forall key :: key in after <==> key in s.remote && TargetOf(key) != Some(kits(s.obj).target);
  }

  // An object puts nothing on k1s but the resource its spec names, so with one name all along it has one resource.
  lemma {:induction false} OneResource<Spec, Status>(kits: Kits<Spec, Status>, states: seq<State<Spec, Status>>,
                                                     steps: seq<Step<Spec, Status>>, key: Key, j: nat)
    requires IsRun(kits, states, steps) && j < |states| && states[0].remote.Keys <= {key}
    requires forall x :: 0 <= x < |states| ==> kits(states[x].obj).key == key
    ensures states[j].remote.Keys <= {key}
  {
    if j > 0 {
      OneResource(kits, states, steps, key, j - 1);
      var s, step := states[j - 1], steps[j - 1];
      assert Next(kits, s, step, states[j]);
      if step.Pass? && kits(s.obj).manifest.Some? {
        GateSends(kits, s, step.o, step.w, kits(s.obj).manifest.value);
      }
    }
  }

  // The promise of the docs for a workload whose name does not change: when the finalizer goes, nothing is left.
  lemma ReleaseLeavesNothing<Spec, Status>(kits: Kits<Spec, Status>, states: seq<State<Spec, Status>>,
                                           steps: seq<Step<Spec, Status>>, key: Key, j: nat)
    requires IsRun(kits, states, steps) && j < |steps| && states[0].remote == map[]
    requires forall x :: 0 <= x < |states| ==> kits(states[x].obj).key == key
    requires steps[j].Pass? && RunPass(kits, states[j], steps[j].o, steps[j].w).stage == CleanedUp(true)
    requires !kits(states[j].obj).orphan && TargetOf(key) == Some(kits(states[j].obj).target)
    ensures states[j + 1].remote == map[]
  {
    OneResource(kits, states, steps, key, j);
    NothingLeftBehindExactly(kits, states[j], steps[j].o, steps[j].w);
    assert Next(kits, states[j], steps[j], states[j + 1]);
  }

  // Whatever is on k1s was put there by an earlier pass that sent an Apply under that key.
  lemma {:induction false} RemoteWasApplied<Spec, Status>(
      kits: Kits<Spec, Status>, states: seq<State<Spec, Status>>, steps: seq<Step<Spec, Status>>, j: nat, key: Key)
    returns (i: nat)
    requires IsRun(kits, states, steps) && j < |states| && states[0].remote == map[] && key in states[j].remote
    ensures i < j && SentApplies(kits, states[i], steps[i]) > 0 && kits(states[i].obj).key == key
  {
    var s, step := states[j - 1], steps[j - 1];
    assert Next(kits, s, step, states[j]);
    if key in s.remote {
      i := RemoteWasApplied(kits, states, steps, j - 1, key);
    } else {
      i := j - 1;
      NewKeyWasApplied(kits, s, step.o, step.w, key);
    }
  }

  lemma NewKeyWasApplied<Spec, Status>(kits: Kits<Spec, Status>, s: State<Spec, Status>, o: Oracle, w: Weather,
                                       key: Key)
    requires key !in s.remote && key in RunPass(kits, s, o, w).k1s.remote
    ensures SentApplies(kits, s, Pass(o, w)) > 0 && kits(s.obj).key == key
  {
    if kits(s.obj).manifest.Some? {
      GateSends(kits, s, o, w, kits(s.obj).manifest.value);
    }
  }

  // The pass at i sent an Apply, and what it names is there at j.
  ghost predicate AppliedAndThere<Spec, Status>(kits: Kits<Spec, Status>, states: seq<State<Spec, Status>>,
                                                steps: seq<Step<Spec, Status>>, i: nat, j: nat)
    requires i < |steps| && i < |states| && j < |states|
  {
    SentApplies(kits, states[i], steps[i]) > 0 && kits(states[i].obj).key in states[j].remote
  }

  // For every run: the cleanup that drops the finalizer without Orphan leaves nothing behind exactly when each
  // resource that an earlier pass applied, and that is still there, is addressed by its one delete.
  lemma LeavesNothingExactly<Spec, Status>(kits: Kits<Spec, Status>, states: seq<State<Spec, Status>>,
                                           steps: seq<Step<Spec, Status>>, j: nat)
    requires IsRun(kits, states, steps) && j < |steps| && states[0].remote == map[] && steps[j].Pass?
    requires !kits(states[j].obj).orphan
    requires RunPass(kits, states[j], steps[j].o, steps[j].w).stage == CleanedUp(true)
    ensures states[j + 1].remote == map[] <==>
      forall i :: 0 <= i < j && AppliedAndThere(kits, states, steps, i, j) ==>
        TargetOf(kits(states[i].obj).key) == Some(kits(states[j].obj).target)
  {
    assert Next(kits, states[j], steps[j], states[j + 1]);
    NothingLeftBehindExactly(kits, states[j], steps[j].o, steps[j].w);
    if forall i :: 0 <= i < j && AppliedAndThere(kits, states, steps, i, j) ==>
        TargetOf(kits(states[i].obj).key) == Some(kits(states[j].obj).target)
    {
      forall key | key in states[j].remote ensures TargetOf(key) == Some(kits(states[j].obj).target) {
        var i := RemoteWasApplied(kits, states, steps, j, key);
        assert AppliedAndThere(kits, states, steps, i, j);
      }
    }
  }

  // ---------- passes in which nothing fails ----------

  // A first or changed manifest is applied, stamped and reported on.
  lemma FineApply<Spec, Status>(kits: Kits<Spec, Status>, s: State<Spec, Status>,
                                raw: Raw)
    returns (after: State<Spec, Status>)
    requires Live(s) && kits(s.obj).manifest == Some(raw) && s.obj.annotation != Some(HashBytes(raw))
    ensures Next(kits, s, Pass(AlwaysOk(), FINE), after)
    ensures after.remote == s.remote[kits(s.obj).key := raw]
    ensures after.obj == s.obj.(annotation := Some(HashBytes(raw)),
                                status := kits(s.obj).render(Done(map[], true, Some(map[]))))
  {
    after := State(RunPass(kits, s, AlwaysOk(), FINE).obj, RunPass(kits, s, AlwaysOk(), FINE).k1s.remote);
  }

  // A pass applies the manifest, and the spec is then edited.
  lemma ApplyThenEdit<Spec, Status>(kits: Kits<Spec, Status>, s: State<Spec, Status>, raw: Raw, edited: Spec)
    returns (states: seq<State<Spec, Status>>, steps: seq<Step<Spec, Status>>)
    requires Live(s) && kits(s.obj).manifest == Some(raw) && s.obj.annotation != Some(HashBytes(raw))
    ensures IsRun(kits, states, steps) && |steps| == 2 && states[0] == s && Live(states[2])
    ensures states[2].obj.spec == edited && states[2].obj.annotation == Some(HashBytes(raw))
    ensures kits(s.obj).key in states[2].remote
  {
    var s1 := FineApply(kits, s, raw);
    var s2 := State(s1.obj.(spec := edited), s1.remote);
    var pass: Step<Spec, Status>, edit: Step<Spec, Status> := Pass(AlwaysOk(), FINE), Edit(s2.obj);
    OneMoreStep(kits, [s], [], pass, s1);
    OneMoreStep(kits, [s, s1], [pass], edit, s2);
    states, steps := [s, s1] + [s2], [pass] + [edit];
  }

  lemma FineRefusal<Spec, Status>(kits: Kits<Spec, Status>, s: State<Spec, Status>)
    requires Live(s) && kits(s.obj).manifest == None
    ensures Next(kits, s, Pass(AlwaysOk(), FINE), State(s.obj.(status := kits(s.obj).render(Rejected)), s.remote))
  {
  }

  lemma FineCleanup<Spec, Status>(kits: Kits<Spec, Status>, s: State<Spec, Status>)
    requires s.obj.deleting && CAPABILITY_FINALIZER in s.obj.finalizers && !kits(s.obj).orphan
    ensures var after := State(s.obj.(finalizers := WithoutString(s.obj.finalizers, CAPABILITY_FINALIZER)),
                               Without(s.remote, kits(s.obj).target));
      Next(kits, s, Pass(AlwaysOk(), FINE), after) && DropsFinalizer(kits, s, Pass(AlwaysOk(), FINE), after)
  {
  }

  // The end of a run: the mark for deletion, and a cleanup in which nothing fails. What was there stays exactly
  // when the delete does not address it.
  lemma MarkAndCleanUp<Spec, Status>(kits: Kits<Spec, Status>, states: seq<State<Spec, Status>>,
                                     steps: seq<Step<Spec, Status>>, key: Key)
    returns (moreStates: seq<State<Spec, Status>>, moreSteps: seq<Step<Spec, Status>>)
    requires IsRun(kits, states, steps) && key in states[|steps|].remote
    requires CAPABILITY_FINALIZER in states[|steps|].obj.finalizers
    requires !kits(states[|steps|].obj.(deleting := true)).orphan
    ensures IsRun(kits, moreStates, moreSteps) && |moreSteps| == |steps| + 2
    ensures steps <= moreSteps && states <= moreStates
    ensures DropsFinalizer(kits, moreStates[|steps| + 1], moreSteps[|steps| + 1], moreStates[|steps| + 2])
    ensures key in moreStates[|steps| + 2].remote <==>
            TargetOf(key) != Some(kits(states[|steps|].obj.(deleting := true)).target)
  {
    var s := states[|steps|];
    var s1 := State(s.obj.(deleting := true), s.remote);
    var s2 := State(s1.obj.(finalizers := WithoutString(s1.obj.finalizers, CAPABILITY_FINALIZER)),
                    Without(s1.remote, kits(s1.obj).target));
    var mark: Step<Spec, Status>, pass: Step<Spec, Status> := Edit(s1.obj), Pass(AlwaysOk(), FINE);
    FineCleanup(kits, s1);
    OneMoreStep(kits, states, steps, mark, s1);
    OneMoreStep(kits, states + [s1], steps + [mark], pass, s2);
    moreStates, moreSteps := states + [s1] + [s2], steps + [mark] + [pass];
  }

  // The same after one more pass.
  lemma PassMarkAndCleanUp<Spec, Status>(kits: Kits<Spec, Status>, states: seq<State<Spec, Status>>,
                                         steps: seq<Step<Spec, Status>>, after: State<Spec, Status>, key: Key)
    returns (moreStates: seq<State<Spec, Status>>, moreSteps: seq<Step<Spec, Status>>)
    requires IsRun(kits, states, steps) && Next(kits, states[|steps|], Pass(AlwaysOk(), FINE), after)
    requires key in after.remote && CAPABILITY_FINALIZER in after.obj.finalizers
    requires !kits(after.obj.(deleting := true)).orphan
    ensures IsRun(kits, moreStates, moreSteps) && |moreSteps| == |steps| + 3
    ensures steps <= moreSteps && states <= moreStates
    ensures DropsFinalizer(kits, moreStates[|steps| + 2], moreSteps[|steps| + 2], moreStates[|steps| + 3])
    ensures key in moreStates[|steps| + 3].remote <==>
            TargetOf(key) != Some(kits(after.obj.(deleting := true)).target)
  {
    var pass: Step<Spec, Status> := Pass(AlwaysOk(), FINE);
    OneMoreStep(kits, states, steps, pass, after);
    moreStates, moreSteps := MarkAndCleanUp(kits, states + [after], steps + [pass], key);
  }
}
