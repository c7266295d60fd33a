/**
 What one pass over an app or endpoint does before it gets to work and what it tells about itself: the finalizer of a
 new object, the error it returns, the requests it sends, and how its verdict follows from their answers.
 */
module WorkloadReports {
  import opened Wrappers
  import opened Digests
  import opened Json
  import opened Resources
  import opened K1s
  import opened Kube
  import opened Workloads

  // ---------- the finalizer of a new object ----------

  // A pass over a live object without the capability finalizer does nothing but append it, and reports failure exactly
  // when that write was not acknowledged.
  lemma AddsFinalizerExactly<Spec, Status>(kits: Kits<Spec, Status>, s: State<Spec, Status>, o: Oracle, w: Weather)
    requires !s.obj.deleting && CAPABILITY_FINALIZER !in s.obj.finalizers && w.get && w.client
    ensures var out := RunPass(kits, s, o, w);
      && out.k1s == Store(s.remote, 0, [])
      && out.obj == s.obj.(finalizers := out.obj.finalizers)
      && (out.obj.finalizers == s.obj.finalizers + [CAPABILITY_FINALIZER] <==>
            w.finalizerWrite.Written? || w.finalizerWrite.effect)
      && (out.obj.finalizers == s.obj.finalizers <==> !w.finalizerWrite.Written? && !w.finalizerWrite.effect)
      && (out.failed <==> !w.finalizerWrite.Written?)
  {
    assert |s.obj.finalizers + [CAPABILITY_FINALIZER]| > |s.obj.finalizers|;
  }

  // So a new object with an accepted manifest is on k1s after two passes: one whose finalizer write is acknowledged,
  // and one in which nothing fails.
  lemma NewObjectIsApplied<Spec, Status>(kits: Kits<Spec, Status>, s: State<Spec, Status>, raw: Raw, o: Oracle,
                                         w: Weather)
    returns (states: seq<State<Spec, Status>>)
    requires !s.obj.deleting && CAPABILITY_FINALIZER !in s.obj.finalizers
    requires w.get && w.client && w.finalizerWrite.Written?
    requires var held := s.obj.(finalizers := s.obj.finalizers + [CAPABILITY_FINALIZER]);
      kits(held).manifest == Some(raw) && s.obj.annotation != Some(HashBytes(raw))
    ensures IsRun(kits, states, [Pass(o, w), Pass(AlwaysOk(), FINE)]) && states[0] == s
    ensures var held := s.obj.(finalizers := s.obj.finalizers + [CAPABILITY_FINALIZER]);
      && states[1].obj == held
      && states[2].remote == s.remote[kits(held).key := raw]
      && states[2].obj.annotation == Some(HashBytes(raw))
  {
    AddsFinalizerExactly(kits, s, o, w);
    var s1 := State(RunPass(kits, s, o, w).obj, s.remote);
    var s2 := FineApply(kits, s1, raw);
    var add: Step<Spec, Status>, apply: Step<Spec, Status> := Pass(o, w), Pass(AlwaysOk(), FINE);
    OneMoreStep(kits, [s], [], add, s1);
    OneMoreStep(kits, [s, s1], [add], apply, s2);
    states := [s, s1] + [s2];
    assert [add] + [apply] == [Pass(o, w), Pass(AlwaysOk(), FINE)];
  }

  // A pass that cannot read its object fails and does nothing; one whose object is gone, or is marked for deletion and
  // already released, has nothing to do; one without credentials says so.
  lemma IdlePasses<Spec, Status>(kits: Kits<Spec, Status>, s: State<Spec, Status>, o: Oracle, w: Weather)
    ensures var out := RunPass(kits, s, o, w);
      && (Gone(s.obj) ==> out == Outcome(s.obj, Store(s.remote, 0, []), false, Idle))
      && (!Gone(s.obj) && !w.get ==> out == Outcome(s.obj, Store(s.remote, 0, []), true, Idle))
      && (s.obj.deleting && CAPABILITY_FINALIZER !in s.obj.finalizers && w.get && w.client ==>
            out == Outcome(s.obj, Store(s.remote, 0, []), false, Idle))
      && (!Gone(s.obj) && w.get && !w.client ==>
            && out.k1s == Store(s.remote, 0, []) && (out.failed <==> !w.statusWrite.Written?)
            && (w.statusWrite.Written? ==> out.obj == s.obj.(status := kits(s.obj).render(NoCredentials))))
  {
  }

  // ---------- failed passes ----------

  // A cleanup whose delete fails is reported as failed, so that it is tried again, and the finalizer stays. Under
  // Orphan nothing is sent and nothing is taken from k1s.
  lemma CleanupReports<Spec, Status>(kits: Kits<Spec, Status>, s: State<Spec, Status>, o: Oracle, w: Weather)
    requires s.obj.deleting && CAPABILITY_FINALIZER in s.obj.finalizers && w.get && w.client
    ensures var out, kit := RunPass(kits, s, o, w), kits(s.obj);
      && (kit.orphan ==> out.k1s == Store(s.remote, 0, []) && out.stage == CleanedUp(true))
      && (!kit.orphan ==> out.k1s.trace == [SentDelete(kit.target, o(0))])
      && (!kit.orphan && o(0).answer.Failed? ==>
            && out.failed && out.stage == CleanedUp(false) && out.obj.finalizers == s.obj.finalizers
            && (w.statusWrite.Written? ==> out.obj.status == kit.render(CleanupFailed)))
      && (kit.orphan || !o(0).answer.Failed? ==>
            && out.stage == CleanedUp(true) && (out.failed <==> !w.finalizerWrite.Written?)
            && out.obj.status == s.obj.status)
  {
  }

  // ---------- what a pass sends, and what it concludes ----------

  // Every request is about this object: its manifest, its target, its status routes.
  ghost predicate SendsItsOwn<Status>(kit: Kit<Status>, trace: seq<Sent>) {
    forall e :: 0 <= e < |trace| ==>
      match trace[e]
      case SentApply(raw, _) => kit.manifest == Some(raw)
      case SentDelete(target, _) => kit.target == target
      case SentRead(route, _) => route == kit.routes.first || kit.routes.second == Some(route)
  }

  // The reads at the end of a trace: the first route and, exactly if that fails and there is one, the second.
  ghost predicate ReadsLast(routes: Routes, before: seq<Sent>, trace: seq<Sent>, call: Call) {
    var n := |before|;
    && before <= trace && |trace| > n && trace[n].SentRead? && trace[n].route == routes.first
    && if trace[n].read.answer.Ok? || routes.second.None? then |trace| == n + 1 && trace[n].read == call
       else |trace| == n + 2 && trace[n + 1] == SentRead(routes.second.value, call)
  }

  lemma ReadTrace(k: Store, o: Oracle, routes: Routes)
    ensures ReadsLast(routes, k.trace, Read(k, o, routes).0.trace, Read(k, o, routes).1)
  {
  }

  // How the pass's verdict follows from the answers it got: Apply went well unless one was sent and not answered so;
  // the result is that of the Apply; and the status seen is what the last request, a read, brought. Nothing is sent
  // after an Apply that fails or a read that goes well.
  ghost predicate Concludes(verdict: Verdict, trace: seq<Sent>)
    requires verdict.Done?
  {
    && (verdict.applyOk <==> forall e :: 0 <= e < |trace| && trace[e].SentApply? ==> trace[e].applied.answer.Ok?)
    && (forall e :: 0 <= e < |trace| && trace[e].SentApply? && trace[e].applied.answer.Ok? ==>
          verdict.result == trace[e].applied.fields)
    && ((forall e :: 0 <= e < |trace| ==> !trace[e].SentApply?) ==> verdict.result == map[])
    && (verdict.applyOk ==>
          && trace != [] && trace[|trace| - 1].SentRead?
          && verdict.seen == var read := trace[|trace| - 1].read; if read.answer.Ok? then Some(read.fields) else None)
    && (!verdict.applyOk ==> trace != [] && trace[|trace| - 1].SentApply?)
    && (forall e :: 0 <= e < |trace| - 1 && trace[e].SentRead? ==> !trace[e].read.answer.Ok?)
  }

  // The trace after the gate: reads that did not go well, and then the Apply or one more read.
  ghost predicate Gated(gate: Gate, routes: Routes, raw: Raw) {
    var trace := gate.k1s.trace;
    && trace != []
    && (forall e :: 0 <= e < |trace| - 1 ==> trace[e].SentRead? && !trace[e].read.answer.Ok?)
    && (forall e :: 0 <= e < |trace| && trace[e].SentRead? ==>
          trace[e].route == routes.first || routes.second == Some(trace[e].route))
    && var last := trace[|trace| - 1];
       if gate.applying then last == SentApply(raw, gate.applied) && gate.seen == None
       else
         && last.SentRead? && gate.applied == NO_CALL
         && gate.seen == if last.read.answer.Ok? then Some(last.read.fields) else None
  }

  lemma GateTrace(annotation: Option<Digest>, key: Key, raw: Raw, routes: Routes, o: Oracle, remote: map<Key, Raw>)
    ensures Gated(RunGate(annotation, key, raw, routes, Store(remote, 0, []), o), routes, raw)
  {
    ReadTrace(Store(remote, 0, []), o, routes);
  }

  // What a working pass comes to, seen from its gate: no more than another status read.
  lemma AfterGate<Spec, Status>(kits: Kits<Spec, Status>, s: State<Spec, Status>, o: Oracle, w: Weather, raw: Raw)
    ensures var kit := kits(s.obj);
      var gate := RunGate(s.obj.annotation, kit.key, raw, kit.routes, Store(s.remote, 0, []), o);
      var out := Work(s.obj, kit, raw, Store(s.remote, 0, []), o, w);
      var applyOk := gate.applied.answer.Ok?;
      var result := if gate.applying && applyOk then gate.applied.fields else map[];
      match out.stage
      case Unstamped => out.k1s == gate.k1s && gate.applying && applyOk
      case Finished(verdict) =>
        var reading := applyOk && gate.seen.None?;
        if !reading then out.k1s == gate.k1s && verdict == Done(result, applyOk, gate.seen)
        else
          var (after, read) := Read(gate.k1s, o, kit.routes);
          out.k1s == after && verdict == Done(result, true, if read.answer.Ok? then Some(read.fields) else None)
      case _ => false
  {
  }

  // One more status read after the gate
  lemma GateThenRead(gate: Gate, routes: Routes, raw: Raw, o: Oracle)
    requires Gated(gate, routes, raw) && gate.applied.answer.Ok? && gate.seen.None?
    ensures var (after, read) := Read(gate.k1s, o, routes);
      Concludes(Done(if gate.applying then gate.applied.fields else map[], true,
                     if read.answer.Ok? then Some(read.fields) else None), after.trace)
  {
    ReadTrace(gate.k1s, o, routes);
  }

  lemma WorkConcludes<Spec, Status>(kits: Kits<Spec, Status>, s: State<Spec, Status>, o: Oracle, w: Weather, raw: Raw)
    ensures var out := Work(s.obj, kits(s.obj), raw, Store(s.remote, 0, []), o, w);
      out.stage.Finished? ==> out.stage.verdict.Done? && Concludes(out.stage.verdict, out.k1s.trace)
  {
    var kit := kits(s.obj);
    var gate := RunGate(s.obj.annotation, kit.key, raw, kit.routes, Store(s.remote, 0, []), o);
    GateTrace(s.obj.annotation, kit.key, raw, kit.routes, o, s.remote);
    AfterGate(kits, s, o, w, raw);
    if gate.applied.answer.Ok? && gate.seen.None? {
      GateThenRead(gate, kit.routes, raw, o);
    }
  }

  lemma WorkSendsItsOwn<Spec, Status>(kits: Kits<Spec, Status>, s: State<Spec, Status>, o: Oracle, w: Weather, raw: Raw)
    requires kits(s.obj).manifest == Some(raw)
    ensures SendsItsOwn(kits(s.obj), Work(s.obj, kits(s.obj), raw, Store(s.remote, 0, []), o, w).k1s.trace)
  {
    var kit := kits(s.obj);
    var gate := RunGate(s.obj.annotation, kit.key, raw, kit.routes, Store(s.remote, 0, []), o);
    GateTrace(s.obj.annotation, kit.key, raw, kit.routes, o, s.remote);
    AfterGate(kits, s, o, w, raw);
    ReadTrace(gate.k1s, o, kit.routes);
  }

  // Every pass sends only requests about its object, and a completed one concludes from their answers.
  lemma PassConcludes<Spec, Status>(kits: Kits<Spec, Status>, s: State<Spec, Status>, o: Oracle, w: Weather)
    ensures var out := RunPass(kits, s, o, w);
      && SendsItsOwn(kits(s.obj), out.k1s.trace)
      && (out.stage.Finished? ==> out.stage.verdict.Done? && Concludes(out.stage.verdict, out.k1s.trace))
  {
    if kits(s.obj).manifest.Some? {
      WorkConcludes(kits, s, o, w, kits(s.obj).manifest.value);
      WorkSendsItsOwn(kits, s, o, w, kits(s.obj).manifest.value);
    }
  }

  // The pass sent an Apply that k1s answered with success.
  ghost predicate Applied(trace: seq<Sent>) {
    exists e :: 0 <= e < |trace| && trace[e].SentApply? && trace[e].applied.answer.Ok?
  }

  lemma WorkFailsExactly<Spec, Status>(kits: Kits<Spec, Status>, s: State<Spec, Status>, o: Oracle, w: Weather,
                                       raw: Raw)
    ensures var out := Work(s.obj, kits(s.obj), raw, Store(s.remote, 0, []), o, w);
      out.failed <==> !w.statusWrite.Written? || (Applied(out.k1s.trace) && !w.annotationWrite.Written?)
  {
    var kit := kits(s.obj);
    var gate := RunGate(s.obj.annotation, kit.key, raw, kit.routes, Store(s.remote, 0, []), o);
    GateTrace(s.obj.annotation, kit.key, raw, kit.routes, o, s.remote);
    AfterGate(kits, s, o, w, raw);
    ReadTrace(gate.k1s, o, kit.routes);
    var trace, n := Work(s.obj, kit, raw, Store(s.remote, 0, []), o, w).k1s.trace, |gate.k1s.trace|;
    assert gate.k1s.trace <= trace && forall e :: n <= e < |trace| ==> trace[e].SentRead?;
    assert gate.applying && gate.applied.answer.Ok? ==> trace[n - 1].SentApply?;
  }

  // A pass over a live object that has its finalizer reports failure exactly when its object was not read or a write it
  // came to was not acknowledged. A failed Apply or status read shows in the status alone.
  lemma FailsExactly<Spec, Status>(kits: Kits<Spec, Status>, s: State<Spec, Status>, o: Oracle, w: Weather)
    requires Live(s)
    ensures var out := RunPass(kits, s, o, w);
      out.failed <==>
        !w.get || !w.statusWrite.Written? || (Applied(out.k1s.trace) && !w.annotationWrite.Written?)
  {
    if kits(s.obj).manifest.Some? {
      WorkFailsExactly(kits, s, o, w, kits(s.obj).manifest.value);
    }
  }

  // ---------- what lasts ----------

  // A property of the status that every rendering keeps stays for good, whatever is edited and fails.
  lemma {:induction false} RenderedForEver<Spec, Status>(
      kits: Kits<Spec, Status>, states: seq<State<Spec, Status>>, steps: seq<Step<Spec, Status>>,
      keeps: Status -> bool, i: nat, j: nat)
    requires IsRun(kits, states, steps) && i <= j < |states| && keeps(states[i].obj.status)
    requires forall obj: Object<Spec, Status>, verdict: Verdict ::
               keeps(obj.status) ==> keeps(kits(obj).render(verdict))
    ensures keeps(states[j].obj.status)
    decreases j
  {
    if i < j {
      RenderedForEver(kits, states, steps, keeps, i, j - 1);
      StepRenders(kits, states[j - 1], steps[j - 1], states[j], keeps);
    }
  }

  lemma StepRenders<Spec, Status>(kits: Kits<Spec, Status>, s: State<Spec, Status>, step: Step<Spec, Status>,
                                  after: State<Spec, Status>, keeps: Status -> bool)
    requires Next(kits, s, step, after) && keeps(s.obj.status)
    requires forall obj: Object<Spec, Status>, verdict: Verdict ::
               keeps(obj.status) ==> keeps(kits(obj).render(verdict))
    ensures keeps(after.obj.status)
  {
    if step.Pass? {
      PassStatus(kits, s, step.o, step.w);
    }
  }
}
