/**
 What a K1sResourceSet's runs do to k1s: pruning, the hash gate, convergence without leaks, and cleanup.
 Names are asked to be well formed (Resources.WellNamed), so that keys and delete names identify resources.
 */
module SetConvergence {
  import opened Wrappers
  import opened Digests
  import opened KindLists
  import opened Resources
  import opened K1s
  import opened Kube
  import opened ResourceSet
  import opened SetSteps
  import opened SetRuns

  ghost predicate AllWellNamed(keys: set<Key>) {
    forall key :: key in keys ==> WellNamed(key)
  }

  // Every name the operator has recorded or is asked for is well formed.
  ghost predicate NamesOk(op: Operator, s: State) {
    AllWellNamed(Keys(s.obj.status.managed)) && AllWellNamed(ManifestKeys(op.decode, s.obj.spec.manifests))
  }

  // ---------- prune ----------

  // An entry is stale exactly when no manifest names its resource any more.
  lemma StaleExactly(previous: seq<Resource>, desired: seq<Resource>, r: Resource)
    requires AllWellNamed(Keys(previous)) && AllWellNamed(Keys(desired))
    ensures r in Stale(previous, KeyStrings(desired)) <==> r in previous && KeyOf(r) !in Keys(desired)
  {
    StaleMeaning(previous, KeyStrings(desired));
    if r in previous {
      assert KeyOf(r) in Keys(previous);
      forall d | d in desired ensures KeyString(r) == KeyString(d) <==> KeyOf(r) == KeyOf(d) {
        assert KeyOf(d) in Keys(desired);
        KeyStringInjective(r, d);
      }
    }
  }

  // Under the name conditions a stale entry's delete request reaches stale keys only.
  lemma AddressedIsStale(previous: seq<Resource>, desired: seq<Resource>, key: Key)
    requires AllWellNamed(Keys(previous)) && AllWellNamed(Keys(desired)) && WellNamed(key)
    ensures Addressed(Stale(previous, KeyStrings(desired)), key) <==>
            key in Keys(previous) && key !in Keys(desired) && TargetOf(key).Some?
  {
    var stale := Stale(previous, KeyStrings(desired));
    if Addressed(stale, key) {
      var e :| 0 <= e < |stale| && TargetOf(KeyOf(stale[e])) == TargetOf(key);
      assert stale[e] in stale;
      StaleExactly(previous, desired, stale[e]);
      assert KeyOf(stale[e]) in Keys(previous);
      TargetInjective(KeyOf(stale[e]), key);
    }
    if key in Keys(previous) && key !in Keys(desired) && TargetOf(key).Some? {
      var r :| r in previous && KeyOf(r) == key;
      StaleExactly(previous, desired, r);
      var e :| 0 <= e < |stale| && stale[e] == r;
      assert TargetOf(KeyOf(stale[e])) == TargetOf(key);
    }
  }

  // Prune never touches a resource that is wanted; one that ends well leaves no recorded resource that is not.
  lemma PruneKeepsDesired(obj: SetObject, desired: seq<Resource>, k: Store, o: Oracle, key: Key)
    requires AllWellNamed(Keys(obj.status.managed)) && AllWellNamed(Keys(desired))
    ensures var (after, ok) := PruneStage(obj, desired, k, o);
      && (key in after.remote ==> key in k.remote && after.remote[key] == k.remote[key])
      && (key in Keys(desired) && key in k.remote ==> key in after.remote)
      && (ok && obj.spec.prune && key in Keys(obj.status.managed) && key !in Keys(desired) ==> key !in after.remote)
  {
    var stale := Stale(obj.status.managed, KeyStrings(desired));
    SweepRemote(k, o, stale, key);
    if key in Keys(obj.status.managed) || key in Keys(desired) {
      AddressedIsStale(obj.status.managed, desired, key);
    }
    if key in Keys(obj.status.managed) && key !in Keys(desired) && TargetOf(key).None? {
      var r :| r in obj.status.managed && KeyOf(r) == key;
      StaleExactly(obj.status.managed, desired, r);
      if Sweep(k, o, stale).1 {
        SweptHaveTargets(k, o, stale);
        assert false;
      }
    }
  }

  lemma SweptHaveTargets(k: Store, o: Oracle, rs: seq<Resource>)
    requires Sweep(k, o, rs).1
    ensures forall r :: r in rs ==> TargetOf(KeyOf(r)).Some?
  {
    SweepTrace(k, o, rs);
    forall r | r in rs ensures TargetOf(KeyOf(r)).Some? {
      var e :| 0 <= e < |rs| && rs[e] == r;
      assert DeleteSent(k, o, rs, Sweep(k, o, rs).0.trace, e);
    }
  }

  // Prune is exact. It deletes the entries no manifest names any more, in order and one call each; it ends well
  // exactly when it got through all of them; and then precisely their resources are gone.
  lemma PruneExactly(obj: SetObject, desired: seq<Resource>, k: Store, o: Oracle)
    requires obj.spec.prune && k.trace == []
    requires AllWellNamed(Keys(obj.status.managed)) && AllWellNamed(Keys(desired)) && AllWellNamed(k.remote.Keys)
    ensures var (after, ok) := PruneStage(obj, desired, k, o);
      var stale := Stale(obj.status.managed, KeyStrings(desired));
      && (forall r :: r in stale <==> r in obj.status.managed && KeyOf(r) !in Keys(desired))
      && |after.trace| <= |stale|
      && (forall e :: 0 <= e < |after.trace| ==> DeleteSent(k, o, stale, after.trace, e))
      && (ok ==> |after.trace| == |stale|)
      && (ok ==> after.remote.Keys == k.remote.Keys - (Keys(obj.status.managed) - Keys(desired)))
  {
    var stale := Stale(obj.status.managed, KeyStrings(desired));
    forall r ensures r in stale <==> r in obj.status.managed && KeyOf(r) !in Keys(desired) {
      StaleExactly(obj.status.managed, desired, r);
    }
    SweepTrace(k, o, stale);
    var (after, ok) := PruneStage(obj, desired, k, o);
    forall key | ok
      ensures key in after.remote <==> key in k.remote && key !in Keys(obj.status.managed) - Keys(desired)
    {
      PruneKeepsDesired(obj, desired, k, o, key);
      SweepRemote(k, o, stale, key);
      if key in k.remote {
        AddressedIsStale(obj.status.managed, desired, key);
      }
    }
  }

  // ---------- the hash gate ----------

  // Nothing failed up to the final status write: it replaces the inventory, or would have if it had not been lost.
  ghost predicate Settles(s: State, out: Outcome) {
    || out.stage == Worked(true, true) || out.stage == Worked(false, true)
    || out.obj.status.managed != s.obj.status.managed
  }

  // What a working pass leaves on k1s, given what was there: all of the list once nothing failed, and never
  // anything but the list and what was there before.
  lemma WorkRemote(op: Operator, s: State, o: Oracle, w: Weather)
    requires RunPass(op, s, o, w).stage.Worked? && NamesOk(op, s)
    ensures var ms, out := s.obj.spec.manifests, RunPass(op, s, o, w);
      var after := out.k1s.remote;
      && (out.stage.stamped ==> Holds(after, op.decode, ms))
      && (!ShouldApply(s.obj) && Holds(s.remote, op.decode, ms) ==> Holds(after, op.decode, ms))
      && (forall key :: key in after ==> key in s.remote || key in ManifestKeys(op.decode, ms))
      && (out.stage.synced && ShouldApply(s.obj) ==> Holds(after, op.decode, ms))
      && (Settles(s, out) ==>
            && Keys(out.obj.status.managed) == ManifestKeys(op.decode, ms)
            && (s.obj.spec.prune ==> forall key :: key in after && key in Keys(s.obj.status.managed) ==>
                  key in ManifestKeys(op.decode, ms)))
  {
    var k, ms := Store(s.remote, 0, []), s.obj.spec.manifests;
    var allowed := Allowed(op.allowedKinds, s.obj.spec.allowedKinds).value;
    var desired := Desired(op.decode, allowed, ms).0;
    DesiredKeys(op.decode, allowed, ms);
    InventoryChange(op, s, o, w);
    var (pruned, ok) := PruneStage(s.obj, desired, k, o);
    forall key
      ensures key in pruned.remote ==> key in k.remote && pruned.remote[key] == k.remote[key]
      ensures key in Keys(desired) && key in k.remote ==> key in pruned.remote
      ensures ok && s.obj.spec.prune && key in Keys(s.obj.status.managed) && key !in Keys(desired) ==>
                key !in pruned.remote
    {
      PruneKeepsDesired(s.obj, desired, k, o, key);
    }
    ApplyAllRemote(pruned, o, op.decode, ms, 0);
    OverlayHolds(pruned.remote, op.decode, ms);
    if Holds(s.remote, op.decode, ms) {
      forall i | Last(op.decode, ms, i)
        ensures ManifestKey(op.decode, ms[i]) in pruned.remote && pruned.remote[ManifestKey(op.decode, ms[i])] == ms[i]
      {
        assert ms[i] in ms;
      }
    }
  }

  // This step wrote the hash annotation of the list it found in the spec, whether or not it got the answer.
  ghost predicate Stamps(op: Operator, s: State, step: Step) {
    step.Pass? && RunPass(op, s, step.o, step.w).stage.Worked? && RunPass(op, s, step.o, step.w).stage.stamped
  }

  // This step is no pass for another list that reached prune or apply, and no cleanup.
  ghost predicate Quiet(op: Operator, s: State, step: Step, ms: seq<Raw>) {
    step.Pass? ==>
      var stage := RunPass(op, s, step.o, step.w).stage;
      (stage.Worked? ==> s.obj.spec.manifests == ms) && (stage.CleanedUp? ==> s.obj.spec.deletePolicy.Orphan?)
  }

  lemma QuietKeepsHeld(op: Operator, s: State, step: Step, after: State, ms: seq<Raw>)
    requires Next(op, s, step, after) && NamesOk(op, s) && Quiet(op, s, step, ms)
    requires s.obj.annotation == Some(ManifestSetHash(ms)) && Holds(s.remote, op.decode, ms)
    ensures after.obj.annotation == Some(ManifestSetHash(ms)) && Holds(after.remote, op.decode, ms)
  {
    if step.Pass? {
      if RunPass(op, s, step.o, step.w).stage.Worked? {
        WorkRemote(op, s, step.o, step.w);
        WorkObject(op, s, step.o, step.w);
      } else {
        IdlePassKeeps(op, s, step.o, step.w);
      }
    }
  }

  lemma IdlePassKeeps(op: Operator, s: State, o: Oracle, w: Weather)
    requires var stage := RunPass(op, s, o, w).stage;
      !stage.Worked? && (stage.CleanedUp? ==> s.obj.spec.deletePolicy.Orphan?)
    ensures RunPass(op, s, o, w).k1s.remote == s.remote && RunPass(op, s, o, w).obj.annotation == s.obj.annotation
  {
  }

  lemma StampingHolds(op: Operator, s: State, step: Step, after: State)
    requires Next(op, s, step, after) && NamesOk(op, s) && Stamps(op, s, step)
    ensures after.obj.annotation == Some(ManifestSetHash(s.obj.spec.manifests))
    ensures Holds(after.remote, op.decode, s.obj.spec.manifests)
  {
    WorkRemote(op, s, step.o, step.w);
    WorkObject(op, s, step.o, step.w);
  }

  // Hash-gate soundness: after a pass stamps the hash of a list, for as long as no pass for another list gets to
  // prune or apply and no cleanup starts, the annotation stays and every resource of the list is on k1s as written.
  lemma {:induction false} StampedListIsHeld(op: Operator, states: seq<State>, steps: seq<Step>, j: nat, i: nat)
    requires IsRun(op, states, steps) && j < i < |states|
    requires forall x :: 0 <= x < |states| ==> NamesOk(op, states[x])
    requires Stamps(op, states[j], steps[j])
    requires forall x :: j < x < i ==> Quiet(op, states[x], steps[x], states[j].obj.spec.manifests)
    ensures states[i].obj.annotation == Some(ManifestSetHash(states[j].obj.spec.manifests))
    ensures Holds(states[i].remote, op.decode, states[j].obj.spec.manifests)
  {
    assert Next(op, states[i - 1], steps[i - 1], states[i]);
    if i == j + 1 {
      StampingHolds(op, states[j], steps[j], states[i]);
    } else {
      StampedListIsHeld(op, states, steps, j, i - 1);
      QuietKeepsHeld(op, states[i - 1], steps[i - 1], states[i], states[j].obj.spec.manifests);
    }
  }

  // So when the gate closes on a hash match, skipping Apply leaves what applying the whole list would leave.
  lemma SkippingEqualsReapplying(op: Operator, states: seq<State>, steps: seq<Step>, j: nat, i: nat)
    requires IsRun(op, states, steps) && j < i < |steps|
    requires forall x :: 0 <= x < |states| ==> NamesOk(op, states[x])
    requires Stamps(op, states[j], steps[j])
    requires forall x :: j < x < i ==> Quiet(op, states[x], steps[x], states[j].obj.spec.manifests)
    requires AllNulFree(states[j].obj.spec.manifests) && AllNulFree(states[i].obj.spec.manifests)
    ensures !ShouldApply(states[i].obj) && steps[i].Pass? &&
            RunPass(op, states[i], steps[i].o, steps[i].w).stage.Worked? ==>
      var ms := states[i].obj.spec.manifests;
      && ms == states[j].obj.spec.manifests
      && !SentAnApply(op, states[i], steps[i])
      && Holds(states[i + 1].remote, op.decode, ms)
      && Overlay(states[i + 1].remote, op.decode, ms) == states[i + 1].remote
  {
    var ms, s, step := states[i].obj.spec.manifests, states[i], steps[i];
    if !ShouldApply(s.obj) && step.Pass? && RunPass(op, s, step.o, step.w).stage.Worked? {
      StampedListIsHeld(op, states, steps, j, i);
      SameHashSameManifests(states[j].obj.spec.manifests, ms);
      SkippingKeepsHeld(op, s, step, states[i + 1]);
    }
  }

  lemma SkippingKeepsHeld(op: Operator, s: State, step: Step, after: State)
    requires Next(op, s, step, after) && NamesOk(op, s) && !ShouldApply(s.obj)
    requires step.Pass? && RunPass(op, s, step.o, step.w).stage.Worked?
    requires Holds(s.remote, op.decode, s.obj.spec.manifests)
    ensures !SentAnApply(op, s, step) && Holds(after.remote, op.decode, s.obj.spec.manifests)
    ensures Overlay(after.remote, op.decode, s.obj.spec.manifests) == after.remote
  {
    WorkRemote(op, s, step.o, step.w);
    ReapplyChangesNothing(after.remote, op.decode, s.obj.spec.manifests);
    if SentAnApply(op, s, step) {
      var trace := RunPass(op, s, step.o, step.w).k1s.trace;
      var e :| 0 <= e < |trace| && trace[e].SentApply?;
      WorkTrace(op, s, step.o, step.w, e);
    }
  }

  // ---------- convergence ----------

  // The spec's manifests and prune stay; everything else users may edit.
  ghost predicate Frozen(states: seq<State>, ms: seq<Raw>) {
    forall x :: 0 <= x < |states| ==> states[x].obj.spec.manifests == ms && states[x].obj.spec.prune
  }

  // Nothing this set put on k1s is out of its sight, and a hash match tells the truth: so it is, for instance, when
  // all of it is in the inventory and the annotation is not yet that of the manifests.
  ghost predicate Tidy(op: Operator, s: State, ms: seq<Raw>) {
    && s.remote.Keys <= Keys(s.obj.status.managed) + ManifestKeys(op.decode, ms)
    && (!s.obj.deleting && s.obj.annotation == Some(ManifestSetHash(ms)) ==> Holds(s.remote, op.decode, ms))
  }

  ghost predicate Synced(op: Operator, s: State, step: Step) {
    step.Pass? && RunPass(op, s, step.o, step.w).stage.Worked? && RunPass(op, s, step.o, step.w).stage.synced
  }

  lemma StepKeepsTidy(op: Operator, s: State, step: Step, after: State, ms: seq<Raw>)
    requires Next(op, s, step, after) && NamesOk(op, s) && Tidy(op, s, ms)
    requires s.obj.spec.manifests == ms && s.obj.spec.prune
    ensures Tidy(op, after, ms) && AllWellNamed(Keys(after.obj.status.managed))
    ensures Synced(op, s, step) ==>
      && after.remote.Keys == Keys(after.obj.status.managed) == ManifestKeys(op.decode, ms)
      && Holds(after.remote, op.decode, ms)
  {
    if step.Pass? {
      if RunPass(op, s, step.o, step.w).stage.Worked? {
        WorkKeepsTidy(op, s, step.o, step.w);
      } else {
        OtherPassesShrink(op, s, step.o, step.w);
      }
    }
  }

  lemma OtherPassesShrink(op: Operator, s: State, o: Oracle, w: Weather)
    requires !RunPass(op, s, o, w).stage.Worked?
    ensures var out := RunPass(op, s, o, w);
      && out.k1s.remote.Keys <= s.remote.Keys && out.obj.status.managed == s.obj.status.managed
      && out.obj.deleting == s.obj.deleting && out.obj.annotation == s.obj.annotation
      && (!s.obj.deleting ==> out.k1s.remote == s.remote)
  {
    forall key | key in RunPass(op, s, o, w).k1s.remote ensures key in s.remote {
      SweepRemote(Store(s.remote, 0, []), o, s.obj.status.managed, key);
    }
  }

  lemma WorkKeepsTidy(op: Operator, s: State, o: Oracle, w: Weather)
    requires NamesOk(op, s) && s.obj.spec.prune && Tidy(op, s, s.obj.spec.manifests)
    ensures var ms, out := s.obj.spec.manifests, RunPass(op, s, o, w);
      var after := State(out.obj, out.k1s.remote);
      out.stage.Worked? ==>
      && Tidy(op, after, ms) && AllWellNamed(Keys(after.obj.status.managed))
      && (out.stage.synced ==>
            after.remote.Keys == Keys(after.obj.status.managed) == ManifestKeys(op.decode, ms)
            && Holds(after.remote, op.decode, ms))
  {
    var ms, out := s.obj.spec.manifests, RunPass(op, s, o, w);
    if out.stage.Worked? {
      WorkRemote(op, s, o, w);
      WorkObject(op, s, o, w);
      if out.obj.status.managed != s.obj.status.managed || out.stage.synced {
        SuccessfulWorkShrinks(op, s, o, w);
      }
      if out.stage.synced {
        HeldKeys(out.k1s.remote, op.decode, ms);
      }
    }
  }

  // What a working pass does to the object
  lemma WorkObject(op: Operator, s: State, o: Oracle, w: Weather)
    requires RunPass(op, s, o, w).stage.Worked?
    ensures var ms, out := s.obj.spec.manifests, RunPass(op, s, o, w);
      && !s.obj.deleting && !out.obj.deleting
      && out.obj.annotation == (if out.stage.stamped then Some(ManifestSetHash(ms)) else s.obj.annotation)
      && (out.obj.status.managed == s.obj.status.managed || Keys(out.obj.status.managed) == ManifestKeys(op.decode, ms))
  {
    InventoryChange(op, s, o, w);
    if RunPass(op, s, o, w).obj.status.managed != s.obj.status.managed {
      DesiredKeys(op.decode, Allowed(op.allowedKinds, s.obj.spec.allowedKinds).value, s.obj.spec.manifests);
    }
  }

  // A pass that replaces the inventory, or counts as synced, has pruned everything the list does not name.
  lemma SuccessfulWorkShrinks(op: Operator, s: State, o: Oracle, w: Weather)
    requires RunPass(op, s, o, w).stage.Worked? && NamesOk(op, s) && s.obj.spec.prune
    requires RunPass(op, s, o, w).obj.status.managed != s.obj.status.managed || RunPass(op, s, o, w).stage.synced
    requires s.remote.Keys <= Keys(s.obj.status.managed) + ManifestKeys(op.decode, s.obj.spec.manifests)
    ensures RunPass(op, s, o, w).k1s.remote.Keys <= ManifestKeys(op.decode, s.obj.spec.manifests)
  {
    var k, ms := Store(s.remote, 0, []), s.obj.spec.manifests;
    var allowed := Allowed(op.allowedKinds, s.obj.spec.allowedKinds).value;
    var desired := Desired(op.decode, allowed, ms).0;
    DesiredKeys(op.decode, allowed, ms);
    var (pruned, ok) := PruneStage(s.obj, desired, k, o);
    forall key | key in pruned.remote ensures key in ManifestKeys(op.decode, ms) {
      PruneKeepsDesired(s.obj, desired, k, o, key);
    }
    ApplyAllRemote(pruned, o, op.decode, ms, 0);
  }

  lemma HeldKeys(remote: map<Key, Raw>, decode: Decoder, ms: seq<Raw>)
    requires Holds(remote, decode, ms)
    ensures ManifestKeys(decode, ms) <= remote.Keys
  {
    forall key | key in ManifestKeys(decode, ms) ensures key in remote {
      var i := LastOf(decode, ms, key);
    }
  }

  lemma {:induction false} StaysTidy(op: Operator, states: seq<State>, steps: seq<Step>, ms: seq<Raw>, j: nat)
    requires IsRun(op, states, steps) && j < |states| && Frozen(states, ms)
    requires AllWellNamed(ManifestKeys(op.decode, ms)) && AllWellNamed(Keys(states[0].obj.status.managed))
    requires Tidy(op, states[0], ms)
    ensures AllWellNamed(Keys(states[j].obj.status.managed)) && Tidy(op, states[j], ms)
  {
    if j > 0 {
      StaysTidy(op, states, steps, ms, j - 1);
      assert Next(op, states[j - 1], steps[j - 1], states[j]);
      assert states[j - 1].obj.spec.manifests == ms && states[j - 1].obj.spec.prune;
      StepKeepsTidy(op, states[j - 1], steps[j - 1], states[j], ms);
    }
  }

  // Convergence without leaks. With the manifests fixed and prune on, whatever fails: at every moment all the set
  // put on k1s is in the inventory or in the manifests; and every pass in which nothing fails leaves on k1s exactly
  // the manifests' resources, each with the content of the last manifest that names it, and an inventory of just these.
  lemma Convergence(op: Operator, states: seq<State>, steps: seq<Step>, ms: seq<Raw>, j: nat)
    requires IsRun(op, states, steps) && j < |steps| && Frozen(states, ms)
    requires AllWellNamed(ManifestKeys(op.decode, ms)) && AllWellNamed(Keys(states[0].obj.status.managed))
    requires Tidy(op, states[0], ms)
    ensures Tidy(op, states[j], ms) && Tidy(op, states[j + 1], ms)
    ensures Synced(op, states[j], steps[j]) ==>
      && states[j + 1].remote.Keys == Keys(states[j + 1].obj.status.managed) == ManifestKeys(op.decode, ms)
      && Holds(states[j + 1].remote, op.decode, ms)
  {
    StaysTidy(op, states, steps, ms, j);
    assert Next(op, states[j], steps[j], states[j + 1]);
    assert states[j].obj.spec.manifests == ms && states[j].obj.spec.prune;
    StepKeepsTidy(op, states[j], steps[j], states[j + 1], ms);
  }

  // Such a pass exists from every live state with an accepted list: the set does not get stuck. Deletes may be
  // answered with success or 404.
  lemma FairPassSyncs(op: Operator, s: State, o: Oracle)
    requires !s.obj.deleting && CAPABILITY_FINALIZER in s.obj.finalizers && PlanOf(op, s.obj).1
    requires Routed(PlannedDeletes(op, s.obj))
    requires var n := |PlannedDeletes(op, s.obj)|;
      forall c: nat :: (c < n ==> !o(c).answer.Failed?) && (n <= c < n + |s.obj.spec.manifests| ==> o(c).answer.Ok?)
    ensures Synced(op, s, Pass(o, FINE)) && RunPass(op, s, o, FINE).obj.status.ready && !RunPass(op, s, o, FINE).failed
  {
    assert WentWell(op, s.obj, o);
    SyncsExactly(op, s, o, FINE);
    CompletedPassConditions(op, s, o, FINE);
  }

  // ---------- cleanup ----------

  // How many inventory entries are still on k1s
  function StillThere(rs: seq<Resource>, remote: map<Key, Raw>): nat {
    if rs == [] then 0 else (if KeyOf(rs[0]) in remote then 1 else 0) + StillThere(rs[1..], remote)
  }

  lemma {:induction false} FewerStillThere(rs: seq<Resource>, a: map<Key, Raw>, b: map<Key, Raw>)
    requires b.Keys <= a.Keys
    ensures StillThere(rs, b) <= StillThere(rs, a)
    ensures forall e :: 0 <= e < |rs| && KeyOf(rs[e]) in a && KeyOf(rs[e]) !in b ==>
              StillThere(rs, b) < StillThere(rs, a)
    ensures (forall e :: 0 <= e < |rs| ==> KeyOf(rs[e]) !in b) <==> StillThere(rs, b) == 0
  {
    if rs != [] {
      FewerStillThere(rs[1..], a, b);
      forall e | 0 <= e < |rs| && KeyOf(rs[e]) in a && KeyOf(rs[e]) !in b
        ensures StillThere(rs, b) < StillThere(rs, a)
      {
        assert e > 0 ==> rs[e] == rs[1..][e - 1];
      }
      if forall e :: 0 <= e < |rs| ==> KeyOf(rs[e]) !in b {
        assert forall e :: 0 <= e < |rs[1..]| ==> rs[1..][e] == rs[e + 1];
      }
      if StillThere(rs, b) == 0 {
        forall e | 0 <= e < |rs| ensures KeyOf(rs[e]) !in b {
          assert e > 0 ==> rs[e] == rs[1..][e - 1];
        }
      }
    }
  }

  // One deletion pass: the count never grows, it drops when a delete takes effect on an entry that is there, entries
  // before the one that failed are gone, and without Orphan the finalizer goes only when nothing is left.
  lemma CleanupProgress(op: Operator, s: State, o: Oracle, w: Weather, e: nat)
    requires s.obj.deleting
    ensures var out, managed := RunPass(op, s, o, w), s.obj.status.managed;
      && out.obj.status.managed == managed && out.obj.deleting
      && StillThere(managed, out.k1s.remote) <= StillThere(managed, s.remote)
      && (e < |out.k1s.trace| && (!o(e).answer.Failed? || o(e).effect) ==>
            && e < |managed| && KeyOf(managed[e]) !in out.k1s.remote
            && (KeyOf(managed[e]) in s.remote ==> StillThere(managed, out.k1s.remote) < StillThere(managed, s.remote)))
      && (e + 1 < |out.k1s.trace| ==> !o(e).answer.Failed?)
      && (out.obj.finalizers != s.obj.finalizers && s.obj.spec.deletePolicy.Delete? ==>
            StillThere(managed, out.k1s.remote) == 0)
  {
    var k, managed, out := Store(s.remote, 0, []), s.obj.status.managed, RunPass(op, s, o, w);
    SweepTrace(k, o, managed);
    forall key | key in out.k1s.remote ensures key in s.remote {
      SweepRemote(k, o, managed, key);
    }
    if e < |out.k1s.trace| && (!o(e).answer.Failed? || o(e).effect) {
      SweepClearsPrefix(k, o, managed, e);
    }
    FewerStillThere(managed, s.remote, out.k1s.remote);
    if out.obj.finalizers != s.obj.finalizers && s.obj.spec.deletePolicy.Delete? {
      forall d | 0 <= d < |managed| ensures KeyOf(managed[d]) !in out.k1s.remote {
        CleanupAcknowledged(op, s, o, w);
        SweepClearsPrefix(k, o, managed, d);
      }
    }
  }

  lemma DeletingStep(op: Operator, s: State, step: Step, after: State)
    requires Next(op, s, step, after) && s.obj.deleting
    ensures after.obj.deleting && after.obj.status.managed == s.obj.status.managed
    ensures StillThere(s.obj.status.managed, after.remote) <= StillThere(s.obj.status.managed, s.remote)
  {
    if step.Pass? {
      CleanupProgress(op, s, step.o, step.w, 0);
    }
  }

  // Over repeated deletion passes, failing or not, the inventory stays and the count never grows.
  lemma {:induction false} CleanupNeverRegresses(op: Operator, states: seq<State>, steps: seq<Step>, i: nat, j: nat)
    requires IsRun(op, states, steps) && i <= j < |states| && states[i].obj.deleting
    ensures states[j].obj.deleting && states[j].obj.status.managed == states[i].obj.status.managed
    ensures StillThere(states[i].obj.status.managed, states[j].remote) <=
            StillThere(states[i].obj.status.managed, states[i].remote)
  {
    if i < j {
      CleanupNeverRegresses(op, states, steps, i, j - 1);
      DeletingStep(op, states[j - 1], steps[j - 1], states[j]);
    }
  }

  // Some pass can finish the cleanup exactly when it may skip the deletes or every entry has a delete route.
  lemma CleanupCanFinishExactly(op: Operator, s: State)
    requires s.obj.deleting && CAPABILITY_FINALIZER in s.obj.finalizers
    ensures (exists o, w :: RunPass(op, s, o, w).stage == CleanedUp(true)) <==>
            s.obj.spec.deletePolicy.Orphan? || Routed(s.obj.status.managed)
  {
    var k := Store(s.remote, 0, []);
    SweepSucceedsExactly(k, AlwaysOk(), s.obj.status.managed);
    if s.obj.spec.deletePolicy.Orphan? || Routed(s.obj.status.managed) {
      assert RunPass(op, s, AlwaysOk(), FINE).stage == CleanedUp(true);
    }
    forall o, w | RunPass(op, s, o, w).stage == CleanedUp(true)
      ensures s.obj.spec.deletePolicy.Orphan? || Routed(s.obj.status.managed)
    {
      SweepSucceedsExactly(k, o, s.obj.status.managed);
    }
  }

  lemma UnroutedStep(op: Operator, states: seq<State>, steps: seq<Step>, x: nat)
    requires IsRun(op, states, steps) && x < |steps|
    requires states[x].obj.deleting && CAPABILITY_FINALIZER in states[x].obj.finalizers
    requires !Routed(states[x].obj.status.managed) && states[x].obj.spec.deletePolicy.Delete?
    ensures CAPABILITY_FINALIZER in states[x + 1].obj.finalizers
  {
    var s, step := states[x], steps[x];
    assert Next(op, s, step, states[x + 1]);
    if step.Pass? {
      PassFinalizers(op, s, step.o, step.w);
      CleanupCanFinishExactly(op, s);
    }
  }

  // So a recorded kind without a delete route, which a cap wider than the built-in kinds lets in, keeps the finalizer
  // of a deleted set for as long as its policy stays Delete.
  lemma {:induction false} UnroutedEntryKeepsFinalizer(op: Operator, states: seq<State>, steps: seq<Step>, i: nat,
                                                       j: nat)
    requires IsRun(op, states, steps) && i <= j < |states|
    requires states[i].obj.deleting && CAPABILITY_FINALIZER in states[i].obj.finalizers
    requires !Routed(states[i].obj.status.managed)
    requires forall x :: i <= x < j ==> states[x].obj.spec.deletePolicy.Delete?
    ensures CAPABILITY_FINALIZER in states[j].obj.finalizers
    decreases j
  {
    if i < j {
      UnroutedEntryKeepsFinalizer(op, states, steps, i, j - 1);
      CleanupNeverRegresses(op, states, steps, i, j - 1);
      UnroutedStep(op, states, steps, j - 1);
    }
  }

  // The docs promise that k1s-side resources are gone before the object disappears. A cleanup that drops the
  // finalizer keeps that promise exactly when some inventory entry addresses each resource the set still has on k1s.
  lemma NothingLeftBehindExactly(op: Operator, s: State, o: Oracle, w: Weather)
    requires s.obj.spec.deletePolicy.Delete? && RunPass(op, s, o, w).stage == CleanedUp(true)
    ensures RunPass(op, s, o, w).k1s.remote == map[] <==>
            forall key :: key in s.remote ==> Addressed(s.obj.status.managed, key)
  {
    var k, managed := Store(s.remote, 0, []), s.obj.status.managed;
    forall key ensures key in RunPass(op, s, o, w).k1s.remote <==> key in s.remote && !Addressed(managed, key) {
      SweepRemote(k, o, managed, key);
    }
  }

  // In particular, once a synced pass has left inventory and k1s equal, deletion leaves nothing behind.
  lemma SyncedSetCleansUp(op: Operator, s: State, o: Oracle, w: Weather)
    requires s.obj.spec.deletePolicy.Delete? && RunPass(op, s, o, w).stage == CleanedUp(true)
    requires s.remote.Keys <= Keys(s.obj.status.managed)
    ensures RunPass(op, s, o, w).k1s.remote == map[]
  {
    CleanupAcknowledged(op, s, o, w);
    forall key | key in s.remote ensures Addressed(s.obj.status.managed, key) {
      var r :| r in s.obj.status.managed && KeyOf(r) == key;
      var e :| 0 <= e < |s.obj.status.managed| && s.obj.status.managed[e] == r;
    }
    NothingLeftBehindExactly(op, s, o, w);
  }

  // No later pass makes the inventory name anything but the manifests' resources.
  lemma StepKeepsInventory(op: Operator, s: State, step: Step, after: State)
    requires Next(op, s, step, after) && Keys(s.obj.status.managed) == ManifestKeys(op.decode, s.obj.spec.manifests)
    ensures Keys(after.obj.status.managed) == ManifestKeys(op.decode, s.obj.spec.manifests)
  {
    if step.Pass? {
      if RunPass(op, s, step.o, step.w).stage.Worked? {
        WorkObject(op, s, step.o, step.w);
      } else {
        OtherPassesShrink(op, s, step.o, step.w);
      }
    }
  }

  lemma {:induction false} InventoryStaysSynced(op: Operator, states: seq<State>, steps: seq<Step>, ms: seq<Raw>,
                                                i: nat, j: nat)
    requires IsRun(op, states, steps) && i <= j < |states| && Frozen(states, ms)
    requires Keys(states[i].obj.status.managed) == ManifestKeys(op.decode, ms)
    ensures Keys(states[j].obj.status.managed) == ManifestKeys(op.decode, ms)
    decreases j
  {
    if i < j {
      InventoryStaysSynced(op, states, steps, ms, i, j - 1);
      assert Next(op, states[j - 1], steps[j - 1], states[j]);
      assert states[j - 1].obj.spec.manifests == ms;
      StepKeepsInventory(op, states[j - 1], steps[j - 1], states[j]);
    }
  }

  // How a resource can escape the inventory in this step: a pass that did not get through applied it, or a pass
  // with prune off forgot it.
  ghost predicate MayLeak(op: Operator, s: State, step: Step, key: Key) {
    && step.Pass? && RunPass(op, s, step.o, step.w).stage.Worked?
    && ((key in ManifestKeys(op.decode, s.obj.spec.manifests) && !Settles(s, RunPass(op, s, step.o, step.w)))
        || (key in Keys(s.obj.status.managed) && !s.obj.spec.prune))
  }

  lemma StepLeaks(op: Operator, s: State, step: Step, after: State, key: Key)
    requires Next(op, s, step, after) && NamesOk(op, s)
    requires key in after.remote && key !in Keys(after.obj.status.managed)
    ensures MayLeak(op, s, step, key) || (key in s.remote && key !in Keys(s.obj.status.managed))
  {
    if step.Pass? {
      if RunPass(op, s, step.o, step.w).stage.Worked? {
        WorkRemote(op, s, step.o, step.w);
        WorkObject(op, s, step.o, step.w);
      } else {
        OtherPassesShrink(op, s, step.o, step.w);
      }
    }
  }

  // Every leak has one of two causes. In any run, with any edits and failures, a resource that is on k1s and not in
  // the inventory was in the manifests of an earlier pass that did not get through, or in the inventory of an
  // earlier pass with prune off.
  lemma {:induction false} LeaksHaveTwoCauses(op: Operator, states: seq<State>, steps: seq<Step>, j: nat, key: Key)
    requires IsRun(op, states, steps) && j < |states|
    requires forall x :: 0 <= x < |states| ==> NamesOk(op, states[x])
    requires states[0].remote.Keys <= Keys(states[0].obj.status.managed)
    requires key in states[j].remote && key !in Keys(states[j].obj.status.managed)
    ensures exists i :: 0 <= i < j && MayLeak(op, states[i], steps[i], key)
  {
    if j > 0 {
      assert Next(op, states[j - 1], steps[j - 1], states[j]);
      StepLeaks(op, states[j - 1], steps[j - 1], states[j], key);
      if !MayLeak(op, states[j - 1], steps[j - 1], key) {
        LeaksHaveTwoCauses(op, states, steps, j - 1, key);
      }
    }
  }

  // From apply to deletion: once a set with fixed manifests and prune on has synced, whatever fails later, the
  // cleanup that drops its finalizer leaves nothing of it on k1s.
  lemma SyncedThenDeletedLeavesNothing(op: Operator, states: seq<State>, steps: seq<Step>, ms: seq<Raw>, i: nat, j: nat)
    requires IsRun(op, states, steps) && i < j < |steps| && Frozen(states, ms) && Synced(op, states[i], steps[i])
    requires AllWellNamed(ManifestKeys(op.decode, ms)) && AllWellNamed(Keys(states[0].obj.status.managed))
    requires Tidy(op, states[0], ms)
    requires steps[j].Pass? && states[j].obj.spec.deletePolicy.Delete?
    ensures RunPass(op, states[j], steps[j].o, steps[j].w).stage == CleanedUp(true) ==> states[j + 1].remote == map[]
  {
    Convergence(op, states, steps, ms, i);
    InventoryStaysSynced(op, states, steps, ms, i + 1, j);
    StaysTidy(op, states, steps, ms, j);
    assert Next(op, states[j], steps[j], states[j + 1]);
    if RunPass(op, states[j], steps[j].o, steps[j].w).stage == CleanedUp(true) {
      SyncedSetCleansUp(op, states[j], steps[j].o, steps[j].w);
    }
  }
}
