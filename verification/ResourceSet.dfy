/**
 K1sResourceSetReconciler in internal/controller/capability_controller.go. `ReconcileSet` says what one pass does
 to the object and to k1s, for every way its calls can end; Reconciler.Reconcile is the pass itself.
 */
module ResourceSet {
  import opened Wrappers
  import opened Text
  import opened Digests
  import opened KindLists
  import opened Resources
  import opened K1s
  import C = Conditions
  import opened Kube

  datatype SetSpec = SetSpec(manifests: seq<Raw>, allowedKinds: seq<string>, prune: bool, deletePolicy: DeletePolicy)
  datatype SetStatus = SetStatus(applied: int, ready: bool, managed: seq<Resource>, conditions: seq<C.Condition>)
  type SetObject = Object<SetSpec, SetStatus>

  // The reconciler's flag value and the JSON decoder it uses
  datatype Operator = Operator(allowedKinds: seq<string>, decode: Decoder)

  // How far a pass got. Worked: it reached prune or apply; `stamped`: the new hash annotation took effect;
  // `synced`: nothing failed, to the final status write.
  datatype Stage = Idle | Refused | CleanedUp(complete: bool) | Worked(stamped: bool, synced: bool)

  datatype Outcome = Outcome(obj: SetObject, k1s: Store, failed: bool, stage: Stage)

  // deleteManagedResources: in order, up to the first delete that fails or whose kind has none
  function Sweep(k: Store, o: Oracle, rs: seq<Resource>): (Store, bool)
    decreases |rs|
  {
    if rs == [] then (k, true)
    else
      var target := TargetOf(KeyOf(rs[0]));
      if target.None? then (k, false)
      else
        var next := AfterDelete(k, o, target.value);
        if o(k.calls).answer.Failed? then (next, false) else Sweep(next, o, rs[1..])
  }

  function KeyStrings(rs: seq<Resource>): set<string> {
    set r | r in rs :: KeyString(r)
  }

  // What prune deletes: the recorded entries whose key is no longer wanted
  function Stale(previous: seq<Resource>, wanted: set<string>): seq<Resource> {
    if previous == [] then []
    else if KeyString(previous[0]) in wanted then Stale(previous[1..], wanted)
    else [previous[0]] + Stale(previous[1..], wanted)
  }

  // The entries of the manifests, up to the first that does not parse or whose kind is not allowed
  function Desired(decode: Decoder, allowed: set<string>, ms: seq<Raw>): (seq<Resource>, bool) {
    if ms == [] then ([], true)
    else
      var r := ManagedResource(decode, ms[0]);
      if r.None? || r.value.kind !in allowed then ([], false)
      else
        var (rest, ok) := Desired(decode, allowed, ms[1..]);
        ([r.value] + rest, ok)
  }

  // Apply in order, up to the first that fails; the number counts those that did not.
  function ApplyAll(k: Store, o: Oracle, decode: Decoder, ms: seq<Raw>, applied: nat): (Store, bool, nat)
    decreases |ms|
  {
    if ms == [] then (k, true, applied)
    else
      var next := AfterApply(k, o, ManifestKey(decode, ms[0]), ms[0]);
      if !o(k.calls).answer.Ok? then (next, false, applied) else ApplyAll(next, o, decode, ms[1..], applied + 1)
  }

  function SetConditions(conditions: seq<C.Condition>, policy: bool, policyReason: C.Reason,
                         applied: bool, appliedReason: C.Reason, ready: bool, readyReason: C.Reason): seq<C.Condition> {
    C.SetCondition(C.SetCondition(C.SetCondition(conditions, C.PolicyAllowed, policy, policyReason),
                                  C.Applied, applied, appliedReason), C.Ready, ready, readyReason)
  }

  function DeniedStatus(st: SetStatus): SetStatus {
    SetStatus(0, false, st.managed,
              SetConditions(st.conditions, false, C.Denied, false, C.Denied, false, C.Denied))
  }

  function WorkStatus(st: SetStatus, ok: bool, applied: nat, total: nat, desired: seq<Resource>): SetStatus {
    var ready := ok && Int32(applied) == Int32(total);
    SetStatus(Int32(applied), ready, if ok then desired else st.managed,
              SetConditions(st.conditions, ok, if ok then C.IsReady else C.Denied,
                            ok, if ok then C.WasApplied else C.Unavailable, ready, C.ReasonForBool(ready)))
  }

  function CleanUp(obj: SetObject, k: Store, o: Oracle, w: Weather): Outcome {
    var (swept, ok) := if obj.spec.deletePolicy.Orphan? then (k, true) else Sweep(k, o, obj.status.managed);
    if !ok then
      var conditions := C.SetCondition(obj.status.conditions, C.Applied, false, C.Unavailable);
      Outcome(PutStatus(obj, w.statusWrite, obj.status.(conditions := conditions)), swept, true, CleanedUp(false))
    else
      Outcome(PutFinalizers(obj, w.finalizerWrite, WithoutString(obj.finalizers, CAPABILITY_FINALIZER)),
              swept, !w.finalizerWrite.Written?, CleanedUp(true))
  }

  predicate ShouldApply(obj: SetObject) {
    obj.annotation != Some(ManifestSetHash(obj.spec.manifests))
  }

  function PruneStage(obj: SetObject, desired: seq<Resource>, k: Store, o: Oracle): (Store, bool) {
    if obj.spec.prune then Sweep(k, o, Stale(obj.status.managed, KeyStrings(desired))) else (k, true)
  }

  // After a failed prune nothing is applied; on a hash match every manifest counts as applied already.
  function ApplyStage(decode: Decoder, obj: SetObject, k: Store, pruned: bool, o: Oracle): (Store, bool, nat) {
    if !pruned then (k, false, 0)
    else if ShouldApply(obj) then ApplyAll(k, o, decode, obj.spec.manifests, 0)
    else (k, true, |obj.spec.manifests|)
  }

  // The annotation, written once everything was applied, and then the status
  function Finish(obj: SetObject, desired: seq<Resource>, k: Store, ok: bool, applied: nat, w: Weather): Outcome {
    var stamping := ok && ShouldApply(obj);
    var obj1 := if stamping then PutHash(obj, w.annotationWrite, ManifestSetHash(obj.spec.manifests)) else obj;
    var stamped := stamping && (w.annotationWrite.Written? || w.annotationWrite.effect);
    if stamping && !w.annotationWrite.Written? then Outcome(obj1, k, true, Worked(stamped, false))
    else
      var st := WorkStatus(obj.status, ok, applied, |obj.spec.manifests|, desired);
      Outcome(PutStatus(obj1, w.statusWrite, st), k, !w.statusWrite.Written?,
              Worked(stamped, ok && w.statusWrite.Written?))
  }

  // From the manifests to the final status write, once policy has settled the allowed kinds
  function Work(op: Operator, allowed: set<string>, obj: SetObject, k: Store, o: Oracle, w: Weather): Outcome {
    var (desired, planned) := Desired(op.decode, allowed, obj.spec.manifests);
    if !planned then
      var st := WorkStatus(obj.status, false, 0, |obj.spec.manifests|, desired);
      Outcome(PutStatus(obj, w.statusWrite, st), k, !w.statusWrite.Written?, Refused)
    else
      var (pruned, ok) := PruneStage(obj, desired, k, o);
      var (done, good, applied) := ApplyStage(op.decode, obj, pruned, ok, o);
      Finish(obj, desired, done, good, applied, w)
  }

  function ReconcileSet(op: Operator, obj: SetObject, k: Store, o: Oracle, w: Weather): Outcome {
    if Gone(obj) then Outcome(obj, k, false, Idle)
    else if !w.get then Outcome(obj, k, true, Idle)
    else if !w.client then
      var conditions := C.SetCondition(obj.status.conditions, C.CredentialsValid, false, C.Missing);
      Outcome(PutStatus(obj, w.statusWrite, obj.status.(conditions := conditions)), k, !w.statusWrite.Written?, Idle)
    else if obj.deleting then
      if CAPABILITY_FINALIZER in obj.finalizers then CleanUp(obj, k, o, w) else Outcome(obj, k, false, Idle)
    else if CAPABILITY_FINALIZER !in obj.finalizers then
      Outcome(PutFinalizers(obj, w.finalizerWrite, obj.finalizers + [CAPABILITY_FINALIZER]), k,
              !w.finalizerWrite.Written?, Idle)
    else
      match Allowed(op.allowedKinds, obj.spec.allowedKinds)
      case None => Outcome(PutStatus(obj, w.statusWrite, DeniedStatus(obj.status)), k, !w.statusWrite.Written?, Refused)
      case Some(allowed) => Work(op, allowed, obj, k, o, w)
  }

  class Reconciler {
    const allowedKinds: seq<string>
    const decode: Decoder

    constructor (allowedKinds: seq<string>, decode: Decoder)
      ensures this.allowedKinds == allowedKinds && this.decode == decode
    {
      this.allowedKinds, this.decode := allowedKinds, decode;
    }

    method DeleteManagedResource(api: Client, resource: Resource) returns (failed: bool)
      modifies api
      ensures (api.State(), !failed) == Sweep(old(api.State()), OracleOf(api.script), [resource])
    {
      var target := TargetOf(KeyOf(resource));
      if target.None? {
        return true;
      }
      var err := api.Delete(target.value);
      assert [resource][1..] == [];
      if LeaderRetry.IsNotFound(err) {
        return false;
      }
      return !err.Nil?;
    }

    method DeleteManagedResources(api: Client, resources: seq<Resource>) returns (failed: bool)
      modifies api
      ensures (api.State(), !failed) == Sweep(old(api.State()), OracleOf(api.script), resources)
    {
      for i := 0 to |resources|
        invariant Sweep(api.State(), OracleOf(api.script), resources[i..]) ==
                  Sweep(old(api.State()), OracleOf(api.script), resources)
      {
        assert resources[i..][1..] == resources[i + 1..];
        var bad := DeleteManagedResource(api, resources[i]);
        if bad {
          return true;
        }
      }
      return false;
    }

    method PruneManagedResources(api: Client, previous: seq<Resource>, desired: seq<Resource>) returns (failed: bool)
      modifies api
      ensures (api.State(), !failed) ==
              Sweep(old(api.State()), OracleOf(api.script), Stale(previous, KeyStrings(desired)))
    {
      var desiredKeys := {};
      for i := 0 to |desired|
        invariant desiredKeys == KeyStrings(desired[..i])
      {
        desiredKeys := desiredKeys + {KeyString(desired[i])};
      }
      assert desired[..|desired|] == desired;
      for i := 0 to |previous|
        invariant Sweep(api.State(), OracleOf(api.script), Stale(previous[i..], desiredKeys)) ==
                  Sweep(old(api.State()), OracleOf(api.script), Stale(previous, desiredKeys))
      {
        assert previous[i..][1..] == previous[i + 1..];
        if KeyString(previous[i]) in desiredKeys {
          continue;
        }
        assert Stale(previous[i..], desiredKeys)[1..] == Stale(previous[i + 1..], desiredKeys);
        var bad := DeleteManagedResource(api, previous[i]);
        if bad {
          return true;
        }
      }
      return false;
    }

    method Reconcile(kube: Server<SetSpec, SetStatus>, api: Client, w: Weather) returns (failed: bool)
      modifies kube, api
      ensures var op := Operator(allowedKinds, decode);
        var out := ReconcileSet(op, old(kube.obj), old(api.State()), OracleOf(api.script), w);
        kube.obj == out.obj && api.State() == out.k1s && failed == out.failed
    {
      var obj := kube.obj;
      if Gone(obj) {
        return false;
      }
      if !w.get {
        return true;
      }
      var status := obj.status;
      if !w.client {
        status := status.(conditions := C.SetCondition(status.conditions, C.CredentialsValid, false, C.Missing));
        failed := kube.PatchStatus(w.statusWrite, status);
        return;
      }
      if obj.deleting {
        if CAPABILITY_FINALIZER in obj.finalizers {
          if obj.spec.deletePolicy != Orphan {
            var bad := DeleteManagedResources(api, status.managed);
            if bad {
              status := status.(conditions := C.SetCondition(status.conditions, C.Applied, false, C.Unavailable));
              var _ := kube.PatchStatus(w.statusWrite, status);
              return true;
            }
          }
          var finalizers := RemoveString(obj.finalizers, CAPABILITY_FINALIZER);
          failed := kube.PatchFinalizers(w.finalizerWrite, finalizers);
          return;
        }
        return false;
      }
      if CAPABILITY_FINALIZER !in obj.finalizers {
        failed := kube.PatchFinalizers(w.finalizerWrite, obj.finalizers + [CAPABILITY_FINALIZER]);
        return;
      }
      var allowed := AllowedKindsFor(allowedKinds, obj.spec.allowedKinds);
      if allowed.None? {
        status := DeniedStatus(status);
        failed := kube.PatchStatus(w.statusWrite, status);
        return;
      }
      failed := Sync(kube, api, w, allowed.value);
    }

    // The first loop of the pass: every raw manifest is kept for the hash, up to the one that is refused.
    method PlanManifests(ms: seq<Raw>, allowed: set<string>) returns (raws: seq<Raw>, desired: seq<Resource>, bad: bool)
      ensures (desired, !bad) == Desired(decode, allowed, ms)
      ensures !bad ==> raws == ms
    {
      raws, desired, bad := [], [], false;
      for i := 0 to |ms|
        invariant !bad && raws == ms[..i]
        invariant Desired(decode, allowed, ms).0 == desired + Desired(decode, allowed, ms[i..]).0
        invariant Desired(decode, allowed, ms).1 == Desired(decode, allowed, ms[i..]).1
      {
        assert ms[i..][1..] == ms[i + 1..];
        raws := raws + [ms[i]];
        var ref := ManagedResource(decode, ms[i]);
        if ref.None? {
          bad := true;
          break;
        }
        if ref.value.kind !in allowed {
          bad := true;
          break;
        }
        ghost var rest := Desired(decode, allowed, ms[i + 1..]).0;
        assert Desired(decode, allowed, ms[i..]).0 == [ref.value] + rest;
        assert desired + ([ref.value] + rest) == desired + [ref.value] + rest;
        desired := desired + [ref.value];
      }
      assert desired + [] == desired;
    }

    method ApplyManifests(api: Client, ms: seq<Raw>, shouldApply: bool) returns (applied: nat, bad: bool)
      modifies api
      ensures (api.State(), !bad, applied) ==
              if shouldApply then ApplyAll(old(api.State()), OracleOf(api.script), decode, ms, 0)
              else (old(api.State()), true, |ms|)
    {
      applied, bad := 0, false;
      for i := 0 to |ms|
        invariant !bad && applied == i
        invariant shouldApply ==> ApplyAll(api.State(), OracleOf(api.script), decode, ms[i..], applied) ==
                                  ApplyAll(old(api.State()), OracleOf(api.script), decode, ms, 0)
        invariant !shouldApply ==> api.State() == old(api.State())
      {
        assert ms[i..][1..] == ms[i + 1..];
        if shouldApply {
          var err, _ := api.Apply(ManifestKey(decode, ms[i]), ms[i]);
          if !err.Nil? {
            bad := true;
            break;
          }
        }
        applied := applied + 1;
      }
    }

    method Sync(kube: Server<SetSpec, SetStatus>, api: Client, w: Weather, allowed: set<string>) returns (failed: bool)
      modifies kube, api
      ensures var op := Operator(allowedKinds, decode);
        var out := Work(op, allowed, old(kube.obj), old(api.State()), OracleOf(api.script), w);
        kube.obj == out.obj && api.State() == out.k1s && failed == out.failed
    {
      var obj := kube.obj;
      var applied := 0;
      var rawManifests, desired, bad := PlanManifests(obj.spec.manifests, allowed);
      var manifestHash := HashManifestSet(rawManifests);
      var shouldApply := !bad && obj.annotation != Some(manifestHash);
      if !bad && obj.spec.prune {
        bad := PruneManagedResources(api, obj.status.managed, desired);
      }
      if !bad {
        applied, bad := ApplyManifests(api, obj.spec.manifests, shouldApply);
      }
      if !bad && shouldApply {
        var lost := kube.PatchLastAppliedHash(w.annotationWrite, manifestHash);
        if lost {
          return true;
        }
      }
      var nextManaged := obj.status.managed;
      if !bad {
        nextManaged := desired;
      }
      var ready := !bad && Int32(applied) == Int32(|obj.spec.manifests|);
      var conditions := obj.status.conditions;
      if bad {
        conditions := C.SetCondition(conditions, C.PolicyAllowed, false, C.Denied);
        conditions := C.SetCondition(conditions, C.Applied, false, C.Unavailable);
      } else {
        conditions := C.SetCondition(conditions, C.PolicyAllowed, true, C.IsReady);
        conditions := C.SetCondition(conditions, C.Applied, true, C.WasApplied);
      }
      conditions := C.SetCondition(conditions, C.Ready, ready, C.ReasonForBool(ready));
      failed := kube.PatchStatus(w.statusWrite, SetStatus(Int32(applied), ready, nextManaged, conditions));
    }
  }
}
