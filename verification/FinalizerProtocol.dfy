/**
 The finalizer protocol that the app, endpoint and resource set reconcilers all follow, as a protocol on the
 object's deletion mark and finalizers alone. Each reconciler's own module shows that its passes are moves here.
 */
module FinalizerProtocol {
  import opened Kube

  datatype View = View(deleting: bool, finalizers: seq<string>)

  // What one step did: it sent an Apply, or it cleaned up (Orphan, or every required delete acknowledged).
  datatype Act = Act(applied: bool, cleaned: bool)

  predicate Held(v: View) {
    CAPABILITY_FINALIZER in v.finalizers
  }

  predicate Released(v: View, a: Act, after: View) {
    && v.deleting && Held(v) && a.cleaned && !a.applied
    && after == View(true, WithoutString(v.finalizers, CAPABILITY_FINALIZER))
  }

  // Users and other controllers mark for deletion, never unmark, and leave the capability finalizer alone.
  predicate OutsideMove(v: View, after: View) {
    (v.deleting ==> after.deleting) && (Held(v) <==> Held(after))
  }

  predicate PassMove(v: View, a: Act, after: View) {
    || (after == v && (a.applied ==> !v.deleting && Held(v)))
    || (!v.deleting && !Held(v) && !a.applied && after == View(false, v.finalizers + [CAPABILITY_FINALIZER]))
    || Released(v, a, after)
  }

  predicate Move(v: View, a: Act, after: View) {
    PassMove(v, a, after) || (OutsideMove(v, after) && !a.applied)
  }

  ghost predicate IsRun(views: seq<View>, acts: seq<Act>) {
    && |views| == |acts| + 1
    && forall i :: 0 <= i < |acts| ==> Move(views[i], acts[i], views[i + 1])
  }

  lemma {:induction false} DeletionIsForever(views: seq<View>, acts: seq<Act>, i: nat, j: nat)
    requires IsRun(views, acts) && i <= j < |views| && views[i].deleting
    ensures views[j].deleting
    decreases j - i
  {
    if i < j {
      assert Move(views[i], acts[i], views[i + 1]);
      DeletionIsForever(views, acts, i + 1, j);
    }
  }

  // Once an Apply was sent, the finalizer stays until a cleanup that succeeded drops it.
  lemma {:induction false} HeldUntilReleased(views: seq<View>, acts: seq<Act>, i: nat, j: nat)
    requires IsRun(views, acts) && i < j < |views| && acts[i].applied
    ensures Held(views[j]) || exists k :: i < k < j && Released(views[k], acts[k], views[k + 1])
  {
    if j == i + 1 {
      assert Move(views[i], acts[i], views[j]);
    } else {
      HeldUntilReleased(views, acts, i, j - 1);
      assert Move(views[j - 1], acts[j - 1], views[j]);
    }
  }

  // After the mark for deletion, and so after the drop, no Apply is sent.
  lemma NoApplyOnceDeleting(views: seq<View>, acts: seq<Act>, i: nat, j: nat)
    requires IsRun(views, acts) && i <= j < |acts| && views[i].deleting
    ensures !acts[j].applied
  {
    DeletionIsForever(views, acts, i, j);
    assert Move(views[j], acts[j], views[j + 1]);
  }
}
