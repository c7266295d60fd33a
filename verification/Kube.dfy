/** internal/controller/patch.go: the persisted Kubernetes object and the operator's writes to it. */
module Kube {
  import opened Wrappers
  import opened Digests

  const CAPABILITY_FINALIZER: string := "operator.k1s.io/capability-cleanup"

  datatype DeletePolicy = Delete | Orphan

  // A write is acknowledged, or it fails and may have reached the API server all the same.
  datatype Write = Written | Lost(effect: bool)

  datatype Object<Spec, Status> =
    Object(spec: Spec, deleting: bool, finalizers: seq<string>, annotation: Option<Digest>, status: Status)

  // The API server drops an object marked for deletion once its last finalizer is gone.
  predicate Gone<Spec, Status>(obj: Object<Spec, Status>) {
    obj.deleting && obj.finalizers == []
  }

  function Persist<T>(w: Write, before: T, after: T): T {
    if w.Written? || w.effect then after else before
  }

  function PutStatus<Spec, Status>(obj: Object<Spec, Status>, w: Write, status: Status): Object<Spec, Status> {
    obj.(status := Persist(w, obj.status, status))
  }

  function PutFinalizers<Spec, Status>(obj: Object<Spec, Status>, w: Write,
                                       finalizers: seq<string>): Object<Spec, Status> {
    obj.(finalizers := Persist(w, obj.finalizers, finalizers))
  }

  function PutHash<Spec, Status>(obj: Object<Spec, Status>, w: Write, hash: Digest): Object<Spec, Status> {
    obj.(annotation := Persist(w, obj.annotation, Some(hash)))
  }

  // What the API server does during one pass: which reads fail and how each write ends.
  datatype Weather = Weather(get: bool, client: bool, finalizerWrite: Write, annotationWrite: Write, statusWrite: Write)

  // Nothing goes wrong on the Kubernetes side.
  const FINE: Weather := Weather(true, true, Written, Written, Written)

  // Users edit the spec, mark for deletion and touch other finalizers; status, annotation and the capability
  // finalizer are the operator's.
  ghost predicate EditOk<Spec, Status>(before: Object<Spec, Status>, after: Object<Spec, Status>) {
    && (before.deleting ==> after.deleting)
    && (CAPABILITY_FINALIZER in before.finalizers <==> CAPABILITY_FINALIZER in after.finalizers)
    && after.annotation == before.annotation && after.status == before.status
  }

  class Server<Spec, Status> {
    var obj: Object<Spec, Status>

    constructor (obj: Object<Spec, Status>)
      ensures this.obj == obj
    {
      this.obj := obj;
    }

    method PatchStatus(w: Write, status: Status) returns (failed: bool)
      modifies this
      ensures obj == PutStatus(old(obj), w, status) && failed == !w.Written?
    {
      if w.Written? || w.effect {
        obj := obj.(status := status);
      }
      return !w.Written?;
    }

    method PatchFinalizers(w: Write, finalizers: seq<string>) returns (failed: bool)
      modifies this
      ensures obj == PutFinalizers(old(obj), w, finalizers) && failed == !w.Written?
    {
      if w.Written? || w.effect {
        obj := obj.(finalizers := finalizers);
      }
      return !w.Written?;
    }

    method PatchLastAppliedHash(w: Write, hash: Digest) returns (failed: bool)
      modifies this
      ensures obj == PutHash(old(obj), w, hash) && failed == !w.Written?
    {
      if w.Written? || w.effect {
        obj := obj.(annotation := Some(hash));
      }
      return !w.Written?;
    }
  }

  function WithoutString(values: seq<string>, unwanted: string): seq<string> {
    if values == [] then []
    else if values[0] == unwanted then WithoutString(values[1..], unwanted)
    else [values[0]] + WithoutString(values[1..], unwanted)
  }

  lemma {:induction false} WithoutStringAppend(a: seq<string>, b: seq<string>, unwanted: string)
    ensures WithoutString(a + b, unwanted) == WithoutString(a, unwanted) + WithoutString(b, unwanted)
  {
    if a == [] {
      assert a + b == b;
    } else {
      assert (a + b)[1..] == a[1..] + b;
      WithoutStringAppend(a[1..], b, unwanted);
    }
  }

  method RemoveString(values: seq<string>, unwanted: string) returns (out: seq<string>)
    ensures out == WithoutString(values, unwanted)
  {
    out := [];
    for i := 0 to |values|
      invariant out == WithoutString(values[..i], unwanted)
    {
      assert values[..i + 1] == values[..i] + [values[i]];
      WithoutStringAppend(values[..i], [values[i]], unwanted);
      if values[i] != unwanted {
        out := out + [values[i]];
      }
    }
    assert values[..|values|] == values;
  }

  // a can be had from b by leaving entries out.
  predicate IsSubsequence(a: seq<string>, b: seq<string>) {
    a == [] || (b != [] && (if a[0] == b[0] then IsSubsequence(a[1..], b[1..]) else IsSubsequence(a, b[1..])))
  }

  // Every copy of the unwanted string goes; everything else stays, as often as before and in its order.
  lemma {:induction false} WithoutStringKeeps(values: seq<string>, unwanted: string)
    ensures var out := WithoutString(values, unwanted);
      && unwanted !in out
      && (forall x :: x != unwanted ==> multiset(out)[x] == multiset(values)[x])
      && IsSubsequence(out, values)
  {
    if values != [] {
      WithoutStringKeeps(values[1..], unwanted);
      assert values == [values[0]] + values[1..];
      var out := WithoutString(values, unwanted);
      if values[0] == unwanted {
        assert out != [] ==> out[0] in out;
      } else {
        assert out[1..] == WithoutString(values[1..], unwanted);
      }
    }
  }
}
