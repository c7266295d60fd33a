/** What the parts of one resource set pass do to k1s: the deletes, the plan and the applies. */
module SetSteps {
  import opened Wrappers
  import opened Digests
  import opened Resources
  import opened K1s
  import opened ResourceSet

  // Some entry's delete request reaches this key.
  ghost predicate Addressed(rs: seq<Resource>, key: Key) {
    exists e :: 0 <= e < |rs| && TargetOf(KeyOf(rs[e])) == TargetOf(key) && TargetOf(key).Some?
  }

  // The e-th delete of a sweep that began in k is for its e-th entry.
  ghost predicate DeleteSent(k: Store, o: Oracle, rs: seq<Resource>, trace: seq<Sent>, e: int)
    requires 0 <= e < |rs| && |trace| >= |k.trace|
  {
    && TargetOf(KeyOf(rs[e])).Some?
    && |k.trace| + e < |trace|
    && trace[|k.trace| + e] == SentDelete(TargetOf(KeyOf(rs[e])).value, o(k.calls + e))
  }

  lemma {:induction false} SweepCounts(k: Store, o: Oracle, rs: seq<Resource>)
    ensures var (after, ok) := Sweep(k, o, rs);
      var n := after.calls - k.calls;
      && 0 <= n <= |rs|
      && |after.trace| == |k.trace| + n && k.trace <= after.trace
      && (forall c :: k.calls <= c < after.calls - 1 ==> !o(c).answer.Failed?)
      && (ok <==> n == |rs| && (n > 0 ==> !o(after.calls - 1).answer.Failed?))
      && (!ok && (n > 0 ==> !o(after.calls - 1).answer.Failed?) ==> n < |rs| && TargetOf(KeyOf(rs[n])).None?)
    decreases |rs|
  {
    if rs != [] && TargetOf(KeyOf(rs[0])).Some? && !o(k.calls).answer.Failed? {
      SweepCounts(AfterDelete(k, o, TargetOf(KeyOf(rs[0])).value), o, rs[1..]);
    }
  }

  lemma {:induction false} SweepDeletes(k: Store, o: Oracle, rs: seq<Resource>, e: nat)
    requires e < Sweep(k, o, rs).0.calls - k.calls
    ensures var after := Sweep(k, o, rs).0;
      e < |rs| && |after.trace| >= |k.trace| && DeleteSent(k, o, rs, after.trace, e)
    decreases |rs|
  {
    SweepCounts(k, o, rs);
    if !o(k.calls).answer.Failed? {
      var next := AfterDelete(k, o, TargetOf(KeyOf(rs[0])).value);
      SweepCounts(next, o, rs[1..]);
      if e > 0 {
        SweepDeletes(next, o, rs[1..], e - 1);
      }
    }
  }

  // A sweep deletes the entries in order, one call each, and stops at the first it cannot delete.
  lemma SweepTrace(k: Store, o: Oracle, rs: seq<Resource>)
    ensures var (after, ok) := Sweep(k, o, rs);
      var n := after.calls - k.calls;
      && 0 <= n <= |rs|
      && |after.trace| == |k.trace| + n && k.trace <= after.trace
      && (forall e :: 0 <= e < n ==> DeleteSent(k, o, rs, after.trace, e))
      && (forall c :: k.calls <= c < after.calls - 1 ==> !o(c).answer.Failed?)
      && (ok <==> n == |rs| && (n > 0 ==> !o(after.calls - 1).answer.Failed?))
      && (!ok && (n > 0 ==> !o(after.calls - 1).answer.Failed?) ==> n < |rs| && TargetOf(KeyOf(rs[n])).None?)
  {
    SweepCounts(k, o, rs);
    var after := Sweep(k, o, rs).0;
    forall e | 0 <= e < after.calls - k.calls ensures DeleteSent(k, o, rs, after.trace, e) {
      SweepDeletes(k, o, rs, e);
    }
  }

  // What a sweep leaves: nothing new, everything no entry addresses, and once it ends well nothing else.
  lemma {:induction false} SweepRemote(k: Store, o: Oracle, rs: seq<Resource>, key: Key)
    ensures var (after, ok) := Sweep(k, o, rs);
      && (key in after.remote ==> key in k.remote && after.remote[key] == k.remote[key])
      && (key in k.remote && !Addressed(rs, key) ==> key in after.remote)
      && (ok ==> (key in after.remote <==> key in k.remote && !Addressed(rs, key)))
    decreases |rs|
  {
    if rs != [] && TargetOf(KeyOf(rs[0])).Some? {
      var next := AfterDelete(k, o, TargetOf(KeyOf(rs[0])).value);
      SweepRemote(next, o, rs[1..], key);
      if Addressed(rs[1..], key) {
        var e :| 0 <= e < |rs[1..]| && TargetOf(KeyOf(rs[1..][e])) == TargetOf(key);
        assert rs[e + 1] == rs[1..][e];
      }
      if Addressed(rs, key) && TargetOf(KeyOf(rs[0])) != TargetOf(key) {
        var e :| 0 <= e < |rs| && TargetOf(KeyOf(rs[e])) == TargetOf(key);
        assert rs[e] == rs[1..][e - 1];
      }
    }
  }

  // Every entry before the place where a sweep stopped is gone, and so is one whose delete took effect there.
  lemma {:induction false} SweepClearsPrefix(k: Store, o: Oracle, rs: seq<Resource>, e: nat)
    requires e < Sweep(k, o, rs).0.calls - k.calls
    requires !o(k.calls + e).answer.Failed? || o(k.calls + e).effect
    ensures e < |rs| && KeyOf(rs[e]) !in Sweep(k, o, rs).0.remote
    decreases |rs|
  {
    SweepTrace(k, o, rs);
    if e > 0 {
      var next := AfterDelete(k, o, TargetOf(KeyOf(rs[0])).value);
      SweepTrace(next, o, rs[1..]);
      SweepClearsPrefix(next, o, rs[1..], e - 1);
    } else if !o(k.calls).answer.Failed? {
      SweepRemote(AfterDelete(k, o, TargetOf(KeyOf(rs[0])).value), o, rs[1..], KeyOf(rs[0]));
    }
  }

  // Every entry has a delete route.
  ghost predicate Routed(rs: seq<Resource>) {
    forall r :: r in rs ==> TargetOf(KeyOf(r)).Some?
  }

  // A sweep succeeds exactly when every entry has a route and no delete fails; a 404 is no failure.
  lemma {:induction false} SweepSucceedsExactly(k: Store, o: Oracle, rs: seq<Resource>)
    ensures Sweep(k, o, rs).1 <==>
            Routed(rs) && forall c :: k.calls <= c < k.calls + |rs| ==> !o(c).answer.Failed?
    ensures Sweep(k, o, rs).1 ==> Sweep(k, o, rs).0.calls == k.calls + |rs|
    decreases |rs|
  {
    if rs != [] {
      assert rs[0] in rs;
      if TargetOf(KeyOf(rs[0])).Some? {
        SweepSucceedsExactly(AfterDelete(k, o, TargetOf(KeyOf(rs[0])).value), o, rs[1..]);
        assert Routed(rs) <==> Routed(rs[1..]) by {
          assert rs == [rs[0]] + rs[1..];
        }
      }
    }
  }

  lemma {:induction false} StaleMeaning(previous: seq<Resource>, wanted: set<string>)
    ensures forall r :: r in Stale(previous, wanted) <==> r in previous && KeyString(r) !in wanted
  {
    if previous != [] {
      StaleMeaning(previous[1..], wanted);
    }
  }

  // And it is a filter: entry by entry, in order, as often as before.
  lemma {:induction false} StaleFilters(a: seq<Resource>, b: seq<Resource>, r: Resource, wanted: set<string>)
    ensures Stale(a + b, wanted) == Stale(a, wanted) + Stale(b, wanted)
    ensures Stale([r], wanted) == if KeyString(r) in wanted then [] else [r]
  {
    if a == [] {
      assert a + b == b;
    } else {
      StaleFilters(a[1..], b, r, wanted);
      assert (a + b)[1..] == a[1..] + b;
    }
  }

  // A plan succeeds exactly when every manifest names a resource of an allowed kind, and then lists them all.
  lemma {:induction false} DesiredMeaning(decode: Decoder, allowed: set<string>, ms: seq<Raw>)
    ensures var (rs, ok) := Desired(decode, allowed, ms);
      && |rs| <= |ms|
      && (forall i :: 0 <= i < |rs| ==> ManagedResource(decode, ms[i]) == Some(rs[i]) && rs[i].kind in allowed)
      && (ok <==> |rs| == |ms|)
      && (!ok ==> var bad := ManagedResource(decode, ms[|rs|]); bad.None? || bad.value.kind !in allowed)
  {
    if ms != [] {
      DesiredMeaning(decode, allowed, ms[1..]);
      var (rs, ok) := Desired(decode, allowed, ms);
      forall i | 0 < i < |rs| ensures ManagedResource(decode, ms[i]) == Some(rs[i]) && rs[i].kind in allowed {
        assert ms[i] == ms[1..][i - 1];
      }
    }
  }

  function Keys(rs: seq<Resource>): set<Key> {
    set r | r in rs :: KeyOf(r)
  }

  function ManifestKeys(decode: Decoder, ms: seq<Raw>): set<Key> {
    set m | m in ms :: ManifestKey(decode, m)
  }

  lemma DesiredKeys(decode: Decoder, allowed: set<string>, ms: seq<Raw>)
    requires Desired(decode, allowed, ms).1
    ensures Keys(Desired(decode, allowed, ms).0) == ManifestKeys(decode, ms)
  {
    DesiredMeaning(decode, allowed, ms);
    var rs := Desired(decode, allowed, ms).0;
    forall key | key in ManifestKeys(decode, ms) ensures key in Keys(rs) {
      var m :| m in ms && ManifestKey(decode, m) == key;
      var i :| 0 <= i < |ms| && ms[i] == m;
      assert rs[i] in rs;
    }
    forall key | key in Keys(rs) ensures key in ManifestKeys(decode, ms) {
      var r :| r in rs && KeyOf(r) == key;
      var i :| 0 <= i < |rs| && rs[i] == r;
      assert ms[i] in ms;
    }
  }

  // Two manifests can name the same resource; the later one counts.
  predicate Last(decode: Decoder, ms: seq<Raw>, i: int) {
    && 0 <= i < |ms|
    && forall j :: i < j < |ms| ==> ManifestKey(decode, ms[j]) != ManifestKey(decode, ms[i])
  }

  // Every resource of the list is on k1s with its content.
  ghost predicate Holds(remote: map<Key, Raw>, decode: Decoder, ms: seq<Raw>) {
    forall i :: Last(decode, ms, i) ==>
      ManifestKey(decode, ms[i]) in remote && remote[ManifestKey(decode, ms[i])] == ms[i]
  }

  lemma {:induction false} LastOf(decode: Decoder, ms: seq<Raw>, key: Key) returns (i: int)
    requires key in ManifestKeys(decode, ms)
    ensures Last(decode, ms, i) && ManifestKey(decode, ms[i]) == key
  {
    i := |ms| - 1;
    var m :| m in ms && ManifestKey(decode, m) == key;
    var j :| 0 <= j < |ms| && ms[j] == m;
    while ManifestKey(decode, ms[i]) != key
      invariant j <= i < |ms|
      decreases i
      invariant forall x :: i < x < |ms| ==> ManifestKey(decode, ms[x]) != key
    {
      i := i - 1;
    }
  }

  // What applying the whole list leaves on k1s
  function Overlay(remote: map<Key, Raw>, decode: Decoder, ms: seq<Raw>): map<Key, Raw>
    decreases |ms|
  {
    if ms == [] then remote else Overlay(remote[ManifestKey(decode, ms[0]) := ms[0]], decode, ms[1..])
  }

  lemma {:induction false} OverlayAt(remote: map<Key, Raw>, decode: Decoder, ms: seq<Raw>, key: Key)
    ensures key !in ManifestKeys(decode, ms) ==>
      (key in Overlay(remote, decode, ms) <==> key in remote) &&
      (key in remote ==> Overlay(remote, decode, ms)[key] == remote[key])
    ensures forall i :: Last(decode, ms, i) && ManifestKey(decode, ms[i]) == key ==>
      key in Overlay(remote, decode, ms) && Overlay(remote, decode, ms)[key] == ms[i]
    decreases |ms|
  {
    if ms != [] {
      OverlayAt(remote[ManifestKey(decode, ms[0]) := ms[0]], decode, ms[1..], key);
      forall i | Last(decode, ms, i) && i > 0 && ManifestKey(decode, ms[i]) == key
        ensures key in Overlay(remote, decode, ms) && Overlay(remote, decode, ms)[key] == ms[i]
      {
        assert ms[1..][i - 1] == ms[i];
        assert Last(decode, ms[1..], i - 1) by {
          forall j | i - 1 < j < |ms[1..]| ensures ManifestKey(decode, ms[1..][j]) != key {
            assert ms[1..][j] == ms[j + 1];
          }
        }
      }
      if Last(decode, ms, 0) && ManifestKey(decode, ms[0]) == key {
        forall m | m in ms[1..] ensures ManifestKey(decode, m) != key {
          var j :| 0 <= j < |ms[1..]| && ms[1..][j] == m;
          assert ms[j + 1] == m;
        }
      }
    }
  }

  lemma OverlayHolds(remote: map<Key, Raw>, decode: Decoder, ms: seq<Raw>)
    ensures Holds(Overlay(remote, decode, ms), decode, ms)
    ensures Overlay(remote, decode, ms).Keys == remote.Keys + ManifestKeys(decode, ms)
  {
    forall i | Last(decode, ms, i)
      ensures ManifestKey(decode, ms[i]) in Overlay(remote, decode, ms)
      ensures Overlay(remote, decode, ms)[ManifestKey(decode, ms[i])] == ms[i]
    {
      OverlayAt(remote, decode, ms, ManifestKey(decode, ms[i]));
    }
    forall key ensures key in Overlay(remote, decode, ms) <==> key in remote || key in ManifestKeys(decode, ms) {
      OverlayAt(remote, decode, ms, key);
      if key in ManifestKeys(decode, ms) {
        var i := LastOf(decode, ms, key);
      }
    }
  }

  // Applying the list again changes nothing exactly when every resource is already on k1s with its content.
  lemma ReapplyChangesNothing(remote: map<Key, Raw>, decode: Decoder, ms: seq<Raw>)
    ensures Holds(remote, decode, ms) <==> Overlay(remote, decode, ms) == remote
  {
    OverlayHolds(remote, decode, ms);
    forall key | Holds(remote, decode, ms)
      ensures key in Overlay(remote, decode, ms) <==> key in remote
      ensures key in remote ==> Overlay(remote, decode, ms)[key] == remote[key]
    {
      OverlayAt(remote, decode, ms, key);
      if key in ManifestKeys(decode, ms) {
        var i := LastOf(decode, ms, key);
      }
    }
  }

  // Applies go out in order, one call each, up to the first that fails.
  lemma {:induction false} ApplyAllTrace(k: Store, o: Oracle, decode: Decoder, ms: seq<Raw>, applied: nat)
    ensures var (after, ok, count) := ApplyAll(k, o, decode, ms, applied);
      var n := after.calls - k.calls;
      && 0 <= n <= |ms|
      && |after.trace| == |k.trace| + n && k.trace <= after.trace
      && (forall e :: 0 <= e < n ==> after.trace[|k.trace| + e] == SentApply(ms[e], o(k.calls + e)))
      && (forall c :: k.calls <= c < after.calls - 1 ==> o(c).answer.Ok?)
      && (ok <==> n == |ms| && (n > 0 ==> o(after.calls - 1).answer.Ok?))
      && count == applied + (if ok then n else n - 1)
    decreases |ms|
  {
    if ms != [] && o(k.calls).answer.Ok? {
      var next := AfterApply(k, o, ManifestKey(decode, ms[0]), ms[0]);
      ApplyAllTrace(next, o, decode, ms[1..], applied + 1);
      var after := ApplyAll(next, o, decode, ms[1..], applied + 1).0;
      forall e | 0 < e < after.calls - k.calls
        ensures after.trace[|k.trace| + e] == SentApply(ms[e], o(k.calls + e))
      {
        assert ms[e] == ms[1..][e - 1];
      }
    }
  }

  // Applies only add resources of the list, and all of them once every apply succeeded.
  lemma {:induction false} ApplyAllRemote(k: Store, o: Oracle, decode: Decoder, ms: seq<Raw>, applied: nat)
    ensures var (after, ok, _) := ApplyAll(k, o, decode, ms, applied);
      && k.remote.Keys <= after.remote.Keys <= k.remote.Keys + ManifestKeys(decode, ms)
      && (ok ==> after.remote == Overlay(k.remote, decode, ms))
    decreases |ms|
  {
    if ms != [] {
      assert ms[0] in ms;
      ApplyAllRemote(AfterApply(k, o, ManifestKey(decode, ms[0]), ms[0]), o, decode, ms[1..], applied + 1);
    }
  }

  // All applies succeed exactly when every call is answered well, and then each manifest is counted.
  lemma {:induction false} ApplySucceedsExactly(k: Store, o: Oracle, decode: Decoder, ms: seq<Raw>, applied: nat)
    ensures ApplyAll(k, o, decode, ms, applied).1 <==> forall c :: k.calls <= c < k.calls + |ms| ==> o(c).answer.Ok?
    ensures ApplyAll(k, o, decode, ms, applied).1 ==> ApplyAll(k, o, decode, ms, applied).2 == applied + |ms|
    decreases |ms|
  {
    if ms != [] {
      ApplySucceedsExactly(AfterApply(k, o, ManifestKey(decode, ms[0]), ms[0]), o, decode, ms[1..], applied + 1);
    }
  }
}
