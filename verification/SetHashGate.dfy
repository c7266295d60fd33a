/**
 What a matching hash annotation of a K1sResourceSet is worth: which passes can take a list's resources from k1s,
 exactly, and where a matching annotation comes from.
 */
module SetHashGate {
  import opened Wrappers
  import opened Digests
  import opened KindLists
  import opened Resources
  import opened K1s
  import opened Kube
  import opened ResourceSet
  import opened SetSteps
  import opened SetRuns
  import opened SetConvergence

  // ---------- what a pass can do to one resource ----------

  // A sweep can get as far as entry e, and that entry's delete request reaches the key.
  ghost predicate HitsAt(rs: seq<Resource>, key: Key, e: int) {
    0 <= e < |rs| && Routed(rs[..e + 1]) && TargetOf(KeyOf(rs[e])) == TargetOf(key)
  }

  ghost predicate Hits(rs: seq<Resource>, key: Key) {
    exists e :: HitsAt(rs, key, e)
  }

  // Every call goes well up to the n-th, which fails and takes effect.
  function StopsAt(n: nat): Oracle {
    (c: nat) => Call(if c == n then Failed else Ok, c == n, map[])
  }

  ghost predicate HasExactly(remote: map<Key, Raw>, key: Key, raw: Raw) {
    key in remote && remote[key] == raw
  }

  lemma HitsTail(rs: seq<Resource>, key: Key)
    requires rs != [] && TargetOf(KeyOf(rs[0])).Some? && Hits(rs[1..], key)
    ensures Hits(rs, key)
  {
    var e :| HitsAt(rs[1..], key, e);
    assert rs[..e + 2] == [rs[0]] + rs[1..][..e + 1];
    assert HitsAt(rs, key, e + 1);
  }

  lemma {:induction false} SweepSpares(k: Store, o: Oracle, rs: seq<Resource>, key: Key, raw: Raw)
    requires HasExactly(k.remote, key, raw) && !Hits(rs, key)
    ensures HasExactly(Sweep(k, o, rs).0.remote, key, raw)
    decreases |rs|
  {
    if rs != [] && TargetOf(KeyOf(rs[0])).Some? {
      assert TargetOf(KeyOf(rs[0])) != TargetOf(key) by {
        assert rs[..1] == [rs[0]];
        assert !HitsAt(rs, key, 0);
      }
      if Hits(rs[1..], key) {
        HitsTail(rs, key);
        assert false;
      }
      SweepSpares(AfterDelete(k, o, TargetOf(KeyOf(rs[0])).value), o, rs[1..], key, raw);
    }
  }

  lemma {:induction false} SweepHits(k: Store, rs: seq<Resource>, key: Key, e: nat, n: nat)
    requires HitsAt(rs, key, e) && n == k.calls + e
    ensures var (after, ok) := Sweep(k, StopsAt(n), rs); !ok && key !in after.remote
    decreases e
  {
    assert rs[0] in rs[..e + 1] && rs[e] in rs[..e + 1];
    if e > 0 {
      assert rs[1..][..e] == rs[..e + 1][1..];
      SweepHits(AfterDelete(k, StopsAt(n), TargetOf(KeyOf(rs[0])).value), rs[1..], key, e - 1, n);
    }
  }

  lemma {:induction false} AppliesSpare(k: Store, o: Oracle, decode: Decoder, ms: seq<Raw>, applied: nat, key: Key,
                                        raw: Raw)
    requires HasExactly(k.remote, key, raw)
    requires forall m :: m in ms && ManifestKey(decode, m) == key ==> m == raw
    ensures HasExactly(ApplyAll(k, o, decode, ms, applied).0.remote, key, raw)
    decreases |ms|
  {
    if ms != [] {
      assert ms[0] in ms;
      AppliesSpare(AfterApply(k, o, ManifestKey(decode, ms[0]), ms[0]), o, decode, ms[1..], applied + 1, key, raw);
    }
  }

  lemma {:induction false} ApplyHits(k: Store, decode: Decoder, ms: seq<Raw>, applied: nat, t: nat, n: nat)
    requires t < |ms| && n == k.calls + t
    ensures var (after, ok, _) := ApplyAll(k, StopsAt(n), decode, ms, applied);
      !ok && HasExactly(after.remote, ManifestKey(decode, ms[t]), ms[t])
    decreases t
  {
    if t > 0 {
      ApplyHits(AfterApply(k, StopsAt(n), ManifestKey(decode, ms[0]), ms[0]), decode, ms[1..], applied + 1, t - 1, n);
    }
  }

  // ---------- what a pass can do to a list ----------

  // A working pass has nothing that would take this resource away or overwrite it: no prune delete it can get to
  // addresses it, and if applies are reached, every manifest for it is this one.
  ghost predicate SparesOne(op: Operator, obj: SetObject, raw: Raw) {
    var key, deletes := ManifestKey(op.decode, raw), PlannedDeletes(op, obj);
    && !Hits(deletes, key)
    && (ShouldApply(obj) && Routed(deletes) ==>
          forall m :: m in obj.spec.manifests && ManifestKey(op.decode, m) == key ==> m == raw)
  }

  // What the object says about its next pass and the list: nothing it can do harms a resource of the list.
  ghost predicate Spares(op: Operator, obj: SetObject, list: seq<Raw>) {
    forall i :: Last(op.decode, list, i) ==>
      if CAPABILITY_FINALIZER !in obj.finalizers then true
      else if obj.deleting then
        obj.spec.deletePolicy.Orphan? || !Hits(obj.status.managed, ManifestKey(op.decode, list[i]))
      else PlanOf(op, obj).1 ==> SparesOne(op, obj, list[i])
  }

  lemma SparedPassHolds(op: Operator, s: State, o: Oracle, w: Weather, list: seq<Raw>)
    requires Holds(s.remote, op.decode, list) && Spares(op, s.obj, list)
    ensures Holds(RunPass(op, s, o, w).k1s.remote, op.decode, list)
  {
    var k := Store(s.remote, 0, []);
    forall i | Last(op.decode, list, i)
      ensures HasExactly(RunPass(op, s, o, w).k1s.remote, ManifestKey(op.decode, list[i]), list[i])
    {
      var key := ManifestKey(op.decode, list[i]);
      if CAPABILITY_FINALIZER in s.obj.finalizers {
        if s.obj.deleting {
          if s.obj.spec.deletePolicy.Delete? {
            SweepSpares(k, o, s.obj.status.managed, key, list[i]);
          }
        } else if PlanOf(op, s.obj).1 {
          SparedWorkHolds(op, s, o, list[i]);
        }
      }
    }
  }

  lemma SparedWorkHolds(op: Operator, s: State, o: Oracle, raw: Raw)
    requires PlanOf(op, s.obj).1 && SparesOne(op, s.obj, raw)
    requires HasExactly(s.remote, ManifestKey(op.decode, raw), raw)
    ensures var (pruned, ok) := PruneStage(s.obj, PlanOf(op, s.obj).0, Store(s.remote, 0, []), o);
      HasExactly(ApplyStage(op.decode, s.obj, pruned, ok, o).0.remote, ManifestKey(op.decode, raw), raw)
  {
    var k, key, deletes := Store(s.remote, 0, []), ManifestKey(op.decode, raw), PlannedDeletes(op, s.obj);
    var (pruned, ok) := PruneStage(s.obj, PlanOf(op, s.obj).0, k, o);
    SweepSpares(k, o, deletes, key, raw);
    SweepSucceedsExactly(k, o, deletes);
    assert pruned == Sweep(k, o, deletes).0 && (ok ==> Routed(deletes));
    if ok && ShouldApply(s.obj) {
      AppliesSpare(pruned, o, op.decode, s.obj.spec.manifests, 0, key, raw);
    }
  }

  // Where the list is not spared, some pass takes a resource of it away or overwrites it, and leaves the annotation.
  lemma UnsparedPassHarms(op: Operator, s: State, list: seq<Raw>) returns (o: Oracle)
    requires !Spares(op, s.obj, list)
    ensures var out := RunPass(op, s, o, FINE);
      !Holds(out.k1s.remote, op.decode, list) && out.obj.annotation == s.obj.annotation
  {
    var k := Store(s.remote, 0, []);
    if s.obj.deleting {
      var i :| Last(op.decode, list, i) && Hits(s.obj.status.managed, ManifestKey(op.decode, list[i]));
      var e: nat :| HitsAt(s.obj.status.managed, ManifestKey(op.decode, list[i]), e);
      o := StopsAt(e);
      SweepHits(k, s.obj.status.managed, ManifestKey(op.decode, list[i]), e, e);
    } else {
      var i :| Last(op.decode, list, i) && !SparesOne(op, s.obj, list[i]);
      o := UnsparedWorkHarms(op, s, list[i]);
      assert Last(op.decode, list, i);
    }
  }

  lemma UnsparedWorkHarms(op: Operator, s: State, raw: Raw) returns (o: Oracle)
    requires PlanOf(op, s.obj).1 && !SparesOne(op, s.obj, raw)
    ensures var (pruned, ok) := PruneStage(s.obj, PlanOf(op, s.obj).0, Store(s.remote, 0, []), o);
      var (done, good, _) := ApplyStage(op.decode, s.obj, pruned, ok, o);
      !good && !HasExactly(done.remote, ManifestKey(op.decode, raw), raw)
  {
    var k, key, deletes := Store(s.remote, 0, []), ManifestKey(op.decode, raw), PlannedDeletes(op, s.obj);
    if Hits(deletes, key) {
      var e: nat :| HitsAt(deletes, key, e);
      o := StopsAt(e);
      SweepHits(k, deletes, key, e, e);
    } else {
      var m :| m in s.obj.spec.manifests && ManifestKey(op.decode, m) == key && m != raw;
      var t: nat :| t < |s.obj.spec.manifests| && s.obj.spec.manifests[t] == m;
      var n := |deletes| + t;
      o := StopsAt(n);
      SweepSucceedsExactly(k, o, deletes);
      ApplyHits(PruneStage(s.obj, PlanOf(op, s.obj).0, k, o).0, op.decode, s.obj.spec.manifests, 0, t, n);
    }
  }

  // The exact worth of a list that k1s holds: every pass, however its calls and writes end, leaves it there if and
  // only if the object spares it. Where it does not, a pass can harm it behind an unchanged annotation.
  lemma HeldExactly(op: Operator, s: State, list: seq<Raw>)
    requires Holds(s.remote, op.decode, list)
    ensures (forall o, w :: Holds(RunPass(op, s, o, w).k1s.remote, op.decode, list)) <==> Spares(op, s.obj, list)
    ensures (exists o, w :: !Holds(RunPass(op, s, o, w).k1s.remote, op.decode, list) &&
                            RunPass(op, s, o, w).obj.annotation == s.obj.annotation) <==> !Spares(op, s.obj, list)
  {
    if Spares(op, s.obj, list) {
      forall o, w ensures Holds(RunPass(op, s, o, w).k1s.remote, op.decode, list) {
        SparedPassHolds(op, s, o, w, list);
      }
    } else {
      var o := UnsparedPassHarms(op, s, list);
    }
  }

  // For a live set with well-formed names and delete routes for all it has recorded, in plain words: prune must not
  // find the resource recorded and unwanted, and what is to be applied under its name must be what is there.
  lemma SparesPlainly(op: Operator, s: State, list: seq<Raw>)
    requires NamesOk(op, s) && AllWellNamed(ManifestKeys(op.decode, list)) && Routed(s.obj.status.managed)
    requires !s.obj.deleting && CAPABILITY_FINALIZER in s.obj.finalizers && PlanOf(op, s.obj).1
    ensures Spares(op, s.obj, list) <==>
      forall i :: Last(op.decode, list, i) ==>
        var key := ManifestKey(op.decode, list[i]);
        && (s.obj.spec.prune && key in Keys(s.obj.status.managed) ==>
              key in ManifestKeys(op.decode, s.obj.spec.manifests))
        && (ShouldApply(s.obj) ==>
              forall m :: m in s.obj.spec.manifests && ManifestKey(op.decode, m) == key ==> m == list[i])
  {
    var desired, deletes := PlanOf(op, s.obj).0, PlannedDeletes(op, s.obj);
    DesiredKeys(op.decode, Allowed(op.allowedKinds, s.obj.spec.allowedKinds).value, s.obj.spec.manifests);
    StaleMeaning(s.obj.status.managed, KeyStrings(desired));
    assert Routed(deletes);
    forall i | Last(op.decode, list, i)
      ensures Hits(deletes, ManifestKey(op.decode, list[i])) <==>
              s.obj.spec.prune && ManifestKey(op.decode, list[i]) in Keys(s.obj.status.managed) &&
              ManifestKey(op.decode, list[i]) !in ManifestKeys(op.decode, s.obj.spec.manifests)
    {
      var key := ManifestKey(op.decode, list[i]);
      assert list[i] in list;
      HitsAddressed(deletes, key);
      AddressedIsStale(s.obj.status.managed, desired, key);
      if key in Keys(s.obj.status.managed) {
        var r :| r in s.obj.status.managed && KeyOf(r) == key;
      }
    }
  }

  lemma HitsAddressed(rs: seq<Resource>, key: Key)
    requires Routed(rs)
    ensures Hits(rs, key) <==> Addressed(rs, key)
  {
    if Hits(rs, key) {
      var e :| HitsAt(rs, key, e);
      assert rs[e] in rs;
    }
    if Addressed(rs, key) {
      var e :| 0 <= e < |rs| && TargetOf(KeyOf(rs[e])) == TargetOf(key);
      assert HitsAt(rs, key, e);
    }
  }

  // ---------- runs ----------

  lemma StepHolds(op: Operator, s: State, step: Step, after: State, list: seq<Raw>)
    requires Next(op, s, step, after) && Holds(s.remote, op.decode, list)
    requires step.Pass? ==> Spares(op, s.obj, list)
    ensures Holds(after.remote, op.decode, list)
  {
    if step.Pass? {
      SparedPassHolds(op, s, step.o, step.w, list);
    }
  }

  // In any run, a list that k1s holds stays there for as long as every object a pass finds spares it.
  lemma {:induction false} SparedListIsHeld(op: Operator, states: seq<State>, steps: seq<Step>, list: seq<Raw>, j: nat,
                                            i: nat)
    requires IsRun(op, states, steps) && j <= i < |states| && Holds(states[j].remote, op.decode, list)
    requires forall x :: j <= x < i && steps[x].Pass? ==> Spares(op, states[x].obj, list)
    ensures Holds(states[i].remote, op.decode, list)
  {
    if j < i {
      SparedListIsHeld(op, states, steps, list, j, i - 1);
      StepHolds(op, states[i - 1], steps[i - 1], states[i], list);
    }
  }

  // A step changes the annotation only by stamping the list it finds in the spec.
  lemma StepAnnotation(op: Operator, s: State, step: Step, after: State)
    requires Next(op, s, step, after)
    ensures after.obj.annotation ==
            if Stamps(op, s, step) then Some(ManifestSetHash(s.obj.spec.manifests)) else s.obj.annotation
  {
    if step.Pass? {
      if RunPass(op, s, step.o, step.w).stage.Worked? {
        WorkObject(op, s, step.o, step.w);
      } else {
        OtherPassesShrink(op, s, step.o, step.w);
      }
    }
  }

  lemma AnnotationAt(op: Operator, states: seq<State>, steps: seq<Step>, i: nat)
    requires IsRun(op, states, steps) && 0 < i < |states|
    ensures states[i].obj.annotation ==
            if Stamps(op, states[i - 1], steps[i - 1]) then Some(ManifestSetHash(states[i - 1].obj.spec.manifests))
            else states[i - 1].obj.annotation
  {
    assert Next(op, states[i - 1], steps[i - 1], states[i]);
    StepAnnotation(op, states[i - 1], steps[i - 1], states[i]);
  }

  // What the step writes into the annotation, if anything
  ghost function StampOf(op: Operator, s: State, step: Step): Option<Digest> {
    if Stamps(op, s, step) then Some(ManifestSetHash(s.obj.spec.manifests)) else None
  }

  // A list of values, each the one before it or the one stamped over it: where a value that is new came from.
  lemma {:induction false} LastStamp(values: seq<Option<Digest>>, stamps: seq<Option<Digest>>, i: nat) returns (j: nat)
    requires i < |values| == |stamps| + 1 && values[i] != values[0]
    requires forall x {:trigger stamps[x]} :: 0 <= x < |stamps| ==>
               values[x + 1] == if stamps[x].Some? then stamps[x] else values[x]
    ensures j < i && stamps[j].Some? && values[i] == stamps[j]
    ensures forall x :: j < x < i ==> stamps[x].None?
  {
    j := i - 1;
    if stamps[j].None? {
      j := LastStamp(values, stamps, i - 1);
    }
  }

  // Where an annotation comes from: one that a run did not start with was stamped by an earlier pass, for the list
  // that pass found, and by no pass since.
  lemma AnnotationWasStamped(op: Operator, states: seq<State>, steps: seq<Step>, i: nat) returns (j: nat)
    requires IsRun(op, states, steps) && i < |states| && states[i].obj.annotation != states[0].obj.annotation
    ensures j < i && Stamps(op, states[j], steps[j])
    ensures states[i].obj.annotation == Some(ManifestSetHash(states[j].obj.spec.manifests))
    ensures forall x :: j < x < i ==> !Stamps(op, states[x], steps[x])
  {
    var values := seq(|states|, x requires 0 <= x < |states| => states[x].obj.annotation);
    var stamps := seq(|steps|, x requires 0 <= x < |steps| => StampOf(op, states[x], steps[x]));
    forall x {:trigger stamps[x]} | 0 <= x < |stamps|
      ensures values[x + 1] == if stamps[x].Some? then stamps[x] else values[x]
    {
      AnnotationAt(op, states, steps, x + 1);
    }
    j := LastStamp(values, stamps, i);
    forall x | j < x < i ensures !Stamps(op, states[x], steps[x]) {
      assert stamps[x].None?;
    }
  }

  // Hash-gate soundness with nothing left to supply: in a run that did not start with the hash of the spec's list, a
  // match at state i means that some pass j stamped this very list, and the list is on k1s if every object that a
  // pass found since then spared it.
  lemma MatchMeansHeld(op: Operator, states: seq<State>, steps: seq<Step>, i: nat) returns (j: nat)
    requires IsRun(op, states, steps) && i < |states|
    requires forall x :: 0 <= x < |states| ==> NamesOk(op, states[x]) && AllNulFree(states[x].obj.spec.manifests)
    requires !ShouldApply(states[i].obj) && states[0].obj.annotation != states[i].obj.annotation
    ensures j < i && Stamps(op, states[j], steps[j]) && states[j].obj.spec.manifests == states[i].obj.spec.manifests
    ensures (forall x :: j < x < i && steps[x].Pass? ==> Spares(op, states[x].obj, states[i].obj.spec.manifests)) ==>
      Holds(states[i].remote, op.decode, states[i].obj.spec.manifests)
  {
    j := AnnotationWasStamped(op, states, steps, i);
    SameHashSameManifests(states[j].obj.spec.manifests, states[i].obj.spec.manifests);
    assert Next(op, states[j], steps[j], states[j + 1]);
    StampingHolds(op, states[j], steps[j], states[j + 1]);
    if forall x :: j < x < i && steps[x].Pass? ==> Spares(op, states[x].obj, states[i].obj.spec.manifests) {
      SparedListIsHeld(op, states, steps, states[i].obj.spec.manifests, j + 1, i);
    }
  }
}
