/** Concrete runs that show why the conditions in SetConvergence are there: what the code does without them. */
module SetLimits {
  import opened Wrappers
  import opened Digests
  import opened KindLists
  import opened Resources
  import opened K1s
  import opened Kube
  import opened ResourceSet
  import opened SetSteps
  import opened SetRuns
  import opened SetConvergence

  const A: Raw := [1]
  const B: Raw := [2]
  const KEY_A: Key := Key("Deployment", "default", "a")
  const KEY_B: Key := Key("Deployment", "default", "b")

  // Two Deployments, a and b, in the default namespace
  function TwoApps(raw: Raw): Header {
    if raw == A then Header("Deployment", "", "a")
    else if raw == B then Header("Deployment", "", "b")
    else NotJson
  }

  const OPERATOR: Operator := Operator([], TwoApps)

  function Fresh(ms: seq<Raw>, prune: bool): State {
    var obj := Object(SetSpec(ms, [], prune, Delete), false, [CAPABILITY_FINALIZER], None, SetStatus(0, false, [], []));
    State(obj, map[])
  }

  // Every call but the one numbered `bad` succeeds; that one fails without effect.
  function FailsAt(bad: int): Oracle {
    (c: nat) => Call(if c == bad then Failed else Ok, false, map[])
  }

  function Entry(raw: Raw, name: string): Resource {
    Resource("Deployment", "default", name, HashBytes(raw))
  }

  lemma Policy()
    ensures Allowed([], []) == Some(KINDS)
  {
    DefaultCap();
    assert Normalize([]) == [];
    assert Cap([]) == {"Deployment", "InferenceCell", "InferenceCellSet"};
  }

  const KINDS: set<string> := {"Deployment", "InferenceCell", "InferenceCellSet"}

  lemma Plans()
    ensures ManifestKey(TwoApps, A) == KEY_A && ManifestKey(TwoApps, B) == KEY_B && A != B && KEY_A != KEY_B
    ensures Desired(TwoApps, KINDS, [A]) == ([Entry(A, "a")], true)
    ensures Desired(TwoApps, KINDS, [B]) == ([Entry(B, "b")], true)
    ensures Desired(TwoApps, KINDS, [A, B]) == ([Entry(A, "a"), Entry(B, "b")], true)
  {
    assert A[0] == 1 && B[0] == 2;
    assert "a"[0] == 'a' && "b"[0] == 'b';
    assert [A][1..] == [] && [B][1..] == [] && [A, B][1..] == [B];
    assert Desired(TwoApps, KINDS, []) == ([], true);
    var a, b := Entry(A, "a"), Entry(B, "b");
    assert [a] + [] == [a] && [b] + [] == [b] && [a] + [b] == [a, b];
    assert ManagedResource(TwoApps, A) == Some(Entry(A, "a"));
    assert ManagedResource(TwoApps, B) == Some(Entry(B, "b"));
    assert Desired(TwoApps, KINDS, [B]) == ([b], true);
  }

  lemma Extend(states: seq<State>, steps: seq<Step>, step: Step, after: State)
    requires IsRun(OPERATOR, states, steps) && Next(OPERATOR, states[|steps|], step, after)
    ensures IsRun(OPERATOR, states + [after], steps + [step])
  {
  }

  lemma ApplyOne(k: Store, o: Oracle, raw: Raw)
    ensures ApplyAll(k, o, TwoApps, [raw], 0) ==
            var ok := o(k.calls).answer.Ok?; (AfterApply(k, o, ManifestKey(TwoApps, raw), raw), ok, if ok then 1 else 0)
  {
    assert [raw][1..] == [];
    var next := AfterApply(k, o, ManifestKey(TwoApps, raw), raw);
    assert ApplyAll(next, o, TwoApps, [], 1) == (next, true, 1);
  }

  // A pass in fine weather over a live set is its three stages.
  lemma FinePass(s: State, o: Oracle, desired: seq<Resource>, pruned: Store, ok: bool, done: Store, good: bool,
                 applied: nat)
    requires !s.obj.deleting && CAPABILITY_FINALIZER in s.obj.finalizers && s.obj.spec.allowedKinds == []
    requires Desired(TwoApps, KINDS, s.obj.spec.manifests) == (desired, true)
    requires PruneStage(s.obj, desired, Store(s.remote, 0, []), o) == (pruned, ok)
    requires ApplyStage(TwoApps, s.obj, pruned, ok, o) == (done, good, applied)
    ensures RunPass(OPERATOR, s, o, FINE) == Finish(s.obj, desired, done, good, applied, FINE)
  {
    Policy();
  }

  // The first pass over the one-manifest list applies it.
  lemma FirstPass(prune: bool) returns (after: State)
    ensures Next(OPERATOR, Fresh([A], prune), Pass(FailsAt(-1), FINE), after)
    ensures Synced(OPERATOR, Fresh([A], prune), Pass(FailsAt(-1), FINE))
    ensures after.remote == map[KEY_A := A] && after.obj.status.managed == [Entry(A, "a")]
    ensures after.obj == Fresh([A], prune).obj.(annotation := Some(ManifestSetHash([A])), status := after.obj.status)
  {
    Plans();
    var s, k, o := Fresh([A], prune), Store(map[], 0, []), FailsAt(-1);
    assert Stale([], KeyStrings([Entry(A, "a")])) == [];
    ApplyOne(k, o, A);
    FinePass(s, o, [Entry(A, "a")], k, true, AfterApply(k, o, KEY_A, A), true, 1);
    after := State(RunPass(OPERATOR, s, o, FINE).obj, map[KEY_A := A]);
  }

  // The second of two applies fails: the first resource is on k1s, and the inventory stays empty.
  lemma PartialPass() returns (after: State)
    ensures Next(OPERATOR, Fresh([A, B], true), Pass(FailsAt(1), FINE), after)
    ensures after.remote == map[KEY_A := A] && after.obj.status.managed == []
    ensures after.obj == Fresh([A, B], true).obj.(status := after.obj.status)
  {
    Plans();
    var s, k, o := Fresh([A, B], true), Store(map[], 0, []), FailsAt(1);
    var entries := [Entry(A, "a"), Entry(B, "b")];
    assert Stale([], KeyStrings(entries)) == [];
    assert [A, B][1..] == [B] && [B][1..] == [];
    var k1 := AfterApply(k, o, KEY_A, A);
    var k2 := AfterApply(k1, o, KEY_B, B);
    assert ApplyAll(k1, o, TwoApps, [B], 1) == (k2, false, 1);
    FinePass(s, o, entries, k, true, k2, false, 1);
    after := State(RunPass(OPERATOR, s, o, FINE).obj, map[KEY_A := A]);
  }

  lemma EmptyCleanup(s: State) returns (after: State)
    requires s.obj.spec.deletePolicy.Delete? && s.obj.deleting && s.obj.finalizers == [CAPABILITY_FINALIZER]
    requires s.obj.status.managed == []
    ensures Next(OPERATOR, s, Pass(FailsAt(1), FINE), after) && DropsFinalizer(s, Pass(FailsAt(1), FINE), after)
    ensures after == State(s.obj.(finalizers := []), s.remote)
  {
    assert WithoutString([CAPABILITY_FINALIZER], CAPABILITY_FINALIZER) == [];
    var out := CleanUp(s.obj, Store(s.remote, 0, []), FailsAt(1), FINE);
    assert out == Outcome(s.obj.(finalizers := []), Store(s.remote, 0, []), false, CleanedUp(true));
    after := State(out.obj, s.remote);
  }

  // Then the set is deleted: its cleanup has nothing to delete, the finalizer goes, and the first resource stays
  // on k1s for good.
  lemma PartialApplyLeaks() returns (states: seq<State>, steps: seq<Step>)
    ensures IsRun(OPERATOR, states, steps) && |steps| == 3 && states[0] == Fresh([A, B], true)
    ensures DropsFinalizer(states[2], steps[2], states[3]) && states[3].obj.finalizers == []
    ensures states[3].obj.spec == states[0].obj.spec && states[3].remote == map[KEY_A := A]
  {
    var pass := Pass(FailsAt(1), FINE);
    var s0 := Fresh([A, B], true);
    var s1 := PartialPass();
    Extend([s0], [], pass, s1);
    var s2 := State(s1.obj.(deleting := true), s1.remote);
    Extend([s0, s1], [pass], Edit(s2.obj), s2);
    var s3 := EmptyCleanup(s2);
    Extend([s0, s1, s2], [pass, Edit(s2.obj)], pass, s3);
    states, steps := [s0, s1, s2] + [s3], [pass, Edit(s2.obj)] + [pass];
  }

  // Going to the other list, the prune of a succeeds and the apply of b fails.
  lemma SecondPassFails(s: State) returns (after: State)
    requires s.obj.spec == SetSpec([B], [], true, Delete)
    requires !s.obj.deleting && s.obj.finalizers == [CAPABILITY_FINALIZER]
    requires s.remote == map[KEY_A := A] && s.obj.status.managed == [Entry(A, "a")]
    requires s.obj.annotation == Some(ManifestSetHash([A]))
    ensures Next(OPERATOR, s, Pass(FailsAt(1), FINE), after) && after.remote == map[]
    ensures after.obj == s.obj.(status := after.obj.status) && after.obj.status.managed == [Entry(A, "a")]
  {
    Plans();
    var k, o, a, b := Store(s.remote, 0, []), FailsAt(1), Entry(A, "a"), Entry(B, "b");
    assert KeyString(a) == "Deployment/default/a" && KeyString(b) == "Deployment/default/b";
    assert KeyString(a)[19] != KeyString(b)[19];
    assert KeyStrings([b]) == {KeyString(b)};
    assert [a][1..] == [];
    assert Stale([a], KeyStrings([b])) == [a];
    var pruned := AfterDelete(k, o, AppTarget("a"));
    assert Sweep(pruned, o, []) == (pruned, true);
    assert Sweep(k, o, [a]) == (pruned, true);
    assert pruned.remote == map[];
    ApplyOne(pruned, o, B);
    Frames();
    FinePass(s, o, [b], pruned, true, AfterApply(pruned, o, KEY_B, B), false, 0);
    after := State(RunPass(OPERATOR, s, o, FINE).obj, map[]);
  }

  lemma Frames()
    ensures ManifestSetHash([A]) != ManifestSetHash([B])
  {
    SameHashSameManifests([A], [B]);
    assert [A][0][0] == 1 && [B][0][0] == 2;
  }

  // A pass that finds the annotation of its own list applies nothing.
  lemma MatchingPass(s: State) returns (after: State)
    requires s.obj.spec == SetSpec([A], [], true, Delete)
    requires !s.obj.deleting && s.obj.finalizers == [CAPABILITY_FINALIZER]
    requires s.remote == map[] && s.obj.status.managed == [Entry(A, "a")]
    requires s.obj.annotation == Some(ManifestSetHash([A]))
    ensures Next(OPERATOR, s, Pass(FailsAt(-1), FINE), after) && Synced(OPERATOR, s, Pass(FailsAt(-1), FINE))
    ensures after.remote == map[] && after.obj.status.ready && after.obj == s.obj.(status := after.obj.status)
  {
    Plans();
    var k, a := Store(s.remote, 0, []), Entry(A, "a");
    assert KeyStrings([a]) == {KeyString(a)};
    assert [a][1..] == [];
    assert Stale([a], KeyStrings([a])) == [];
    FinePass(s, FailsAt(-1), [a], k, true, k, true, 1);
    after := State(RunPass(OPERATOR, s, FailsAt(-1), FINE).obj, map[]);
  }

  // List A is applied; list B prunes A's resource and then fails; the spec goes back to A. The annotation still
  // matches A, so nothing is applied, and the set reports Ready while A's resource is missing.
  lemma HashGateGoesBlind() returns (states: seq<State>, steps: seq<Step>)
    ensures IsRun(OPERATOR, states, steps) && |steps| == 5 && states[0] == Fresh([A], true)
    ensures states[5].obj.spec.manifests == [A] && !ShouldApply(states[5].obj) && states[5].obj.status.ready
    ensures Synced(OPERATOR, states[4], steps[4]) && !Holds(states[5].remote, TwoApps, [A])
  {
    var fine, bad := Pass(FailsAt(-1), FINE), Pass(FailsAt(1), FINE);
    var s0 := Fresh([A], true);
    var s1 := FirstPass(true);
    Extend([s0], [], fine, s1);
    var s2 := State(s1.obj.(spec := SetSpec([B], [], true, Delete)), s1.remote);
    Extend([s0, s1], [fine], Edit(s2.obj), s2);
    var s3 := SecondPassFails(s2);
    Extend([s0, s1, s2], [fine, Edit(s2.obj)], bad, s3);
    var s4 := State(s3.obj.(spec := SetSpec([A], [], true, Delete)), s3.remote);
    Extend([s0, s1, s2, s3], [fine, Edit(s2.obj), bad], Edit(s4.obj), s4);
    var s5 := MatchingPass(s4);
    Extend([s0, s1, s2, s3, s4], [fine, Edit(s2.obj), bad, Edit(s4.obj)], fine, s5);
    assert Last(TwoApps, [A], 0);
    states, steps := [s0, s1, s2, s3, s4] + [s5], [fine, Edit(s2.obj), bad, Edit(s4.obj)] + [fine];
  }

  // With prune off, a manifest that is taken out of the list leaves the inventory and stays on k1s.
  lemma NoPruneForgets() returns (states: seq<State>, steps: seq<Step>)
    ensures IsRun(OPERATOR, states, steps) && |steps| == 3 && states[0] == Fresh([A], false)
    ensures Synced(OPERATOR, states[0], steps[0]) && Synced(OPERATOR, states[2], steps[2])
    ensures KEY_A in states[3].remote && KEY_A !in Keys(states[3].obj.status.managed)
    ensures KEY_A !in ManifestKeys(TwoApps, states[3].obj.spec.manifests)
  {
    var fine := Pass(FailsAt(-1), FINE);
    var s0 := Fresh([A], false);
    var s1 := FirstPass(false);
    Extend([s0], [], fine, s1);
    var s2 := State(s1.obj.(spec := SetSpec([B], [], false, Delete)), s1.remote);
    Extend([s0, s1], [fine], Edit(s2.obj), s2);
    var s3 := PassWithoutPrune(s2);
    Extend([s0, s1, s2], [fine, Edit(s2.obj)], fine, s3);
    Plans();
    states, steps := [s0, s1, s2] + [s3], [fine, Edit(s2.obj)] + [fine];
  }

  lemma PassWithoutPrune(s: State) returns (after: State)
    requires s.obj.spec == SetSpec([B], [], false, Delete)
    requires !s.obj.deleting && s.obj.finalizers == [CAPABILITY_FINALIZER]
    requires s.remote == map[KEY_A := A] && s.obj.annotation == Some(ManifestSetHash([A]))
    ensures Next(OPERATOR, s, Pass(FailsAt(-1), FINE), after) && Synced(OPERATOR, s, Pass(FailsAt(-1), FINE))
    ensures after.remote == map[KEY_A := A, KEY_B := B] && after.obj.status.managed == [Entry(B, "b")]
    ensures after.obj.spec == s.obj.spec
  {
    Plans();
    Frames();
    var k, o := Store(s.remote, 0, []), FailsAt(-1);
    ApplyOne(k, o, B);
    FinePass(s, o, [Entry(B, "b")], k, true, AfterApply(k, o, KEY_B, B), true, 1);
    after := State(RunPass(OPERATOR, s, o, FINE).obj, map[KEY_A := A, KEY_B := B]);
  }

  // Two names with one delete name: pruning the former resource deletes the one that is wanted.
  lemma PruneCanHitDesired()
    ensures var former := Resource("Deployment", "default", "a--b", HashBytes(A));
      var wanted := Resource("Deployment", "a", "b", HashBytes(B));
      var stale := Stale([former], KeyStrings([wanted]));
      var (after, ok) := Sweep(Store(map[KeyOf(wanted) := B], 0, []), FailsAt(-1), stale);
      ok && KeyOf(wanted) !in after.remote
  {
    var former := Resource("Deployment", "default", "a--b", HashBytes(A));
    var wanted := Resource("Deployment", "a", "b", HashBytes(B));
    assert KeyStrings([wanted]) == {KeyString(wanted)};
    assert |KeyString(former)| != |KeyString(wanted)|;
    assert [former][1..] == [];
    assert Stale([former], KeyStrings([wanted])) == [former];
    DeleteNamesAlias();
    var k := Store(map[KeyOf(wanted) := B], 0, []);
    var after := AfterDelete(k, FailsAt(-1), AppTarget("a--b"));
    assert Sweep(after, FailsAt(-1), []) == (after, true);
    assert Sweep(k, FailsAt(-1), [former]) == (after, true);
  }
}
