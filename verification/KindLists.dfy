/**
 The kind lists of K1sResourceSet: the operator's cap, read from a comma-separated flag
 (cmd/manager/main.go), and the narrower list of one set (internal/controller/capability_controller.go).
 */
module KindLists {
  import opened Wrappers
  import opened Text

  const DEFAULT_KINDS: seq<string> := ["Deployment", "InferenceCell", "InferenceCellSet"]

  // Trimmed, nonempty, first occurrences only.
  function Normalize(kinds: seq<string>): seq<string> {
    if kinds == [] then []
    else
      var out := Normalize(kinds[..|kinds| - 1]);
      var kind := TrimSpace(kinds[|kinds| - 1]);
      if kind == "" || kind in out then out else out + [kind]
  }

  method NormalizeKindList(kinds: seq<string>) returns (out: seq<string>)
    ensures out == Normalize(kinds)
  {
    out := [];
    var seen: set<string> := {};
    for i := 0 to |kinds|
      invariant out == Normalize(kinds[..i])
      invariant seen == set k | k in out
    {
      assert kinds[..i + 1][..i] == kinds[..i];
      var kind := TrimSpace(kinds[i]);
      if kind == "" {
        continue;
      }
      if kind in seen {
        continue;
      }
      out := out + [kind];
      seen := seen + {kind};
    }
    assert kinds[..|kinds|] == kinds;
  }

  method CsvValues(raw: string) returns (values: seq<string>)
    ensures values == Normalize(Split(raw, ','))
  {
    values := [];
    var seen: set<string> := {};
    var parts := Split(raw, ',');
    for i := 0 to |parts|
      invariant values == Normalize(parts[..i])
      invariant seen == set v | v in values
    {
      assert parts[..i + 1][..i] == parts[..i];
      var value := TrimSpace(parts[i]);
      if value == "" {
        continue;
      }
      if value in seen {
        continue;
      }
      values := values + [value];
      seen := seen + {value};
    }
    assert parts[..|parts|] == parts;
  }

  // x is the trimmed form of some entry
  ghost predicate Occurs(kinds: seq<string>, x: string) {
    exists i :: 0 <= i < |kinds| && TrimSpace(kinds[i]) == x
  }

  // i is where x first shows up in kinds, once trimmed.
  ghost predicate FirstAt(kinds: seq<string>, x: string, i: int) {
    0 <= i < |kinds| && TrimSpace(kinds[i]) == x && forall j :: 0 <= j < i ==> TrimSpace(kinds[j]) != x
  }

  ghost predicate Distinct(out: seq<string>) {
    forall a, b :: 0 <= a < b < |out| ==> out[a] != out[b]
  }

  // The result is made of exactly the trimmed nonempty entries, each once.
  lemma {:induction false} NormalizeMembers(kinds: seq<string>)
    ensures forall x :: x in Normalize(kinds) <==> x != "" && Occurs(kinds, x)
    ensures Distinct(Normalize(kinds))
  {
    if kinds != [] {
      var n := |kinds| - 1;
      var front, last := kinds[..n], TrimSpace(kinds[n]);
      NormalizeMembers(front);
      forall x ensures Occurs(kinds, x) <==> Occurs(front, x) || x == last {
        if Occurs(front, x) {
          var i :| 0 <= i < |front| && TrimSpace(front[i]) == x;
          assert TrimSpace(kinds[i]) == x;
        }
        if Occurs(kinds, x) {
          var i :| 0 <= i < |kinds| && TrimSpace(kinds[i]) == x;
          assert i < n ==> TrimSpace(front[i]) == x;
        }
      }
    }
  }

  // The result is ordered by first occurrence.
  lemma {:induction false} NormalizeOrder(kinds: seq<string>, a: int, b: int, i: int, j: int)
    requires 0 <= a < b < |Normalize(kinds)|
    requires FirstAt(kinds, Normalize(kinds)[a], i) && FirstAt(kinds, Normalize(kinds)[b], j)
    ensures i < j
  {
    var n := |kinds| - 1;
    var front, out := kinds[..n], Normalize(kinds);
    var before := Normalize(front);
    assert out == before || out == before + [TrimSpace(kinds[n])];
    NormalizeMembers(kinds);
    assert out[a] in out && out[b] in out;
    assert out[a] == before[a];
    FirstInFront(kinds, out[a], i);
    FirstInFront(kinds, out[b], j);
    if b < |before| {
      NormalizeOrder(front, a, b, i, j);
    } else {
      LastIsNew(kinds);
    }
  }

  lemma LastIsNew(kinds: seq<string>)
    requires kinds != []
    ensures var before, out := Normalize(kinds[..|kinds| - 1]), Normalize(kinds);
      |out| > |before| ==> out[|before|] !in before
  {
  }

  lemma FirstInFront(kinds: seq<string>, x: string, i: int)
    requires kinds != [] && x != "" && FirstAt(kinds, x, i)
    ensures x in Normalize(kinds[..|kinds| - 1]) ==> FirstAt(kinds[..|kinds| - 1], x, i)
    ensures x !in Normalize(kinds[..|kinds| - 1]) ==> i == |kinds| - 1
  {
    var front := kinds[..|kinds| - 1];
    NormalizeMembers(front);
    assert i < |front| ==> front[i] == kinds[i] && Occurs(front, x);
    if Occurs(front, x) {
      var k :| 0 <= k < |front| && TrimSpace(front[k]) == x;
      assert TrimSpace(kinds[k]) == x;
      assert i <= k;
      forall j | 0 <= j < i ensures TrimSpace(front[j]) != x {
        assert front[j] == kinds[j];
      }
    }
  }

  lemma {:induction false} NormalizeOfNormal(out: seq<string>)
    requires forall a :: 0 <= a < |out| ==> out[a] != "" && TrimSpace(out[a]) == out[a]
    requires Distinct(out)
    ensures Normalize(out) == out
  {
    if out != [] {
      var front := out[..|out| - 1];
      NormalizeOfNormal(front);
      assert out[|out| - 1] !in front;
      assert out == front + [out[|out| - 1]];
    }
  }

  lemma NormalizeIdempotent(kinds: seq<string>)
    ensures Normalize(Normalize(kinds)) == Normalize(kinds)
    ensures forall x :: x in Normalize(kinds) ==> x != "" && TrimSpace(x) == x
  {
    NormalizeMembers(kinds);
    var out := Normalize(kinds);
    forall x | x in out ensures TrimSpace(x) == x {
      assert Occurs(kinds, x);
      var i :| 0 <= i < |kinds| && TrimSpace(kinds[i]) == x;
      TrimTight(kinds[i], IsSpace);
      TrimTight(x, IsSpace);
    }
    forall a | 0 <= a < |out| ensures out[a] != "" && TrimSpace(out[a]) == out[a] {
      assert out[a] in out;
    }
    NormalizeOfNormal(out);
  }

  // Parsing the comma-join of a list gives what normalising the list gives.
  lemma CommaListRoundTrip(kinds: seq<string>)
    requires forall i :: 0 <= i < |kinds| ==> ',' !in kinds[i]
    ensures Normalize(Split(Join(kinds, ','), ',')) == Normalize(kinds)
  {
    if kinds == [] {
      assert Split("", ',') == [""];
      assert [""][..0] == [];
      TrimTight("", IsSpace);
    } else {
      SplitJoin(kinds, ',');
    }
  }

  function KindSet(kinds: seq<string>): set<string> {
    set k | k in kinds
  }

  method CollectKinds(kinds: seq<string>) returns (out: set<string>)
    ensures out == KindSet(kinds)
  {
    out := {};
    for i := 0 to |kinds|
      invariant out == KindSet(kinds[..i])
    {
      out := out + {kinds[i]};
    }
    assert kinds[..|kinds|] == kinds;
  }

  // The kinds an operator lets any set manage.
  function Cap(operatorKinds: seq<string>): set<string> {
    var listed := Normalize(operatorKinds);
    KindSet(if |listed| == 0 then Normalize(DEFAULT_KINDS) else listed)
  }

  // None when the set asks for a kind outside the cap
  function Allowed(operatorKinds: seq<string>, setKinds: seq<string>): Option<set<string>> {
    var requested := Normalize(setKinds);
    if exists i :: 0 <= i < |requested| && requested[i] !in Cap(operatorKinds) then None
    else if |requested| == 0 then Some(Cap(operatorKinds))
    else Some(KindSet(requested))
  }

  method AllowedKindsFor(operatorKinds: seq<string>, setKinds: seq<string>) returns (allowed: Option<set<string>>)
    ensures allowed == Allowed(operatorKinds, setKinds)
  {
    var limit := NormalizeKindList(operatorKinds);
    if |limit| == 0 {
      limit := NormalizeKindList(DEFAULT_KINDS);
    }
    var capSet := CollectKinds(limit);
    var requested := NormalizeKindList(setKinds);
    for i := 0 to |requested|
      invariant forall j :: 0 <= j < i ==> requested[j] in capSet
    {
      if requested[i] !in capSet {
        return None;
      }
    }
    if |requested| == 0 {
      return Some(capSet);
    }
    var kinds := CollectKinds(requested);
    return Some(kinds);
  }

  // A set can narrow the cap and never widen it; a list it gives is taken at its word or refused whole.
  lemma NarrowsOnly(operatorKinds: seq<string>, setKinds: seq<string>)
    ensures var allowed := Allowed(operatorKinds, setKinds);
      && (allowed.Some? ==> allowed.value <= Cap(operatorKinds))
      && (allowed.Some? && Normalize(setKinds) != [] ==> allowed.value == KindSet(Normalize(setKinds)))
      && (allowed.None? <==> !(KindSet(Normalize(setKinds)) <= Cap(operatorKinds)))
      && Cap(operatorKinds) != {}
  {
    var requested := Normalize(setKinds);
    if i :| 0 <= i < |requested| && requested[i] !in Cap(operatorKinds) {
      assert requested[i] in KindSet(requested);
    }
    DefaultCap();
    assert |Normalize(operatorKinds)| > 0 ==> Normalize(operatorKinds)[0] in Cap(operatorKinds);
  }

  lemma DefaultCap()
    ensures KindSet(Normalize(DEFAULT_KINDS)) == {"Deployment", "InferenceCell", "InferenceCellSet"}
    ensures forall op :: Normalize(op) == [] ==> Cap(op) == {"Deployment", "InferenceCell", "InferenceCellSet"}
  {
    forall k | k in DEFAULT_KINDS ensures TrimSpace(k) == k {
      TrimTight(k, IsSpace);
    }
    NormalizeOfNormal(DEFAULT_KINDS);
  }

  // The list has an entry that is more than white space.
  ghost predicate Lists(kinds: seq<string>) {
    exists x :: x != "" && Occurs(kinds, x)
  }

  // The operator lets sets manage this kind: his list names it, or he gave none and it is one of the three built in.
  ghost predicate Permits(operatorKinds: seq<string>, kind: string) {
    if Lists(operatorKinds) then kind != "" && Occurs(operatorKinds, kind)
    else kind in {"Deployment", "InferenceCell", "InferenceCellSet"}
  }

  lemma CapMeaning(operatorKinds: seq<string>)
    ensures forall kind :: kind in Cap(operatorKinds) <==> Permits(operatorKinds, kind)
  {
    NormalizeMembers(operatorKinds);
    DefaultCap();
    var listed := Normalize(operatorKinds);
    if listed != [] {
      assert listed[0] in listed;
    }
  }

  // What a set may manage, in terms of what was written into the two lists: the set's own list is refused exactly when
  // it names a kind the operator does not permit, and otherwise narrows what he permits.
  lemma AllowedExactly(operatorKinds: seq<string>, setKinds: seq<string>)
    ensures var allowed := Allowed(operatorKinds, setKinds);
      && (allowed.Some? <==> forall x :: x != "" && Occurs(setKinds, x) ==> Permits(operatorKinds, x))
      && (allowed.Some? ==> forall kind :: kind in allowed.value <==>
            Permits(operatorKinds, kind) && (Lists(setKinds) ==> Occurs(setKinds, kind)))
  {
    CapMeaning(operatorKinds);
    NormalizeMembers(setKinds);
    NarrowsOnly(operatorKinds, setKinds);
    var requested := Normalize(setKinds);
    assert requested != [] ==> requested[0] in requested;
  }

  // An operator who lists kinds, and a set that does not: exactly the operator's are allowed.
  lemma OperatorListRules(operatorKinds: seq<string>, setKinds: seq<string>, kind: string)
    requires kind != "" && Lists(operatorKinds) && !Lists(setKinds)
    ensures Allowed(operatorKinds, setKinds).Some?
    ensures kind in Allowed(operatorKinds, setKinds).value <==> Occurs(operatorKinds, kind)
  {
    AllowedExactly(operatorKinds, setKinds);
  }
}
