/** What a manifest names, how the operator compares names, and what a k1s delete request addresses. */
module Resources {
  import opened Wrappers
  import opened Digests

  // What json.Unmarshal finds in a manifest's header.
  datatype Header = NotJson | Header(kind: string, namespace: string, name: string)

  type Decoder = Raw -> Header

  datatype Key = Key(kind: string, namespace: string, name: string)

  // K1sManagedResourceStatus, one inventory entry
  datatype Resource = Resource(kind: string, namespace: string, name: string, hash: Digest)

  function KeyOf(r: Resource): Key {
    Key(r.kind, r.namespace, r.name)
  }

  function OrDefault(namespace: string): string {
    if namespace == "" then "default" else namespace
  }

  // Where k1s files the manifest it is asked to apply.
  function ManifestKey(decode: Decoder, raw: Raw): Key {
    match decode(raw)
    case NotJson => Key("", "default", "")
    case Header(kind, namespace, name) => Key(kind, OrDefault(namespace), name)
  }

  // managedResourceFromManifest
  function ManagedResource(decode: Decoder, raw: Raw): (r: Option<Resource>)
    ensures r.Some? ==> KeyOf(r.value) == ManifestKey(decode, raw) && r.value.kind != "" && r.value.name != ""
  {
    match decode(raw)
    case NotJson => None
    case Header(kind, namespace, name) =>
      if kind == "" || name == "" then None
      else Some(Resource(kind, OrDefault(namespace), name, HashBytes(raw)))
  }

  // managedResourceKey
  function KeyString(r: Resource): string {
    r.kind + "/" + r.namespace + "/" + r.name
  }

  // resourceDeleteName
  function DeleteName(namespace: string, name: string): string {
    if namespace != "" && namespace != "default" then namespace + "--" + name else name
  }

  datatype Target =
    | AppTarget(app: string)
    | CellTarget(namespace: string, name: string)
    | CellSetTarget(namespace: string, name: string)

  // What a delete request for this key addresses; None for a kind that cannot be deleted.
  function TargetOf(k: Key): Option<Target> {
    if k.kind == "Deployment" then Some(AppTarget(DeleteName(k.namespace, k.name)))
    else if k.kind == "InferenceCell" then Some(CellTarget(k.namespace, k.name))
    else if k.kind == "InferenceCellSet" then Some(CellSetTarget(k.namespace, k.name))
    else None
  }

  predicate SlashFree(s: string) {
    '/' !in s
  }

  predicate DashPairFree(s: string) {
    forall i :: 0 <= i < |s| - 1 ==> !(s[i] == '-' && s[i + 1] == '-')
  }

  // A key whose text form and delete name say which key it is.
  predicate WellNamed(k: Key) {
    && k.namespace != "" && SlashFree(k.kind) && SlashFree(k.namespace)
    && if k.namespace == "default" then DashPairFree(k.name)
       else DashPairFree(k.namespace) && k.namespace[|k.namespace| - 1] != '-'
  }

  // a ends at the first place where sep occurs in a + sep + x, so equal texts were joined from equal parts.
  lemma SameHead(a: string, b: string, x: string, y: string)
    requires SlashFree(a) && SlashFree(b)
    requires a + "/" + x == b + "/" + y
    ensures a == b && x == y
  {
    var s, t := a + "/" + x, b + "/" + y;
    assert s[|a|] == '/' && t[|b|] == '/';
    assert forall i :: 0 <= i < |a| ==> s[i] == a[i] && a[i] in a;
    assert forall i :: 0 <= i < |b| ==> t[i] == b[i] && b[i] in b;
    assert |a| == |b|;
    assert a == s[..|a|] && b == t[..|b|];
    assert x == s[|a| + 1..] && y == t[|b| + 1..];
  }

  lemma KeyStringInjective(r1: Resource, r2: Resource)
    requires SlashFree(r1.kind) && SlashFree(r1.namespace) && SlashFree(r2.kind) && SlashFree(r2.namespace)
    ensures KeyString(r1) == KeyString(r2) <==> KeyOf(r1) == KeyOf(r2)
  {
    if KeyString(r1) == KeyString(r2) {
      var x1, x2 := r1.namespace + "/" + r1.name, r2.namespace + "/" + r2.name;
      assert KeyString(r1) == r1.kind + "/" + x1 && KeyString(r2) == r2.kind + "/" + x2;
      SameHead(r1.kind, r2.kind, x1, x2);
      SameHead(r1.namespace, r2.namespace, r1.name, r2.name);
    }
  }

  // Where the first "--" of a delete name in a non-default namespace is.
  lemma FirstDashPair(ns: string, name: string, i: int)
    requires ns != "" && DashPairFree(ns) && ns[|ns| - 1] != '-'
    requires 0 <= i < |ns + "--" + name| - 1
    ensures var s := ns + "--" + name; s[i] == '-' && s[i + 1] == '-' ==> i >= |ns|
  {
    var s := ns + "--" + name;
    if i < |ns| - 1 {
      assert s[i] == ns[i] && s[i + 1] == ns[i + 1];
    }
  }

  lemma DeleteNameInjective(ns1: string, n1: string, ns2: string, n2: string)
    requires WellNamed(Key("Deployment", ns1, n1)) && WellNamed(Key("Deployment", ns2, n2))
    requires DeleteName(ns1, n1) == DeleteName(ns2, n2)
    ensures ns1 == ns2 && n1 == n2
  {
    var s, t := ns1 + "--" + n1, ns2 + "--" + n2;
    assert s[|ns1|] == '-' && s[|ns1| + 1] == '-' && t[|ns2|] == '-' && t[|ns2| + 1] == '-';
    if ns1 != "default" && ns2 != "default" {
      FirstDashPair(ns1, n1, |ns2|);
      FirstDashPair(ns2, n2, |ns1|);
      assert ns1 == s[..|ns1|] && ns2 == t[..|ns2|];
      assert n1 == s[|ns1| + 2..] && n2 == t[|ns2| + 2..];
    }
  }

  // No delete request for one well-named key addresses another.
  lemma TargetInjective(k1: Key, k2: Key)
    requires WellNamed(k1) && WellNamed(k2)
    ensures TargetOf(k1).Some? && TargetOf(k1) == TargetOf(k2) ==> k1 == k2
  {
    if TargetOf(k1).Some? && TargetOf(k1) == TargetOf(k2) && k1.kind == "Deployment" {
      DeleteNameInjective(k1.namespace, k1.name, k2.namespace, k2.name);
    }
  }

  // With slashes, two keys can have one text, so that one is taken for the other when stale entries are looked for.
  lemma KeyStringsAlias(hash: Digest)
    ensures KeyString(Resource("Deployment", "a/b", "c", hash)) == KeyString(Resource("Deployment", "a", "b/c", hash))
    ensures KeyOf(Resource("Deployment", "a/b", "c", hash)) != KeyOf(Resource("Deployment", "a", "b/c", hash))
  {
    assert "Deployment" + "/" + "a/b" + "/" + "c" == "Deployment/a/b/c" == "Deployment" + "/" + "a" + "/" + "b/c";
    assert |"a/b"| != |"a"|;
  }

  // Without the name conditions, two Deployments can share a delete name.
  lemma DeleteNamesAlias()
    ensures TargetOf(Key("Deployment", "default", "a--b")) == TargetOf(Key("Deployment", "a", "b"))
    ensures TargetOf(Key("Deployment", "a-", "b")) == TargetOf(Key("Deployment", "a", "-b"))
  {
    assert "a" + "--" + "b" == "a--b";
    assert "a-" + "--" + "b" == "a" + "--" + "-b";
  }
}
