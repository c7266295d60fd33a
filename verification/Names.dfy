/** internal/controller/names.go: names for the Kubernetes objects an exposure owns. */
module Names {
  import opened Text

  const MAX_LABEL: nat := 63

  predicate IsDash(c: char) { c == '-' }

  predicate DashOrDot(c: char) { c == '-' || c == '.' }

  function Underscore(c: char): char {
    if c == '_' then '-' else c
  }

  // strings.ReplaceAll(value, "_", "-")
  function ReplaceUnderscores(s: string): (r: string)
    ensures |r| == |s| && forall i :: 0 <= i < |s| ==> r[i] == Underscore(s[i])
  {
    if s == "" then "" else [Underscore(s[0])] + ReplaceUnderscores(s[1..])
  }

  // The value before it is cut to length. ToLower is the ASCII part of strings.ToLower.
  function Core(value: string): string {
    Trim(ReplaceUnderscores(ToLower(TrimSpace(value))), DashOrDot)
  }

  function Cut(value: string): string {
    if |value| > MAX_LABEL then TrimRight(value[..MAX_LABEL], IsDash) else value
  }

  function DnsLabel(value: string): string {
    var cut := Cut(Core(value));
    if cut == "" then "k1s" else cut
  }

  predicate LabelChar(c: char) {
    'a' <= c <= 'z' || '0' <= c <= '9' || c == '-'
  }

  // Section 2.1 of RFC 1123 with the length limit of section 2.3.4 of RFC 1035
  predicate IsLabel(s: string) {
    && 1 <= |s| <= MAX_LABEL
    && (forall i :: 0 <= i < |s| ==> LabelChar(s[i]))
    && s[0] != '-' && s[|s| - 1] != '-'
  }

  // What names are made of here: a Kubernetes name, with letters of either case and underscores besides
  predicate NameChar(c: char) {
    'a' <= c <= 'z' || 'A' <= c <= 'Z' || '0' <= c <= '9' || c == '-' || c == '_' || c == '.'
  }

  predicate NameText(s: string) {
    forall i :: 0 <= i < |s| ==> NameChar(s[i])
  }

  lemma CoreChars(value: string)
    requires NameText(value)
    ensures forall i :: 0 <= i < |Core(value)| ==> LabelChar(Core(value)[i]) || Core(value)[i] == '.'
    ensures Tight(Core(value), DashOrDot)
    ensures '.' in Core(value) ==> '.' in value
  {
    var trimmed := TrimSpace(value);
    TrimChars(value, IsSpace);
    forall c | c in trimmed ensures NameChar(c) {
      assert c in value;
    }
    assert NameText(trimmed);
    MappedChars(trimmed);
    var mapped := ReplaceUnderscores(ToLower(trimmed));
    TrimChars(mapped, DashOrDot);
    TrimTight(mapped, DashOrDot);
    forall i | 0 <= i < |Core(value)| ensures LabelChar(Core(value)[i]) || Core(value)[i] == '.' {
      assert Core(value)[i] in mapped;
    }
  }

  lemma MappedChars(s: string)
    requires NameText(s)
    ensures var mapped := ReplaceUnderscores(ToLower(s));
      forall c :: c in mapped ==> LabelChar(c) || (c == '.' && c in s)
  {
    var lower := ToLower(s);
    var mapped := ReplaceUnderscores(lower);
    forall c | c in mapped ensures LabelChar(c) || (c == '.' && c in s) {
      var i :| 0 <= i < |mapped| && mapped[i] == c;
      assert NameChar(s[i]) && lower[i] == LowerChar(s[i]) && c == Underscore(lower[i]);
    }
  }

  lemma CutLabel(core: string)
    requires forall i :: 0 <= i < |core| ==> LabelChar(core[i]) || core[i] == '.'
    requires Tight(core, DashOrDot) && core != ""
    ensures var cut := Cut(core);
      && 1 <= |cut| <= MAX_LABEL && cut <= core && cut[0] != '-' && cut[0] != '.' && cut[|cut| - 1] != '-'
      && (forall i :: |cut| <= i < |core| && i < MAX_LABEL ==> core[i] == '-')
  {
    if |core| > MAX_LABEL {
      var head := core[..MAX_LABEL];
      var n := TrimRightParts(head, IsDash);
      assert n == 0 ==> IsDash(head[0]);
      assert forall i :: n <= i < MAX_LABEL ==> head[i] == core[i];
    }
  }

  // A name becomes a DNS label exactly when no dot is among the first 63 characters of its trimmed form.
  lemma LabelExactly(value: string)
    requires NameText(value)
    ensures var core := Core(value);
      IsLabel(DnsLabel(value)) <==> '.' !in (if |core| > MAX_LABEL then core[..MAX_LABEL] else core)
  {
    var core := Core(value);
    CoreChars(value);
    if core == "" {
      assert IsLabel("k1s");
    } else {
      CutLabel(core);
      var cut := Cut(core);
      var head := if |core| > MAX_LABEL then core[..MAX_LABEL] else core;
      if '.' in head {
        var i :| 0 <= i < |head| && head[i] == '.';
        assert i < |cut| && cut[i] == '.';
      } else {
        forall i | 0 <= i < |cut| ensures LabelChar(cut[i]) {
          assert cut[i] == head[i] && head[i] in head;
        }
      }
    }
  }

  // Without dots the result always is a label.
  lemma DotFreeNamesBecomeLabels(value: string)
    requires NameText(value) && '.' !in value
    ensures IsLabel(DnsLabel(value))
  {
    CoreChars(value);
    LabelExactly(value);
  }

  lemma LowerCaseKept(s: string)
    requires forall i :: 0 <= i < |s| ==> LabelChar(s[i])
    ensures ReplaceUnderscores(ToLower(s)) == s
  {
    var lower := ToLower(s);
    assert forall i :: 0 <= i < |s| ==> lower[i] == s[i];
    assert lower == s;
    var replaced := ReplaceUnderscores(s);
    assert forall i :: 0 <= i < |s| ==> replaced[i] == s[i];
    assert replaced == s;
  }

  // Text of label characters with no dash at either end is not touched before the cut.
  lemma LabelTextIsCore(s: string)
    requires s != "" && (forall i :: 0 <= i < |s| ==> LabelChar(s[i])) && s[0] != '-' && s[|s| - 1] != '-'
    ensures Core(s) == s
  {
    assert LabelChar(s[0]) && LabelChar(s[|s| - 1]);
    TrimTight(s, IsSpace);
    LowerCaseKept(s);
    TrimTight(s, DashOrDot);
  }

  // A label is left as it is.
  lemma LabelsAreFixed(s: string)
    requires IsLabel(s)
    ensures DnsLabel(s) == s
  {
    LabelTextIsCore(s);
  }

  lemma DnsLabelIdempotent(value: string)
    requires NameText(value) && '.' !in value
    ensures DnsLabel(DnsLabel(value)) == DnsLabel(value)
  {
    DotFreeNamesBecomeLabels(value);
    LabelsAreFixed(DnsLabel(value));
  }

  // A dotted name, which Kubernetes allows for an exposure, keeps its dot.
  lemma DotsSurvive()
    ensures DnsLabel("a.b") == "a.b" && !IsLabel(DnsLabel("a.b"))
  {
    TrimTight("a.b", IsSpace);
    TrimTight("a.b", DashOrDot);
    assert ToLower("a.b") == "a.b";
    assert ReplaceUnderscores("a.b") == "a.b";
    assert "a.b"[1] == '.';
  }

  // A name of dashes and underscores has no label in it, and becomes the operator's own.
  lemma NothingLeft(value: string)
    requires forall i :: 0 <= i < |value| ==> value[i] == '-' || value[i] == '_'
    ensures DnsLabel(value) == "k1s"
  {
    TrimTight(value, IsSpace);
    var lower := ToLower(value);
    var mapped := ReplaceUnderscores(lower);
    assert forall i :: 0 <= i < |value| ==> lower[i] == value[i] && mapped[i] == '-';
    AllTrimmed(mapped, DashOrDot);
  }

  predicate Padding(s: string) {
    forall i :: 0 <= i < |s| ==> s[i] in {'-', '.', '_'}
  }

  lemma NoSpaceAround(a: string, s: string, b: string)
    requires IsLabel(s) && Padding(a) && Padding(b)
    ensures TrimSpace(a + s + b) == a + s + b
  {
    var value := a + s + b;
    assert LabelChar(s[0]) && LabelChar(s[|s| - 1]);
    assert value[0] == (if a != "" then a[0] else s[0]);
    assert value[|value| - 1] == (if b != "" then b[|b| - 1] else s[|s| - 1]);
    TrimTight(value, IsSpace);
  }

  lemma PaddedMapped(a: string, s: string, b: string)
    requires IsLabel(s) && Padding(a) && Padding(b)
    ensures ReplaceUnderscores(ToLower(a + s + b)) ==
            ReplaceUnderscores(ToLower(a)) + s + ReplaceUnderscores(ToLower(b))
  {
    MappedParts(a + s, b);
    MappedParts(a, s);
    LowerCaseKept(s);
  }

  // Dashes, dots and underscores around a label go.
  lemma PaddingGoes(a: string, s: string, b: string)
    requires IsLabel(s) && Padding(a) && Padding(b)
    ensures DnsLabel(a + s + b) == s
  {
    NoSpaceAround(a, s, b);
    PaddedMapped(a, s, b);
    PaddingMapped(a);
    PaddingMapped(b);
    assert Tight(s, DashOrDot) by {
      assert LabelChar(s[0]) && LabelChar(s[|s| - 1]);
    }
    TrimPadding(ReplaceUnderscores(ToLower(a)), s, ReplaceUnderscores(ToLower(b)), DashOrDot);
  }

  lemma PaddingMapped(a: string)
    requires Padding(a)
    ensures var mapped := ReplaceUnderscores(ToLower(a)); forall i :: 0 <= i < |mapped| ==> DashOrDot(mapped[i])
  {
    var lower := ToLower(a);
    var mapped := ReplaceUnderscores(lower);
    forall i | 0 <= i < |mapped| ensures DashOrDot(mapped[i]) {
      assert lower[i] == a[i] && mapped[i] == Underscore(lower[i]);
    }
  }

  lemma MappedParts(a: string, b: string)
    ensures ReplaceUnderscores(ToLower(a + b)) == ReplaceUnderscores(ToLower(a)) + ReplaceUnderscores(ToLower(b))
  {
    var lower, lowerA, lowerB := ToLower(a + b), ToLower(a), ToLower(b);
    assert forall i :: 0 <= i < |a + b| ==> lower[i] == (lowerA + lowerB)[i];
    assert lower == lowerA + lowerB;
    var mapped, parts := ReplaceUnderscores(lower), ReplaceUnderscores(lowerA) + ReplaceUnderscores(lowerB);
    assert forall i :: 0 <= i < |mapped| ==> mapped[i] == parts[i];
  }

  // Letters become lower case and underscores dashes, place by place, where nothing is trimmed or cut.
  lemma MappedInPlace(value: string)
    requires 1 <= |value| <= MAX_LABEL && NameText(value)
    requires value[0] !in {'-', '_', '.'} && value[|value| - 1] !in {'-', '_', '.'}
    ensures |DnsLabel(value)| == |value|
    ensures forall i :: 0 <= i < |value| ==>
      DnsLabel(value)[i] == if value[i] == '_' then '-'
                            else if 'A' <= value[i] <= 'Z' then (value[i] as int + 32) as char else value[i]
  {
    CoreIsMapped(value);
    CharsMapped(value);
  }

  lemma InnerChar(c: char)
    requires NameChar(c) && c !in {'-', '_', '.'}
    ensures !IsSpace(c) && !DashOrDot(Underscore(LowerChar(c)))
  {
  }

  lemma CoreIsMapped(value: string)
    requires value != "" && NameText(value)
    requires value[0] !in {'-', '_', '.'} && value[|value| - 1] !in {'-', '_', '.'}
    ensures Core(value) == ReplaceUnderscores(ToLower(value))
  {
    InnerChar(value[0]);
    InnerChar(value[|value| - 1]);
    TrimTight(value, IsSpace);
    TrimTight(ReplaceUnderscores(ToLower(value)), DashOrDot);
  }

  lemma CharsMapped(value: string)
    requires NameText(value)
    ensures var mapped := ReplaceUnderscores(ToLower(value));
      && |mapped| == |value|
      && forall i :: 0 <= i < |value| ==>
           mapped[i] == if value[i] == '_' then '-'
                        else if 'A' <= value[i] <= 'Z' then (value[i] as int + 32) as char else value[i]
  {
    var lower := ToLower(value);
    assert forall i :: 0 <= i < |value| ==> ReplaceUnderscores(lower)[i] == Underscore(lower[i]);
  }

  function ServiceName(explicitName: string, exposure: string): string {
    if explicitName != "" then explicitName else DnsLabel(exposure + "-k1s")
  }

  function EndpointSliceName(explicitName: string, exposure: string): string {
    DnsLabel(ServiceName(explicitName, exposure) + "-proxy")
  }

  // A label with more label characters at its end is a label too, and kept, as long as it is short enough.
  lemma LongerLabel(s: string, suffix: string)
    requires IsLabel(s) && suffix != "" && |s| + |suffix| <= MAX_LABEL
    requires (forall i :: 0 <= i < |suffix| ==> LabelChar(suffix[i])) && suffix[|suffix| - 1] != '-'
    ensures IsLabel(s + suffix) && DnsLabel(s + suffix) == s + suffix
  {
    LabelsAreFixed(s + suffix);
  }

  lemma ShortNameKept(exposure: string)
    requires IsLabel(exposure) && |exposure| <= 59
    ensures ServiceName("", exposure) == exposure + "-k1s" && IsLabel(ServiceName("", exposure))
  {
    LongerLabel(exposure, "-k1s");
  }

  // A service that is given a name keeps it, and its endpoint slice is named after it.
  lemma ExplicitNameKept(explicitName: string, exposure: string)
    requires IsLabel(explicitName) && |explicitName| <= 57
    ensures ServiceName(explicitName, exposure) == explicitName
    ensures EndpointSliceName(explicitName, exposure) == explicitName + "-proxy"
  {
    SliceNamedAfter(explicitName);
  }

  lemma SameFront(a: string, b: string, s: string, t: string)
    ensures a + s + t == b + s + t ==> a == b
  {
    var x, y := a + s + t, b + s + t;
    assert a == x[..|x| - |s| - |t|] && b == y[..|y| - |s| - |t|];
  }

  // Exposures with different short names get different services,
  lemma ServiceNamesInjective(a: string, b: string)
    requires IsLabel(a) && IsLabel(b) && |a| <= 59 && |b| <= 59
    ensures ServiceName("", a) == ServiceName("", b) <==> a == b
  {
    ShortNameKept(a);
    ShortNameKept(b);
    SameFront(a, b, "-k1s", "");
    assert a + "-k1s" + "" == a + "-k1s" && b + "-k1s" + "" == b + "-k1s";
  }

  lemma ShortSliceKept(exposure: string)
    requires IsLabel(exposure) && |exposure| <= 53
    ensures EndpointSliceName("", exposure) == exposure + "-k1s" + "-proxy"
  {
    ShortNameKept(exposure);
    SliceNamedAfter(exposure + "-k1s");
  }

  lemma SliceNamedAfter(service: string)
    requires IsLabel(service) && |service| <= 57
    ensures DnsLabel(service + "-proxy") == service + "-proxy"
  {
    LongerLabel(service, "-proxy");
  }

  // and with names of at most 53 characters different endpoint slices.
  lemma EndpointSliceNamesInjective(a: string, b: string)
    requires IsLabel(a) && IsLabel(b) && |a| <= 53 && |b| <= 53
    ensures EndpointSliceName("", a) == EndpointSliceName("", b) <==> a == b
  {
    ShortSliceKept(a);
    ShortSliceKept(b);
    SameFront(a, b, "-k1s", "-proxy");
  }

  // Past 59 characters the cut makes names meet: 60 characters, and the same with "-k1" at the end.
  lemma LongNamesCollide(a: string)
    requires IsLabel(a) && |a| == 60 && IsLabel(a + "-k1")
    ensures ServiceName("", a) == ServiceName("", a + "-k1")
  {
    var x, y := a + "-k1s", a + "-k1" + "-k1s";
    LongCore(x);
    LongCore(y);
    assert x[..63] == a + "-k1" == y[..63];
  }

  // A long text of label characters that neither starts nor ends in a dash is only cut.
  lemma LongCore(s: string)
    requires |s| > 63 && (forall i :: 0 <= i < |s| ==> LabelChar(s[i])) && s[0] != '-' && s[|s| - 1] != '-'
    requires s[62] != '-'
    ensures DnsLabel(s) == s[..63]
  {
    LabelTextIsCore(s);
    assert TrimRight(s[..63], IsDash) == s[..63];
  }
}
