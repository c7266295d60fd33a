/** expectedStatusRange in internal/controller/traffic_probe.go. */
module StatusRange {
  import opened Wrappers
  import opened Text

  datatype Range = Range(lower: int, upper: int)

  // Where the first dash is, or the length
  function FirstDash(s: string): (i: nat)
    ensures i <= |s| && (i < |s| ==> s[i] == '-') && forall j :: 0 <= j < i ==> s[j] != '-'
  {
    if s == "" || s[0] == '-' then 0 else 1 + FirstDash(s[1..])
  }

  // strings.SplitN(raw, "-", 2), two Atoi calls and a comparison; None is any of the three errors
  function ExpectedStatusRange(raw: string): Option<Range> {
    if raw == "" then Some(Range(200, 399))
    else
      var i := FirstDash(raw);
      match Atoi(raw[..i])
      case Parsed(lower) =>
        if i == |raw| then Some(Range(lower, lower))
        else
          (match Atoi(raw[i + 1..])
           case Parsed(upper) => if lower > upper then None else Some(Range(lower, upper))
           case _ => None)
      case _ => None
  }

  lemma DigitsHaveNoDash(s: string, t: string)
    requires AllDigits(s)
    ensures FirstDash(s + "-" + t) == |s| && FirstDash(s) == |s|
  {
    var whole := s + "-" + t;
    assert whole[|s|] == '-';
    assert forall i :: 0 <= i < |s| ==> whole[i] == s[i] && IsDigit(s[i]);
  }

  // Writing a range down and parsing it gives the range back, and an inverted one is refused.
  lemma RangeRoundTrip(lower: nat, upper: nat)
    requires lower <= MAX_INT && upper <= MAX_INT
    ensures ExpectedStatusRange(Decimal(lower) + "-" + Decimal(upper)) ==
            if lower <= upper then Some(Range(lower, upper)) else None
    ensures ExpectedStatusRange(Decimal(lower)) == Some(Range(lower, lower))
  {
    var whole := Decimal(lower) + "-" + Decimal(upper);
    DigitsHaveNoDash(Decimal(lower), Decimal(upper));
    AtoiDecimal(lower);
    AtoiDecimal(upper);
    var i := FirstDash(whole);
    assert whole[..i] == Decimal(lower) && whole[i + 1..] == Decimal(upper);
    assert Decimal(lower)[..|Decimal(lower)|] == Decimal(lower);
  }

  // No text means any status code from 200 to 399.
  lemma DefaultRange()
    ensures ExpectedStatusRange("") == Some(Range(200, 399))
  {
  }

  lemma DashBefore(raw: string, i: nat, j: nat)
    requires i < |raw| && j <= |raw| && raw[i] == '-'
    ensures i < j ==> '-' in raw[..j]
  {
    if i < j {
      assert raw[..j][i] == '-';
    }
  }

  // Which texts give a range: a number, or two numbers in order around the first dash.
  lemma ParsesExactly(raw: string)
    requires raw != ""
    ensures ExpectedStatusRange(raw).Some? <==>
      || ('-' !in raw && Atoi(raw).Parsed?)
      || exists i {:trigger raw[i]} :: 0 <= i < |raw| && raw[i] == '-' && '-' !in raw[..i]
           && Atoi(raw[..i]).Parsed? && Atoi(raw[i + 1..]).Parsed? && Atoi(raw[..i]).n <= Atoi(raw[i + 1..]).n
  {
    var i := FirstDash(raw);
    assert raw[..|raw|] == raw;
    assert '-' !in raw[..i];
    if i < |raw| {
      assert raw[i] in raw;
      forall j | 0 <= j < |raw| && raw[j] == '-' && '-' !in raw[..j] ensures j == i {
        DashBefore(raw, i, j);
      }
    }
  }

  // A parse that succeeds gives a range in order, whatever the text.
  lemma ParsedRangeInOrder(raw: string)
    ensures var r := ExpectedStatusRange(raw); r.Some? ==> r.value.lower <= r.value.upper
  {
  }

  // Three digits, the first of them 1 to 5
  predicate Code(s: string) {
    |s| == 3 && '1' <= s[0] <= '5' && AllDigits(s)
  }

  lemma CodeValue(s: string)
    requires Code(s)
    ensures Atoi(s).Parsed? && 100 <= Atoi(s).n <= 599 && Atoi(s).n == DigitsValue(s)
  {
    assert s[..2][..1] == s[..1] && s[..1][..0] == "";
    assert IsDigit(s[0]) && IsDigit(s[1]) && IsDigit(s[2]);
    assert DigitsValue(s[..1]) == s[0] as int - '0' as int;
    assert DigitsValue(s[..2]) == 10 * DigitsValue(s[..1]) + (s[1] as int - '0' as int);
    assert DigitsValue(s) == 10 * DigitsValue(s[..2]) + (s[2] as int - '0' as int);
  }

  // Every text the CRD's pattern lets through parses to codes between 100 and 599, unless it is inverted.
  lemma PatternParses(a: string, b: string)
    requires Code(a) && Code(b)
    ensures ExpectedStatusRange(a) == Some(Range(DigitsValue(a), DigitsValue(a)))
    ensures ExpectedStatusRange(a + "-" + b) ==
            if DigitsValue(a) <= DigitsValue(b) then Some(Range(DigitsValue(a), DigitsValue(b))) else None
    ensures 100 <= DigitsValue(a) <= 599 && 100 <= DigitsValue(b) <= 599
  {
    CodeValue(a);
    CodeValue(b);
    DigitsHaveNoDash(a, b);
    var whole := a + "-" + b;
    assert whole[..3] == a && whole[4..] == b && a[..3] == a;
  }

  // A sign slips through: the text names no status code, and still parses.
  lemma SignsParse()
    ensures ExpectedStatusRange("+5") == Some(Range(5, 5))
  {
    assert "+5"[..2] == "+5" && "+5"[1..] == "5";
    assert FirstDash("+5") == 2;
    assert "5"[..0] == "";
    assert DigitsValue("5") == 5;
  }
}
