/** The parts of Go's `strings` and `strconv` packages that the operator calls. */
module Text {
  import opened Wrappers

  // unicode.IsSpace
  predicate IsSpace(c: char) {
    || '\t' <= c <= '\r' || c == ' ' || c == '\U{85}' || c == '\U{A0}' || c == '\U{1680}'
    || '\U{2000}' <= c <= '\U{200A}' || c == '\U{2028}' || c == '\U{2029}' || c == '\U{202F}'
    || c == '\U{205F}' || c == '\U{3000}'
  }

  function TrimLeft(s: string, cut: char -> bool): string {
    if s != "" && cut(s[0]) then TrimLeft(s[1..], cut) else s
  }

  function TrimRight(s: string, cut: char -> bool): string {
    if s != "" && cut(s[|s| - 1]) then TrimRight(s[..|s| - 1], cut) else s
  }

  function Trim(s: string, cut: char -> bool): string {
    TrimRight(TrimLeft(s, cut), cut)
  }

  function TrimSpace(s: string): string {
    Trim(s, IsSpace)
  }

  // Neither end of s is cut away by Trim.
  predicate Tight(s: string, cut: char -> bool) {
    s != "" ==> !cut(s[0]) && !cut(s[|s| - 1])
  }

  lemma {:induction false} TrimLeftParts(s: string, cut: char -> bool) returns (n: nat)
    ensures n <= |s| && TrimLeft(s, cut) == s[n..]
    ensures forall i :: 0 <= i < n ==> cut(s[i])
    ensures n < |s| ==> !cut(s[n])
  {
    if s != "" && cut(s[0]) {
      var m := TrimLeftParts(s[1..], cut);
      n := m + 1;
      forall i | 0 <= i < n ensures cut(s[i]) {
        if i > 0 { assert s[i] == s[1..][i - 1]; }
      }
    } else {
      n := 0;
    }
  }

  lemma {:induction false} TrimRightParts(s: string, cut: char -> bool) returns (n: nat)
    ensures n <= |s| && TrimRight(s, cut) == s[..n]
    ensures forall i :: n <= i < |s| ==> cut(s[i])
    ensures n > 0 ==> !cut(s[n - 1])
  {
    if s != "" && cut(s[|s| - 1]) {
      n := TrimRightParts(s[..|s| - 1], cut);
      assert s[..|s| - 1][..n] == s[..n];
      forall i | n <= i < |s| ensures cut(s[i]) {
        if i < |s| - 1 { assert s[i] == s[..|s| - 1][i]; }
      }
    } else {
      n := |s|;
    }
  }

  // Trim removes a prefix and a suffix made of cut characters and nothing else.
  lemma TrimParts(s: string, cut: char -> bool) returns (a: nat, b: nat)
    ensures a <= b <= |s| && Trim(s, cut) == s[a..b] && Tight(s[a..b], cut)
    ensures forall i :: 0 <= i < a || b <= i < |s| ==> cut(s[i])
  {
    a := TrimLeftParts(s, cut);
    var n := TrimRightParts(s[a..], cut);
    b := a + n;
    assert s[a..][..n] == s[a..b];
    forall i | b <= i < |s| ensures cut(s[i]) {
      assert s[a..][i - a] == s[i];
    }
    if n > 0 { assert s[a..b][n - 1] == s[a..][n - 1]; }
  }

  lemma TrimChars(s: string, cut: char -> bool)
    ensures forall c :: c in Trim(s, cut) ==> c in s
  {
    var a, b := TrimParts(s, cut);
  }

  lemma TrimTight(s: string, cut: char -> bool)
    ensures Tight(Trim(s, cut), cut)
    ensures Tight(s, cut) ==> Trim(s, cut) == s
  {
    var a, b := TrimParts(s, cut);
  }

  lemma {:induction false} AllTrimmed(s: string, cut: char -> bool)
    requires forall i :: 0 <= i < |s| ==> cut(s[i])
    ensures Trim(s, cut) == ""
  {
    if s != "" {
      AllTrimmed(s[1..], cut);
    }
  }

  lemma {:induction false} LeftPad(a: string, s: string, cut: char -> bool)
    requires forall i :: 0 <= i < |a| ==> cut(a[i])
    ensures TrimLeft(a + s, cut) == TrimLeft(s, cut)
  {
    if a == "" {
      assert a + s == s;
    } else {
      assert (a + s)[1..] == a[1..] + s;
      LeftPad(a[1..], s, cut);
    }
  }

  lemma {:induction false} RightPad(s: string, b: string, cut: char -> bool)
    requires forall i :: 0 <= i < |b| ==> cut(b[i])
    ensures TrimRight(s + b, cut) == TrimRight(s, cut)
  {
    if b == "" {
      assert s + b == s;
    } else {
      assert (s + b)[..|s + b| - 1] == s + b[..|b| - 1];
      RightPad(s, b[..|b| - 1], cut);
    }
  }

  // Trim takes what is to be cut from both ends.
  lemma TrimPadding(a: string, s: string, b: string, cut: char -> bool)
    requires s != "" && Tight(s, cut)
    requires (forall i :: 0 <= i < |a| ==> cut(a[i])) && forall i :: 0 <= i < |b| ==> cut(b[i])
    ensures Trim(a + s + b, cut) == s
  {
    assert a + s + b == a + (s + b);
    LeftPad(a, s + b, cut);
    assert (s + b)[0] == s[0];
    RightPad(s, b, cut);
  }

  // strings.Split for a one-character separator
  function Split(s: string, sep: char): (parts: seq<string>)
    ensures |parts| > 0
  {
    if s == "" then [""]
    else
      var rest := Split(s[1..], sep);
      if s[0] == sep then [""] + rest else [[s[0]] + rest[0]] + rest[1..]
  }

  // strings.Join for a one-character separator
  function Join(parts: seq<string>, sep: char): string {
    if |parts| == 0 then ""
    else if |parts| == 1 then parts[0]
    else parts[0] + [sep] + Join(parts[1..], sep)
  }

  lemma {:induction false} SplitFirst(a: string, s: string, sep: char)
    requires sep !in a
    ensures Split(a, sep) == [a]
    ensures Split(a + [sep] + s, sep) == [a] + Split(s, sep)
  {
    if a == "" {
      assert (a + [sep] + s)[1..] == s;
    } else {
      SplitFirst(a[1..], s, sep);
      assert (a + [sep] + s)[1..] == a[1..] + [sep] + s;
      assert [a[0]] + a[1..] == a;
    }
  }

  // Splitting undoes joining, for parts that do not hold the separator.
  lemma {:induction false} SplitJoin(parts: seq<string>, sep: char)
    requires |parts| > 0
    requires forall i :: 0 <= i < |parts| ==> sep !in parts[i]
    ensures Split(Join(parts, sep), sep) == parts
  {
    if |parts| == 1 {
      SplitFirst(parts[0], "", sep);
    } else {
      SplitJoin(parts[1..], sep);
      SplitFirst(parts[0], Join(parts[1..], sep), sep);
    }
  }

  predicate IsDigit(c: char) { '0' <= c <= '9' }

  predicate AllDigits(s: string) {
    forall i :: 0 <= i < |s| ==> IsDigit(s[i])
  }

  function DigitsValue(s: string): nat
    requires AllDigits(s)
  {
    if s == "" then 0
    else 10 * DigitsValue(s[..|s| - 1]) + (s[|s| - 1] as int - '0' as int)
  }

  function Decimal(n: nat): (s: string)
    ensures s != "" && AllDigits(s)
  {
    var digit := [('0' as int + n % 10) as char];
    if n < 10 then digit else Decimal(n / 10) + digit
  }

  lemma {:induction false} DecimalRoundTrip(n: nat)
    ensures DigitsValue(Decimal(n)) == n
  {
    if n >= 10 {
      DecimalRoundTrip(n / 10);
      assert Decimal(n)[..|Decimal(n)| - 1] == Decimal(n / 10);
    } else {
      assert Decimal(n)[..0] == "";
    }
  }

  const MAX_INT: int := 0x7FFF_FFFF_FFFF_FFFF
  const MIN_INT: int := -0x8000_0000_0000_0000

  // strconv.Atoi on a 64-bit platform. On a range error Go still returns the nearest int.
  datatype Number = Parsed(n: int) | BadSyntax | OutOfRange(nearest: int)

  function Atoi(s: string): Number {
    var signed := s != "" && (s[0] == '-' || s[0] == '+');
    var digits := if signed then s[1..] else s;
    if digits == "" || !AllDigits(digits) then BadSyntax
    else
      var magnitude: int := DigitsValue(digits);
      var n := if signed && s[0] == '-' then -magnitude else magnitude;
      if n < MIN_INT then OutOfRange(MIN_INT) else if n > MAX_INT then OutOfRange(MAX_INT) else Parsed(n)
  }

  lemma AtoiDecimal(n: nat)
    requires n <= MAX_INT
    ensures Atoi(Decimal(n)) == Parsed(n)
  {
    DecimalRoundTrip(n);
    assert IsDigit(Decimal(n)[0]);
  }

  // int32(x): the low 32 bits as a two's complement number
  function Int32(x: int): (r: int)
    ensures -0x8000_0000 <= r < 0x8000_0000
  {
    (x + 0x8000_0000) % 0x1_0000_0000 - 0x8000_0000
  }

  // The one 32-bit number that differs from x by a multiple of 2^32
  lemma Int32Exactly(x: int, r: int)
    ensures r == Int32(x) <==> -0x8000_0000 <= r < 0x8000_0000 && (r - x) % 0x1_0000_0000 == 0
  {
    var q := (x + 0x8000_0000) / 0x1_0000_0000;
    assert Int32(x) - x == -q * 0x1_0000_0000;
    if -0x8000_0000 <= r < 0x8000_0000 && (r - x) % 0x1_0000_0000 == 0 {
      var p := (r - x) / 0x1_0000_0000;
      assert r - x == p * 0x1_0000_0000;
      assert r - Int32(x) == (p + q) * 0x1_0000_0000;
    }
  }

  function FirstNonEmpty(values: seq<string>): string {
    if values == [] then "" else if values[0] != "" then values[0] else FirstNonEmpty(values[1..])
  }

  lemma FirstOfThree(a: string, b: string, c: string)
    ensures FirstNonEmpty([a, b, c]) == if a != "" then a else if b != "" then b else c
  {
    assert [a, b, c][1..] == [b, c] && [b, c][1..] == [c] && [c][1..] == [];
    assert FirstNonEmpty([c]) == c;
    assert FirstNonEmpty([b, c]) == if b != "" then b else c;
  }

  // The first of the values that is not empty, or nothing
  lemma {:induction false} FirstExactly(values: seq<string>, i: nat)
    requires i <= |values| && (forall j :: 0 <= j < i ==> values[j] == "") && (i < |values| ==> values[i] != "")
    ensures FirstNonEmpty(values) == if i < |values| then values[i] else ""
  {
    if i > 0 {
      FirstExactly(values[1..], i - 1);
    }
  }

  // Choosing in two rounds is choosing once.
  lemma {:induction false} FirstOfFirst(values: seq<string>, more: seq<string>)
    ensures FirstNonEmpty(values + [FirstNonEmpty(more)]) == FirstNonEmpty(values + more)
  {
    if values == [] {
      assert values + more == more;
      assert FirstNonEmpty([FirstNonEmpty(more)]) == FirstNonEmpty(more);
    } else {
      assert (values + [FirstNonEmpty(more)])[1..] == values[1..] + [FirstNonEmpty(more)];
      assert (values + more)[1..] == values[1..] + more;
      FirstOfFirst(values[1..], more);
    }
  }

  function LowerChar(c: char): char {
    if 'A' <= c <= 'Z' then (c as int + 32) as char else c
  }

  function ToLower(s: string): (r: string)
    ensures |r| == |s| && forall i :: 0 <= i < |s| ==> r[i] == LowerChar(s[i])
  {
    if s == "" then "" else [LowerChar(s[0])] + ToLower(s[1..])
  }
}
