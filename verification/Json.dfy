/** Decoded JSON and the lenient accessors the operator reads it with. */
module Json {
  import opened Text

  datatype Value =
    | Null
    | Bool(b: bool)
    | Number(r: real)
    | Text(s: string)
    | List(items: seq<Value>)
    | Object(fields: map<string, Value>)

  // payload[key] on a map[string]any: a missing key reads as nil
  function Field(payload: map<string, Value>, key: string): Value {
    if key in payload then payload[key] else Null
  }

  function Truncate(r: real): int {
    if r < 0.0 then -((-r).Floor) else r.Floor
  }

  function FormatInt(n: int): string {
    if n < 0 then "-" + Decimal(-n) else Decimal(n)
  }

  function Str(v: Value): string {
    match v
    case Text(s) => s
    case Number(r) => FormatInt(Truncate(r))
    case _ => ""
  }

  function I32(v: Value): int {
    match v
    case Number(r) => Int32(Truncate(r))
    case Text(s) =>
      (match Atoi(s)
       case Parsed(n) => Int32(n)
       case BadSyntax => 0
       case OutOfRange(nearest) => Int32(nearest))
    case _ => 0
  }

  function BoolV(v: Value): bool {
    match v
    case Bool(b) => b
    case Text(s) => s == "true" || s == "True" || s == "READY" || s == "Ready"
    case _ => false
  }

  // strv and strMap: only a JSON string counts
  function TextOnly(payload: map<string, Value>, key: string): string {
    match Field(payload, key)
    case Text(s) => s
    case _ => ""
  }

  // A 32-bit number reads the same whether k1s sends it as a number or as text, and as text the same way.
  lemma NumbersReadAlike(n: int)
    requires -0x8000_0000 <= n < 0x8000_0000
    ensures I32(Number(n as real)) == n && I32(Text(FormatInt(n))) == n
    ensures Str(Number(n as real)) == FormatInt(n) == Str(Text(FormatInt(n)))
  {
    assert Truncate(n as real) == n by {
      assert (n as real).Floor == n && (-(n as real)) == (-n) as real && ((-n) as real).Floor == -n;
    }
    AtoiFormatInt(n);
  }

  lemma AtoiFormatInt(n: int)
    requires MIN_INT <= n <= MAX_INT
    ensures Atoi(FormatInt(n)) == Parsed(n)
  {
    if n < 0 {
      DecimalRoundTrip(-n);
      assert FormatInt(n)[1..] == Decimal(-n);
    } else {
      AtoiDecimal(n);
    }
  }

  // What is not a number, and no text of one, counts as zero; what is not a text and no number reads as empty.
  lemma OtherValuesReadEmpty(v: Value)
    requires !v.Number? && !v.Text?
    ensures I32(v) == 0 && Str(v) == "" && (BoolV(v) <==> v == Bool(true))
  {
  }

  // Fractions are cut off towards zero.
  lemma TruncatesTowardsZero(r: real)
    ensures r >= 0.0 ==> Truncate(r) as real <= r < Truncate(r) as real + 1.0
    ensures Truncate(-r) == -Truncate(r)
  {
  }

  // A number that does not fit 64 bits reads, as text, as the low 32 bits of the nearest that does: -1 or 0.
  lemma HugeTextsRead(n: int)
    requires n > MAX_INT
    ensures I32(Text(FormatInt(n))) == -1
    ensures n > -MIN_INT ==> I32(Text(FormatInt(-n))) == 0
  {
    DecimalRoundTrip(n);
    assert IsDigit(Decimal(n)[0]);
    assert FormatInt(-n)[1..] == Decimal(n);
  }
}
