/**
 * The dynamically typed values the connector handles: decoded JSON (configuration,
 * replication state, response bodies), Python truthiness, `dict.get`, and the `int(...)`
 * conversion applied to the transactions cursor.
 */
module Values {
  import opened Wrappers

  /** The exceptions the modelled code can raise. */
  datatype Error =
    | TypeError            // int(None), int([...]), int({...})
    | ValueError           // int("abc")
    | ParserError          // the date parser given "" (no bookmark and no start_date)
    | JsonDecodeError      // response.json() on a body that is not JSON
    | NonPositiveInterval  // a max_fetch_interval of zero or less (see the corrected scheduler)

  /** A decoded JSON value. Floating-point numbers are not modelled. */
  datatype Json =
    | Null
    | Bool(b: bool)
    | Int(i: int)
    | Str(s: string)
    | Array(items: seq<Json>)
    | Object(members: map<string, Json>)

  /** Python's `bool(value)` for a decoded JSON value. */
  predicate Truthy(j: Json) {
    match j
    case Null => false
    case Bool(b) => b
    case Int(i) => i != 0
    case Str(s) => s != ""
    case Array(items) => items != []
    case Object(members) => members != map[]
  }

  /** Python's `d.get(key, default)`: a present key wins even when its value is null. */
  function Get(d: map<string, Json>, key: string, default: Json): (r: Json)
    ensures key in d ==> r == d[key]
    ensures key !in d ==> r == default
  {
    if key in d then d[key] else default
  }

  /** The falsy values are exactly null, false, 0, "", [] and {}. */
  lemma FalsyValues(j: Json)
    ensures !Truthy(j) <==> j in {Null, Bool(false), Int(0), Str(""), Array([]), Object(map[])}
  {
  }

  predicate IsDigit(c: char) {
    '0' <= c <= '9'
  }

  predicate AllDigits(s: string) {
    forall i :: 0 <= i < |s| ==> IsDigit(s[i])
  }

  function DigitValue(c: char): (d: nat)
    requires IsDigit(c)
    ensures d < 10
  {
    (c as int) - ('0' as int)
  }

  function DigitChar(d: nat): (c: char)
    requires d < 10
    ensures IsDigit(c) && DigitValue(c) == d
  {
    (('0' as int) + d) as char
  }

  /** The number an ASCII digit string denotes, most significant digit first. */
  function DigitsValue(s: string): nat
    requires AllDigits(s)
  {
    if s == [] then 0 else DigitsValue(s[..|s| - 1]) * 10 + DigitValue(s[|s| - 1])
  }

  /** The decimal digits of `n`, as `str(n)` writes them. */
  function NatDigits(n: nat): (s: string)
    ensures |s| > 0 && AllDigits(s)
  {
    if n < 10 then [DigitChar(n)] else NatDigits(n / 10) + [DigitChar(n % 10)]
  }

  /** `str(n)` for an integer. */
  function Decimal(n: int): string {
    if n < 0 then "-" + NatDigits(-n) else NatDigits(n)
  }

  /** The decimal form `int(s)` accepts: an optional sign followed by at least one digit. */
  function ParseDecimal(s: string): (r: Option<int>)
    ensures r.Some? ==> s != [] && (AllDigits(s) || (|s| > 1 && (s[0] == '-' || s[0] == '+') && AllDigits(s[1..])))
    ensures s != [] && AllDigits(s) ==> r == Some(DigitsValue(s))
    ensures |s| > 1 && (s[0] == '-' || s[0] == '+') && AllDigits(s[1..]) ==>
      r == Some(if s[0] == '-' then -(DigitsValue(s[1..]) as int) else DigitsValue(s[1..]))
  {
    if |s| > 0 && (s[0] == '-' || s[0] == '+') then
      if |s| > 1 && AllDigits(s[1..]) then
        Some(if s[0] == '-' then -(DigitsValue(s[1..]) as int) else DigitsValue(s[1..]))
      else
        None
    else if |s| > 0 && AllDigits(s) then
      Some(DigitsValue(s))
    else
      None
  }

  /** Python's `int(value)` for a decoded JSON value. */
  function ToInt(j: Json): (r: Result<int, Error>)
    ensures j.Int? ==> r == Success(j.i)
    ensures j.Bool? ==> r == Success(if j.b then 1 else 0)
    ensures j.Str? ==> r == (if ParseDecimal(j.s).Some? then Success(ParseDecimal(j.s).value) else Failure(ValueError))
    ensures j.Null? || j.Array? || j.Object? ==> r == Failure(TypeError)
    ensures r.Failure? ==> r.error == TypeError || r.error == ValueError
  {
    match j
    case Null => Failure(TypeError)
    case Bool(b) => Success(if b then 1 else 0)
    case Int(i) => Success(i)
    case Str(s) =>
      (match ParseDecimal(s)
       case Some(n) => Success(n)
       case None => Failure(ValueError))
    case Array(_) => Failure(TypeError)
    case Object(_) => Failure(TypeError)
  }

  /** Reading back the digits of `n` gives `n`. */
  lemma {:induction false} DigitsRoundTrip(n: nat)
    ensures DigitsValue(NatDigits(n)) == n
  {
    if n >= 10 {
      var s := NatDigits(n);
      var head := NatDigits(n / 10);
      assert s == head + [DigitChar(n % 10)];
      assert s[..|s| - 1] == head;
      DigitsRoundTrip(n / 10);
    }
  }

  /** `int(str(n)) == n`: a cursor stored as its decimal text converts back to itself. */
  lemma DecimalRoundTrip(n: int)
    ensures ToInt(Str(Decimal(n))) == Success(n)
  {
    if n < 0 {
      DigitsRoundTrip(-n);
      var s := Decimal(n);
      assert s[1..] == NatDigits(-n);
    } else {
      DigitsRoundTrip(n);
    }
  }
}
