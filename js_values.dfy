/**
 * JavaScript values the auth service exchanges with its stores and its broker:
 * JSON documents, the decimal text `toString()` gives an integer id, and the
 * rounding `Number(...)` applies to such a text.
 */
module JsValues {
  import opened Wrappers

  /** A JSON document as `JSON.stringify` writes it and `JSON.parse` reads it back;
      the characters of the text are not modelled, only its structure. */
  datatype Json = JString(s: string) | JObject(fields: map<string, Json>) | JOther

  /** The string stored under `name` in a JSON object, if there is one. */
  function StringField(j: Json, name: string): Option<string>
  {
    if j.JObject? && name in j.fields && j.fields[name].JString? then Some(j.fields[name].s) else None
  }

  // ----- decimal text of an integer id -----

  predicate IsDigit(c: char) { '0' <= c <= '9' }

  predicate IsDigits(s: string) { forall i :: 0 <= i < |s| ==> IsDigit(s[i]) }

  function DigitChar(d: nat): (c: char)
    requires d < 10
    ensures IsDigit(c)
  {
    ('0' as int + d) as char
  }

  function DigitValue(c: char): (d: nat)
    requires IsDigit(c)
    ensures d < 10
  {
    c as int - '0' as int
  }

  /** `n.toString()` of a non-negative BigInt: base ten, at least one digit,
      and no leading zero except for zero itself. */
  function DecimalString(n: nat): (s: string)
    ensures |s| >= 1 && IsDigits(s)
    ensures s[0] == '0' <==> n == 0
    ensures n == 0 ==> s == "0"
    decreases n
  {
    if n < 10 then [DigitChar(n)] else DecimalString(n / 10) + [DigitChar(n % 10)]
  }

  /** The value of a string of decimal digits (what a reader of the id field recovers). */
  function ParseDecimal(s: string): nat
    requires IsDigits(s)
    decreases |s|
  {
    if s == [] then 0 else 10 * ParseDecimal(s[..|s| - 1]) + DigitValue(s[|s| - 1])
  }

  /** Reading back the text of an id gives the id. */
  lemma {:induction false} ParseDecimalString(n: nat)
    ensures ParseDecimal(DecimalString(n)) == n
    decreases n
  {
    var s := DecimalString(n);
    if n < 10 {
      assert s[..0] == [];
    } else {
      assert s[..|s| - 1] == DecimalString(n / 10);
      ParseDecimalString(n / 10);
    }
  }

  /** Distinct ids have distinct texts. */
  lemma DecimalStringInjective(m: nat, n: nat)
    ensures DecimalString(m) == DecimalString(n) <==> m == n
  {
    ParseDecimalString(m);
    ParseDecimalString(n);
  }

  // ----- Number(...) of an integer -----

  /** 2^53: below it every integer is exactly a double (`Number.MAX_SAFE_INTEGER + 1`). */
  const SafeLimit: nat := 0x20_0000_0000_0000

  /** The distance between consecutive doubles around n: 1 below 2^53, doubling
      with each further binary digit of n. */
  function DoubleSpacing(n: nat): (u: nat)
    ensures u >= 1
    ensures n < SafeLimit <==> u == 1
    decreases n
  {
    if n < SafeLimit then 1 else 2 * DoubleSpacing(n / 2)
  }

  /** `Number(n)`: the double nearest to n, ties going to the even significand
      (IEEE 754 round-to-nearest-even); ids stay far below the overflow to Infinity. */
  function ToDouble(n: nat): (d: nat)
    ensures n < SafeLimit ==> d == n
    ensures d % DoubleSpacing(n) == 0
    ensures 2 * (if d <= n then n - d else d - n) <= DoubleSpacing(n)
    ensures 2 * (if d <= n then n - d else d - n) == DoubleSpacing(n) ==> (d / DoubleSpacing(n)) % 2 == 0
  {
    RoundToMultiple(n, DoubleSpacing(n))
  }

  /** n rounded to the nearer multiple of u, ties to the even multiple. */
  function RoundToMultiple(n: nat, u: nat): (d: nat)
    requires u >= 1
    ensures u == 1 ==> d == n
    ensures d % u == 0
    ensures 2 * (if d <= n then n - d else d - n) <= u
    ensures 2 * (if d <= n then n - d else d - n) == u ==> (d / u) % 2 == 0
  {
    var q, r := n / u, n % u;
    DivisionSplit(n, u);
    var d := if 2 * r < u || (2 * r == u && q % 2 == 0) then q * u else (q + 1) * u;
    RoundChoice(n, u, q, r, d);
    d
  }

  /** Rounding n = q * u + r to the nearer of q * u and (q + 1) * u, ties to the
      even factor, lands on a multiple of u within u / 2 of n. */
  lemma RoundChoice(n: nat, u: nat, q: nat, r: nat, d: nat)
    requires u >= 1 && n == q * u + r && r < u
    requires d == if 2 * r < u || (2 * r == u && q % 2 == 0) then q * u else (q + 1) * u
    ensures u == 1 ==> d == n
    ensures d % u == 0
    ensures 2 * (if d <= n then n - d else d - n) <= u
    ensures 2 * (if d <= n then n - d else d - n) == u ==> (d / u) % 2 == 0
  {
    MultipleOf(q, u);
    MultipleOf(q + 1, u);
    assert (q + 1) * u == q * u + u;
  }

  lemma DivisionSplit(n: nat, u: nat)
    requires u >= 1
    ensures n == (n / u) * u + n % u && 0 <= n % u < u
    ensures (n / u + 1) * u == (n / u) * u + u
  {
  }

  /** A multiple of u divides back to its factor with nothing left over. */
  lemma MultipleOf(q: nat, u: nat)
    requires u >= 1
    ensures (q * u) % u == 0 && (q * u) / u == q
  {
    DivUnique(q * u, u, q, 0);
  }

  /** Euclidean division is unique: n = a * u + b with 0 <= b < u fixes a and b. */
  lemma DivUnique(n: int, u: int, a: int, b: int)
    requires u >= 1 && 0 <= b < u && n == a * u + b
    ensures n / u == a && n % u == b
  {
    var a' := n / u;
    if a' < a {
      AtLeastOnce(a', a - a', u);
    } else if a < a' {
      AtLeastOnce(a, a' - a, u);
    }
  }

  /** Adding k >= 1 to a factor adds at least one more u to the product. */
  lemma AtLeastOnce(a: int, k: int, u: int)
    requires k >= 1 && u >= 0
    ensures (a + k) * u >= a * u + u
  {
    assert (a + k) * u == a * u + (k - 1) * u + u;
  }
}
