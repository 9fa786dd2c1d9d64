/** Decimal text of 64-bit signed integers, as `delta` stores counters:
    `safe_toi64` reads the stored bytes and `"%" PRId64` writes the new
    value back. Bytes are ASCII: '0'..'9' are 48..57 and '-' is 45. */
module Decimal {
  import opened CacheTypes

  const INT64_MIN: int := -0x8000_0000_0000_0000
  const INT64_MAX: int := 0x7FFF_FFFF_FFFF_FFFF
  const MINUS: byte := 45
  const ZERO: byte := 48
  /** `INT64_MAX_STORAGE_LEN`, the size of the buffer `delta` formats into. */
  const INT64_MAX_STORAGE_LEN: nat := 25

  predicate IsInt64(v: int) {
    INT64_MIN <= v <= INT64_MAX
  }

  predicate IsDigit(b: byte) {
    ZERO <= b <= ZERO + 9
  }

  predicate AllDigits(s: seq<byte>) {
    forall i :: 0 <= i < |s| ==> IsDigit(s[i])
  }

  /** The text `safe_toi64` accepts: an optional minus sign and at least
      one digit. */
  predicate WellFormed(s: seq<byte>) {
    if |s| > 0 && s[0] == MINUS then |s| > 1 && AllDigits(s[1..])
    else |s| > 0 && AllDigits(s)
  }

  function Pow10(k: nat): (r: nat)
    ensures r >= 1
  {
    if k == 0 then 1 else 10 * Pow10(k - 1)
  }

  /** The decimal digits of `n`, most significant first, without leading
      zeros. */
  function Digits(n: nat): (r: seq<byte>)
    ensures 1 <= |r| && AllDigits(r)
    ensures r[0] == ZERO ==> n == 0
    decreases n
  {
    if n < 10 then [ZERO + n] else Digits(n / 10) + [ZERO + n % 10]
  }

  /** The number a digit string denotes. */
  function DigitsValue(s: seq<byte>): nat
    requires AllDigits(s)
  {
    if s == [] then 0 else 10 * DigitsValue(s[..|s| - 1]) + (s[|s| - 1] - ZERO)
  }

  lemma {:induction false} DigitsRoundTrip(n: nat)
    ensures DigitsValue(Digits(n)) == n
    decreases n
  {
    if n >= 10 {
      var d := Digits(n);
      assert d[..|d| - 1] == Digits(n / 10);
      DigitsRoundTrip(n / 10);
    }
  }

  /** A number below 10^k has at most k digits. */
  lemma {:induction false} DigitsLength(n: nat, k: nat)
    requires 1 <= k && n < Pow10(k)
    ensures |Digits(n)| <= k
    decreases k
  {
    if n >= 10 {
      assert k > 1;
      assert n / 10 < Pow10(k - 1);
      DigitsLength(n / 10, k - 1);
    }
  }

  lemma Pow10Of19()
    ensures Pow10(19) == 10_000_000_000_000_000_000
  {
    assert Pow10(6) == 1_000_000;
    assert Pow10(12) == 1_000_000_000_000;
    assert Pow10(18) == 1_000_000_000_000_000_000;
  }

  /** The two's-complement wrap-around of 64-bit signed arithmetic, which
      `value += delta` and `value -= delta` follow on overflow. */
  function Wrap64(v: int): (r: int)
    ensures IsInt64(r)
    ensures IsInt64(v) ==> r == v
    ensures (r - v) % 0x1_0000_0000_0000_0000 == 0
  {
    (v - INT64_MIN) % 0x1_0000_0000_0000_0000 + INT64_MIN
  }

  /** Wrapping an intermediate result does not change the wrapped sum. */
  lemma WrapAdd(v: int, d: int)
    ensures Wrap64(Wrap64(v) + d) == Wrap64(v + d)
  {
    var M := 0x1_0000_0000_0000_0000;
    var a := v + d - INT64_MIN;
    var q := (v - INT64_MIN) / M;
    assert Wrap64(v) == v - q * M;
    assert Wrap64(Wrap64(v) + d) == (a - q * M) % M + INT64_MIN;
    assert (a - q * M) % M == a % M by {
      assert a == (a / M) * M + a % M;
      assert a - q * M == (a / M - q) * M + a % M;
    }
  }

  /** Adding and then subtracting the same amount, each with wrap-around,
      gives back every 64-bit value. */
  lemma WrapUndo(v: int, d: int)
    requires IsInt64(v)
    ensures Wrap64(Wrap64(v + d) - d) == v
  {
    WrapAdd(v + d, -d);
  }

  /** `snprintf(buf, 25, "%" PRId64, v)`: the shortest decimal text of `v`. */
  function FormatInt(v: int): (r: seq<byte>)
    ensures WellFormed(r)
    ensures r[0] == MINUS <==> v < 0
  {
    if v < 0 then [MINUS] + Digits(-v) else Digits(v)
  }

  /** Every 64-bit value fits the 25-byte buffer with its terminating NUL:
      at most 20 characters, a sign and 19 digits. */
  lemma FormatIntFits(v: int)
    requires IsInt64(v)
    ensures |FormatInt(v)| <= 20 < INT64_MAX_STORAGE_LEN
  {
    Pow10Of19();
    if v < 0 {
      DigitsLength(-v, 19);
    } else {
      DigitsLength(v, 19);
    }
  }

  /** `safe_toi64` as `delta` uses it: the value of a well-formed 64-bit
      decimal text, and otherwise the 0 the caller initialised the result
      with. */
  function ParseInt(s: seq<byte>): (r: int)
    ensures IsInt64(r)
    ensures !WellFormed(s) ==> r == 0
  {
    if !WellFormed(s) then 0
    else
      var v: int := if s[0] == MINUS then 0 - (DigitsValue(s[1..]) as int) else DigitsValue(s);
      if IsInt64(v) then v else 0
  }

  /** Reading back what was written gives the value: text and number
      round-trip for every 64-bit value. */
  lemma FormatParse(v: int)
    requires IsInt64(v)
    ensures ParseInt(FormatInt(v)) == v
  {
    var s := FormatInt(v);
    if v < 0 {
      assert s[1..] == Digits(-v);
      DigitsRoundTrip(-v);
    } else {
      assert s[0] != MINUS;
      DigitsRoundTrip(v);
    }
  }
}
