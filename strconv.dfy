/** `strconv.ParseUint(s, 10, bitSize)` and its inverse, the decimal rendering of a number. */
module Strconv {
  import opened Wrappers

  datatype NumError = ErrSyntax | ErrRange

  function Pow2(n: nat): (r: nat)
    ensures r >= 1
  {
    if n == 0 then 1 else 2 * Pow2(n - 1)
  }

  /** The largest value an unsigned integer of `bitSize` bits holds. */
  function MaxUint(bitSize: nat): nat {
    Pow2(bitSize) - 1
  }

  predicate IsDigit(c: char) {
    '0' <= c <= '9'
  }

  predicate AllDigits(s: string) {
    forall i :: 0 <= i < |s| ==> IsDigit(s[i])
  }

  function DigitValue(c: char): nat
    requires IsDigit(c)
  {
    c as int - '0' as int
  }

  function Digit(d: nat): (c: char)
    requires d < 10
    ensures IsDigit(c) && DigitValue(c) == d
  {
    ('0' as int + d) as char
  }

  /** Reading the digits of `s` left to right after the value `acc`. */
  function Accumulate(acc: nat, s: string): nat
    requires AllDigits(s)
    decreases |s|
  {
    if s == [] then acc else Accumulate(acc * 10 + DigitValue(s[0]), s[1..])
  }

  /** The number a string of decimal digits denotes. */
  function DecimalValue(s: string): nat
    requires AllDigits(s)
  {
    Accumulate(0, s)
  }

  /**
   * Go's digit loop: a non-digit is a syntax error and going past `max` is a
   * range error, whichever the scan meets first.
   */
  function Scan(s: string, acc: nat, max: nat): Result<nat, NumError> {
    if s == [] then Ok(acc)
    else if !IsDigit(s[0]) then Err(ErrSyntax)
    else
      var n := acc * 10 + DigitValue(s[0]);
      if n > max then Err(ErrRange) else Scan(s[1..], n, max)
  }

  /** `strconv.ParseUint(s, 10, bitSize)`: no sign, no prefix, no underscores. */
  function ParseUint(s: string, bitSize: nat): Result<nat, NumError>
    requires 0 < bitSize <= 64
  {
    if s == "" then Err(ErrSyntax) else Scan(s, 0, MaxUint(bitSize))
  }

  /** The text of the `*NumError` that `ParseUint` returns (the number is not re-quoted with escapes). */
  function ErrorText(s: string, e: NumError): string {
    "strconv.ParseUint: parsing \"" + s + "\": " + (if e == ErrSyntax then "invalid syntax" else "value out of range")
  }

  /** `strconv.FormatUint(n, 10)`. */
  function FormatUint(n: nat): (s: string)
    ensures s != [] && AllDigits(s)
  {
    if n < 10 then [Digit(n)] else FormatUint(n / 10) + [Digit(n % 10)]
  }

  lemma {:induction false} AccumulateGrows(acc: nat, s: string)
    requires AllDigits(s)
    ensures Accumulate(acc, s) >= acc
    decreases |s|
  {
    if s != [] {
      AccumulateGrows(acc * 10 + DigitValue(s[0]), s[1..]);
    }
  }

  lemma {:induction false} ScanDigits(s: string, acc: nat, max: nat)
    requires AllDigits(s) && acc <= max
    ensures Scan(s, acc, max) == if Accumulate(acc, s) <= max then Ok(Accumulate(acc, s)) else Err(ErrRange)
  {
    if s != [] {
      var n := acc * 10 + DigitValue(s[0]);
      assert AllDigits(s[1..]);
      assert Accumulate(acc, s) == Accumulate(n, s[1..]);
      AccumulateGrows(n, s[1..]);
      if n <= max {
        ScanDigits(s[1..], n, max);
      }
    }
  }

  lemma {:induction false} ScanOkOnlyOnDigits(s: string, acc: nat, max: nat)
    requires Scan(s, acc, max).Ok?
    ensures AllDigits(s)
  {
    if s != [] {
      ScanOkOnlyOnDigits(s[1..], acc * 10 + DigitValue(s[0]), max);
    }
  }

  /**
   * `ParseUint` succeeds exactly on a non-empty string of decimal digits whose
   * value fits in `bitSize` bits, and then returns that value.
   */
  lemma {:induction false} ParseUintSpec(s: string, bitSize: nat)
    requires 0 < bitSize <= 64
    ensures ParseUint(s, bitSize).Ok? <==> s != "" && AllDigits(s) && DecimalValue(s) <= MaxUint(bitSize)
    ensures ParseUint(s, bitSize).Ok? ==> AllDigits(s) && ParseUint(s, bitSize).value == DecimalValue(s)
  {
    if s != "" {
      if AllDigits(s) {
        ScanDigits(s, 0, MaxUint(bitSize));
      } else if ParseUint(s, bitSize).Ok? {
        ScanOkOnlyOnDigits(s, 0, MaxUint(bitSize));
      }
    }
  }

  lemma {:induction false} AccumulateAppend(acc: nat, s: string, c: char)
    requires AllDigits(s) && IsDigit(c)
    ensures AllDigits(s + [c]) && Accumulate(acc, s + [c]) == Accumulate(acc, s) * 10 + DigitValue(c)
    decreases |s|
  {
    assert AllDigits(s + [c]);
    if s != [] {
      assert (s + [c])[1..] == s[1..] + [c];
      AccumulateAppend(acc * 10 + DigitValue(s[0]), s[1..], c);
    }
  }

  lemma {:induction false} DecimalValueOfFormat(n: nat)
    ensures DecimalValue(FormatUint(n)) == n
  {
    if n < 10 {
      assert Accumulate(0, [Digit(n)]) == Accumulate(n, []);
    } else {
      DecimalValueOfFormat(n / 10);
      AccumulateAppend(0, FormatUint(n / 10), Digit(n % 10));
    }
  }

  /** Round trip: the decimal rendering of `n` parses back to `n` exactly when `n` fits in `bitSize` bits. */
  lemma FormatParseRoundTrip(n: nat, bitSize: nat)
    requires 0 < bitSize <= 64
    ensures ParseUint(FormatUint(n), bitSize) == if n <= MaxUint(bitSize) then Ok(n) else Err(ErrRange)
  {
    var s := FormatUint(n);
    DecimalValueOfFormat(n);
    ScanDigits(s, 0, MaxUint(bitSize));
  }

  /** An identifier above 2^32 - 1 is refused by a 32-bit parse and accepted by a 64-bit one. */
  lemma WideIdentifier(n: nat)
    requires MaxUint(32) < n <= MaxUint(64)
    ensures ParseUint(FormatUint(n), 32) == Err(ErrRange)
    ensures ParseUint(FormatUint(n), 64) == Ok(n)
  {
    FormatParseRoundTrip(n, 32);
    FormatParseRoundTrip(n, 64);
  }
}
