/** The string conversions the provider relies on: the ASCII part of `strings.ToLower`,
    `strconv.Itoa`, `strconv.Atoi` on a 64-bit platform and `strconv.FormatBool`. */
module Text {
  import opened Values

  const INT64_MIN: int := -0x8000_0000_0000_0000
  const INT64_MAX: int := 0x7FFF_FFFF_FFFF_FFFF

  /** Go's `int` on a 64-bit platform. */
  predicate IsInt64(n: int)
  {
    INT64_MIN <= n <= INT64_MAX
  }

  // ---------------------------------------------------------------------------
  // Lower-casing

  function LowerChar(c: char): char
  {
    if 'A' <= c <= 'Z' then (c as int + 32) as char else c
  }

  /** `strings.ToLower`, restricted to the ASCII letters. */
  function Lower(s: string): (r: string)
    ensures |r| == |s|
    ensures forall i :: 0 <= i < |s| ==> !('A' <= r[i] <= 'Z')
    ensures forall i :: 0 <= i < |s| && !('A' <= s[i] <= 'Z') ==> r[i] == s[i]
    ensures forall i :: 0 <= i < |s| && 'A' <= s[i] <= 'Z' ==> r[i] as int == s[i] as int + 32
  {
    seq(|s|, i requires 0 <= i < |s| => LowerChar(s[i]))
  }

  /** Lower-casing works character by character, so it distributes over concatenation. */
  lemma LowerConcat(a: string, b: string)
    ensures Lower(a + b) == Lower(a) + Lower(b)
  {
    assert forall i :: 0 <= i < |a + b| ==> Lower(a + b)[i] == (Lower(a) + Lower(b))[i];
  }

  /** Lower-casing twice is lower-casing once. */
  lemma LowerIdempotent(s: string)
    ensures Lower(Lower(s)) == Lower(s)
  {
  }

  // ---------------------------------------------------------------------------
  // Decimal digits

  predicate IsDigit(c: char)
  {
    '0' <= c <= '9'
  }

  predicate AllDigits(s: string)
  {
    forall i :: 0 <= i < |s| ==> IsDigit(s[i])
  }

  function DigitChar(d: int): (c: char)
    requires 0 <= d < 10
  {
    ('0' as int + d) as char
  }

  /** The decimal digits of `n`, most significant first, without leading zeros. */
  function NatToDecimal(n: nat): (r: string)
    ensures |r| > 0 && AllDigits(r)
    decreases n
  {
    if n < 10 then [DigitChar(n)] else NatToDecimal(n / 10) + [DigitChar(n % 10)]
  }

  /** `strconv.Itoa`: a minus sign for negative numbers, then the digits. */
  function Itoa(n: int): (r: string)
    ensures |r| > 0 && (r[0] == '-' <==> n < 0)
    ensures AllDigits(if n < 0 then r[1..] else r)
  {
    if n < 0 then "-" + NatToDecimal(-n) else NatToDecimal(n)
  }

  /** The number a non-empty run of digits denotes (leading zeros allowed). */
  function DigitsValue(s: string): nat
    requires AllDigits(s)
    decreases |s|
  {
    if s == [] then 0
    else DigitsValue(s[..|s| - 1]) * 10 + (s[|s| - 1] as int - '0' as int)
  }

  /** The value of an optionally signed decimal numeral, with no range limit. */
  function DecimalValue(s: string): Option<int>
  {
    if |s| > 0 && (s[0] == '+' || s[0] == '-') then
      if |s| == 1 || !AllDigits(s[1..]) then None
      else
        var magnitude: int := DigitsValue(s[1..]);
        Some(if s[0] == '-' then -magnitude else magnitude)
    else if |s| == 0 || !AllDigits(s) then None
    else Some(DigitsValue(s))
  }

  /** `strconv.Atoi` on a 64-bit platform: an optional sign, at least one digit and nothing
      else, and a value that fits in 64 bits; anything else is an error (`None`). */
  function Atoi(s: string): (r: Option<int>)
    ensures r.Some? ==> IsInt64(r.value)
  {
    match DecimalValue(s)
    case Some(v) => if IsInt64(v) then Some(v) else None
    case None => None
  }

  lemma {:induction false} DigitsValueOfDecimal(n: nat)
    ensures DigitsValue(NatToDecimal(n)) == n
    decreases n
  {
    if n >= 10 {
      var r := NatToDecimal(n);
      assert r[..|r| - 1] == NatToDecimal(n / 10);
      DigitsValueOfDecimal(n / 10);
    }
  }

  /** Reading back what `Itoa` writes gives the number again, for every integer. */
  lemma DecimalValueOfItoa(n: int)
    ensures DecimalValue(Itoa(n)) == Some(n)
  {
    if n < 0 {
      var s := Itoa(n);
      assert s[1..] == NatToDecimal(-n);
      DigitsValueOfDecimal(-n);
    } else {
      DigitsValueOfDecimal(n);
    }
  }

  /** The round trip the provider relies on when it stores an id with `%d` and later reads
      it with `strconv.Atoi`. */
  lemma AtoiOfItoa(n: int)
    requires IsInt64(n)
    ensures Atoi(Itoa(n)) == Some(n)
  {
    DecimalValueOfItoa(n);
  }

  /** Different numbers are written differently. */
  lemma ItoaInjective(a: int, b: int)
    requires Itoa(a) == Itoa(b)
    ensures a == b
  {
    DecimalValueOfItoa(a);
    DecimalValueOfItoa(b);
  }

  /** A non-negative number is written with digits only. */
  lemma ItoaOfNatIsDigits(n: int)
    requires n >= 0
    ensures |Itoa(n)| > 0 && AllDigits(Itoa(n))
  {
  }

  /** `strings.ToLower` leaves a numeral untouched. */
  lemma LowerOfItoa(n: int)
    ensures Lower(Itoa(n)) == Itoa(n)
  {
    var s := Itoa(n);
    assert forall i :: 0 <= i < |s| ==> s[i] == '-' || IsDigit(s[i]);
  }

  // ---------------------------------------------------------------------------
  // Booleans

  /** `strconv.FormatBool`. */
  function FormatBool(b: bool): (r: string)
    ensures (r == "true") == b && (r == "false") == !b
  {
    if b then "true" else "false"
  }

  /** The words `true` and `false` are already lower-case. */
  lemma LowerOfFormatBool(b: bool)
    ensures Lower(FormatBool(b)) == FormatBool(b)
  {
    var s := FormatBool(b);
    assert forall i :: 0 <= i < |s| ==> 'a' <= s[i] <= 'z';
  }

  // ---------------------------------------------------------------------------
  // Splitting at a separator

  lemma DashAfter(a: string, d: string)
    ensures (a + "-" + d)[|a|] == '-'
  {
  }

  lemma DigitAt(d: string, i: int)
    requires AllDigits(d) && 0 <= i < |d|
    ensures IsDigit(d[i])
  {
  }

  /** When two strings both end in a separator followed by a run of digits, equal strings
      have equal digit runs and equal prefixes: a digit run never contains the separator. */
  lemma {:induction false} SplitBeforeDigits(a: string, d: string, b: string, e: string)
    requires AllDigits(d) && AllDigits(e)
    requires a + "-" + d == b + "-" + e
    ensures a == b && d == e
  {
    var s := a + "-" + d;
    if |d| < |e| {
      DashAfter(a, d);
      DigitAt(e, |e| - |d| - 1);
      assert false;
    } else if |e| < |d| {
      DashAfter(b, e);
      DigitAt(d, |d| - |e| - 1);
      assert false;
    }
    assert a == s[..|a|] && b == s[..|b|];
    assert d == s[|a| + 1..] && e == s[|b| + 1..];
  }
}
