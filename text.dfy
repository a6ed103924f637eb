/** The pieces of Go's `strings` and `strconv` packages that the adapters
    use, restricted to ASCII case mapping. */
module Text {
  import opened Results

  predicate IsUpper(c: char) { 'A' <= c <= 'Z' }
  predicate IsLower(c: char) { 'a' <= c <= 'z' }

  function LowerChar(c: char): char
  {
    if IsUpper(c) then (c as int + 32) as char else c
  }

  function UpperChar(c: char): char
  {
    if IsLower(c) then (c as int - 32) as char else c
  }

  /** `strings.ToLower`, on ASCII letters. */
  function ToLower(s: string): (r: string)
    ensures |r| == |s|
    ensures forall i :: 0 <= i < |s| ==> !IsUpper(r[i]) && (IsUpper(s[i]) || r[i] == s[i])
  {
    seq(|s|, i requires 0 <= i < |s| => LowerChar(s[i]))
  }

  /** `strings.ToUpper`, on ASCII letters. */
  function ToUpper(s: string): (r: string)
    ensures |r| == |s|
    ensures forall i :: 0 <= i < |s| ==> !IsLower(r[i]) && (IsLower(s[i]) || r[i] == s[i])
  {
    seq(|s|, i requires 0 <= i < |s| => UpperChar(s[i]))
  }

  lemma LowerUpperChar(c: char)
    ensures LowerChar(LowerChar(c)) == LowerChar(c)
    ensures UpperChar(UpperChar(c)) == UpperChar(c)
    ensures LowerChar(UpperChar(c)) == LowerChar(c)
    ensures !IsUpper(LowerChar(c)) && !IsLower(UpperChar(c))
  {
  }

  /** Lowering and raising are idempotent: a second pass changes nothing. */
  lemma CaseIdempotent(s: string)
    ensures ToLower(ToLower(s)) == ToLower(s)
    ensures ToUpper(ToUpper(s)) == ToUpper(s)
  {
    forall i | 0 <= i < |s| ensures ToLower(ToLower(s))[i] == ToLower(s)[i] && ToUpper(ToUpper(s))[i] == ToUpper(s)[i] {
      LowerUpperChar(s[i]);
    }
  }

  // ---------------------------------------------------------------------
  // Decimal numerals (`strconv.Itoa` / `fmt.Sprint` of an integer)

  predicate IsDigit(c: char) { '0' <= c <= '9' }

  predicate AllDigits(s: string) { forall i :: 0 <= i < |s| ==> IsDigit(s[i]) }

  function DigitChar(d: nat): char
    requires d < 10
  {
    ('0' as int + d) as char
  }

  /** The decimal numeral of `n`, without leading zeros. */
  function Decimal(n: nat): (r: string)
    decreases n
  {
    if n < 10 then [DigitChar(n)] else Decimal(n / 10) + [DigitChar(n % 10)]
  }

  /** The value of a string of decimal digits (leading zeros allowed). */
  function DigitsValue(s: string): nat
    requires AllDigits(s)
    decreases |s|
  {
    if s == [] then 0 else DigitsValue(s[..|s| - 1]) * 10 + (s[|s| - 1] as int - '0' as int)
  }

  /** Reading back a numeral gives the number: `Decimal` and `DigitsValue`
      are an encode/decode pair. */
  lemma {:induction false} DecimalRoundTrip(n: nat)
    ensures Decimal(n) != [] && AllDigits(Decimal(n))
    ensures DigitsValue(Decimal(n)) == n
    decreases n
  {
    if n >= 10 {
      DecimalRoundTrip(n / 10);
      var d := Decimal(n / 10);
      assert Decimal(n) == d + [DigitChar(n % 10)];
      assert Decimal(n)[..|Decimal(n)| - 1] == d;
    }
  }

  // ---------------------------------------------------------------------
  // strconv.ParseBool and strconv.ParseInt(s, 10, 64)

  /** `strconv.ParseBool`: the exact spellings Go accepts. */
  function ParseBool(s: string): Option<bool>
  {
    if s in ["1", "t", "T", "TRUE", "true", "True"] then Some(true)
    else if s in ["0", "f", "F", "FALSE", "false", "False"] then Some(false)
    else None
  }

  /** Applied to an already lowered string, `ParseBool` accepts exactly
      "1", "t", "true" as true and "0", "f", "false" as false. */
  lemma ParseBoolLowered(s: string)
    ensures ParseBool(ToLower(s)) == Some(true) <==> ToLower(s) in {"1", "t", "true"}
    ensures ParseBool(ToLower(s)) == Some(false) <==> ToLower(s) in {"0", "f", "false"}
    ensures ParseBool(ToLower(s)) == None <==> ToLower(s) !in {"1", "t", "true", "0", "f", "false"}
  {
    var l := ToLower(s);
    if |s| > 0 {
      LowerUpperChar(s[0]);
      assert !IsUpper(l[0]);
    }
  }

  const Int64Min: int := -0x8000_0000_0000_0000
  const Int64Max: int := 0x7FFF_FFFF_FFFF_FFFF

  /** `strconv.ParseInt(s, 10, 64)`: an optional sign, then at least one
      decimal digit (no underscores in base 10), and a value that fits in
      64 bits; anything else is a syntax or range error. */
  function ParseInt64(s: string): (r: Option<int>)
    ensures r.Some? ==> Int64Min <= r.value <= Int64Max
  {
    if s == [] then None
    else
      var digits := if s[0] == '+' || s[0] == '-' then s[1..] else s;
      if digits == [] || !AllDigits(digits) then None
      else
        var n: int := DigitsValue(digits);
        var v: int := if s[0] == '-' then -n else n;
        if Int64Min <= v <= Int64Max then Some(v) else None
  }

  /** The decimal form of a signed integer, as `fmt.Sprint` prints it. */
  function SignedDecimal(i: int): string
  {
    if i < 0 then "-" + Decimal(-i) else Decimal(i)
  }

  /** Every 64-bit integer survives printing and parsing back. */
  lemma ParseSignedDecimal(i: int)
    requires Int64Min <= i <= Int64Max
    ensures ParseInt64(SignedDecimal(i)) == Some(i)
  {
    var s := SignedDecimal(i);
    if i < 0 {
      var d := Decimal(-i);
      DecimalRoundTrip(-i);
      assert s == "-" + d;
      assert s[0] == '-' && s[1..] == d;
      assert DigitsValue(d) == -i;
    } else {
      var d := Decimal(i);
      DecimalRoundTrip(i);
      assert s == d;
      assert IsDigit(d[0]);
      assert DigitsValue(d) == i;
    }
  }
}
