// Printing and parsing of numbers as Go's fmt and strconv do it.
module Numbers {
  import opened Options

  const TWO32: int := 0x1_0000_0000
  const TWO63: int := 0x8000_0000_0000_0000
  const TWO64: int := 0x1_0000_0000_0000_0000

  function DigitValue(c: char): int {
    if '0' <= c <= '9' then c as int - '0' as int
    else if 'A' <= c <= 'F' then c as int - 'A' as int + 10
    else if 'a' <= c <= 'f' then c as int - 'a' as int + 10
    else -1
  }

  /** The digits %d and %X print. */
  function Digit(d: nat): (c: char)
    requires d < 16
    ensures DigitValue(c) == d
  {
    if d < 10 then (d + '0' as int) as char else (d - 10 + 'A' as int) as char
  }

  predicate IsUpperHex(c: char) {
    '0' <= c <= '9' || 'A' <= c <= 'F'
  }

  function Quotient(n: nat, base: nat): (q: nat)
    requires base == 10 || base == 16
    ensures q * base <= n < q * base + base && (n >= base ==> q < n)
  {
    if base == 10 then n / 10 else n / 16
  }

  function Print(n: nat, base: nat): (s: string)
    requires base == 10 || base == 16
    ensures s != "" && forall c :: c in s ==> IsUpperHex(c)
    decreases n
  {
    if n < base then [Digit(n)] else Print(Quotient(n, base), base) + [Digit(n - Quotient(n, base) * base)]
  }

  /** The value of a non-empty string of digits below base, without a range check. */
  function ParseNat(s: string, base: nat): Option<nat>
    requires base == 10 || base == 16
  {
    if s == "" then None
    else
      var d := DigitValue(s[|s| - 1]);
      if d < 0 || d >= base then None
      else if |s| == 1 then Some(d)
      else
        match ParseNat(s[..|s| - 1], base)
        case None => None
        case Some(v) => Some(v * base + d)
  }

  lemma {:induction false} ParsePrinted(n: nat, base: nat)
    requires base == 10 || base == 16
    ensures ParseNat(Print(n, base), base) == Some(n)
    decreases n
  {
    var s := Print(n, base);
    if n >= base {
      ParsePrinted(Quotient(n, base), base);
      assert s[..|s| - 1] == Print(Quotient(n, base), base);
    }
  }

  /** strconv.ParseInt(s, base, 64); None is its error. */
  function ParseInt64(s: string, base: nat): Option<int>
    requires base == 10 || base == 16
  {
    var negative := s != "" && s[0] == '-';
    var digits := if s != "" && (s[0] == '-' || s[0] == '+') then s[1..] else s;
    match ParseNat(digits, base)
    case None => None
    case Some(v) =>
      var value: int := if negative then 0 - (v as int) else v as int;
      if -TWO63 <= value < TWO63 then Some(value) else None
  }

  /** strconv.ParseUint(s, base, 64). */
  function ParseUint64(s: string, base: nat): Option<nat>
    requires base == 10 || base == 16
  {
    match ParseNat(s, base)
    case Some(v) => if v < TWO64 then Some(v) else None
    case None => None
  }

  lemma ParseInt64Printed(n: nat, base: nat)
    requires (base == 10 || base == 16) && n < TWO63
    ensures ParseInt64(Print(n, base), base) == Some(n)
  {
    ParsePrinted(n, base);
    assert IsUpperHex(Print(n, base)[0]);
  }

  /** %0<width>X: left-padded with zeros. */
  function PrintPadded(n: nat, base: nat, width: nat): string
    requires base == 10 || base == 16
  {
    Zeros(width - |Print(n, base)|) + Print(n, base)
  }

  function Zeros(k: int): (s: string)
    ensures forall i :: 0 <= i < |s| ==> s[i] == '0'
    decreases k
  {
    if k <= 0 then "" else "0" + Zeros(k - 1)
  }

  lemma {:induction false} LeadingZeros(z: string, s: string, base: nat)
    requires (base == 10 || base == 16) && s != "" && forall i :: 0 <= i < |z| ==> z[i] == '0'
    ensures ParseNat(z + s, base) == ParseNat(s, base)
    decreases |s|
  {
    var t := z + s;
    assert t[..|t| - 1] == z + s[..|s| - 1];
    if |s| > 1 {
      LeadingZeros(z, s[..|s| - 1], base);
    } else if z != "" {
      AllZeros(z, base);
      assert t[..|t| - 1] == z;
    }
  }

  lemma {:induction false} AllZeros(z: string, base: nat)
    requires (base == 10 || base == 16) && z != "" && forall i :: 0 <= i < |z| ==> z[i] == '0'
    ensures ParseNat(z, base) == Some(0)
  {
    if |z| > 1 { AllZeros(z[..|z| - 1], base); }
  }

  lemma PrintPaddedInjective(m: nat, n: nat, base: nat, width: nat)
    requires (base == 10 || base == 16) && PrintPadded(m, base, width) == PrintPadded(n, base, width)
    ensures m == n
  {
    LeadingZeros(Zeros(width - |Print(m, base)|), Print(m, base), base);
    LeadingZeros(Zeros(width - |Print(n, base)|), Print(n, base), base);
    ParsePrinted(m, base);
    ParsePrinted(n, base);
  }

  /** %d. */
  function PrintInt(n: int): string {
    if n < 0 then "-" + Print(-n, 10) else Print(n, 10)
  }

  lemma PrintIntInjective(m: int, n: int)
    requires PrintInt(m) == PrintInt(n)
    ensures m == n
  {
    assert IsUpperHex(Print(if m < 0 then -m else m, 10)[0]) && IsUpperHex(Print(if n < 0 then -n else n, 10)[0]);
    assert m < 0 ==> PrintInt(m)[0] == '-' && PrintInt(m)[1..] == Print(-m, 10);
    assert n < 0 ==> PrintInt(n)[0] == '-' && PrintInt(n)[1..] == Print(-n, 10);
    ParsePrinted(if m < 0 then -m else m, 10);
    ParsePrinted(if n < 0 then -n else n, 10);
  }

  /** A 64-bit LSN as its two halves, %X/%X. */
  function PrintLSN(lsn: nat): string {
    Print(lsn / TWO32, 16) + "/" + Print(lsn % TWO32, 16)
  }
}
