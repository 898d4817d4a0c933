/**
 * Go's `strconv.Atoi` on a 64-bit platform, as the complexity evaluator
 * uses it: its error is discarded, so only the integer it returns matters.
 * That integer is 0 after a syntax error and the nearest bound of the int64
 * range after a range error.
 */
module Strconv {
  const MaxInt64: int := 0x7fff_ffff_ffff_ffff
  const MinInt64: int := -0x8000_0000_0000_0000
  const MaxUint64: int := 0xffff_ffff_ffff_ffff
  /** `ParseUint`'s bound: from here on, multiplying by ten overflows 64 bits. */
  const Cutoff: int := MaxUint64 / 10 + 1

  /** How `ParseUint`'s digit loop ends. */
  datatype Digits = Value(n: nat) | BadDigit | Overflow

  predicate IsDigit(c: char) {
    '0' <= c <= '9'
  }

  function DigitValue(c: char): nat
    requires IsDigit(c)
  {
    c as int - '0' as int
  }

  /**
   * `ParseUint`'s loop in base 10 for 64 bits, continuing from the value `n`
   * read so far: it stops at the first character that is not a digit (a
   * syntax error) or at the first digit that would overflow (a range error),
   * whichever comes first.
   */
  function ScanDigits(s: string, n: nat): (r: Digits)
    requires n <= MaxUint64
    ensures r.Value? ==> r.n <= MaxUint64
    decreases |s|
  {
    if |s| == 0 then Value(n)
    else if !IsDigit(s[0]) then BadDigit
    else if n >= Cutoff then Overflow
    else if n * 10 + DigitValue(s[0]) > MaxUint64 then Overflow
    else ScanDigits(s[1..], n * 10 + DigitValue(s[0]))
  }

  /**
   * `Atoi`: an optional sign, then base-10 digits. The fast path Go takes
   * for strings shorter than 19 bytes gives the same integer as this, the
   * `ParseInt` path, since such strings cannot overflow.
   */
  function Atoi(s: string): (r: int)
    ensures MinInt64 <= r <= MaxInt64
  {
    if |s| == 0 then 0
    else
      var neg := s[0] == '-';
      var digits := if s[0] == '+' || s[0] == '-' then s[1..] else s;
      if |digits| == 0 then 0
      else
        match ScanDigits(digits, 0)
        case BadDigit => 0
        case Overflow => if neg then MinInt64 else MaxInt64
        case Value(un) =>
          if !neg && un > MaxInt64 then MaxInt64
          else if neg && un > -MinInt64 then MinInt64
          else if neg then -(un as int)
          else un
  }

  /** The shortest base-10 spelling of `n`, as `strconv.Itoa` writes it. */
  function Decimal(n: nat): (s: string)
    ensures |s| > 0 && IsDigit(s[0])
    decreases n
  {
    var d := ['0' + (n % 10) as char];
    if n < 10 then d else Decimal(n / 10) + d
  }

  /** Scanning splits at any point: what is read first continues into the rest. */
  lemma {:induction false} ScanDigitsAppend(s: string, t: string, n: nat)
    requires n <= MaxUint64
    ensures ScanDigits(s + t, n) == if ScanDigits(s, n).Value? then ScanDigits(t, ScanDigits(s, n).n) else ScanDigits(s, n)
    decreases |s|
  {
    if |s| > 0 {
      assert (s + t)[0] == s[0];
      assert (s + t)[1..] == s[1..] + t;
      if IsDigit(s[0]) && n < Cutoff && n * 10 + DigitValue(s[0]) <= MaxUint64 {
        ScanDigitsAppend(s[1..], t, n * 10 + DigitValue(s[0]));
      }
    } else {
      assert s + t == t;
    }
  }

  lemma {:induction false} ScanDecimal(n: nat)
    requires n <= MaxUint64
    ensures ScanDigits(Decimal(n), 0) == Value(n)
    decreases n
  {
    var d := ['0' + (n % 10) as char];
    assert DigitValue(d[0]) == n % 10;
    if n >= 10 {
      ScanDecimal(n / 10);
      ScanDigitsAppend(Decimal(n / 10), d, 0);
      assert d[1..] == [];
    }
  }

  /** `Atoi` reads back every int64 that `Itoa` writes, positive or negative. */
  lemma AtoiReadsDecimal(n: nat)
    requires n <= MaxInt64
    ensures Atoi(Decimal(n)) == n
    ensures Atoi("-" + Decimal(n)) == -(n as int)
  {
    ScanDecimal(n);
    assert ("-" + Decimal(n))[1..] == Decimal(n);
  }

  /** Text with no digit at all (an identifier, `null`, a quoted word) reads as 0. */
  lemma AtoiWithoutDigits(s: string)
    requires forall i :: 0 <= i < |s| ==> !IsDigit(s[i])
    ensures Atoi(s) == 0
  {
  }

  /** A run of digits too long for 64 bits reads as the nearest int64 bound, with its sign. */
  lemma AtoiClamps(s: string)
    requires |s| > 0 && ScanDigits(s, 0).Overflow?
    ensures Atoi(s) == MaxInt64
    ensures Atoi("-" + s) == MinInt64
    ensures Atoi("+" + s) == MaxInt64
  {
    assert ("-" + s)[1..] == s;
    assert ("+" + s)[1..] == s;
    assert IsDigit(s[0]);
  }
}
