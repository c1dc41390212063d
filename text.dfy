/**
 * Number rendering as the tracer's output uses it: `std::to_string` for the
 * decimal fields (pid, tid, ts, integer arguments) and `std::hex` for the
 * correlation id, both without leading zeros and with lower-case hex digits.
 * Beside each renderer sits the reader that inverts it, so that every
 * rendering is proved to be lossless.
 */
module Text {
  import opened Wrappers

  /** The two bases the tracer prints in. */
  type Base = b: nat | b == 10 || b == 16 witness 10

  predicate IsDigit(c: char, base: Base) {
    ('0' <= c <= '9') || (base == 16 && 'a' <= c <= 'f')
  }

  function DigitValue(c: char): nat {
    if '0' <= c <= '9' then c as int - '0' as int
    else if 'a' <= c <= 'f' then c as int - 'a' as int + 10
    else 0
  }

  /** The character printed for one digit `d`; lower-case as `std::hex` prints. */
  function DigitChar(d: nat): (c: char)
    requires d < 16
    ensures DigitValue(c) == d
    ensures IsDigit(c, 16) && (d < 10 ==> IsDigit(c, 10))
    ensures c == '0' <==> d == 0
  {
    if d < 10 then ('0' as int + d) as char else ('a' as int + (d - 10)) as char
  }

  /** The numeral of `n` in `base`: what `std::to_string` (base 10) or `<< std::hex` (base 16) prints. */
  function Numeral(n: nat, base: Base): (s: string)
    ensures |s| > 0
    ensures forall i | 0 <= i < |s| :: IsDigit(s[i], base)
    ensures s[0] == '0' <==> n == 0
    ensures n == 0 ==> s == "0"
    decreases n
  {
    if n < base then [DigitChar(n)] else Numeral(n / base, base) + [DigitChar(n % base)]
  }

  /** The value a string of digits denotes in `base` (most significant first). */
  function DigitsValue(s: string, base: Base): nat
    decreases |s|
  {
    if s == [] then 0 else DigitsValue(s[..|s| - 1], base) * base + DigitValue(s[|s| - 1])
  }

  /** Reading a numeral back gives the number it was printed from. */
  lemma {:induction false} NumeralValue(n: nat, base: Base)
    ensures DigitsValue(Numeral(n, base), base) == n
  {
    var s := Numeral(n, base);
    if n >= base {
      NumeralValue(n / base, base);
      assert s[..|s| - 1] == Numeral(n / base, base);
    }
  }

  /** Distinct numbers print as distinct numerals. */
  lemma NumeralInjective(m: nat, n: nat, base: Base)
    ensures Numeral(m, base) == Numeral(n, base) <==> m == n
  {
    NumeralValue(m, base);
    NumeralValue(n, base);
  }

  /** A non-empty digit string without a leading zero has a positive value. */
  lemma {:induction false} LeadingDigitPositive(s: string, base: Base)
    requires s != [] && s[0] != '0'
    requires forall i | 0 <= i < |s| :: IsDigit(s[i], base)
    ensures DigitsValue(s, base) > 0
  {
    if |s| > 1 {
      LeadingDigitPositive(s[..|s| - 1], base);
    }
  }

  /** Every canonical numeral (digits, no leading zero unless it is "0") is the numeral of its value. */
  lemma {:induction false} NumeralOfValue(s: string, base: Base)
    requires s != [] && (s[0] == '0' ==> |s| == 1)
    requires forall i | 0 <= i < |s| :: IsDigit(s[i], base)
    ensures Numeral(DigitsValue(s, base), base) == s
  {
    var v := DigitsValue(s, base);
    var last := s[|s| - 1];
    assert DigitValue(last) < base;
    assert DigitChar(DigitValue(last)) == last;
    if |s| > 1 {
      var p := s[..|s| - 1];
      LeadingDigitPositive(p, base);
      NumeralOfValue(p, base);
      assert v / base == DigitsValue(p, base) && v % base == DigitValue(last);
      assert s == p + [last];
    }
  }

  /** `std::to_string` of a signed integer: a minus sign, then the numeral of the magnitude. */
  function Decimal(i: int): (s: string)
    ensures s != [] && (s[0] == '-' <==> i < 0)
  {
    if i < 0 then "-" + Numeral(-i, 10) else Numeral(i, 10)
  }

  /** Splits off the longest prefix of digits of `base`. */
  function SpanDigits(s: string, base: Base): (r: (string, string))
    ensures r.0 + r.1 == s
    ensures forall i | 0 <= i < |r.0| :: IsDigit(r.0[i], base)
    ensures r.1 == [] || !IsDigit(r.1[0], base)
  {
    if s != [] && IsDigit(s[0], base) then
      var (d, rest) := SpanDigits(s[1..], base);
      ([s[0]] + d, rest)
    else
      ([], s)
  }

  /** Reads a non-empty run of digits and returns its value and what follows. */
  function ReadNat(s: string, base: Base): (r: Option<(nat, string)>)
    ensures r.Some? ==> |r.value.1| < |s|
  {
    var (d, rest) := SpanDigits(s, base);
    if d == [] then None else Some((DigitsValue(d, base), rest))
  }

  /** Reads an optionally negative decimal integer. */
  function ReadInt(s: string): (r: Option<(int, string)>)
    ensures r.Some? ==> |r.value.1| < |s|
  {
    if s != [] && s[0] == '-' then
      match ReadNat(s[1..], 10)
      case Some((v, rest)) => Some((-(v as int), rest))
      case None => None
    else
      ReadNat(s, 10)
  }

  /** Splits `s` before the first occurrence of `c` (or at its end). */
  function SplitAt(s: string, c: char): (r: (string, string))
    ensures r.0 + r.1 == s && c !in r.0
    ensures r.1 == [] || r.1[0] == c
  {
    if s == [] || s[0] == c then ([], s)
    else
      var (p, rest) := SplitAt(s[1..], c);
      ([s[0]] + p, rest)
  }

  /** Strips the literal `lit` from the front of `s`, if it is there. */
  function Lit(lit: string, s: string): (r: Option<string>)
    ensures r.Some? <==> lit <= s
    ensures r.Some? ==> s == lit + r.value
  {
    if lit <= s then Some(s[|lit|..]) else None
  }

  lemma {:induction false} SpanDigitsOf(d: string, rest: string, base: Base)
    requires forall i | 0 <= i < |d| :: IsDigit(d[i], base)
    requires rest == [] || !IsDigit(rest[0], base)
    ensures SpanDigits(d + rest, base) == (d, rest)
  {
    if d != [] {
      var s := d + rest;
      assert s[0] == d[0] && s[1..] == d[1..] + rest;
      SpanDigitsOf(d[1..], rest, base);
      assert [d[0]] + d[1..] == d;
    } else {
      assert d + rest == rest;
    }
  }

  /** Reading a printed number followed by a non-digit gives the number and the remainder. */
  lemma ReadNatOf(n: nat, base: Base, rest: string)
    requires rest == [] || !IsDigit(rest[0], base)
    ensures ReadNat(Numeral(n, base) + rest, base) == Some((n, rest))
  {
    SpanDigitsOf(Numeral(n, base), rest, base);
    NumeralValue(n, base);
  }

  /** `Decimal` is read back exactly, negative values included. */
  lemma ReadIntOf(i: int, rest: string)
    requires rest == [] || !IsDigit(rest[0], 10)
    ensures ReadInt(Decimal(i) + rest) == Some((i, rest))
  {
    if i < 0 {
      AppendAssoc("-", Numeral(-i, 10), rest);
      ReadNegativeOf(-i, rest);
    } else {
      ReadNonNegativeOf(i, rest);
    }
  }

  lemma ReadNegativeOf(n: nat, rest: string)
    requires rest == [] || !IsDigit(rest[0], 10)
    ensures ReadInt("-" + (Numeral(n, 10) + rest)) == Some((-(n as int), rest))
  {
    var s := "-" + (Numeral(n, 10) + rest);
    assert s[0] == '-' && s[1..] == Numeral(n, 10) + rest;
    ReadNatOf(n, 10, rest);
  }

  lemma ReadNonNegativeOf(n: nat, rest: string)
    requires rest == [] || !IsDigit(rest[0], 10)
    ensures ReadInt(Numeral(n, 10) + rest) == Some((n, rest))
  {
    var s := Numeral(n, 10) + rest;
    assert s[0] == Numeral(n, 10)[0] && IsDigit(s[0], 10);
    ReadNatOf(n, 10, rest);
  }

  lemma {:induction false} SplitAtOf(p: string, c: char, rest: string)
    requires c !in p
    requires rest == [] || rest[0] == c
    ensures SplitAt(p + rest, c) == (p, rest)
  {
    if p != [] {
      var s := p + rest;
      assert s[0] == p[0] && s[1..] == p[1..] + rest;
      SplitAtOf(p[1..], c, rest);
      assert [p[0]] + p[1..] == p;
    } else {
      assert p + rest == rest;
    }
  }

  /** Appending is associative; stated once so that proofs can move text between the sides of an append. */
  lemma AppendAssoc<T>(a: seq<T>, b: seq<T>, c: seq<T>)
    ensures (a + b) + c == a + (b + c)
  {
  }

  /** The text a sequence of appends builds, as a string stream does. */
  function Concat(pieces: seq<string>): string {
    if pieces == [] then "" else pieces[0] + Concat(pieces[1..])
  }

  /** Peeling one piece off the front of any suffix of the pieces. */
  lemma ConcatSuffix(pieces: seq<string>, k: nat)
    requires k < |pieces|
    ensures Concat(pieces[k..]) == pieces[k] + Concat(pieces[k + 1..])
  {
    assert pieces[k..][1..] == pieces[k + 1..];
  }
}
