/** Decimal parsing of unsigned integers, as Rust's `str::parse::<u32>()` and
    `str::parse::<u8>()` perform it for the width, height, dpi and quality
    arguments of the command line. */
module Numeric {

  /** The kinds of `ParseIntError` an unsigned parse can report. */
  datatype ParseError = Empty | InvalidDigit | PosOverflow

  datatype Parsed = Ok(value: nat) | Err(error: ParseError)

  const U8_MAX: nat := 255
  const U32_MAX: nat := 0xFFFF_FFFF

  predicate IsDigit(c: char) {
    '0' <= c <= '9'
  }

  function DigitValue(c: char): nat
    requires IsDigit(c)
  {
    c as int - '0' as int
  }

  function DigitChar(d: nat): char
    requires d < 10
  {
    ('0' as int + d) as char
  }

  predicate AllDigits(s: string) {
    forall i | 0 <= i < |s| :: IsDigit(s[i])
  }

  /** The number a string of decimal digits denotes, most significant digit first. */
  function DecimalValue(s: string): nat
    requires AllDigits(s)
  {
    if s == [] then 0 else DecimalValue(s[..|s| - 1]) * 10 + DigitValue(s[|s| - 1])
  }

  /** What remains of `s` once an optional leading `+` is dropped. */
  function Unsigned(s: string): string {
    if |s| > 0 && s[0] == '+' then s[1..] else s
  }

  /** A well-formed unsigned literal: an optional `+`, then one or more decimal digits. */
  predicate IsLiteral(s: string) {
    Unsigned(s) != [] && AllDigits(Unsigned(s))
  }

  /** The digit loop of the standard library: digits are read left to right, each
      one checked for validity first and then for overflow of the accumulator. */
  function Accumulate(digits: string, acc: nat, max: nat): Parsed
  {
    if digits == [] then Ok(acc)
    else if !IsDigit(digits[0]) then Err(InvalidDigit)
    else if acc * 10 + DigitValue(digits[0]) > max then Err(PosOverflow)
    else Accumulate(digits[1..], acc * 10 + DigitValue(digits[0]), max)
  }

  /** `s.parse()` into an unsigned type whose largest value is `max`. A sign with
      nothing after it is an invalid digit; a `-` is never accepted. */
  function ParseUnsigned(s: string, max: nat): (r: Parsed)
    ensures r.Ok? <==> IsLiteral(s) && DecimalValue(Unsigned(s)) <= max
    ensures r.Ok? ==> r.value == DecimalValue(Unsigned(s)) && r.value <= max
    ensures r == Err(Empty) <==> s == []
    ensures IsLiteral(s) && DecimalValue(Unsigned(s)) > max ==> r == Err(PosOverflow)
  {
    if s == [] then Err(Empty)
    else if |s| == 1 && (s[0] == '+' || s[0] == '-') then Err(InvalidDigit)
    else
      AccumulateDenotes([], Unsigned(s), max);
      assert [] + Unsigned(s) == Unsigned(s);
      Accumulate(Unsigned(s), 0, max)
  }

  /** Appending digits never makes the denoted number smaller. */
  lemma {:induction false} DecimalValueGrows(p: string, t: string)
    requires AllDigits(p) && AllDigits(t)
    ensures AllDigits(p + t) && DecimalValue(p) <= DecimalValue(p + t)
  {
    if t == [] {
      assert p + t == p;
    } else {
      var t' := t[..|t| - 1];
      DecimalValueGrows(p, t');
      assert (p + t)[..|p + t| - 1] == p + t';
    }
  }

  /** The digit loop, started after the digits `done` have been read, agrees with
      `DecimalValue` on the whole literal. */
  lemma {:induction false} AccumulateDenotes(done: string, rest: string, max: nat)
    requires AllDigits(done) && DecimalValue(done) <= max
    ensures Accumulate(rest, DecimalValue(done), max).Ok?
        <==> AllDigits(done + rest) && DecimalValue(done + rest) <= max
    ensures Accumulate(rest, DecimalValue(done), max).Ok?
        ==> AllDigits(done + rest) && Accumulate(rest, DecimalValue(done), max).value == DecimalValue(done + rest)
    ensures AllDigits(done + rest) && DecimalValue(done + rest) > max
        ==> Accumulate(rest, DecimalValue(done), max) == Err(PosOverflow)
    ensures Accumulate(rest, DecimalValue(done), max) != Err(Empty)
    decreases |rest|
  {
    if rest == [] {
      assert done + rest == done;
    } else {
      var c := rest[0];
      assert done + rest == (done + [c]) + rest[1..];
      if IsDigit(c) {
        var next := done + [c];
        assert next[..|next| - 1] == done;
        if DecimalValue(next) <= max {
          AccumulateDenotes(next, rest[1..], max);
        } else if AllDigits(done + rest) {
          DigitsOfTail(done, rest);
          DecimalValueGrows(next, rest[1..]);
        }
      } else {
        assert (done + rest)[|done|] == c;
      }
    }
  }

  /** The digits after the first of `rest`, in a digit string `done + rest`. */
  lemma DigitsOfTail(done: string, rest: string)
    requires rest != [] && AllDigits(done + rest)
    ensures AllDigits(rest[1..])
  {
    forall i | 0 <= i < |rest[1..]| ensures IsDigit(rest[1..][i]) {
      assert rest[1..][i] == (done + rest)[|done| + 1 + i];
    }
  }

  /** The first `k` characters of `w` are digits whose value is above `max`. */
  predicate OverflowsAt(w: string, k: nat, max: nat) {
    k <= |w| && AllDigits(w[..k]) && DecimalValue(w[..k]) > max
  }

  /** Which error a failed parse reports: an overflow exactly when some run of
      leading digits is already too large, and otherwise, for a non-empty string
      that is no literal, an invalid digit. */
  lemma ParseErrorKinds(s: string, max: nat)
    ensures ParseUnsigned(s, max) == Err(PosOverflow) <==> exists k: nat :: OverflowsAt(Unsigned(s), k, max)
    ensures ParseUnsigned(s, max) == Err(InvalidDigit)
        <==> s != [] && !IsLiteral(s) && forall k: nat :: !OverflowsAt(Unsigned(s), k, max)
  {
    ParseOverflows(s, max);
    var w := Unsigned(s);
    var r := ParseUnsigned(s, max);
    if IsLiteral(s) && DecimalValue(w) > max {
      assert w[..|w|] == w && OverflowsAt(w, |w|, max);
    }
    if s != [] && !IsLiteral(s) && forall k: nat :: !OverflowsAt(w, k, max) {
      assert r.Err? && r.error != Empty && r.error != PosOverflow;
    }
  }

  lemma ParseOverflows(s: string, max: nat)
    ensures ParseUnsigned(s, max) == Err(PosOverflow) <==> exists k: nat :: OverflowsAt(Unsigned(s), k, max)
  {
    var w := Unsigned(s);
    assert [] + w == w;
    if ParseUnsigned(s, max) == Err(PosOverflow) {
      var k := OverflowWitness([], w, max);
    }
    if k: nat :| OverflowsAt(w, k, max) {
      assert w[..0] == [];
      if |s| == 1 && (s[0] == '+' || s[0] == '-') {
        assert false;
      }
      OverflowReported([], w, k, max);
    }
  }

  /** A digit loop that overflows passed a run of digits that is too large. */
  lemma {:induction false} OverflowWitness(done: string, rest: string, max: nat) returns (k: nat)
    requires AllDigits(done) && DecimalValue(done) <= max
    requires Accumulate(rest, DecimalValue(done), max) == Err(PosOverflow)
    ensures OverflowsAt(done + rest, k, max)
    decreases |rest|
  {
    var c := rest[0];
    var next := done + [c];
    assert next[..|next| - 1] == done;
    assert done + rest == next + rest[1..];
    assert (done + rest)[..|next|] == next;
    if DecimalValue(next) > max {
      k := |next|;
    } else {
      k := OverflowWitness(next, rest[1..], max);
    }
  }

  /** A run of digits that is too large, longer than what the loop has read so
      far, makes the loop report an overflow. */
  lemma {:induction false} OverflowReported(done: string, rest: string, k: nat, max: nat)
    requires AllDigits(done) && DecimalValue(done) <= max
    requires |done| < k && OverflowsAt(done + rest, k, max)
    ensures Accumulate(rest, DecimalValue(done), max) == Err(PosOverflow)
    decreases |rest|
  {
    var w := done + rest;
    var c := rest[0];
    assert c == w[..k][|done|];
    var next := done + [c];
    assert next[..|next| - 1] == done;
    assert w == next + rest[1..];
    if DecimalValue(next) <= max {
      assert w[..|next|] == next;
      OverflowReported(next, rest[1..], k, max);
    }
  }

  /** `n` in decimal, without sign or leading zeros, as `Display` prints it. */
  function Decimal(n: nat): string
  {
    if n < 10 then [DigitChar(n)] else Decimal(n / 10) + [DigitChar(n % 10)]
  }

  lemma {:induction false} DecimalDenotes(n: nat)
    ensures Decimal(n) != [] && AllDigits(Decimal(n)) && DecimalValue(Decimal(n)) == n
  {
    if n >= 10 {
      DecimalDenotes(n / 10);
      var s := Decimal(n);
      assert s[..|s| - 1] == Decimal(n / 10);
    }
  }

  /** Parsing inverts printing: a printed number, with or without a leading `+`,
      parses back to itself when it fits, and overflows otherwise. */
  lemma ParseDecimalRoundTrip(n: nat, max: nat)
    ensures ParseUnsigned(Decimal(n), max) == if n <= max then Ok(n) else Err(PosOverflow)
    ensures ParseUnsigned("+" + Decimal(n), max) == if n <= max then Ok(n) else Err(PosOverflow)
  {
    DecimalDenotes(n);
    assert Unsigned("+" + Decimal(n)) == Decimal(n);
  }
}
