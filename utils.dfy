/** The utilities the generators share: the error kinds, the seeded random
    source, and the digit-count to range table. */
module Utils {
  import opened Digits

  /** The two contract violations the program raises, plus the
      ZeroDivisionError that floor division raises on a zero divisor. */
  datatype Error = InvalidDigitCount | UnknownOperator | DivisionByZero

  datatype Result<T> = Success(value: T) | Failure(error: Error)

  /** The state of a seeded pseudo-random source. Only its range contract is
      relied on; the sequence it produces is a stand-in for Python's. */
  datatype Rng = Rng(state: nat)

  const Modulus: nat := 0x1_0000_0000_0000

  /** A polynomial hash of the seed string. */
  function Hash(s: string): nat {
    if s == [] then 0 else (Hash(s[..|s| - 1]) * 31 + s[|s| - 1] as int) % Modulus
  }

  /** make_rng: the source is a function of the seed string alone. */
  function MakeRng(seed: string): Rng {
    Rng(Hash(seed))
  }

  /** randint_r: an integer in [lo, hi] and the advanced source. */
  function Draw(g: Rng, lo: int, hi: int): (r: (int, Rng))
    requires lo <= hi
    ensures lo <= r.0 <= hi
  {
    var next := (g.state * 25214903917 + 11) % Modulus;
    (lo + next % (hi - lo + 1), Rng(next))
  }

  predicate ValidDigits(d: int) {
    1 <= d <= 3
  }

  /** digits_range: the inclusive range of the d-digit operands, or
      InvalidDigitCount for a digit count other than 1, 2 or 3. */
  function DigitsRange(d: int): (r: Result<(nat, nat)>)
    ensures r.Success? <==> ValidDigits(d)
    ensures r.Failure? ==> r.error == InvalidDigitCount
    ensures r.Success? ==> 1 <= r.value.0 <= r.value.1 < 1000
  {
    if d == 1 then Success((1, 9))
    else if d == 2 then Success((10, 99))
    else if d == 3 then Success((100, 999))
    else Failure(InvalidDigitCount)
  }

  /** The range of d is exactly the positive numbers written with d digits. */
  lemma DigitsRangeIsDigitCount(d: int, n: nat)
    requires ValidDigits(d)
    ensures DigitsRange(d).value.0 <= n <= DigitsRange(d).value.1 <==> 1 <= n && |Decimal(n)| == d
  {
    DecimalLength(n);
  }

  /** n lies in the range of d-digit operands. */
  predicate InDigits(n: int, d: int) {
    DigitsRange(d).Success? && DigitsRange(d).value.0 <= n <= DigitsRange(d).value.1
  }

  /** A string cut at its first separator: when neither prefix holds the
      other's separator, equal strings have equal prefixes, separators and
      remainders. */
  lemma SplitAt(x: string, c: char, y: string, x': string, c': char, y': string)
    requires c !in x' && c' !in x
    requires x + [c] + y == x' + [c'] + y'
    ensures x == x' && c == c' && y == y'
  {
    var s := x + [c] + y;
    assert s[|x|] == c && s[|x'|] == c';
    assert forall i | 0 <= i < |x| :: s[i] == x[i];
    assert forall i | 0 <= i < |x'| :: s[i] == x'[i];
    if |x| < |x'| {
      assert false;
    } else if |x'| < |x| {
      assert false;
    }
    assert c == s[|x|] == c';
    assert x == s[..|x|] == x';
    assert y == s[|x| + 1..] == y';
  }

  /** A label followed by a value determines the value. */
  lemma SameLabel(l: string, u: string, v: string)
    requires l + u == l + v
    ensures u == v
  {
    assert u == (l + u)[|l|..];
    assert v == (l + v)[|l|..];
  }
}
