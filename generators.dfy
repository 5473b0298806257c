/** The four per-operation problem generators. Each retry loop is a method
    whose result is proved equal to a recursive function of the random
    source's state (the loop unrolled); the guarantees of each generator are
    the contracts of those functions. */
module Generators {
  import opened Digits
  import opened Utils
  import opened Arithmetic

  const Plus: char := '+'
  const Minus: char := '\U{2212}'
  const Times: char := '\U{00D7}'
  const Divide: char := '\U{00F7}'

  /** The retry loops escape once more than this many tries have failed. */
  const MaxTries: nat := 2000

  /** A problem (a, sym, b); its signature is str(a) + sym + str(b). */
  datatype Problem = Problem(a: nat, sym: char, b: nat)

  /** A generated problem, the random source after the draws, how many
      passes the retry loop made, and whether it left by the escape. */
  datatype Drawn = Drawn(problem: Problem, rest: Rng, attempts: nat, escaped: bool)

  predicate InRange(n: int, r: (nat, nat)) {
    r.0 <= n <= r.1
  }

  /** The source before pass n of a loop that draws one number from each of
      two ranges per pass. */
  function PairSource(g: Rng, ar: (nat, nat), br: (nat, nat), n: nat): Rng
    requires ar.0 <= ar.1 && br.0 <= br.1
    decreases n
  {
    if n == 0 then g
    else PairSource(Draw(Draw(g, ar.0, ar.1).1, br.0, br.1).1, ar, br, n - 1)
  }

  /** The pair drawn on pass n (counted from 0) of such a loop. */
  function PassPair(g: Rng, ar: (nat, nat), br: (nat, nat), n: nat): (p: (nat, nat))
    requires ar.0 <= ar.1 && br.0 <= br.1
    ensures InRange(p.0, ar) && InRange(p.1, br)
  {
    var h := PairSource(g, ar, br, n);
    var (a, h1) := Draw(h, ar.0, ar.1);
    (a, Draw(h1, br.0, br.1).0)
  }

  /** Pass n > 0 from g is pass n - 1 from the source after the first pass. */
  lemma ShiftPass(g: Rng, ar: (nat, nat), br: (nat, nat), n: nat)
    requires ar.0 <= ar.1 && br.0 <= br.1 && n > 0
    ensures PassPair(g, ar, br, n) == PassPair(Draw(Draw(g, ar.0, ar.1).1, br.0, br.1).1, ar, br, n - 1)
  {
    assert PairSource(g, ar, br, n) == PairSource(Draw(Draw(g, ar.0, ar.1).1, br.0, br.1).1, ar, br, n - 1);
  }

  // ---------------------------------------------------------------- addition

  /** The retry loop of gen_addition from its pass number `tries` on. */
  function AdditionLoop(g: Rng, ar: (nat, nat), br: (nat, nat), allowCarry: bool, tries: nat): Drawn
    requires ar.0 <= ar.1 && br.0 <= br.1 && tries <= MaxTries
    decreases MaxTries - tries
  {
    var (a, g1) := Draw(g, ar.0, ar.1);
    var (b, g2) := Draw(g1, br.0, br.1);
    if allowCarry || CarryFree(a, b) then Drawn(Problem(a, Plus, b), g2, tries + 1, false)
    else if tries + 1 > MaxTries then Drawn(Problem(a, Plus, b), g2, tries + 1, true)
    else AdditionLoop(g2, ar, br, allowCarry, tries + 1)
  }

  /** The addition loop keeps both operands in their ranges; with carrying
      allowed it stops at the first pass; otherwise the pair it returns has
      no carry, unless it escapes after pass 2001 with a pair that carries.
      That it is the first such pair is AdditionLoopLast with
      AdditionLoopFirst. */
  lemma {:induction false} AdditionLoopFits(g: Rng, ar: (nat, nat), br: (nat, nat), allowCarry: bool, tries: nat)
    requires ar.0 <= ar.1 && br.0 <= br.1 && tries <= MaxTries
    ensures var d := AdditionLoop(g, ar, br, allowCarry, tries);
      && d.problem.sym == Plus
      && InRange(d.problem.a, ar) && InRange(d.problem.b, br)
      && tries < d.attempts <= MaxTries + 1
      && (allowCarry ==> d.attempts == tries + 1 && !d.escaped)
      && (!d.escaped ==> allowCarry || CarryFree(d.problem.a, d.problem.b))
      && (d.escaped ==> !allowCarry && !CarryFree(d.problem.a, d.problem.b) && d.attempts == MaxTries + 1)
    decreases MaxTries - tries
  {
    var (a, g1) := Draw(g, ar.0, ar.1);
    var (b, g2) := Draw(g1, br.0, br.1);
    if !(allowCarry || CarryFree(a, b)) && tries + 1 <= MaxTries {
      AdditionLoopFits(g2, ar, br, allowCarry, tries + 1);
    }
  }

  /** The addition loop returns the pair its last pass drew. */
  lemma {:induction false} AdditionLoopLast(g: Rng, ar: (nat, nat), br: (nat, nat), allowCarry: bool, tries: nat)
    requires ar.0 <= ar.1 && br.0 <= br.1 && tries <= MaxTries
    ensures forall n: nat | tries + n + 1 == AdditionLoop(g, ar, br, allowCarry, tries).attempts ::
      (AdditionLoop(g, ar, br, allowCarry, tries).problem.a, AdditionLoop(g, ar, br, allowCarry, tries).problem.b)
      == PassPair(g, ar, br, n)
    decreases MaxTries - tries
  {
    var (a, g1) := Draw(g, ar.0, ar.1);
    var (b, g2) := Draw(g1, br.0, br.1);
    assert PassPair(g, ar, br, 0) == (a, b);
    if !(allowCarry || CarryFree(a, b)) && tries + 1 <= MaxTries {
      AdditionLoopLast(g2, ar, br, allowCarry, tries + 1);
      var d := AdditionLoop(g2, ar, br, allowCarry, tries + 1);
      assert AdditionLoop(g, ar, br, allowCarry, tries) == d;
      AdditionLoopFits(g2, ar, br, allowCarry, tries + 1);
      forall n: nat | tries + n + 1 == d.attempts
        ensures (d.problem.a, d.problem.b) == PassPair(g, ar, br, n)
      {
        ShiftPass(g, ar, br, n);
      }
    }
  }

  /** Every pass of the addition loop before its last drew a pair that
      carries: with AdditionLoopLast, the loop stops at the first
      carry-free pair. */
  lemma {:induction false} AdditionLoopFirst(g: Rng, ar: (nat, nat), br: (nat, nat), allowCarry: bool, tries: nat)
    requires ar.0 <= ar.1 && br.0 <= br.1 && tries <= MaxTries
    ensures forall j: nat | tries + j + 1 < AdditionLoop(g, ar, br, allowCarry, tries).attempts ::
      !allowCarry && !CarryFree(PassPair(g, ar, br, j).0, PassPair(g, ar, br, j).1)
    decreases MaxTries - tries
  {
    var (a, g1) := Draw(g, ar.0, ar.1);
    var (b, g2) := Draw(g1, br.0, br.1);
    assert PassPair(g, ar, br, 0) == (a, b);
    if !(allowCarry || CarryFree(a, b)) && tries + 1 <= MaxTries {
      AdditionLoopFirst(g2, ar, br, allowCarry, tries + 1);
      var d := AdditionLoop(g2, ar, br, allowCarry, tries + 1);
      assert AdditionLoop(g, ar, br, allowCarry, tries) == d;
      forall j: nat | tries + j + 1 < d.attempts
        ensures !allowCarry && !CarryFree(PassPair(g, ar, br, j).0, PassPair(g, ar, br, j).1)
      {
        if j > 0 {
          ShiftPass(g, ar, br, j);
        }
      }
    }
  }

  /** gen_addition: a in A's range, b in B's range; without carrying, every
      problem not taken by the escape has no carrying column. */
  function AdditionSpec(g: Rng, aD: int, bD: int, allowCarry: bool): (r: Result<Drawn>)
    ensures r.Failure? <==> !(ValidDigits(aD) && ValidDigits(bD))
    ensures r.Failure? ==> r.error == InvalidDigitCount
    ensures r.Success? ==>
      && r.value.problem.sym == Plus
      && InDigits(r.value.problem.a, aD) && InDigits(r.value.problem.b, bD)
      && 1 <= r.value.attempts <= MaxTries + 1
      && (allowCarry ==> r.value.attempts == 1 && !r.value.escaped)
      && (!allowCarry && !r.value.escaped ==> NoCarry(r.value.problem.a, r.value.problem.b))
      && (r.value.escaped ==> !NoCarry(r.value.problem.a, r.value.problem.b) && r.value.attempts == MaxTries + 1)
  {
    var ar := DigitsRange(aD);
    if ar.Failure? then Failure(ar.error)
    else
      var br := DigitsRange(bD);
      if br.Failure? then Failure(br.error)
      else
        AdditionLoopFits(g, ar.value, br.value, allowCarry, 0);
        var d := AdditionLoop(g, ar.value, br.value, allowCarry, 0);
        CarryFreeIsPadded(d.problem.a, d.problem.b);
        Success(d)
  }

  method GenAddition(g: Rng, aD: int, bD: int, allowCarry: bool) returns (r: Result<Drawn>)
    ensures r == AdditionSpec(g, aD, bD, allowCarry)
  {
    var ar := DigitsRange(aD);
    if ar.Failure? {
      return Failure(ar.error);
    }
    var br := DigitsRange(bD);
    if br.Failure? {
      return Failure(br.error);
    }
    var d := AdditionRetry(g, ar.value, br.value, allowCarry);
    return Success(d);
  }

  /** The retry loop of gen_addition over validated ranges. */
  method AdditionRetry(g: Rng, ar: (nat, nat), br: (nat, nat), allowCarry: bool) returns (d: Drawn)
    requires ar.0 <= ar.1 && br.0 <= br.1
    ensures d == AdditionLoop(g, ar, br, allowCarry, 0)
  {
    var (amin, amax) := ar;
    var (bmin, bmax) := br;
    var rng := g;
    var tries := 0;
    while true
      invariant tries <= MaxTries
      invariant AdditionLoop(rng, ar, br, allowCarry, tries) == AdditionLoop(g, ar, br, allowCarry, 0)
      decreases MaxTries - tries
    {
      var (a, g1) := Draw(rng, amin, amax);
      var (b, g2) := Draw(g1, bmin, bmax);
      if allowCarry {
        return Drawn(Problem(a, Plus, b), g2, tries + 1, false);
      }
      if CarryFree(a, b) {
        return Drawn(Problem(a, Plus, b), g2, tries + 1, false);
      }
      tries := tries + 1;
      if tries > MaxTries {
        return Drawn(Problem(a, Plus, b), g2, tries, true);
      }
      rng := g2;
    }
  }

  // ------------------------------------------------------------- subtraction

  /** A drawn pair put in decreasing order, as the swap does. */
  function Ordered(p: (nat, nat)): (q: (nat, nat))
    ensures q.0 >= q.1 && (q == p || q == (p.1, p.0))
  {
    if p.0 < p.1 then (p.1, p.0) else p
  }

  /** The retry loop of gen_subtraction from its pass number `tries` on; the
      two draws are put in decreasing order before the check. */
  function SubtractionLoop(g: Rng, ar: (nat, nat), br: (nat, nat), allowBorrow: bool, tries: nat): Drawn
    requires ar.0 <= ar.1 && br.0 <= br.1 && tries <= MaxTries
    decreases MaxTries - tries
  {
    var (x, g1) := Draw(g, ar.0, ar.1);
    var (y, g2) := Draw(g1, br.0, br.1);
    var (a, b) := Ordered((x, y));
    if allowBorrow || BorrowFree(a, b) then Drawn(Problem(a, Minus, b), g2, tries + 1, false)
    else if tries + 1 > MaxTries then Drawn(Problem(a, Minus, b), g2, tries + 1, true)
    else SubtractionLoop(g2, ar, br, allowBorrow, tries + 1)
  }

  /** The subtraction loop gives a >= b, each operand from one of the two
      ranges; with borrowing allowed it stops at the first pass; otherwise
      the pair it returns has no borrow, unless it escapes after pass 2001
      with a pair that borrows. That it is the first such pair is
      SubtractionLoopLast with SubtractionLoopFirst. */
  lemma {:induction false} SubtractionLoopFits(g: Rng, ar: (nat, nat), br: (nat, nat), allowBorrow: bool, tries: nat)
    requires ar.0 <= ar.1 && br.0 <= br.1 && tries <= MaxTries
    ensures var d := SubtractionLoop(g, ar, br, allowBorrow, tries);
      && d.problem.sym == Minus
      && d.problem.a >= d.problem.b
      && (|| (InRange(d.problem.a, ar) && InRange(d.problem.b, br))
          || (InRange(d.problem.a, br) && InRange(d.problem.b, ar)))
      && tries < d.attempts <= MaxTries + 1
      && (allowBorrow ==> d.attempts == tries + 1 && !d.escaped)
      && (!d.escaped ==> allowBorrow || BorrowFree(d.problem.a, d.problem.b))
      && (d.escaped ==> !allowBorrow && !BorrowFree(d.problem.a, d.problem.b) && d.attempts == MaxTries + 1)
    decreases MaxTries - tries
  {
    var (x, g1) := Draw(g, ar.0, ar.1);
    var (y, g2) := Draw(g1, br.0, br.1);
    var (a, b) := Ordered((x, y));
    if !(allowBorrow || BorrowFree(a, b)) && tries + 1 <= MaxTries {
      SubtractionLoopFits(g2, ar, br, allowBorrow, tries + 1);
    }
  }

  /** The subtraction loop returns the ordered pair its last pass drew. */
  lemma {:induction false} SubtractionLoopLast(g: Rng, ar: (nat, nat), br: (nat, nat), allowBorrow: bool, tries: nat)
    requires ar.0 <= ar.1 && br.0 <= br.1 && tries <= MaxTries
    ensures forall n: nat | tries + n + 1 == SubtractionLoop(g, ar, br, allowBorrow, tries).attempts ::
      (SubtractionLoop(g, ar, br, allowBorrow, tries).problem.a, SubtractionLoop(g, ar, br, allowBorrow, tries).problem.b)
      == Ordered(PassPair(g, ar, br, n))
    decreases MaxTries - tries
  {
    var (x, g1) := Draw(g, ar.0, ar.1);
    var (y, g2) := Draw(g1, br.0, br.1);
    var (a, b) := Ordered((x, y));
    assert PassPair(g, ar, br, 0) == (x, y);
    if !(allowBorrow || BorrowFree(a, b)) && tries + 1 <= MaxTries {
      SubtractionLoopLast(g2, ar, br, allowBorrow, tries + 1);
      var d := SubtractionLoop(g2, ar, br, allowBorrow, tries + 1);
      assert SubtractionLoop(g, ar, br, allowBorrow, tries) == d;
      SubtractionLoopFits(g2, ar, br, allowBorrow, tries + 1);
      forall n: nat | tries + n + 1 == d.attempts
        ensures (d.problem.a, d.problem.b) == Ordered(PassPair(g, ar, br, n))
      {
        ShiftPass(g, ar, br, n);
      }
    }
  }

  /** Every pass of the subtraction loop before its last drew a pair that,
      once ordered, borrows: with SubtractionLoopLast, the loop stops at the
      first borrow-free pair. */
  lemma {:induction false} SubtractionLoopFirst(g: Rng, ar: (nat, nat), br: (nat, nat), allowBorrow: bool, tries: nat)
    requires ar.0 <= ar.1 && br.0 <= br.1 && tries <= MaxTries
    ensures forall j: nat | tries + j + 1 < SubtractionLoop(g, ar, br, allowBorrow, tries).attempts ::
      !allowBorrow && !BorrowFree(Ordered(PassPair(g, ar, br, j)).0, Ordered(PassPair(g, ar, br, j)).1)
    decreases MaxTries - tries
  {
    var (x, g1) := Draw(g, ar.0, ar.1);
    var (y, g2) := Draw(g1, br.0, br.1);
    var (a, b) := Ordered((x, y));
    assert PassPair(g, ar, br, 0) == (x, y);
    if !(allowBorrow || BorrowFree(a, b)) && tries + 1 <= MaxTries {
      SubtractionLoopFirst(g2, ar, br, allowBorrow, tries + 1);
      var d := SubtractionLoop(g2, ar, br, allowBorrow, tries + 1);
      assert SubtractionLoop(g, ar, br, allowBorrow, tries) == d;
      forall j: nat | tries + j + 1 < d.attempts
        ensures !allowBorrow && !BorrowFree(Ordered(PassPair(g, ar, br, j)).0, Ordered(PassPair(g, ar, br, j)).1)
      {
        if j > 0 {
          ShiftPass(g, ar, br, j);
        }
      }
    }
  }

  /** gen_subtraction: a >= b on every path (the operands are swapped when the
      first is smaller); without borrowing, every problem not taken by the
      escape has no borrowing column. */
  function SubtractionSpec(g: Rng, aD: int, bD: int, allowBorrow: bool): (r: Result<Drawn>)
    ensures r.Failure? <==> !(ValidDigits(aD) && ValidDigits(bD))
    ensures r.Failure? ==> r.error == InvalidDigitCount
    ensures r.Success? ==>
      && r.value.problem.sym == Minus
      && r.value.problem.a >= r.value.problem.b
      && (|| (InDigits(r.value.problem.a, aD) && InDigits(r.value.problem.b, bD))
          || (InDigits(r.value.problem.a, bD) && InDigits(r.value.problem.b, aD)))
      && 1 <= r.value.attempts <= MaxTries + 1
      && (allowBorrow ==> r.value.attempts == 1 && !r.value.escaped)
      && (!allowBorrow && !r.value.escaped ==> NoBorrow(r.value.problem.a, r.value.problem.b))
      && (r.value.escaped ==> !NoBorrow(r.value.problem.a, r.value.problem.b) && r.value.attempts == MaxTries + 1)
  {
    var ar := DigitsRange(aD);
    if ar.Failure? then Failure(ar.error)
    else
      var br := DigitsRange(bD);
      if br.Failure? then Failure(br.error)
      else
        SubtractionLoopFits(g, ar.value, br.value, allowBorrow, 0);
        var d := SubtractionLoop(g, ar.value, br.value, allowBorrow, 0);
        BorrowFreeIsPadded(d.problem.a, d.problem.b);
        Success(d)
  }

  method GenSubtraction(g: Rng, aD: int, bD: int, allowBorrow: bool) returns (r: Result<Drawn>)
    ensures r == SubtractionSpec(g, aD, bD, allowBorrow)
  {
    var ar := DigitsRange(aD);
    if ar.Failure? {
      return Failure(ar.error);
    }
    var br := DigitsRange(bD);
    if br.Failure? {
      return Failure(br.error);
    }
    var d := SubtractionRetry(g, ar.value, br.value, allowBorrow);
    return Success(d);
  }

  /** The retry loop of gen_subtraction over validated ranges. */
  method SubtractionRetry(g: Rng, ar: (nat, nat), br: (nat, nat), allowBorrow: bool) returns (d: Drawn)
    requires ar.0 <= ar.1 && br.0 <= br.1
    ensures d == SubtractionLoop(g, ar, br, allowBorrow, 0)
  {
    var (amin, amax) := ar;
    var (bmin, bmax) := br;
    var rng := g;
    var tries := 0;
    while true
      invariant tries <= MaxTries
      invariant SubtractionLoop(rng, ar, br, allowBorrow, tries) == SubtractionLoop(g, ar, br, allowBorrow, 0)
      decreases MaxTries - tries
    {
      var (a, g1) := Draw(rng, amin, amax);
      var (b, g2) := Draw(g1, bmin, bmax);
      if a < b {
        a, b := b, a;
      }
      if allowBorrow {
        return Drawn(Problem(a, Minus, b), g2, tries + 1, false);
      }
      if BorrowFree(a, b) {
        return Drawn(Problem(a, Minus, b), g2, tries + 1, false);
      }
      tries := tries + 1;
      if tries > MaxTries {
        return Drawn(Problem(a, Minus, b), g2, tries, true);
      }
      rng := g2;
    }
  }

  // ---------------------------------------------------------- multiplication

  /** gen_multiplication: two draws, a in A's range and b in B's range. */
  function GenMultiplication(g: Rng, aD: int, bD: int): (r: Result<Drawn>)
    ensures r.Failure? <==> !(ValidDigits(aD) && ValidDigits(bD))
    ensures r.Failure? ==> r.error == InvalidDigitCount
    ensures r.Success? ==>
      && r.value.problem.sym == Times
      && InDigits(r.value.problem.a, aD) && InDigits(r.value.problem.b, bD)
      && r.value.attempts == 1 && !r.value.escaped
      && r.value.rest == Draw(Draw(g, DigitsRange(aD).value.0, DigitsRange(aD).value.1).1,
                              DigitsRange(bD).value.0, DigitsRange(bD).value.1).1
  {
    var ar := DigitsRange(aD);
    if ar.Failure? then Failure(ar.error)
    else
      var br := DigitsRange(bD);
      if br.Failure? then Failure(br.error)
      else
        var (a, g1) := Draw(g, ar.value.0, ar.value.1);
        var (b, g2) := Draw(g1, br.value.0, br.value.1);
        Success(Drawn(Problem(a, Times, b), g2, 1, false))
  }

  // ---------------------------------------------------------------- division

  /** The one-digit dividend candidates [v for v in range(v0, 10) if v % divisor == 0]. */
  function Multiples(divisor: nat, v0: nat): (cands: seq<nat>)
    requires divisor >= 1 && 1 <= v0 <= 10
    ensures forall x :: x in cands <==> v0 <= x <= 9 && x % divisor == 0
    ensures forall i, j | 0 <= i < j < |cands| :: cands[i] < cands[j]
    decreases 10 - v0
  {
    if v0 > 9 then []
    else
      var rest := Multiples(divisor, v0 + 1);
      assert forall i | 0 <= i < |rest| :: rest[i] in rest && rest[i] > v0;
      (if v0 % divisor == 0 then [v0] else []) + rest
  }

  /** The fixed (dividend, divisor) fallback list. */
  const SafePairs: seq<(nat, nat)> := [(8, 4), (9, 3), (6, 3), (6, 2), (4, 2)]

  /** The first pair from index i on whose divisor is `divisor`, else 8 ÷ 4. */
  function FirstSafePair(divisor: nat, i: nat): (p: Problem)
    requires i <= |SafePairs|
    ensures p.sym == Divide && p.b >= 1 && p.a % p.b == 0 && 1 <= p.a <= 9
    ensures (exists j | i <= j < |SafePairs| :: SafePairs[j].1 == divisor) ==> p.b == divisor
    ensures (exists j | i <= j < |SafePairs| :: SafePairs[j].1 == divisor) ==>
      exists j | i <= j < |SafePairs| :: p == Problem(SafePairs[j].0, Divide, SafePairs[j].1) &&
        forall k | i <= k < j :: SafePairs[k].1 != divisor
    ensures (forall j | i <= j < |SafePairs| :: SafePairs[j].1 != divisor) ==> p == Problem(8, Divide, 4)
    decreases |SafePairs| - i
  {
    if i == |SafePairs| then Problem(8, Divide, 4)
    else if SafePairs[i].1 == divisor then Problem(SafePairs[i].0, Divide, SafePairs[i].1)
    else FirstSafePair(divisor, i + 1)
  }

  /** divisor = max(1, randint(dmin, dmax)). */
  function DrawDivisor(g: Rng, dr: (nat, nat)): (r: (nat, Rng))
    requires 1 <= dr.0 <= dr.1
    ensures 1 <= r.0 && InRange(r.0, dr)
  {
    var (x, g1) := Draw(g, dr.0, dr.1);
    (if x < 1 then 1 else x, g1)
  }

  /** The one-digit-dividend branch of gen_division: a dividend in [1, 9]
      that the divisor divides; the safe-pair list only for a divisor above 9. */
  function OneDigitDivision(g: Rng, divisor: nat): (d: Drawn)
    requires divisor >= 1
    ensures d.problem.sym == Divide && d.problem.b >= 1 && d.problem.a % d.problem.b == 0
    ensures 1 <= d.problem.a <= 9
    ensures d.attempts == 1 && !d.escaped
    ensures divisor <= 9 ==> d.problem.b == divisor
    ensures divisor > 9 ==> d.problem == Problem(8, Divide, 4) && d.rest == g
  {
    var cands := Multiples(divisor, 1);
    MultiplesEmpty(divisor);
    if |cands| == 0 then Drawn(FirstSafePair(divisor, 0), g, 1, false)
    else
      var (i, g1) := Draw(g, 0, |cands| - 1);
      assert cands[i] in cands;
      Drawn(Problem(cands[i], Divide, divisor), g1, 1, false)
  }

  /** A divisor has a multiple in [1, 9] exactly when it is a single digit. */
  lemma MultiplesEmpty(divisor: nat)
    requires divisor >= 1
    ensures |Multiples(divisor, 1)| == 0 <==> divisor > 9
  {
    var cands := Multiples(divisor, 1);
    if divisor <= 9 {
      MultipleDivides(1, divisor);
      assert divisor in cands;
    } else if |cands| > 0 {
      assert cands[0] in cands;
      DivisorAtMost(cands[0], divisor);
    }
  }

  /** The retry loop of gen_division for a dividend of two or three digits,
      from its pass number `tries` on; the divisor is redrawn after every
      pass whose number `tries` leaves 49 modulo 50. */
  function DivisionLoop(g: Rng, dr: (nat, nat), vr: (nat, nat), qmax: nat, divisor: nat, tries: nat): Drawn
    requires 1 <= dr.0 <= dr.1 && InRange(divisor, dr) && 1 <= qmax && tries <= MaxTries
    decreases MaxTries - tries
  {
    var (q, g1) := Draw(g, 1, qmax);
    var dividend := q * divisor;
    if vr.0 <= dividend <= vr.1 then Drawn(Problem(dividend, Divide, divisor), g1, tries + 1, false)
    else
      var (divisor', g2) := if tries % 50 == 49 then DrawDivisor(g1, dr) else (divisor, g1);
      if tries + 1 > MaxTries then Drawn(Problem(divisor' * 12, Divide, divisor'), g2, tries + 1, true)
      else DivisionLoop(g2, dr, vr, qmax, divisor', tries + 1)
  }

  /** Every problem of the division loop divides exactly by a divisor in
      the divisor's range; its dividend is in the dividend's range, unless
      it escapes after pass 2001 with twelve times the divisor. That it is
      the first such dividend is DivisionLoopFirst. */
  lemma {:induction false} DivisionLoopFits(g: Rng, dr: (nat, nat), vr: (nat, nat), qmax: nat, divisor: nat, tries: nat)
    requires 1 <= dr.0 <= dr.1 && InRange(divisor, dr) && 1 <= qmax && tries <= MaxTries
    ensures var d := DivisionLoop(g, dr, vr, qmax, divisor, tries);
      && d.problem.sym == Divide && InRange(d.problem.b, dr)
      && d.problem.a >= 1 && d.problem.a % d.problem.b == 0
      && tries < d.attempts <= MaxTries + 1
      && (!d.escaped ==> InRange(d.problem.a, vr))
      && (d.escaped ==> d.problem.a == 12 * d.problem.b && d.attempts == MaxTries + 1)
    decreases MaxTries - tries
  {
    var (q, g1) := Draw(g, 1, qmax);
    MultipleDivides(q, divisor);
    var dividend := q * divisor;
    if !(vr.0 <= dividend <= vr.1) {
      var (divisor', g2) := if tries % 50 == 49 then DrawDivisor(g1, dr) else (divisor, g1);
      if tries + 1 > MaxTries {
        MultipleDivides(12, divisor');
      } else {
        DivisionLoopFits(g2, dr, vr, qmax, divisor', tries + 1);
      }
    }
  }

  /** The source and the divisor before pass n of the division loop, started
      at pass number `tries` with `divisor`. */
  function DivisionSource(g: Rng, dr: (nat, nat), qmax: nat, divisor: nat, tries: nat, n: nat): (r: (Rng, nat))
    requires 1 <= dr.0 <= dr.1 && InRange(divisor, dr) && 1 <= qmax
    ensures InRange(r.1, dr)
    decreases n
  {
    if n == 0 then (g, divisor)
    else
      var (g2, divisor') := DivisionStep(g, dr, qmax, divisor, tries);
      DivisionSource(g2, dr, qmax, divisor', tries + 1, n - 1)
  }

  /** The source and the divisor after one pass of the division loop that
      did not stop: the quotient drawn, then the divisor redrawn when `tries`
      leaves 49 modulo 50. */
  function DivisionStep(g: Rng, dr: (nat, nat), qmax: nat, divisor: nat, tries: nat): (r: (Rng, nat))
    requires 1 <= dr.0 <= dr.1 && InRange(divisor, dr) && 1 <= qmax
    ensures InRange(r.1, dr)
  {
    var (q, g1) := Draw(g, 1, qmax);
    if tries % 50 == 49 then
      var (divisor', g2) := DrawDivisor(g1, dr);
      (g2, divisor')
    else (g1, divisor)
  }

  /** The dividend and divisor of pass n of the division loop. */
  function PassDivision(g: Rng, dr: (nat, nat), qmax: nat, divisor: nat, tries: nat, n: nat): (p: (int, nat))
    requires 1 <= dr.0 <= dr.1 && InRange(divisor, dr) && 1 <= qmax
    ensures InRange(p.1, dr)
  {
    var (h, dv) := DivisionSource(g, dr, qmax, divisor, tries, n);
    (Draw(h, 1, qmax).0 * dv, dv)
  }

  /** The division loop returns the problem its last pass drew, and every
      earlier pass drew a dividend outside the range: the loop stops at the
      first dividend in range. The escape uses the divisor as it stands
      after the last pass, redraw included. */
  lemma {:induction false} DivisionLoopFirst(g: Rng, dr: (nat, nat), vr: (nat, nat), qmax: nat, divisor: nat, tries: nat)
    requires 1 <= dr.0 <= dr.1 && InRange(divisor, dr) && 1 <= qmax && tries <= MaxTries
    ensures tries < DivisionLoop(g, dr, vr, qmax, divisor, tries).attempts
    ensures forall j: nat | tries + j + 1 < DivisionLoop(g, dr, vr, qmax, divisor, tries).attempts ::
      !InRange(PassDivision(g, dr, qmax, divisor, tries, j).0, vr)
    ensures !DivisionLoop(g, dr, vr, qmax, divisor, tries).escaped ==>
      (DivisionLoop(g, dr, vr, qmax, divisor, tries).problem.a, DivisionLoop(g, dr, vr, qmax, divisor, tries).problem.b)
      == PassDivision(g, dr, qmax, divisor, tries, DivisionLoop(g, dr, vr, qmax, divisor, tries).attempts - tries - 1)
    ensures DivisionLoop(g, dr, vr, qmax, divisor, tries).escaped ==>
      DivisionLoop(g, dr, vr, qmax, divisor, tries).problem.b
      == DivisionSource(g, dr, qmax, divisor, tries, DivisionLoop(g, dr, vr, qmax, divisor, tries).attempts - tries).1
    decreases MaxTries - tries
  {
    var (q, g1) := Draw(g, 1, qmax);
    assert PassDivision(g, dr, qmax, divisor, tries, 0).0 == q * divisor;
    if !(vr.0 <= q * divisor <= vr.1) {
      var (g2, divisor') := DivisionStep(g, dr, qmax, divisor, tries);
      assert DivisionLoop(g, dr, vr, qmax, divisor, tries) ==
        if tries + 1 > MaxTries then Drawn(Problem(divisor' * 12, Divide, divisor'), g2, tries + 1, true)
        else DivisionLoop(g2, dr, vr, qmax, divisor', tries + 1);
      assert DivisionSource(g, dr, qmax, divisor, tries, 1) == (g2, divisor');
      if tries + 1 <= MaxTries {
        DivisionLoopFirst(g2, dr, vr, qmax, divisor', tries + 1);
        var d := DivisionLoop(g2, dr, vr, qmax, divisor', tries + 1);
        var n := d.attempts - tries - 1;
        assert DivisionSource(g, dr, qmax, divisor, tries, n) == DivisionSource(g2, dr, qmax, divisor', tries + 1, n - 1);
        assert DivisionSource(g, dr, qmax, divisor, tries, n + 1) == DivisionSource(g2, dr, qmax, divisor', tries + 1, n);
        forall j: nat | tries + j + 1 < d.attempts
          ensures !InRange(PassDivision(g, dr, qmax, divisor, tries, j).0, vr)
        {
          if j > 0 {
            assert DivisionSource(g, dr, qmax, divisor, tries, j) == DivisionSource(g2, dr, qmax, divisor', tries + 1, j - 1);
            assert PassDivision(g, dr, qmax, divisor, tries, j) == PassDivision(g2, dr, qmax, divisor', tries + 1, j - 1);
            assert !InRange(PassDivision(g2, dr, qmax, divisor', tries + 1, j - 1).0, vr);
          }
        }
      }
    }
  }

  /** The number of the last pass in the block of fifty that pass number
      `tries` (counted from 0) falls in. */
  function BlockEnd(tries: nat): nat {
    tries - tries % 50 + 50
  }

  /** The pass leaving 49 modulo 50 ends its block; any other pass shares
      its block with the next one. */
  lemma BlockStep(tries: nat)
    ensures tries % 50 == 49 ==> BlockEnd(tries) == tries + 1
    ensures tries % 50 != 49 ==> BlockEnd(tries + 1) == BlockEnd(tries)
  {
  }

  /** The divisor is redrawn only after the pass whose number `tries` leaves
      49 modulo 50: a loop that stops within the block of fifty passes it
      starts in keeps the divisor it started with. */
  lemma {:induction false} DivisionKeepsDivisor(g: Rng, dr: (nat, nat), vr: (nat, nat), qmax: nat, divisor: nat, tries: nat)
    requires 1 <= dr.0 <= dr.1 && InRange(divisor, dr) && 1 <= qmax && tries <= MaxTries
    ensures DivisionLoop(g, dr, vr, qmax, divisor, tries).attempts <= BlockEnd(tries) ==>
      DivisionLoop(g, dr, vr, qmax, divisor, tries).problem.b == divisor
    decreases MaxTries - tries
  {
    var (q, g1) := Draw(g, 1, qmax);
    BlockStep(tries);
    if !(vr.0 <= q * divisor <= vr.1) && tries + 1 <= MaxTries {
      var (divisor', g2) := if tries % 50 == 49 then DrawDivisor(g1, dr) else (divisor, g1);
      assert DivisionLoop(g, dr, vr, qmax, divisor, tries) == DivisionLoop(g2, dr, vr, qmax, divisor', tries + 1);
      if tries % 50 == 49 {
        DivisionLoopFits(g2, dr, vr, qmax, divisor', tries + 1);
      } else {
        DivisionKeepsDivisor(g2, dr, vr, qmax, divisor, tries + 1);
      }
    }
  }

  /** gen_division: on every path a divisor of at least 1 and a dividend it
      divides exactly. */
  function DivisionSpec(g: Rng, dividendD: int, divisorD: int): (r: Result<Drawn>)
    ensures r.Failure? <==> !(ValidDigits(dividendD) && ValidDigits(divisorD))
    ensures r.Failure? ==> r.error == InvalidDigitCount
    ensures r.Success? ==>
      && r.value.problem.sym == Divide
      && r.value.problem.b >= 1 && r.value.problem.a >= 1
      && r.value.problem.a % r.value.problem.b == 0
      && 1 <= r.value.attempts <= MaxTries + 1
    ensures r.Success? && dividendD == 1 ==> 1 <= r.value.problem.a <= 9
    ensures r.Success? && (dividendD != 1 || divisorD == 1) ==> InDigits(r.value.problem.b, divisorD)
    ensures r.Success? && dividendD == 1 && divisorD != 1 ==> r.value.problem == Problem(8, Divide, 4)
    ensures r.Success? && dividendD != 1 && !r.value.escaped ==> InDigits(r.value.problem.a, dividendD)
    ensures r.Success? && r.value.escaped ==> r.value.problem.a == 12 * r.value.problem.b
  {
    var dr := DigitsRange(divisorD);
    if dr.Failure? then Failure(dr.error)
    else
      var (divisor, g1) := DrawDivisor(g, dr.value);
      if dividendD == 1 then Success(OneDigitDivision(g1, divisor))
      else
        var vr := DigitsRange(dividendD);
        if vr.Failure? then Failure(vr.error)
        else
          var qmax := if dividendD == 2 then 99 else 999;
          DivisionLoopFits(g1, dr.value, vr.value, qmax, divisor, 0);
          Success(DivisionLoop(g1, dr.value, vr.value, qmax, divisor, 0))
  }

  method GenDivision(g: Rng, dividendD: int, divisorD: int) returns (r: Result<Drawn>)
    ensures r == DivisionSpec(g, dividendD, divisorD)
  {
    var dr := DigitsRange(divisorD);
    if dr.Failure? {
      return Failure(dr.error);
    }
    var (divisor, g1) := DrawDivisor(g, dr.value);
    if dividendD == 1 {
      var d := OneDigitDividend(g1, divisor);
      return Success(d);
    }
    var vr := DigitsRange(dividendD);
    if vr.Failure? {
      return Failure(vr.error);
    }
    var qmax := if dividendD == 2 then 99 else 999;
    var d := DivisionRetry(g1, dr.value, vr.value, qmax, divisor);
    return Success(d);
  }

  /** The one-digit-dividend branch: the candidates, else the safe pairs. */
  method OneDigitDividend(g: Rng, divisor: nat) returns (d: Drawn)
    requires divisor >= 1
    ensures d == OneDigitDivision(g, divisor)
  {
    var cands := Multiples(divisor, 1);
    if |cands| == 0 {
      var p := FindSafePair(divisor);
      return Drawn(p, g, 1, false);
    }
    var (i, g1) := Draw(g, 0, |cands| - 1);
    return Drawn(Problem(cands[i], Divide, divisor), g1, 1, false);
  }

  /** The loop over the safe pairs: the first pair with this divisor, else 8 ÷ 4. */
  method FindSafePair(divisor: nat) returns (p: Problem)
    ensures p == FirstSafePair(divisor, 0)
  {
    for i := 0 to |SafePairs|
      invariant FirstSafePair(divisor, i) == FirstSafePair(divisor, 0)
    {
      if divisor == SafePairs[i].1 {
        return Problem(SafePairs[i].0, Divide, SafePairs[i].1);
      }
    }
    return Problem(8, Divide, 4);
  }

  /** The retry loop for a dividend of two or three digits. */
  method DivisionRetry(g: Rng, dr: (nat, nat), vr: (nat, nat), qmax: nat, divisor0: nat) returns (d: Drawn)
    requires 1 <= dr.0 <= dr.1 && InRange(divisor0, dr) && 1 <= qmax
    ensures d == DivisionLoop(g, dr, vr, qmax, divisor0, 0)
  {
    var (vmin, vmax) := vr;
    var divisor := divisor0;
    var rng := g;
    var tries := 0;
    while true
      invariant tries <= MaxTries && InRange(divisor, dr)
      invariant DivisionLoop(rng, dr, vr, qmax, divisor, tries) == DivisionLoop(g, dr, vr, qmax, divisor0, 0)
      decreases MaxTries - tries
    {
      var (q, g2) := Draw(rng, 1, qmax);
      var dividend := q * divisor;
      if vmin <= dividend <= vmax {
        return Drawn(Problem(dividend, Divide, divisor), g2, tries + 1, false);
      }
      if tries % 50 == 49 {
        var (x, g3) := DrawDivisor(g2, dr);
        divisor, g2 := x, g3;
      }
      tries := tries + 1;
      if tries > MaxTries {
        return Drawn(Problem(divisor * 12, Divide, divisor), g2, tries, true);
      }
      rng := g2;
    }
  }
}
