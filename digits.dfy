/** Decimal notation of non-negative integers, the column digits of a number,
    and the no-carry / no-borrow column conditions used by the addition and
    subtraction generators. */
module Digits {

  /** The character of a decimal digit. */
  function DigitChar(d: nat): (c: char)
    requires d < 10
    ensures '0' <= c <= '9'
  {
    ('0' as int + d) as char
  }

  predicate IsDigitChar(c: char) {
    '0' <= c <= '9'
  }

  /** The value of a digit character, as Python's int() gives it. */
  function DigitValue(c: char): (d: nat)
    requires IsDigitChar(c)
    ensures d < 10 && DigitChar(d) == c
  {
    c as int - '0' as int
  }

  /** Python's str(n) for a non-negative integer: no sign, no leading zero. */
  function Decimal(n: nat): (s: string)
    ensures 1 <= |s|
    ensures forall i | 0 <= i < |s| :: IsDigitChar(s[i])
    ensures |s| > 1 ==> s[0] != '0'
  {
    if n < 10 then [DigitChar(n)] else Decimal(n / 10) + [DigitChar(n % 10)]
  }

  /** The number a string of digits denotes. */
  function DecimalValue(s: string): nat
    requires forall i | 0 <= i < |s| :: IsDigitChar(s[i])
  {
    if s == [] then 0 else DecimalValue(s[..|s| - 1]) * 10 + DigitValue(s[|s| - 1])
  }

  /** Reading back the decimal notation of n gives n. */
  lemma {:induction false} DecimalRoundTrip(n: nat)
    ensures DecimalValue(Decimal(n)) == n
  {
    var s := Decimal(n);
    if n >= 10 {
      assert s[..|s| - 1] == Decimal(n / 10);
      DecimalRoundTrip(n / 10);
    }
  }

  /** Decimal notation is injective. */
  lemma DecimalInjective(m: nat, n: nat)
    ensures Decimal(m) == Decimal(n) <==> m == n
  {
    DecimalRoundTrip(m);
    DecimalRoundTrip(n);
  }

  /** How many characters str(n) has, for the numbers below 1000. */
  lemma {:induction false} DecimalLength(n: nat)
    ensures |Decimal(n)| == 1 <==> n < 10
    ensures |Decimal(n)| == 2 <==> 10 <= n < 100
    ensures |Decimal(n)| == 3 <==> 100 <= n < 1000
  {
    if n >= 10 {
      DecimalLength(n / 10);
    }
  }

  /** The k-th column digit of n, counted from the ones place (k = 0):
      (n / 10^k) % 10. */
  function Digit(n: nat, k: nat): (d: nat)
    ensures d < 10
  {
    if k == 0 then n % 10 else Digit(n / 10, k - 1)
  }

  /** The character in column k, counted from the right, of str(n) is the
      k-th column digit of n. */
  lemma {:induction false} DecimalColumn(n: nat, k: nat)
    requires k < |Decimal(n)|
    ensures Decimal(n)[|Decimal(n)| - 1 - k] == DigitChar(Digit(n, k))
  {
    if n >= 10 && k > 0 {
      DecimalColumn(n / 10, k - 1);
    }
  }

  /** Beyond the last character of str(n) every column digit is zero. */
  lemma {:induction false} DigitBeyondDecimal(n: nat, k: nat)
    requires |Decimal(n)| <= k
    ensures Digit(n, k) == 0
  {
    if n < 10 {
      ZeroDigits(k - 1);
    } else {
      DigitBeyondDecimal(n / 10, k - 1);
    }
  }

  lemma {:induction false} ZeroDigits(k: nat)
    ensures Digit(0, k) == 0
  {
    if k > 0 {
      ZeroDigits(k - 1);
    }
  }

  /** The character in column k of s, counted from the right (k = 0 is the
      last character); zip(a_s[::-1], b_s[::-1]) visits these in order. */
  function ColumnChar(s: string, k: nat): char
    requires k < |s|
  {
    s[|s| - 1 - k]
  }

  /** Python's s.zfill(w) for a string without a sign. */
  function ZFill(s: string, w: nat): (t: string)
    ensures |t| == if |s| >= w then |s| else w
    ensures t[|t| - |s|..] == s
    ensures forall i | 0 <= i < |t| - |s| :: t[i] == '0'
  {
    if |s| >= w then s else seq(w - |s|, _ => '0') + s
  }

  /** Column k, counted from the right, of str(n).zfill(w) is the k-th
      column digit of n: the zero padding only adds zero columns. */
  lemma ZeroPaddedColumn(n: nat, w: nat, k: nat)
    requires |Decimal(n)| <= w && k < w
    ensures ColumnChar(ZFill(Decimal(n), w), k) == DigitChar(Digit(n, k))
  {
    var s := Decimal(n);
    var t := ZFill(s, w);
    if k < |s| {
      DecimalColumn(n, k);
      if |s| < w {
        var pad := seq(w - |s|, _ => '0');
        assert t == pad + s;
        assert t[w - 1 - k] == s[|s| - 1 - k];
      }
    } else {
      DigitBeyondDecimal(n, k);
      assert t[w - 1 - k] == '0';
    }
  }

  /** The common width both operands are zero-padded to:
      max(len(str(a)), len(str(b))). */
  function Width(a: nat, b: nat): (w: nat)
    ensures 1 <= w && |Decimal(a)| <= w && |Decimal(b)| <= w
    ensures w == |Decimal(a)| || w == |Decimal(b)|
  {
    if |Decimal(a)| >= |Decimal(b)| then |Decimal(a)| else |Decimal(b)|
  }

  /** No column of a + b, aligned at the ones place over the common width,
      has a digit sum of 10 or more. */
  predicate NoCarry(a: nat, b: nat) {
    forall k | 0 <= k < Width(a, b) :: Digit(a, k) + Digit(b, k) < 10
  }

  /** In every column of a - b, aligned at the ones place over the common
      width, the digit of a is at least the digit of b. */
  predicate NoBorrow(a: nat, b: nat) {
    forall k | 0 <= k < Width(a, b) :: Digit(a, k) >= Digit(b, k)
  }

  /** The check written on strings: both operands as str(), zero-padded to
      the common width, compared digit by digit from the right. */
  predicate PaddedNoCarry(a: nat, b: nat) {
    var w := Width(a, b);
    var sa := ZFill(Decimal(a), w);
    var sb := ZFill(Decimal(b), w);
    forall k | 0 <= k < w :: IsDigitChar(ColumnChar(sa, k)) && IsDigitChar(ColumnChar(sb, k)) &&
      DigitValue(ColumnChar(sa, k)) + DigitValue(ColumnChar(sb, k)) < 10
  }

  predicate PaddedNoBorrow(a: nat, b: nat) {
    var w := Width(a, b);
    var sa := ZFill(Decimal(a), w);
    var sb := ZFill(Decimal(b), w);
    forall k | 0 <= k < w :: IsDigitChar(ColumnChar(sa, k)) && IsDigitChar(ColumnChar(sb, k)) &&
      DigitValue(ColumnChar(sa, k)) >= DigitValue(ColumnChar(sb, k))
  }

  /** A character that is not a digit does not occur in str(n). */
  lemma NonDigitNotInDecimal(c: char, n: nat)
    requires !IsDigitChar(c)
    ensures c !in Decimal(n)
  {
    var s := Decimal(n);
    forall i | 0 <= i < |s|
      ensures s[i] != c
    {
      assert IsDigitChar(s[i]);
    }
  }

  /** The value of column k of str(n).zfill(w) is the k-th column digit of n. */
  lemma PaddedColumnValue(n: nat, w: nat, k: nat)
    requires |Decimal(n)| <= w && k < w
    ensures IsDigitChar(ColumnChar(ZFill(Decimal(n), w), k))
    ensures DigitValue(ColumnChar(ZFill(Decimal(n), w), k)) == Digit(n, k)
  {
    ZeroPaddedColumn(n, w, k);
    var d := Digit(n, k);
    assert DigitChar(d) as int - '0' as int == d;
  }

  /** The zero-padded string check and the arithmetic column condition agree. */
  lemma PaddedNoCarryIsNoCarry(a: nat, b: nat)
    ensures PaddedNoCarry(a, b) <==> NoCarry(a, b)
  {
    var w := Width(a, b);
    forall k | 0 <= k < w
      ensures IsDigitChar(ColumnChar(ZFill(Decimal(a), w), k))
      ensures IsDigitChar(ColumnChar(ZFill(Decimal(b), w), k))
      ensures DigitValue(ColumnChar(ZFill(Decimal(a), w), k)) == Digit(a, k)
      ensures DigitValue(ColumnChar(ZFill(Decimal(b), w), k)) == Digit(b, k)
    {
      PaddedColumnValue(a, w, k);
      PaddedColumnValue(b, w, k);
    }
  }

  lemma PaddedNoBorrowIsNoBorrow(a: nat, b: nat)
    ensures PaddedNoBorrow(a, b) <==> NoBorrow(a, b)
  {
    var w := Width(a, b);
    forall k | 0 <= k < w
      ensures IsDigitChar(ColumnChar(ZFill(Decimal(a), w), k))
      ensures IsDigitChar(ColumnChar(ZFill(Decimal(b), w), k))
      ensures DigitValue(ColumnChar(ZFill(Decimal(a), w), k)) == Digit(a, k)
      ensures DigitValue(ColumnChar(ZFill(Decimal(b), w), k)) == Digit(b, k)
    {
      PaddedColumnValue(a, w, k);
      PaddedColumnValue(b, w, k);
    }
  }

  /** The carry test as a walk over the columns from the ones place up: the
      ones digits sum to less than 10, and so do the remaining columns. */
  predicate CarryFree(a: nat, b: nat)
    decreases a + b
  {
    a + b == 0 || (a % 10 + b % 10 < 10 && CarryFree(a / 10, b / 10))
  }

  /** The borrow test as a walk over the columns: the ones digit of a is at
      least that of b, and so on in the remaining columns. */
  predicate BorrowFree(a: nat, b: nat)
    decreases a + b
  {
    a + b == 0 || (a % 10 >= b % 10 && BorrowFree(a / 10, b / 10))
  }

  /** Column k + 1 of n is column k of n / 10. */
  lemma ShiftDigit(n: nat, k: nat)
    ensures Digit(n, k + 1) == Digit(n / 10, k)
  {
  }

  /** The walk succeeds exactly when no column at all carries. */
  lemma {:induction false} CarryFreeColumns(a: nat, b: nat)
    ensures CarryFree(a, b) ==> forall k: nat :: Digit(a, k) + Digit(b, k) < 10
    ensures (forall k: nat :: Digit(a, k) + Digit(b, k) < 10) ==> CarryFree(a, b)
    decreases a + b
  {
    if a + b == 0 {
      forall k: nat
        ensures Digit(a, k) + Digit(b, k) < 10
      {
        ZeroDigits(k);
      }
    } else {
      CarryFreeColumns(a / 10, b / 10);
      forall k: nat
        ensures Digit(a, k + 1) + Digit(b, k + 1) == Digit(a / 10, k) + Digit(b / 10, k)
      {
        ShiftDigit(a, k);
        ShiftDigit(b, k);
      }
      if forall k: nat :: Digit(a, k) + Digit(b, k) < 10 {
        assert Digit(a, 0) + Digit(b, 0) < 10;
        forall k: nat
          ensures Digit(a / 10, k) + Digit(b / 10, k) < 10
        {
          assert Digit(a, k + 1) + Digit(b, k + 1) < 10;
        }
      }
      if CarryFree(a, b) {
        forall k: nat
          ensures Digit(a, k) + Digit(b, k) < 10
        {
          if k > 0 {
            ShiftDigit(a, k - 1);
            ShiftDigit(b, k - 1);
            assert Digit(a / 10, k - 1) + Digit(b / 10, k - 1) < 10;
          }
        }
      }
    }
  }

  lemma {:induction false} BorrowFreeColumns(a: nat, b: nat)
    ensures BorrowFree(a, b) ==> forall k: nat :: Digit(a, k) >= Digit(b, k)
    ensures (forall k: nat :: Digit(a, k) >= Digit(b, k)) ==> BorrowFree(a, b)
    decreases a + b
  {
    if a + b == 0 {
      forall k: nat
        ensures Digit(a, k) >= Digit(b, k)
      {
        ZeroDigits(k);
      }
    } else {
      BorrowFreeColumns(a / 10, b / 10);
      forall k: nat
        ensures Digit(a, k + 1) == Digit(a / 10, k) && Digit(b, k + 1) == Digit(b / 10, k)
      {
        ShiftDigit(a, k);
        ShiftDigit(b, k);
      }
      if forall k: nat :: Digit(a, k) >= Digit(b, k) {
        assert Digit(a, 0) >= Digit(b, 0);
        forall k: nat
          ensures Digit(a / 10, k) >= Digit(b / 10, k)
        {
          assert Digit(a, k + 1) >= Digit(b, k + 1);
        }
      }
      if BorrowFree(a, b) {
        forall k: nat
          ensures Digit(a, k) >= Digit(b, k)
        {
          if k > 0 {
            ShiftDigit(a, k - 1);
            ShiftDigit(b, k - 1);
            assert Digit(a / 10, k - 1) >= Digit(b / 10, k - 1);
          }
        }
      }
    }
  }

  /** The column walk and the source's zero-padded string test accept the
      same pairs: exactly those without a carrying column. */
  lemma CarryFreeIsPadded(a: nat, b: nat)
    ensures CarryFree(a, b) <==> NoCarry(a, b)
    ensures CarryFree(a, b) <==> PaddedNoCarry(a, b)
  {
    CarryFreeColumns(a, b);
    PaddedNoCarryIsNoCarry(a, b);
    if NoCarry(a, b) {
      forall k: nat
        ensures Digit(a, k) + Digit(b, k) < 10
      {
        if Width(a, b) <= k {
          BeyondWidth(a, b, k);
        }
      }
    }
  }

  lemma BorrowFreeIsPadded(a: nat, b: nat)
    ensures BorrowFree(a, b) <==> NoBorrow(a, b)
    ensures BorrowFree(a, b) <==> PaddedNoBorrow(a, b)
  {
    BorrowFreeColumns(a, b);
    PaddedNoBorrowIsNoBorrow(a, b);
    if NoBorrow(a, b) {
      forall k: nat
        ensures Digit(a, k) >= Digit(b, k)
      {
        if Width(a, b) <= k {
          BeyondWidth(a, b, k);
        }
      }
    }
  }

  /** A property of the columns below the common width holds of all columns,
      since beyond it both digits are zero. */
  lemma BeyondWidth(a: nat, b: nat, k: nat)
    requires Width(a, b) <= k
    ensures Digit(a, k) == 0 && Digit(b, k) == 0
  {
    DigitBeyondDecimal(a, k);
    DigitBeyondDecimal(b, k);
  }

  /** Column k of a sum is the sum of the column digits when no column up
      to k carries. */
  lemma {:induction false} ColumnSum(a: nat, b: nat, k: nat)
    requires forall j | 0 <= j <= k :: Digit(a, j) + Digit(b, j) < 10
    ensures Digit(a + b, k) == Digit(a, k) + Digit(b, k)
  {
    assert Digit(a, 0) + Digit(b, 0) < 10;
    assert a == 10 * (a / 10) + a % 10;
    assert b == 10 * (b / 10) + b % 10;
    assert a + b == 10 * (a / 10 + b / 10) + (a % 10 + b % 10);
    assert (a + b) / 10 == a / 10 + b / 10 && (a + b) % 10 == a % 10 + b % 10;
    if k > 0 {
      forall j | 0 <= j <= k - 1
        ensures Digit(a / 10, j) + Digit(b / 10, j) < 10
      {
        assert Digit(a, j + 1) == Digit(a / 10, j);
        assert Digit(b, j + 1) == Digit(b / 10, j);
      }
      ColumnSum(a / 10, b / 10, k - 1);
    }
  }

  /** What "no carry" means: every column digit of a + b is the sum of the
      column digits of a and b, so the answer can be written column by
      column. */
  lemma NoCarryAddsByColumn(a: nat, b: nat)
    requires NoCarry(a, b)
    ensures forall k: nat :: Digit(a + b, k) == Digit(a, k) + Digit(b, k)
  {
    forall k: nat
      ensures Digit(a + b, k) == Digit(a, k) + Digit(b, k)
    {
      forall j | 0 <= j <= k
        ensures Digit(a, j) + Digit(b, j) < 10
      {
        if Width(a, b) <= j {
          BeyondWidth(a, b, j);
        }
      }
      ColumnSum(a, b, k);
    }
  }

  /** If every column digit of a is at least that of b, then a >= b. */
  lemma {:induction false} ColumnsDominate(a: nat, b: nat)
    requires forall k: nat :: Digit(a, k) >= Digit(b, k)
    ensures a >= b
    decreases a + b
  {
    if a + b > 0 {
      forall k: nat
        ensures Digit(a / 10, k) >= Digit(b / 10, k)
      {
        assert Digit(a, k + 1) == Digit(a / 10, k);
        assert Digit(b, k + 1) == Digit(b / 10, k);
      }
      ColumnsDominate(a / 10, b / 10);
      assert Digit(a, 0) >= Digit(b, 0);
    }
  }

  /** Column k of a difference is the difference of the column digits when
      no column borrows. */
  lemma {:induction false} ColumnDifference(a: nat, b: nat, k: nat)
    requires forall j: nat :: Digit(a, j) >= Digit(b, j)
    ensures a >= b && Digit(a - b, k) == Digit(a, k) - Digit(b, k)
  {
    ColumnsDominate(a, b);
    forall j: nat
      ensures Digit(a / 10, j) >= Digit(b / 10, j)
    {
      assert Digit(a, j + 1) == Digit(a / 10, j);
      assert Digit(b, j + 1) == Digit(b / 10, j);
    }
    ColumnsDominate(a / 10, b / 10);
    assert Digit(a, 0) >= Digit(b, 0);
    assert a - b == 10 * (a / 10 - b / 10) + (a % 10 - b % 10);
    assert (a - b) / 10 == a / 10 - b / 10 && (a - b) % 10 == a % 10 - b % 10;
    if k > 0 {
      ColumnDifference(a / 10, b / 10, k - 1);
    }
  }

  /** What "no borrow" means: a >= b, and every column digit of a - b is the
      difference of the column digits of a and b. */
  lemma NoBorrowSubtractsByColumn(a: nat, b: nat)
    requires NoBorrow(a, b)
    ensures a >= b
    ensures forall k: nat :: Digit(a - b, k) == Digit(a, k) - Digit(b, k)
  {
    forall j: nat
      ensures Digit(a, j) >= Digit(b, j)
    {
      if Width(a, b) <= j {
        BeyondWidth(a, b, j);
      }
    }
    ColumnsDominate(a, b);
    forall k: nat
      ensures Digit(a - b, k) == Digit(a, k) - Digit(b, k)
    {
      ColumnDifference(a, b, k);
    }
  }
}
