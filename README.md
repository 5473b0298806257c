# Arithmetic worksheet generator

This project models the problem engine of a worksheet app for young learners
(`app.py`). The app builds sheets of twenty addition, subtraction,
multiplication or division problems. The sidebar fixes all of the settings:

- the operation;
- a chapter, which gives the digit counts of the two operands;
- a set number;
- the layout;
- whether addition may carry;
- whether subtraction may borrow.

A seed string is built from these choices, so the same choices always give
the same sheet.

The model covers:

- `digits_range`;
- the four generators. Addition, subtraction and the general branch of
  division (a dividend of two or three digits) each have a retry loop with
  a safety escape after 2001 failed passes. Multiplication draws its pair
  once, with no retry, and the one-digit branch of division picks from a
  candidate list or from a fixed fallback list. The fallback list is
  searched only when the candidate list is empty, which happens only for a
  divisor above 9, and no listed pair has such a divisor: so the only
  problem the fallback list can yield is 8 ÷ 4 (`MultiplesEmpty`,
  `FirstSafePair`, `OneDigitDivision`);
- the chapter table;
- the seed string;
- the twenty-slot builder, which uses a `seen` set of signatures and gives
  up on duplicates after 52 generator calls per slot;
- `solve` and the answer list.

Modules:

- `Digits` (digits.dfy): Python's `str(n)` as `Decimal`, `zfill`, the
  column digits of a number, and the carry and borrow tests. The tests come
  in three forms:
  - on the zero-padded strings, as the source writes them (`PaddedNoCarry`,
    `PaddedNoBorrow`);
  - on column digits (`NoCarry`, `NoBorrow`);
  - as a walk down the columns (`CarryFree`, `BorrowFree`).

  All three forms are proved equivalent.
- `Utils` (utils.dfy):
  - the error kinds and the `Result` type;
  - the seeded random source, passed as a value: `Draw` returns a number
    in the closed range and the advanced source;
  - `DigitsRange`.
- `Arithmetic` (arithmetic.dfy): the uniqueness of quotient and remainder.
- `Generators` (generators.dfy): the generators. Each retry loop is a
  `method` with a `while` loop, proved equal to a recursive function: the
  loop unrolled from its pass number on. The guarantees are proved about
  those functions.
- `Chapters` (chapters.dfy): the operations, `CHAPTERS`, the sidebar
  configuration and the seed string.
- `Builder` (builder.dfy): the builder's inner loop (redraw while the
  signature is in `seen`, at most 52 calls) and its outer loop (fill the
  slots). Both are written for any generator and any duplicate key.
- `Worksheet` (worksheet.dfy):
  - the signature `f"{a}{sym}{b}"`;
  - the dispatch on the operation;
  - the builder's two loops as methods;
  - `solve` and `answers`;
  - the sheet-level lemmas.

## Model

| member | source | states |
|---|---|---|
| Utils.DigitsRange | app.py:15-19 | succeeds exactly for digit counts 1, 2 and 3, with a range inside [1, 999]; every other count is InvalidDigitCount |
| Utils.DigitsRangeIsDigitCount | app.py:15-19 | the range of d holds exactly the positive numbers whose decimal notation has d characters |
| Utils.Draw | app.py:21-22 | randint_r returns a number in the closed range [lo, hi] |
| Utils.MakeRng | app.py:12-13 | definition without a contract: the source is a function of the seed string alone, so equal seeds give equal sheets; Chapters.SeedInjective says which choices give equal seeds |
| Digits.Decimal | app.py:37-39 | str(n) is a non-empty string of digit characters without a leading zero |
| Digits.DecimalRoundTrip | app.py:40 | int() of str(n) gives back n |
| Digits.DecimalInjective | app.py:214 | two numbers have the same decimal notation exactly when they are equal |
| Digits.DecimalLength | app.py:37 | str(n) has one, two or three characters exactly for n in [0, 9], [10, 99] and [100, 999] |
| Digits.DecimalColumn | app.py:40 | the k-th character of str(n), counted from the right, is the k-th column digit of n |
| Digits.ZFill | app.py:38-39 | zfill pads a string on the left with '0' up to the width and keeps the string as its suffix |
| Digits.ZeroPaddedColumn | app.py:38-40 | column k, counted from the right, of str(n).zfill(w) is the k-th column digit of n, including the padding zeros |
| Digits.Width | app.py:37 | the common width is the larger of the two str() lengths: at least each of them and equal to one of them |
| Digits.PaddedNoCarry | app.py:36-40 | definition without a contract: the source's carry test on the zero-padded strings, read from the right; Digits.PaddedNoCarryIsNoCarry and Digits.CarryFreeIsPadded state its meaning |
| Digits.PaddedNoBorrow | app.py:57-61 | definition without a contract: the source's borrow test on the zero-padded strings, read from the right; Digits.PaddedNoBorrowIsNoBorrow and Digits.BorrowFreeIsPadded state its meaning |
| Digits.PaddedNoCarryIsNoCarry | app.py:36-40 | the source's test on the reversed, zero-padded strings is true exactly when no column digit sum reaches 10 |
| Digits.PaddedNoBorrowIsNoBorrow | app.py:57-61 | the source's test on the reversed, zero-padded strings is true exactly when each column digit of a is at least that of b |
| Digits.CarryFreeColumns | app.py:36-40 | the column walk succeeds exactly when no column, up to any width, has a digit sum of 10 or more |
| Digits.BorrowFreeColumns | app.py:57-61 | the column walk succeeds exactly when every column digit of a is at least the matching digit of b |
| Digits.CarryFreeIsPadded | app.py:36-40 | the column walk the loops use accepts exactly the pairs the source's string test accepts |
| Digits.BorrowFreeIsPadded | app.py:57-61 | the column walk the loops use accepts exactly the pairs the source's string test accepts |
| Digits.NoCarryAddsByColumn | app.py:36 | without a carry, every column digit of a + b is the sum of the operands' column digits |
| Digits.NoBorrowSubtractsByColumn | app.py:57 | without a borrow, a >= b and every column digit of a - b is the difference of the operands' column digits |
| Digits.ColumnsDominate | app.py:57-61 | a number whose every column digit is at least that of another is at least that number |
| Digits.NonDigitNotInDecimal | app.py:199 | a character that is not a digit never occurs in str(n) |
| Generators.AdditionLoopFits | app.py:30-44 | both operands lie in their ranges; with carrying allowed the loop stops after one pass; otherwise a result not taken by the escape has no carry, and the escape comes on pass 2001 with a pair that carries |
| Generators.PassPair | app.py:32-33 | the pair drawn on pass n lies in the two ranges |
| Generators.AdditionLoop | app.py:30-44 | definition without a contract: the addition retry loop from a given pass on; Generators.AdditionLoopFits, AdditionLoopLast and AdditionLoopFirst state its properties |
| Generators.AdditionLoopLast | app.py:32-44 | the problem returned is the pair drawn on the loop's last pass |
| Generators.AdditionLoopFirst | app.py:34-43 | every pass before the last drew a pair that carries, with carrying not allowed; so the loop returns the first carry-free pair |
| Generators.AdditionSpec | app.py:27-44 | fails with InvalidDigitCount exactly for a bad digit count; otherwise a in A's range, b in B's range, 1 to 2001 passes, no carry unless carrying is allowed or the escape was taken |
| Generators.AdditionRetry | app.py:30-44 | the while loop returns the problem, source, pass count and escape flag of the unrolled loop function |
| Generators.GenAddition | app.py:27-44 | the method gives exactly the result of AdditionSpec, including the InvalidDigitCount error |
| Generators.SubtractionLoop | app.py:49-65 | definition without a contract: the subtraction retry loop, swap included, from a given pass on; Generators.SubtractionLoopFits, SubtractionLoopLast and SubtractionLoopFirst state its properties |
| Generators.SubtractionLoopFits | app.py:49-65 | after the swap a >= b, with the two operands taken from the two ranges; with borrowing allowed the loop stops after one pass; otherwise a result not taken by the escape has no borrow, and the escape comes on pass 2001 with a pair that borrows |
| Generators.Ordered | app.py:53-54 | the swap puts the larger of the two draws first and keeps the pair otherwise |
| Generators.SubtractionLoopLast | app.py:51-65 | the problem returned is the ordered pair drawn on the loop's last pass |
| Generators.SubtractionLoopFirst | app.py:53-63 | every pass before the last drew a pair that, once ordered, borrows, with borrowing not allowed; so the loop returns the first borrow-free pair |
| Generators.SubtractionSpec | app.py:46-65 | fails with InvalidDigitCount exactly for a bad digit count; otherwise a >= b on every path, 1 to 2001 passes, no borrow unless borrowing is allowed or the escape was taken |
| Generators.SubtractionRetry | app.py:49-65 | the while loop, swap included, returns the result of the unrolled loop function |
| Generators.GenSubtraction | app.py:46-65 | the method gives exactly the result of SubtractionSpec |
| Generators.GenMultiplication | app.py:67-72 | fails with InvalidDigitCount exactly for a bad digit count; otherwise a in A's range, b in B's range, after two draws |
| Generators.Multiples | app.py:79 | the candidates are exactly the multiples of the divisor in [1, 9], in increasing order |
| Generators.FirstSafePair | app.py:82-85 | when a safe pair has the drawn divisor the search returns the first listed pair with that divisor, otherwise it gives 8 ÷ 4; it always divides exactly and has a one-digit dividend |
| Generators.MultiplesEmpty | app.py:79-80 | the candidate list is empty exactly when the divisor is above 9, so the safe-pair fallback is taken only then |
| Generators.FindSafePair | app.py:82-85 | the for loop over the safe pairs gives exactly FirstSafePair |
| Generators.DrawDivisor | app.py:77 | max(1, randint(dmin, dmax)) is at least 1 and inside the divisor's range |
| Generators.OneDigitDivision | app.py:78-86 | the one-digit branch gives a dividend in [1, 9] that the divisor divides exactly; it keeps the drawn divisor when it is a single digit, and otherwise gives 8 ÷ 4 |
| Generators.OneDigitDividend | app.py:78-86 | the method, with its loop over the safe pairs, gives exactly OneDigitDivision |
| Generators.DivisionLoop | app.py:88-100 | definition without a contract: the division retry loop with its divisor redraw every fifty passes; Generators.DivisionLoopFits, DivisionLoopFirst and DivisionKeepsDivisor state its properties |
| Generators.DivisionLoopFits | app.py:88-100 | every problem divides exactly, with a divisor in its range; a result not taken by the escape has its dividend in range, and the escape comes on pass 2001 with twelve times the divisor |
| Generators.DivisionLoopFirst | app.py:91-100 | every pass before the last drew a dividend outside the range; the problem returned is the last pass's dividend and divisor, or on the escape twelve times the divisor as it stands after that pass's redraw; so the loop returns the first dividend in range |
| Generators.DivisionKeepsDivisor | app.py:96-97 | the divisor is redrawn only after a pass whose tries value leaves 49 modulo 50, so a loop that stops within its first block of fifty passes keeps its divisor |
| Generators.DivisionSpec | app.py:74-100 | fails with InvalidDigitCount exactly for a bad digit count; on every other path the division is exact with a divisor of at least 1; a one-digit dividend lies in [1, 9]; the escape gives twelve times the divisor |
| Generators.DivisionRetry | app.py:88-100 | the while loop, with the divisor redrawn when tries % 50 == 49, gives exactly the unrolled loop function |
| Generators.GenDivision | app.py:74-100 | the method gives exactly the result of DivisionSpec |
| Chapters.ChapterTable | app.py:105-132 | five chapters per operation and three for division; every digit count is one digits_range accepts, the first operand never has fewer digits than the second, and every division chapter has a one-digit divisor |
| Chapters.ChapterKey | app.py:105-132 | every chapter key spells its operation symbol and its two digit counts, as in "2d+1d" |
| Chapters.KeyForInjective | app.py:105-132 | a chapter key determines its digit counts |
| Chapters.ChapterKeysDistinct | app.py:105-132 | no two chapters of one operation share a key |
| Chapters.SeedFields | app.py:199 | definition without a contract: the six fields of the seed string; Chapters.SeedFieldsHaveNoBar and SeedFieldsInjective state its properties |
| Chapters.SeedString | app.py:199 | definition without a contract: the fields joined with the bar separator; Chapters.SeedInjective states that it tells all choices apart |
| Chapters.JoinInjective | app.py:199 | joining with the bar separator is injective on equally many fields that do not contain it |
| Chapters.SeedFieldsHaveNoBar | app.py:199 | no field of the seed string contains the separator |
| Chapters.SeedFieldsInjective | app.py:199 | the seed's fields determine all the sidebar choices |
| Chapters.SeedInjective | app.py:199-200 | different sidebar choices give different seed strings, and so differently seeded sheets |
| Builder.PickSpec | app.py:204-219 | one slot takes 1 to 52 generator calls, and a problem kept before the 52nd call has a signature not yet seen |
| Builder.PickFirst | app.py:204-219 | every call before the last drew a problem whose key was already seen, and the kept problem is the one the last call drew; so the first problem with a new key is kept, at once when the first call's key is new |
| Builder.PickKeeps | app.py:205-218 | the kept problem is one the generator produced: every guarantee of the generator holds of it |
| Builder.FillSpec | app.py:201-219 | the outer loop gives exactly as many picks as slots |
| Builder.FillKeeps | app.py:203-219 | every pick of the outer loop has the generator's guarantees and took 1 to 52 calls |
| Builder.FillFresh | app.py:202-219 | a problem kept before the 52nd call has a key that is neither in the initial seen set nor that of any earlier problem |
| Builder.ProblemsOf | app.py:217 | the problem list has one problem per pick, in order |
| Builder.FillProblemsStep | app.py:203-219 | the problems of the remaining slots are the next pick's problem followed by the problems of the slots after it |
| Worksheet.Signature | app.py:214 | definition without a contract: str(a), the symbol and str(b) run together; Worksheet.SignatureInjective states that it tells problems apart |
| Worksheet.SignatureInjective | app.py:214 | with a non-digit symbol, two problems have the same signature exactly when they are the same problem |
| Worksheet.SignaturesAppend | app.py:216-217 | appending a problem adds its signature to the seen set |
| Worksheet.StepFits | app.py:206-213 | whatever the source's state, the generator the operation selects gives a problem that fits the chapter and the rules |
| Worksheet.StepSpec | app.py:206-213 | definition without a contract: the generator the operation selects, on the chapter's digit counts; Worksheet.StepFits states what every problem it gives satisfies |
| Worksheet.Generate | app.py:206-213 | the dispatch calls the operation's generator on the chapter's digit counts; it cannot fail |
| Worksheet.PickProblem | app.py:204-219 | the inner while loop with its guard gives exactly PickSpec |
| Worksheet.FillProblems | app.py:201-219 | the outer for loop, with seen kept equal to the signatures of the problems so far, gives exactly the problems of FillSpec |
| Worksheet.BuildProblems | app.py:199-219 | the builder gives the twenty problems of the sheet seeded by the configuration's seed string |
| Worksheet.Sheet | app.py:199-219 | a sheet has exactly twenty picks; the definition runs the builder on the source seeded by the configuration's seed string |
| Worksheet.SheetProblems | app.py:199-219 | a sheet has exactly twenty problems, each fitting the chapter and the rules, each taking 1 to 52 calls; a problem equal to an earlier one was kept only on the 52nd call |
| Worksheet.SheetDistinct | app.py:215-218 | when no slot is forced, the twenty problems are pairwise different |
| Worksheet.Solve | app.py:222-227 | +, −, × and // on the four symbols: the sum less b is a, the difference plus b is a, a product with a zero second factor is 0, and // rounds down with a remainder below the divisor; any other symbol is UnknownOperator; // by zero fails |
| Worksheet.ExactProduct | app.py:225 | a product divided by its nonzero second factor gives back the first factor, with no remainder |
| Worksheet.ExactQuotient | app.py:226 | for an exact division, solve's quotient times the divisor is the dividend |
| Worksheet.Answers | app.py:229 | the answers match the problems in number and order, or the error is that of the first problem that cannot be solved |
| Worksheet.AnswerFits | app.py:222-229 | a problem that fits its chapter can be solved; a subtraction's answer is at least 0; a division's answer times the divisor is the dividend; a product divided by its second factor is the first; without carrying or borrowing, and off the escape, every column of the answer is the column sum or difference |
| Worksheet.SheetAnswers | app.py:199-229 | a sheet has twenty answers; for subtraction they are all at least 0, and for division each times its divisor is its dividend |

## Left out

- The Streamlit page is not modelled: the sidebar widgets, the set-number buttons, the CSS, the vertical and horizontal HTML rendering, and printing. The sidebar's choices are a `Config` value.
- The chapter labels and `OP_TITLES` are display text and are not modelled. Chapter entries keep only their key and digit counts.
- `random.Random(seed)` is Python's Mersenne Twister and is not modelled. `MakeRng` hashes the seed string and `Draw` is a linear congruential step. The proofs rely only on `Draw`'s range contract and on the source being a function of the seed, so every sheet-level lemma holds for every starting state of the source.
- `ValidConfig` requires a chapter index the radio button offers. The source cannot select any other index.
- The set number is any natural number. The source only offers 1 to 10 through its buttons.
- Problems hold Python's unbounded integers. The operands stay below 1000 and products below 10^6, so no width limit applies.
- Python's exceptions become `Failure` values: the `ValueError`s of digits_range and solve become InvalidDigitCount and UnknownOperator. The `ZeroDivisionError` of `//` becomes DivisionByZero; no sheet problem reaches it.
- Keeping `seen` from shrinking is stated by `FillProblems`'s loop invariant `seen == Signatures(problems)`, with `problems` only ever appended to. No separate lemma states it.
