/** The worksheet: twenty problems drawn from the seeded source with
    duplicates turned away by their signature, and the answer list. */
module Worksheet {
  import opened Digits
  import opened Utils
  import opened Arithmetic
  import opened Generators
  import opened Chapters
  import opened Builder

  // -------------------------------------------------------------- signatures

  /** sig = f"{a}{sym}{b}". */
  function Signature(p: Problem): string {
    Decimal(p.a) + [p.sym] + Decimal(p.b)
  }

  /** With a symbol that is not a digit (as all four are), two problems have
      the same signature exactly when they are the same problem, so the
      duplicate test on signatures is a duplicate test on problems. */
  lemma SignatureInjective(p: Problem, q: Problem)
    requires !IsDigitChar(p.sym) && !IsDigitChar(q.sym)
    ensures Signature(p) == Signature(q) <==> p == q
  {
    if Signature(p) == Signature(q) {
      NonDigitNotInDecimal(p.sym, q.a);
      NonDigitNotInDecimal(q.sym, p.a);
      SplitAt(Decimal(p.a), p.sym, Decimal(p.b), Decimal(q.a), q.sym, Decimal(q.b));
      DecimalInjective(p.a, q.a);
      DecimalInjective(p.b, q.b);
    }
  }

  /** The signatures of the problems so far: the `seen` set. */
  function Signatures(ps: seq<Problem>): set<string> {
    set i | 0 <= i < |ps| :: Signature(ps[i])
  }

  // ----------------------------------------------------------- one generator

  /** What a generated problem satisfies under the configuration's chapter
      and rules. */
  predicate Fits(cfg: Config, d: Drawn)
    requires ValidConfig(cfg)
  {
    var ch := ChapterOf(cfg);
    var p := d.problem;
    match cfg.op
    case Addition =>
      && p.sym == Plus && InDigits(p.a, ch.aD) && InDigits(p.b, ch.bD)
      && (!cfg.allowCarry && !d.escaped ==> NoCarry(p.a, p.b))
    case Subtraction =>
      && p.sym == Minus && p.a >= p.b
      && (|| (InDigits(p.a, ch.aD) && InDigits(p.b, ch.bD))
          || (InDigits(p.a, ch.bD) && InDigits(p.b, ch.aD)))
      && (!cfg.allowBorrow && !d.escaped ==> NoBorrow(p.a, p.b))
    case Multiplication =>
      p.sym == Times && InDigits(p.a, ch.aD) && InDigits(p.b, ch.bD)
    case Division =>
      && p.sym == Divide && 1 <= p.b <= 9 && p.a >= 1 && p.a % p.b == 0
      && (ch.aD == 1 ==> p.a <= 9)
      && (!d.escaped ==> InDigits(p.a, ch.aD))
      && (d.escaped ==> p.a == 12 * p.b)
  }

  /** The generator the operation selects, applied to the chapter's digit
      counts; it cannot fail, since every chapter's digit counts are valid. */
  function StepSpec(cfg: Config, g: Rng): (d: Drawn)
    requires ValidConfig(cfg)
  {
    var ch := ChapterOf(cfg);
    match cfg.op
    case Addition => AdditionSpec(g, ch.aD, ch.bD, cfg.allowCarry).value
    case Subtraction => SubtractionSpec(g, ch.aD, ch.bD, cfg.allowBorrow).value
    case Multiplication => GenMultiplication(g, ch.aD, ch.bD).value
    case Division => DivisionSpec(g, ch.aD, ch.bD).value
  }

  /** Whatever the source's state, the generator's problem fits the chapter. */
  lemma StepFits(cfg: Config, g: Rng)
    requires ValidConfig(cfg)
    ensures Fits(cfg, StepSpec(cfg, g))
  {
  }

  /** The configuration's generator as a function of the source's state. */
  function Stepper(cfg: Config): Rng -> Drawn
    requires ValidConfig(cfg)
  {
    g => StepSpec(cfg, g)
  }

  /** The dispatch on the operation inside the builder's inner loop. */
  method Generate(cfg: Config, g: Rng) returns (d: Drawn)
    requires ValidConfig(cfg)
    ensures d == StepSpec(cfg, g)
  {
    var ch := ChapterOf(cfg);
    var r: Result<Drawn>;
    if cfg.op == Addition {
      r := GenAddition(g, ch.aD, ch.bD, cfg.allowCarry);
    } else if cfg.op == Subtraction {
      r := GenSubtraction(g, ch.aD, ch.bD, cfg.allowBorrow);
    } else if cfg.op == Multiplication {
      r := GenMultiplication(g, ch.aD, ch.bD);
    } else {
      r := GenDivision(g, ch.aD, ch.bD);
    }
    d := r.value;
  }

  // ----------------------------------------------------------------- builder

  /** The number of problems on a sheet. */
  const SheetSize: nat := 20

  /** The whole sheet: twenty picks from the source seeded by the sidebar's
      choices, starting with nothing seen. */
  function Sheet(cfg: Config): (ps: seq<Pick>)
    requires ValidConfig(cfg)
    ensures |ps| == SheetSize
  {
    FillSpec(Stepper(cfg), Signature, MakeRng(SeedString(cfg)), {}, SheetSize)
  }

  /** The inner `while True` loop: generate until the signature is new or
      the guard passes 50. */
  method PickProblem(cfg: Config, g: Rng, seen: set<string>) returns (p: Pick)
    requires ValidConfig(cfg)
    ensures p == PickSpec(Stepper(cfg), Signature, g, seen, 0)
  {
    var rng := g;
    var guard := 0;
    while true
      invariant guard <= 51
      invariant PickSpec(Stepper(cfg), Signature, rng, seen, guard) == PickSpec(Stepper(cfg), Signature, g, seen, 0)
      decreases 51 - guard
    {
      var d := Generate(cfg, rng);
      if Signature(d.problem) !in seen || guard > 50 {
        return Pick(d, guard + 1);
      }
      guard := guard + 1;
      rng := d.rest;
    }
  }

  /** The builder: the sheet of the configuration, so the same choices
      always give the same twenty problems. */
  method BuildProblems(cfg: Config) returns (problems: seq<Problem>)
    requires ValidConfig(cfg)
    ensures problems == ProblemsOf(Sheet(cfg))
    ensures |problems| == SheetSize
  {
    var rng := MakeRng(SeedString(cfg));
    problems := FillProblems(cfg, rng, SheetSize);
  }

  /** The outer `for` loop of the builder, for `count` slots, starting with
      nothing seen; `seen` holds the signatures of the problems so far. */
  method FillProblems(cfg: Config, g: Rng, count: nat) returns (problems: seq<Problem>)
    requires ValidConfig(cfg)
    ensures problems == ProblemsOf(FillSpec(Stepper(cfg), Signature, g, {}, count))
  {
    ghost var whole := ProblemsOf(FillSpec(Stepper(cfg), Signature, g, {}, count));
    var rng := g;
    var seen: set<string> := {};
    problems := [];
    for n := 0 to count
      invariant whole == problems + ProblemsOf(FillSpec(Stepper(cfg), Signature, rng, seen, count - n))
      invariant seen == Signatures(problems)
    {
      var p := PickProblem(cfg, rng, seen);
      var sig := Signature(p.drawn.problem);
      ghost var later := ProblemsOf(FillSpec(Stepper(cfg), Signature, p.drawn.rest, seen + {sig}, count - (n + 1)));
      FillProblemsStep(Stepper(cfg), Signature, rng, seen, count - n, p, seen + {sig}, count - (n + 1));
      assert (problems + [p.drawn.problem]) + later == problems + ([p.drawn.problem] + later);
      SignaturesAppend(problems, p.drawn.problem);
      seen := seen + {sig};
      problems := problems + [p.drawn.problem];
      rng := p.drawn.rest;
    }
    assert problems + [] == problems;
  }

  lemma SignaturesAppend(ps: seq<Problem>, p: Problem)
    ensures Signatures(ps + [p]) == Signatures(ps) + {Signature(p)}
  {
    var qs := ps + [p];
    assert forall i | 0 <= i < |ps| :: qs[i] == ps[i];
    assert qs[|ps|] == p;
  }

  /** Whatever the seeded source, every problem of a sheet fits the chapter
      and rules, each slot took one to 52 generator calls, and a problem
      equal to an earlier one was kept only on the 52nd call. */
  lemma SheetProblems(cfg: Config, g: Rng)
    requires ValidConfig(cfg)
    ensures var ps := FillSpec(Stepper(cfg), Signature, g, {}, SheetSize);
      && |ps| == SheetSize
      && (forall i | 0 <= i < SheetSize :: Fits(cfg, ps[i].drawn) && 1 <= ps[i].passes <= 52)
      && (forall i, j | 0 <= j < i < SheetSize ::
            ps[i].drawn.problem == ps[j].drawn.problem ==> ps[i].passes == 52)
  {
    forall h {
      StepFits(cfg, h);
    }
    FillKeeps(d => Fits(cfg, d), Stepper(cfg), Signature, g, {}, SheetSize);
    FillFresh(Stepper(cfg), Signature, g, {}, SheetSize);
  }

  /** Without a forced pick the twenty problems are pairwise different. */
  lemma SheetDistinct(cfg: Config, g: Rng)
    requires ValidConfig(cfg)
    requires forall i | 0 <= i < SheetSize :: FillSpec(Stepper(cfg), Signature, g, {}, SheetSize)[i].passes < 52
    ensures var ps := ProblemsOf(FillSpec(Stepper(cfg), Signature, g, {}, SheetSize));
      forall i, j | 0 <= i < SheetSize && 0 <= j < SheetSize && i != j :: ps[i] != ps[j]
  {
    SheetProblems(cfg, g);
  }

  // ----------------------------------------------------------------- answers

  /** solve: +, −, × and floor division on the four symbols; any other
      symbol is UnknownOperator, and floor division by zero fails. */
  function Solve(p: Problem): (r: Result<int>)
    ensures r.Failure? <==> p.sym !in {Plus, Minus, Times, Divide} || (p.sym == Divide && p.b == 0)
    ensures r.Failure? && p.sym != Divide ==> r.error == UnknownOperator
    ensures r.Failure? && p.sym == Divide ==> r.error == DivisionByZero
    ensures r.Success? && p.sym == Plus ==> r.value - p.b == p.a
    ensures r.Success? && p.sym == Minus ==> r.value + p.b == p.a
    ensures r.Success? && p.sym == Times && p.b == 0 ==> r.value == 0
    ensures r.Success? && p.sym == Divide ==> r.value >= 0 && r.value * p.b <= p.a < r.value * p.b + p.b
  {
    if p.sym == Plus then Success(p.a + p.b)
    else if p.sym == Minus then Success(p.a - p.b)
    else if p.sym == Times then Success(p.a * p.b)
    else if p.sym == Divide then
      (if p.b == 0 then Failure(DivisionByZero) else Success(p.a / p.b))
    else Failure(UnknownOperator)
  }

  /** A product divided by its nonzero second factor gives back the first,
      with no remainder. */
  lemma ExactProduct(p: Problem)
    requires p.sym == Times && p.b >= 1
    ensures Solve(p).Success? && Solve(p).value % p.b == 0 && Solve(p).value / p.b == p.a
  {
    MultipleDivides(p.a, p.b);
  }

  /** A quotient known to be exact multiplies back to the dividend. */
  lemma ExactQuotient(p: Problem)
    requires p.sym == Divide && p.b >= 1 && p.a % p.b == 0
    ensures Solve(p).Success? && Solve(p).value * p.b == p.a
  {
    var q := Solve(p).value;
    assert q * p.b <= p.a < q * p.b + p.b;
    DivModUnique(p.a, p.b, p.a / p.b, 0);
  }

  /** answers = [solve(a, s, b) for ...]: the answers in the problems' order,
      or the error of the first problem that cannot be solved. */
  function Answers(ps: seq<Problem>): (r: Result<seq<int>>)
    ensures r.Success? <==> forall i | 0 <= i < |ps| :: Solve(ps[i]).Success?
    ensures r.Success? ==> |r.value| == |ps| && forall i | 0 <= i < |ps| :: r.value[i] == Solve(ps[i]).value
    ensures r.Failure? ==> exists i | 0 <= i < |ps| ::
      && Solve(ps[i]) == Failure(r.error)
      && forall j | 0 <= j < i :: Solve(ps[j]).Success?
  {
    if |ps| == 0 then Success([])
    else
      var h := Solve(ps[0]);
      if h.Failure? then Failure(h.error)
      else
        var t := Answers(ps[1..]);
        if t.Failure? then
          assert forall i | 0 <= i < |ps[1..]| :: ps[1..][i] == ps[i + 1];
          t
        else Success([h.value] + t.value)
  }

  /** The answer to a problem that fits its chapter: it exists; a
      subtraction's is a natural number; a division's multiplies back to the
      dividend; a product divided by its second factor gives back the
      first; without carrying (borrowing) and outside the escape, each
      column of the answer is the sum (difference) of the operands' columns. */
  lemma AnswerFits(cfg: Config, d: Drawn)
    requires ValidConfig(cfg) && Fits(cfg, d)
    ensures Solve(d.problem).Success?
    ensures cfg.op == Subtraction ==> Solve(d.problem).value >= 0
    ensures cfg.op == Division ==> Solve(d.problem).value * d.problem.b == d.problem.a
    ensures cfg.op == Multiplication ==> Solve(d.problem).value / d.problem.b == d.problem.a
    ensures cfg.op == Addition && !cfg.allowCarry && !d.escaped ==>
      var s := Solve(d.problem).value;
      s >= 0 && forall k: nat :: Digit(s as nat, k) == Digit(d.problem.a, k) + Digit(d.problem.b, k)
    ensures cfg.op == Subtraction && !cfg.allowBorrow && !d.escaped ==>
      var s := Solve(d.problem).value;
      s >= 0 && forall k: nat :: Digit(s as nat, k) == Digit(d.problem.a, k) - Digit(d.problem.b, k)
  {
    var p := d.problem;
    match cfg.op
    case Addition =>
      if !cfg.allowCarry && !d.escaped {
        NoCarryAddsByColumn(p.a, p.b);
      }
    case Subtraction =>
      if !cfg.allowBorrow && !d.escaped {
        NoBorrowSubtractsByColumn(p.a, p.b);
      }
    case Multiplication =>
      ExactProduct(p);
    case Division =>
      ExactQuotient(p);
  }

  /** The answer list of a sheet: twenty answers, one per problem in order,
      each with the guarantees of AnswerFits. */
  lemma SheetAnswers(cfg: Config, g: Rng)
    requires ValidConfig(cfg)
    ensures var ps := ProblemsOf(FillSpec(Stepper(cfg), Signature, g, {}, SheetSize));
      && Answers(ps).Success?
      && |Answers(ps).value| == SheetSize
      && (cfg.op == Subtraction ==> forall i | 0 <= i < SheetSize :: Answers(ps).value[i] >= 0)
      && (cfg.op == Division ==> forall i | 0 <= i < SheetSize :: Answers(ps).value[i] * ps[i].b == ps[i].a)
  {
    var sheet := FillSpec(Stepper(cfg), Signature, g, {}, SheetSize);
    var ps := ProblemsOf(sheet);
    assert |ps| == |sheet| == SheetSize;
    SheetProblems(cfg, g);
    forall i | 0 <= i < SheetSize
      ensures Solve(ps[i]).Success?
      ensures cfg.op == Subtraction ==> Solve(ps[i]).value >= 0
      ensures cfg.op == Division ==> Solve(ps[i]).value * ps[i].b == ps[i].a
    {
      AnswerFits(cfg, sheet[i].drawn);
    }
    assert Answers(ps).Success?;
    assert forall i | 0 <= i < SheetSize :: Answers(ps).value[i] == Solve(ps[i]).value;
  }
}
