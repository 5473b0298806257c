/** The worksheet's configuration: the operations, the chapter table, the
    sidebar choices and the seed string built from them. */
module Chapters {
  import opened Digits
  import opened Utils

  datatype Operation = Addition | Subtraction | Multiplication | Division

  /** The operation's key in the chapter table (and in the seed). */
  function OpName(op: Operation): string {
    match op
    case Addition => "addition"
    case Subtraction => "subtraction"
    case Multiplication => "multiplication"
    case Division => "division"
  }

  /** The two arrangements offered in the sidebar. */
  datatype Layout = Horizontal | Vertical

  function LayoutName(l: Layout): string {
    match l
    case Horizontal => "가로셈"
    case Vertical => "세로셈"
  }

  /** One chapter: its key and the digit counts of the two operands. */
  datatype Chapter = Chapter(key: string, aD: nat, bD: nat)

  /** The symbol a chapter key uses for the operation (a plain hyphen for
      subtraction, unlike the problems themselves). */
  function KeySymbol(op: Operation): char {
    match op
    case Addition => '+'
    case Subtraction => '-'
    case Multiplication => '\U{00D7}'
    case Division => '\U{00F7}'
  }

  /** CHAPTERS[op]: five chapters per operation, three for division; every
      digit count is one digits_range accepts, the first operand never has
      fewer digits than the second, and every division chapter has a
      one-digit divisor. */
  function ChapterTable(op: Operation): (cs: seq<Chapter>)
    ensures |cs| == if op == Division then 3 else 5
    ensures forall i | 0 <= i < |cs| :: ValidDigits(cs[i].bD) && cs[i].bD <= cs[i].aD <= 3
    ensures op == Division ==> forall i | 0 <= i < |cs| :: cs[i].bD == 1
  {
    match op
    case Addition =>
      [Chapter("1d+1d", 1, 1), Chapter("2d+1d", 2, 1), Chapter("2d+2d", 2, 2),
       Chapter("3d+2d", 3, 2), Chapter("3d+3d", 3, 3)]
    case Subtraction =>
      [Chapter("1d-1d", 1, 1), Chapter("2d-1d", 2, 1), Chapter("2d-2d", 2, 2),
       Chapter("3d-2d", 3, 2), Chapter("3d-3d", 3, 3)]
    case Multiplication =>
      [Chapter("1d\U{00D7}1d", 1, 1), Chapter("2d\U{00D7}1d", 2, 1), Chapter("2d\U{00D7}2d", 2, 2),
       Chapter("3d\U{00D7}1d", 3, 1), Chapter("3d\U{00D7}2d", 3, 2)]
    case Division =>
      [Chapter("1d\U{00F7}1d", 1, 1), Chapter("2d\U{00F7}1d", 2, 1), Chapter("3d\U{00F7}1d", 3, 1)]
  }

  /** The key a chapter with these digit counts is filed under, such as
      "2d+1d". */
  function KeyFor(op: Operation, aD: nat, bD: nat): string {
    Decimal(aD) + "d" + [KeySymbol(op)] + Decimal(bD) + "d"
  }

  /** Every chapter key spells out the chapter's operation and digit
      counts. */
  lemma ChapterKey(op: Operation, i: nat)
    requires i < |ChapterTable(op)|
    ensures ChapterTable(op)[i].key == KeyFor(op, ChapterTable(op)[i].aD, ChapterTable(op)[i].bD)
  {
    var c := ChapterTable(op)[i];
    assert Decimal(c.aD) == [DigitChar(c.aD)] && Decimal(c.bD) == [DigitChar(c.bD)];
    assert KeyFor(op, c.aD, c.bD) == [DigitChar(c.aD), 'd', KeySymbol(op), DigitChar(c.bD), 'd'];
  }

  /** A key determines the operation symbol and the digit counts. */
  lemma KeyForInjective(op: Operation, a1: nat, b1: nat, a2: nat, b2: nat)
    requires KeyFor(op, a1, b1) == KeyFor(op, a2, b2)
    ensures a1 == a2 && b1 == b2
  {
    NonDigitNotInDecimal('d', a1);
    NonDigitNotInDecimal('d', a2);
    var t1 := [KeySymbol(op)] + Decimal(b1) + "d";
    var t2 := [KeySymbol(op)] + Decimal(b2) + "d";
    assert KeyFor(op, a1, b1) == Decimal(a1) + ['d'] + t1;
    assert KeyFor(op, a2, b2) == Decimal(a2) + ['d'] + t2;
    SplitAt(Decimal(a1), 'd', t1, Decimal(a2), 'd', t2);
    DecimalInjective(a1, a2);
    assert Decimal(b1) == t1[1..|t1| - 1] && Decimal(b2) == t2[1..|t2| - 1];
    DecimalInjective(b1, b2);
  }

  /** No two chapters of an operation share digit counts, so none share a
      key. */
  lemma ChapterKeysDistinct(op: Operation, i: nat, j: nat)
    requires i < j < |ChapterTable(op)|
    ensures ChapterTable(op)[i].key != ChapterTable(op)[j].key
  {
    var cs := ChapterTable(op);
    ChapterKey(op, i);
    ChapterKey(op, j);
    assert cs[i].aD != cs[j].aD || cs[i].bD != cs[j].bD;
    if cs[i].key == cs[j].key {
      KeyForInjective(op, cs[i].aD, cs[i].bD, cs[j].aD, cs[j].bD);
    }
  }

  /** The sidebar's choices: operation, chapter index, set number, layout
      and the two rule checkboxes. */
  datatype Config = Config(op: Operation, chapter: nat, setNo: nat, layout: Layout,
                           allowCarry: bool, allowBorrow: bool)

  /** The chapter index is one the radio button offers for the operation. */
  predicate ValidConfig(cfg: Config) {
    cfg.chapter < |ChapterTable(cfg.op)|
  }

  function ChapterOf(cfg: Config): Chapter
    requires ValidConfig(cfg)
  {
    ChapterTable(cfg.op)[cfg.chapter]
  }

  /** Python's str() of a bool. */
  function BoolName(b: bool): string {
    if b then "True" else "False"
  }

  /** The fields joined with '|' between them. */
  function Join(fields: seq<string>): string {
    if |fields| == 0 then ""
    else if |fields| == 1 then fields[0]
    else fields[0] + "|" + Join(fields[1..])
  }

  /** The fields of the seed string, in order. */
  function SeedFields(cfg: Config): seq<string>
    requires ValidConfig(cfg)
  {
    [OpName(cfg.op), ChapterOf(cfg).key, "set" + Decimal(cfg.setNo),
     "layout:" + LayoutName(cfg.layout), "carry:" + BoolName(cfg.allowCarry),
     "borrow:" + BoolName(cfg.allowBorrow)]
  }

  /** The seed "{op}|{key}|set{n}|layout:{layout}|carry:{c}|borrow:{b}". */
  function SeedString(cfg: Config): string
    requires ValidConfig(cfg)
  {
    Join(SeedFields(cfg))
  }

  /** Joining is injective on equally many fields free of '|'. */
  lemma {:induction false} JoinInjective(fs: seq<string>, gs: seq<string>)
    requires |fs| == |gs|
    requires forall i | 0 <= i < |fs| :: '|' !in fs[i]
    requires forall i | 0 <= i < |gs| :: '|' !in gs[i]
    requires Join(fs) == Join(gs)
    ensures fs == gs
  {
    if |fs| >= 2 {
      assert Join(fs) == fs[0] + ['|'] + Join(fs[1..]);
      assert Join(gs) == gs[0] + ['|'] + Join(gs[1..]);
      SplitAt(fs[0], '|', Join(fs[1..]), gs[0], '|', Join(gs[1..]));
      JoinInjective(fs[1..], gs[1..]);
      assert fs == [fs[0]] + fs[1..];
      assert gs == [gs[0]] + gs[1..];
    }
  }

  /** No field of the seed contains the separator. */
  lemma SeedFieldsHaveNoBar(cfg: Config)
    requires ValidConfig(cfg)
    ensures forall i | 0 <= i < |SeedFields(cfg)| :: '|' !in SeedFields(cfg)[i]
  {
    NonDigitNotInDecimal('|', cfg.setNo);
    ChapterKeyHasNoBar(cfg);
    LabelsHaveNoBar(cfg);
    assert "set" + Decimal(cfg.setNo) == SeedFields(cfg)[2];
  }

  /** Neither the operation name nor the labelled sidebar choices contain the
      separator. */
  lemma LabelsHaveNoBar(cfg: Config)
    ensures '|' !in OpName(cfg.op)
    ensures '|' !in "layout:" + LayoutName(cfg.layout)
    ensures '|' !in "carry:" + BoolName(cfg.allowCarry)
    ensures '|' !in "borrow:" + BoolName(cfg.allowBorrow)
  {
  }

  lemma ChapterKeyHasNoBar(cfg: Config)
    requires ValidConfig(cfg)
    ensures '|' !in ChapterOf(cfg).key
  {
    var ch := ChapterOf(cfg);
    ChapterKey(cfg.op, cfg.chapter);
    NonDigitNotInDecimal('|', ch.aD);
    NonDigitNotInDecimal('|', ch.bD);
    assert ch.key == Decimal(ch.aD) + "d" + [KeySymbol(cfg.op)] + Decimal(ch.bD) + "d";
  }

  /** The seed's fields determine the sidebar choices. */
  lemma SeedFieldsInjective(c1: Config, c2: Config)
    requires ValidConfig(c1) && ValidConfig(c2)
    requires SeedFields(c1) == SeedFields(c2)
    ensures c1 == c2
  {
    var f1, f2 := SeedFields(c1), SeedFields(c2);
    assert OpName(c1.op) == f1[0] == f2[0] == OpName(c2.op);
    assert c1.op == c2.op;
    assert c1.chapter == c2.chapter;
    SameLabel("set", Decimal(c1.setNo), Decimal(c2.setNo));
    DecimalInjective(c1.setNo, c2.setNo);
    SameLabel("layout:", LayoutName(c1.layout), LayoutName(c2.layout));
    SameLabel("carry:", BoolName(c1.allowCarry), BoolName(c2.allowCarry));
    SameLabel("borrow:", BoolName(c1.allowBorrow), BoolName(c2.allowBorrow));
  }

  /** Different sidebar choices give different seed strings: the seed names
      the operation, the chapter, the set, the layout and both rules. */
  lemma SeedInjective(c1: Config, c2: Config)
    requires ValidConfig(c1) && ValidConfig(c2)
    requires SeedString(c1) == SeedString(c2)
    ensures c1 == c2
  {
    SeedFieldsHaveNoBar(c1);
    SeedFieldsHaveNoBar(c2);
    JoinInjective(SeedFields(c1), SeedFields(c2));
    SeedFieldsInjective(c1, c2);
  }
}
