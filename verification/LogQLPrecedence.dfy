/** The precedence of LogQL operators as the texts show it: which operator a text of three
    numbers and two operators is split at. */
module LogQLPrecedence {
  import opened Options
  import opened LogQLParser
  import opened LogQLRoundTrip

  /** The operators from the loosest level to the tightest. */
  const LEVELS: seq<seq<string>> :=
    [["or"], ["and", "unless"], ["==", "!=", ">", ">=", "<", "<="], ["+", "-"], ["*", "/", "%"], ["^"]]

  const COMPARISONS := 2

  function Between(left: string, op: string, right: string): string { left + (" " + op + " ") + right }

  function Shown(s: string, parenthesized: bool): string { if parenthesized then "(" + s + ")" else s }

  ghost predicate IsNumber(s: string) { Digits(s) && InFloatRange(s) }

  function Simple(op: Op, lhs: Expr, rhs: Expr): Expr { Binary(op, lhs, rhs, false, None) }

  lemma LevelOf(op: Op, level: nat)
    requires level < |LEVELS| && op.Text() in LEVELS[level]
    ensures op.Precedence() == level + 1 && (op.IsComparison() <==> level == COMPARISONS)
  {
    var k :| 0 <= k < |LEVELS[level]| && LEVELS[level][k] == op.Text();
    FirstCharacters(op);
    match level
    case 0 => assert op.Text()[0] == 'o';
    case 1 => assert op.Text()[0] in {'a', 'u'};
    case 2 => assert op.Text()[0] in {'=', '!', '>', '<'};
    case 3 => assert op.Text()[0] in {'+', '-'};
    case 4 => assert op.Text()[0] in {'*', '/', '%'};
    case 5 => assert op.Text()[0] == '^';
  }

  lemma FirstCharacters(op: Op)
    ensures op.Text() != ""
    ensures op.Text()[0] == match op
      case Or => 'o' case And => 'a' case Unless => 'u'
      case Eq => '=' case Ne => '!' case Gt => '>' case Ge => '>' case Lt => '<' case Le => '<'
      case Add => '+' case Sub => '-' case Mul => '*' case Div => '/' case Mod => '%' case Pow => '^'
  {
  }

  /** An operator between two numbers. */
  function Pair(op: Op, a: string, b: string, wrap: bool): Tree {
    Node(op, Number(a), false, Number(b), wrap)
  }

  lemma PairIs(op: Op, a: string, b: string, wrap: bool)
    requires IsNumber(a) && IsNumber(b)
    ensures var t := Pair(op, a, b, wrap);
      Print(t) == Between(a, op.Text(), Shown(b, wrap)) && TopOps(t, false) == [op]
      && Meaning(t) == Simple(op, Scalar(Decimal(a)), Scalar(Decimal(b)))
      && DigitLeaves(t) && InRange(t) && (Tight(t) <==> op.IsComparison() ==> wrap)
  {
    hide Op.Text, InFloatRange, Digits, Decimal, Op.IsComparison;
    PrecedenceRange(op);
    hide Op.Precedence;
    assert Operand(Number(a), false) == a;
    assert Operand(Number(b), wrap) == Shown(b, wrap);
  }

  lemma RightPair(x: Op, a: string, pair: Tree)
    requires IsNumber(a) && pair.Node? && DigitLeaves(pair) && InRange(pair)
    ensures var t := Node(x, Number(a), false, pair, false);
      Print(t) == Between(a, x.Text(), Print(pair)) && TopOps(t, false) == [x] + TopOps(pair, false)
      && Meaning(t) == Simple(x, Scalar(Decimal(a)), Meaning(pair)) && DigitLeaves(t)
      && (Printable(t) <==> Tight(pair) && pair.op.Precedence() > x.Precedence())
  {
    hide Op.Text, InFloatRange, Digits, Decimal, Op.IsComparison, Print;
    PrecedenceRange(x);
    hide Op.Precedence;
    PrintsRight(x, a, pair);
    assert Number(a).Strength() == 100 && pair.Strength() == pair.op.Precedence();
    assert Tight(Number(a)) && InRange(Number(a));
  }

  lemma PrintsRight(x: Op, a: string, pair: Tree)
    ensures Print(Node(x, Number(a), false, pair, false)) == Between(a, x.Text(), Print(pair))
  {
    hide Op.Text;
    assert Operand(Number(a), false) == a;
    assert Operand(pair, false) == Print(pair);
  }

  lemma LeftPair(x: Op, pair: Tree, c: string, wrap: bool)
    requires IsNumber(c) && pair.Node? && DigitLeaves(pair) && InRange(pair)
    ensures var t := Node(x, pair, false, Number(c), wrap);
      Print(t) == Between(Print(pair), x.Text(), Shown(c, wrap)) && TopOps(t, false) == TopOps(pair, false) + [x]
      && Meaning(t) == Simple(x, Meaning(pair), Scalar(Decimal(c))) && DigitLeaves(t)
      && (Printable(t) <==>
          Tight(pair) && pair.op.Precedence() > x.Precedence() && (x.IsComparison() ==> wrap))
  {
    hide Op.Text, InFloatRange, Digits, Decimal, Op.IsComparison, Print;
    PrecedenceRange(x);
    hide Op.Precedence;
    PrintsLeft(x, pair, c, wrap);
    assert Number(c).Strength() == 100 && pair.Strength() == pair.op.Precedence();
    assert Tight(Number(c)) && InRange(Number(c));
  }

  lemma PrintsLeft(x: Op, pair: Tree, c: string, wrap: bool)
    ensures Print(Node(x, pair, false, Number(c), wrap)) == Between(Print(pair), x.Text(), Shown(c, wrap))
  {
    hide Op.Text;
    assert Operand(Number(c), wrap) == Shown(c, wrap);
    assert Operand(pair, false) == Print(pair);
  }

  /** The looser operator is the root, whichever comes first. A number to the right of a
      comparison is in parentheses where it would not be accepted bare. */
  lemma LooserIsRoot(env: Env, x: Op, y: Op, i: nat, j: nat, a: string, b: string, c: string)
    requires ReadsNumbers(env) && IsNumber(a) && IsNumber(b) && IsNumber(c)
    requires i < j < |LEVELS| && x.Text() in LEVELS[i] && y.Text() in LEVELS[j]
    ensures Parse(env, Between(a, x.Text(), Between(b, y.Text(), Shown(c, j == COMPARISONS)))) ==
            Ok(Simple(x, Scalar(Decimal(a)), Simple(y, Scalar(Decimal(b)), Scalar(Decimal(c)))))
    ensures Parse(env, Between(Between(a, y.Text(), Shown(b, j == COMPARISONS)), x.Text(),
                Shown(c, i == COMPARISONS))) ==
            Ok(Simple(x, Simple(y, Scalar(Decimal(a)), Scalar(Decimal(b))), Scalar(Decimal(c))))
  {
    hide Parse, Op.Text, Op.Precedence, IsNumber, ReadsNumbers, Decimal, Op.IsComparison, Printable, Print, Meaning,
         Tight, DigitLeaves, InRange, Between, TopOps;
    LevelOf(x, i);
    LevelOf(y, j);
    var wrap := j == COMPARISONS;
    PairIs(y, b, c, wrap);
    RightPair(x, a, Pair(y, b, c, wrap));
    ParseAfterPrint(env, Node(x, Number(a), false, Pair(y, b, c, wrap), false));
    PairIs(y, a, b, wrap);
    LeftPair(x, Pair(y, a, b, wrap), c, i == COMPARISONS);
    ParseAfterPrint(env, Node(x, Pair(y, a, b, wrap), false, Number(c), i == COMPARISONS));
  }

  /** Two operators of one level are not accepted side by side: no operator associates. */
  lemma SameLevelIsRejected(env: Env, x: Op, y: Op, i: nat, a: string, b: string, c: string, wrapped: bool)
    requires ReadsNumbers(env) && IsNumber(a) && IsNumber(b) && IsNumber(c)
    requires i < |LEVELS| && x.Text() in LEVELS[i] && y.Text() in LEVELS[i]
    ensures Parse(env, Between(a, x.Text(), Between(b, y.Text(), Shown(c, wrapped)))).Err?
  {
    hide Parse, Op.Text, Op.Precedence, IsNumber, ReadsNumbers, Decimal, Op.IsComparison, Printable, Print, Meaning,
         Tight, DigitLeaves, InRange, Between, TopOps;
    LevelOf(x, i);
    LevelOf(y, i);
    PairIs(y, b, c, wrapped);
    RightPair(x, a, Pair(y, b, c, wrapped));
    EqualChainIsRejected(env, Node(x, Number(a), false, Pair(y, b, c, wrapped), false), 0, 1);
  }

  /** A comparison of two bare numbers is rejected, and accepted with the right one in
      parentheses; every other operator takes two bare numbers. */
  lemma OneOperator(env: Env, x: Op, i: nat, a: string, b: string)
    requires ReadsNumbers(env) && IsNumber(a) && IsNumber(b) && i < |LEVELS| && x.Text() in LEVELS[i]
    ensures Parse(env, Between(a, x.Text(), Shown(b, i == COMPARISONS))) ==
            Ok(Simple(x, Scalar(Decimal(a)), Scalar(Decimal(b))))
    ensures i == COMPARISONS ==> Parse(env, Between(a, x.Text(), b)).Err?
  {
    hide Parse, Op.Text, Op.Precedence, IsNumber, ReadsNumbers, Decimal, Op.IsComparison, Print, Meaning,
         Tight, DigitLeaves, InRange, Between, TopOps;
    LevelOf(x, i);
    PairIs(x, a, b, i == COMPARISONS);
    ParseAfterPrint(env, Pair(x, a, b, i == COMPARISONS));
    PairIs(x, a, b, false);
    if i == COMPARISONS {
      TrailingComparisonIsRejected(env, Pair(x, a, b, false));
    }
  }

  /** Every operator has a level. */
  lemma EveryOperatorHasALevel(op: Op)
    ensures exists i :: 0 <= i < |LEVELS| && op.Text() in LEVELS[i]
  {
    var i := match op
      case Or => 0
      case And => 1 case Unless => 1
      case Eq => 2 case Ne => 2 case Gt => 2 case Ge => 2 case Lt => 2 case Le => 2
      case Add => 3 case Sub => 3
      case Mul => 4 case Div => 4 case Mod => 4
      case Pow => 5;
    assert op.Text() in LEVELS[i];
  }
}
