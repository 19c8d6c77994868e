/** Printed LogQL expressions: the parser reads them back exactly when they are printed with the
    parentheses their operators need. */
module LogQLRoundTrip {
  import opened Options
  import opened LogQLParser

  // ---------------------------------------------------------------- printing

  /** An expression to print, saying which operands are put in parentheses. */
  datatype Tree =
    | Number(digits: string)
    | Node(op: Op, lhs: Tree, wrapLeft: bool, rhs: Tree, wrapRight: bool)
  {
    function Strength(): nat { if Number? then 100 else op.Precedence() }
  }

  function Print(t: Tree): string
    decreases t, 0
  {
    match t
    case Number(digits) => digits
    case Node(op, l, wl, r, wr) => Operand(l, wl) + (" " + op.Text() + " ") + Operand(r, wr)
  }

  function Operand(t: Tree, wrap: bool): string
    decreases t, 1
  {
    if wrap then "(" + Print(t) + ")" else Print(t)
  }

  predicate Digits(s: string) { s != "" && forall k :: 0 <= k < |s| ==> IsDigit(s[k]) }

  predicate DigitLeaves(t: Tree) {
    match t
    case Number(digits) => Digits(digits)
    case Node(_, l, _, r, _) => DigitLeaves(l) && DigitLeaves(r)
  }

  /** Operands go without parentheses only when they bind tighter, and a number to the right of
      a comparison never. Printing with every operand in parentheses always qualifies. */
  predicate Tight(t: Tree) {
    match t
    case Number(_) => true
    case Node(op, l, wl, r, wr) =>
      Tight(l) && Tight(r)
      && (wl || l.Strength() > op.Precedence())
      && (wr || (r.Strength() > op.Precedence() && !(op.IsComparison() && r.Number?)))
  }

  function Decimal(s: string): real {
    if s == "" then 0.0 else 10.0 * Decimal(s[..|s| - 1]) + (s[|s| - 1] as int - '0' as int) as real
  }

  function Meaning(t: Tree): Expr {
    match t
    case Number(digits) => Scalar(Decimal(digits))
    case Node(op, l, _, r, _) => Binary(op, Meaning(l), Meaning(r), false, None)
  }

  /** 2^1024 - 2^970: the least number that rounds to infinity in 64 bits. */
  const FLOAT_LIMIT: real :=
    18014398509481983.0
    * 158456325028528675187087900672.0 * 158456325028528675187087900672.0 * 158456325028528675187087900672.0
    * 158456325028528675187087900672.0 * 158456325028528675187087900672.0 * 158456325028528675187087900672.0
    * 158456325028528675187087900672.0 * 158456325028528675187087900672.0 * 158456325028528675187087900672.0
    * 158456325028528675187087900672.0

  predicate InFloatRange(digits: string) { Decimal(digits) < FLOAT_LIMIT }

  /** No leaf is too large for a float64. */
  predicate InRange(t: Tree) {
    match t
    case Number(digits) => InFloatRange(digits)
    case Node(_, l, _, r, _) => InRange(l) && InRange(r)
  }

  predicate Printable(t: Tree) { DigitLeaves(t) && Tight(t) && InRange(t) }

  /** What is known of strconv.ParseFloat: it reads digits as a decimal number when that is in
      range, and rejects text with a space or a parenthesis in it. */
  ghost predicate ReadsNumbers(env: Env) {
    (forall s :: Digits(s) ==> env.float(s) == if InFloatRange(s) then Some(Decimal(s)) else None)
    && (forall s, k :: 0 <= k < |s| && s[k] in {' ', '(', ')'} ==> env.float(s) == None)
  }

  /** Such parsers exist. */
  lemma SomeEnvReads(csv: string -> seq<string>, selector: string -> Result<Expr>, named: string -> Result<Expr>)
    returns (env: Env)
    ensures ReadsNumbers(env) && env.csv == csv && env.selector == selector && env.named == named
  {
    hide InFloatRange;
    env := Env(s => if Digits(s) && InFloatRange(s) then Some(Decimal(s)) else None, csv, selector, named);
  }

  // ---------------------------------------------------------------- what printed text looks like

  predicate At(s: string, a: nat, part: string) { a + |part| <= |s| && s[a..a + |part|] == part }

  lemma AtBoth(s: string, a: nat, x: string, y: string)
    requires At(s, a, x + y)
    ensures At(s, a, x) && At(s, a + |x|, y)
  {
    var whole := s[a..a + |x + y|];
    assert whole == x + y;
    assert s[a..a + |x|] == whole[..|x|] == x;
    assert s[a + |x|..a + |x| + |y|] == whole[|x|..] == y;
  }

  lemma AtChar(s: string, a: nat, part: string, k: nat)
    requires At(s, a, part) && k < |part|
    ensures s[a + k] == part[k]
  {
    assert s[a..a + |part|][k] == part[k];
  }

  lemma AtWrapped(s: string, a: nat, inner: string)
    requires At(s, a, "(" + inner + ")")
    ensures At(s, a + 1, inner) && a + 2 + |inner| <= |s| && s[a] == '(' && s[a + 1 + |inner|] == ')'
  {
    AtBoth(s, a, "(" + inner, ")");
    AtBoth(s, a, "(", inner);
    AtChar(s, a, "(", 0);
    AtChar(s, a + 1 + |inner|, ")", 0);
  }

  /** Printed text starts with a digit or a parenthesis and ends with a digit or one. */
  lemma {:induction false} Ends(t: Tree, wrap: bool)
    requires DigitLeaves(t)
    ensures var p := Operand(t, wrap);
            p != "" && (IsDigit(p[0]) || p[0] == '(') && (IsDigit(p[|p| - 1]) || p[|p| - 1] == ')')
    decreases t
  {
    if !wrap && t.Node? {
      Ends(t.lhs, t.wrapLeft);
      Ends(t.rhs, t.wrapRight);
    }
  }

  lemma {:induction false} TrimRightKeeps(s: string, x: string)
    requires x != "" && x <= s && !IsAsciiSpace(x[|x| - 1])
    ensures x <= TrimRight(s)
    ensures (forall k :: |x| <= k < |s| ==> IsAsciiSpace(s[k])) ==> TrimRight(s) == x
  {
    if |s| > |x| && IsAsciiSpace(s[|s| - 1]) {
      TrimRightKeeps(s[..|s| - 1], x);
    } else if |s| == |x| {
      assert s == x;
    }
  }

  /** Spaces around printed text are dropped, and nothing of it is. */
  lemma TrimAround(before: nat, x: string, after: string)
    requires before <= 1 && x != "" && !IsAsciiSpace(x[0]) && !IsAsciiSpace(x[|x| - 1])
    ensures x <= Trim((if before == 1 then " " else "") + x + after)
    ensures (forall k :: 0 <= k < |after| ==> IsAsciiSpace(after[k]))
            ==> Trim((if before == 1 then " " else "") + x + after) == x
  {
    var s := (if before == 1 then " " else "") + x + after;
    if before == 1 {
      assert s[1..] == x + after;
    } else {
      assert s == x + after;
    }
    assert TrimLeft(s) == x + after;
    TrimRightKeeps(x + after, x);
  }

  lemma TrimPrinted(t: Tree, wrap: bool)
    requires DigitLeaves(t)
    ensures Trim(Operand(t, wrap)) == Operand(t, wrap)
  {
    Ends(t, wrap);
    var p := Operand(t, wrap);
    assert "" + p + "" == p;
    TrimAround(0, p, "");
  }

  // ---------------------------------------------------------------- matching parentheses

  predicate Plain(c: char) { c !in {'"', '`', '(', ')', '[', ']', '{', '}'} }

  lemma {:induction false} MatchOverPlain(s: string, a: nat, b: nat, depth: int)
    requires a <= b <= |s| && forall k :: a <= k < b ==> Plain(s[k])
    ensures MatchFrom(s, a, depth, Outside) == MatchFrom(s, b, depth, Outside)
    decreases b - a
  {
    if a < b {
      MatchOverPlain(s, a + 1, b, depth);
    }
  }

  lemma PlainOp(op: Op, k: nat)
    requires k < |" " + op.Text() + " "|
    ensures Plain((" " + op.Text() + " ")[k])
  {
  }

  lemma PlainOpAt(s: string, a: nat, op: Op)
    requires At(s, a, " " + op.Text() + " ")
    ensures forall k :: a <= k < a + |op.Text()| + 2 ==> Plain(s[k])
  {
    forall k | a <= k < a + |op.Text()| + 2 ensures Plain(s[k]) {
      AtChar(s, a, " " + op.Text() + " ", k - a);
      PlainOp(op, k - a);
    }
  }

  lemma PlainDigits(s: string, a: nat, digits: string)
    requires At(s, a, digits) && Digits(digits)
    ensures forall k :: a <= k < a + |digits| ==> IsDigit(s[k]) && Plain(s[k])
  {
    forall k | a <= k < a + |digits| ensures IsDigit(s[k]) && Plain(s[k]) {
      AtChar(s, a, digits, k - a);
    }
  }

  lemma MatchSteps(s: string, a: nat, depth: int)
    requires a < |s|
    ensures s[a] == '(' ==> MatchFrom(s, a, depth, Outside) == MatchFrom(s, a + 1, depth + 1, Outside)
    ensures s[a] == ')' && depth > 1 ==> MatchFrom(s, a, depth, Outside) == MatchFrom(s, a + 1, depth - 1, Outside)
    ensures s[a] == ')' && depth == 1 ==> MatchFrom(s, a, depth, Outside) == a
  {
  }

  /** Inside parentheses printed text is skipped. */
  lemma {:induction false} MatchSkips(s: string, a: nat, t: Tree, wrap: bool, depth: nat)
    requires DigitLeaves(t) && At(s, a, Operand(t, wrap)) && depth >= 1
    ensures MatchFrom(s, a, depth, Outside) == MatchFrom(s, a + |Operand(t, wrap)|, depth, Outside)
    decreases t, wrap
  {
    hide At, MatchFrom, Op.Text, Print;
    AtFits(s, a, Operand(t, wrap));
    if wrap {
      AtWrapped(s, a, Print(t));
      MatchSteps(s, a, depth);
      MatchSkips(s, a + 1, t, false, depth + 1);
      MatchSteps(s, a + 1 + |Print(t)|, depth + 1);
    } else if t.Number? {
      NumberAt(s, a, t);
      MatchOverPlain(s, a, a + |t.digits|, depth);
    } else {
      NodeAt(s, a, t);
      var b := a + |Operand(t.lhs, t.wrapLeft)|;
      MatchSkips(s, a, t.lhs, t.wrapLeft, depth);
      PlainOpAt(s, b, t.op);
      MatchOverPlain(s, b, b + |t.op.Text()| + 2, depth);
      MatchSkips(s, b + |t.op.Text()| + 2, t.rhs, t.wrapRight, depth);
    }
  }

  lemma NumberAt(s: string, a: nat, t: Tree)
    requires t.Number? && DigitLeaves(t) && At(s, a, Print(t))
    ensures |Print(t)| == |t.digits| && a + |t.digits| <= |s|
    ensures forall k :: a <= k < a + |t.digits| ==> IsDigit(s[k]) && Plain(s[k])
  {
    PlainDigits(s, a, t.digits);
  }

  lemma NodeAt(s: string, a: nat, t: Tree)
    requires t.Node? && At(s, a, Print(t))
    ensures At(s, a, Operand(t.lhs, t.wrapLeft))
    ensures At(s, a + |Operand(t.lhs, t.wrapLeft)|, " " + t.op.Text() + " ")
    ensures At(s, a + |Operand(t.lhs, t.wrapLeft)| + |t.op.Text()| + 2, Operand(t.rhs, t.wrapRight))
    ensures |Print(t)| == |Operand(t.lhs, t.wrapLeft)| + |t.op.Text()| + 2 + |Operand(t.rhs, t.wrapRight)|
    ensures a + |Print(t)| <= |s|
  {
    NodeParts(s, a, t.op, Operand(t.lhs, t.wrapLeft), Operand(t.rhs, t.wrapRight));
  }

  lemma AtFits(s: string, a: nat, part: string)
    requires At(s, a, part)
    ensures a + |part| <= |s|
  {
  }

  lemma NodeParts(s: string, a: nat, op: Op, left: string, right: string)
    requires At(s, a, left + (" " + op.Text() + " ") + right)
    ensures At(s, a, left) && At(s, a + |left|, " " + op.Text() + " ")
    ensures At(s, a + |left| + |op.Text()| + 2, right)
    ensures |left + (" " + op.Text() + " ") + right| == |left| + |op.Text()| + 2 + |right|
  {
    AtBoth(s, a, left + (" " + op.Text() + " "), right);
    AtBoth(s, a, left, " " + op.Text() + " ");
  }

  /** The first parenthesis of an operand in parentheses matches its last. */
  lemma MatchOfWrapped(s: string, a: nat, t: Tree)
    requires DigitLeaves(t) && At(s, a, Operand(t, true))
    ensures MatchFrom(s, a, 0, Outside) == a + |Print(t)| + 1
  {
    hide At, MatchFrom, Print;
    AtWrapped(s, a, Print(t));
    MatchSteps(s, a, 0);
    MatchSkips(s, a + 1, t, false, 1);
    MatchSteps(s, a + 1 + |Print(t)|, 1);
  }

  /** Text printed without outer parentheses is never taken to have them. */
  lemma {:induction false} BareIsNotWrapped(s: string, t: Tree)
    requires DigitLeaves(t) && At(s, 0, Print(t))
    ensures s != "" && (s[0] == '(' ==> FindMatching(s) < |Print(t)| - 1)
    decreases t
  {
    hide Print, At, MatchFrom, Op.Text;
    if t.Node? {
      NodeAt(s, 0, t);
      Ends(t.lhs, t.wrapLeft);
      Ends(t.rhs, t.wrapRight);
      if t.wrapLeft {
        MatchOfWrapped(s, 0, t.lhs);
      } else {
        BareIsNotWrapped(s, t.lhs);
      }
    } else {
      NumberAt(s, 0, t);
    }
  }

  lemma OperandCases(t: Tree, wrap: bool)
    ensures Operand(t, wrap) == if wrap then "(" + Print(t) + ")" else Print(t)
  {
  }

  lemma BareStays(t: Tree, minPrec: nat)
    requires DigitLeaves(t)
    ensures TrimParensForBinary(Print(t), minPrec) == (Print(t), minPrec) && TrimParens(Print(t)) == Print(t)
  {
    hide FindMatching, Trim, Print;
    TrimPrinted(t, false);
    AtWhole(Print(t));
    BareIsNotWrapped(Print(t), t);
  }

  lemma WrappedOpens(t: Tree, minPrec: nat)
    requires DigitLeaves(t)
    ensures TrimParensForBinary(Operand(t, true), minPrec) == (Print(t), 1)
  {
    hide MatchFrom, Trim, Print, At;
    TrimPrinted(t, true);
    AtWhole(Operand(t, true));
    MatchOfWrapped(Operand(t, true), 0, t);
    assert Operand(t, true)[1..|Operand(t, true)| - 1] == Print(t);
    BareStays(t, 1);
  }

  // ---------------------------------------------------------------- finding the operator

  lemma {:induction false} TopInside(env: Env, s: string, minPrec: nat, a: nat, b: nat, depth: nat, best: Option<Best>)
    requires a <= b <= |s| && depth >= 1 && (forall k :: a <= k < b ==> Plain(s[k]))
    requires best.Some? ==> best.value.End() <= |s|
    ensures TopFrom(env, s, minPrec, a, depth, Outside, best) == TopFrom(env, s, minPrec, b, depth, Outside, best)
    decreases b - a
  {
    if a < b {
      TopInside(env, s, minPrec, a + 1, b, depth, best);
    }
  }

  lemma TopSteps(env: Env, s: string, minPrec: nat, a: nat, depth: nat, best: Option<Best>)
    requires a < |s| && (best.Some? ==> best.value.End() <= |s|)
    ensures s[a] == '(' ==>
      TopFrom(env, s, minPrec, a, depth, Outside, best) == TopFrom(env, s, minPrec, a + 1, depth + 1, Outside, best)
    ensures s[a] == ')' && depth > 0 ==>
      TopFrom(env, s, minPrec, a, depth, Outside, best) == TopFrom(env, s, minPrec, a + 1, depth - 1, Outside, best)
  {
  }

  /** Operators inside parentheses are not candidates. */
  lemma {:induction false} TopSkipsInside(env: Env, s: string, minPrec: nat, a: nat, t: Tree, wrap: bool, depth: nat,
                                          best: Option<Best>)
    requires DigitLeaves(t) && At(s, a, Operand(t, wrap)) && (wrap || depth >= 1)
    requires best.Some? ==> best.value.End() <= |s|
    ensures TopFrom(env, s, minPrec, a, depth, Outside, best)
         == TopFrom(env, s, minPrec, a + |Operand(t, wrap)|, depth, Outside, best)
    decreases t, wrap
  {
    hide At, TopFrom, Op.Text, Print;
    AtFits(s, a, Operand(t, wrap));
    if wrap {
      AtWrapped(s, a, Print(t));
      TopSteps(env, s, minPrec, a, depth, best);
      TopSkipsInside(env, s, minPrec, a + 1, t, false, depth + 1, best);
      TopSteps(env, s, minPrec, a + 1 + |Print(t)|, depth + 1, best);
    } else if t.Number? {
      NumberAt(s, a, t);
      TopInside(env, s, minPrec, a, a + |t.digits|, depth, best);
    } else {
      NodeAt(s, a, t);
      var b := a + |Operand(t.lhs, t.wrapLeft)|;
      TopSkipsInside(env, s, minPrec, a, t.lhs, t.wrapLeft, depth, best);
      PlainOpAt(s, b, t.op);
      TopInside(env, s, minPrec, b, b + |t.op.Text()| + 2, depth, best);
      TopSkipsInside(env, s, minPrec, b + |t.op.Text()| + 2, t.rhs, t.wrapRight, depth, best);
    }
  }

  /** Characters at which no operator can be read change nothing. */
  lemma {:induction false} TopOverQuiet(env: Env, s: string, minPrec: nat, a: nat, b: nat, best: Option<Best>)
    requires a <= b <= |s| && (forall k :: a <= k < b ==> Plain(s[k]) && ReadOpAt(s, k) == None)
    requires best.Some? ==> best.value.End() <= |s|
    ensures TopFrom(env, s, minPrec, a, 0, Outside, best) == TopFrom(env, s, minPrec, b, 0, Outside, best)
    decreases b - a
  {
    hide ReadOpAt;
    if a < b {
      TopOverQuiet(env, s, minPrec, a + 1, b, best);
    }
  }

  lemma NoOpAtDigit(s: string, k: nat)
    requires k < |s| && (IsDigit(s[k]) || s[k] == ' ')
    ensures ReadOpAt(s, k) == None
  {
    assert Lower(s[k]) == s[k];
    assert !WordIs(s, k, "unless") && !WordIs(s, k, "and") && !WordIs(s, k, "or") by {
      assert "unless"[0] == 'u' && "and"[0] == 'a' && "or"[0] == 'o';
    }
  }

  predicate IsWord(op: Op) { op.Or? || op.And? || op.Unless? }

  /** The operator printed between two operands is read where it starts, and none is read at
      the spaces around it or inside it. */
  lemma OpIsRead(s: string, a: nat, op: Op)
    requires 0 < a && At(s, a, " " + op.Text() + " ") && (IsDigit(s[a - 1]) || s[a - 1] == ')')
    ensures a + |op.Text()| + 1 < |s| && ReadOpAt(s, a) == None && ReadOpAt(s, a + 1) == Some(op)
    ensures forall k :: a + 2 <= k < a + |op.Text()| + 2 ==> ReadOpAt(s, k) == None
  {
    hide At, Op.Text, ReadOpAt;
    var (text, n) := (" " + op.Text() + " ", |op.Text()|);
    AtFits(s, a, text);
    AtChar(s, a, text, 0);
    AtChar(s, a, text, n + 1);
    forall k | 0 <= k < n ensures s[a + 1 + k] == op.Text()[k] { AtChar(s, a, text, k + 1); }
    NoOpAtDigit(s, a);
    NoOpAtDigit(s, a + n + 1);
    if IsWord(op) {
      WordIsRead(s, a, op);
    } else {
      SymbolIsRead(s, a, op);
    }
  }

  lemma SymbolIsRead(s: string, a: nat, op: Op)
    requires 0 < a && a + |op.Text()| + 1 < |s| && (IsDigit(s[a - 1]) || s[a - 1] == ')') && s[a] == ' '
    requires forall k :: 0 <= k < |op.Text()| ==> s[a + 1 + k] == op.Text()[k]
    requires s[a + 1 + |op.Text()|] == ' ' && !IsWord(op)
    ensures ReadOpAt(s, a + 1) == Some(op)
    ensures forall k :: a + 2 <= k < a + |op.Text()| + 1 ==> ReadOpAt(s, k) == None
  {
    hide IsUnary, WordIs, ReadOpAt;
    BinaryAfter(s, a);
    assert s[a + 1 + 0] == op.Text()[0];
    if |op.Text()| == 2 {
      assert s[a + 1 + 1] == op.Text()[1] == '=';
      NoOpAtEquals(s, a + 2);
    }
    ReadIsSymbol(s, a + 1, op);
  }

  lemma BinaryAfter(s: string, a: nat)
    requires 0 < a < |s| && (IsDigit(s[a - 1]) || s[a - 1] == ')') && s[a] == ' '
    ensures !IsUnary(s, a + 1)
  {
    assert IsUnary(s, a + 1) == IsUnary(s, a);
  }

  lemma ReadIsSymbol(s: string, i: nat, op: Op)
    requires i < |s| && SymbolAt(s, i) == Some(op) && !IsUnary(s, i)
    ensures ReadOpAt(s, i) == Some(op)
  {
    hide SymbolAt, IsUnary, WordIs;
  }

  lemma NoOpAtEquals(s: string, k: nat)
    requires k + 1 < |s| && s[k] == '=' && s[k + 1] == ' '
    ensures ReadOpAt(s, k) == None
  {
    assert Lower(s[k + 0]) == '=';
    assert "unless"[0] == 'u' && "and"[0] == 'a' && "or"[0] == 'o';
  }

  lemma NoOpInWord(s: string, k: nat)
    requires 0 < k < |s| && IsLetter(s[k - 1]) && IsLetter(s[k])
    ensures ReadOpAt(s, k) == None
  {
  }

  lemma WordLetters(op: Op)
    requires IsWord(op)
    ensures forall k :: 0 <= k < |op.Text()| ==> 'a' <= op.Text()[k] <= 'z'
  {
  }

  lemma WordIsRead(s: string, a: nat, op: Op)
    requires a + |op.Text()| + 1 < |s| && s[a] == ' ' && s[a + 1 + |op.Text()|] == ' '
    requires forall k :: 0 <= k < |op.Text()| ==> s[a + 1 + k] == op.Text()[k]
    requires IsWord(op)
    ensures ReadOpAt(s, a + 1) == Some(op)
    ensures forall k :: a + 2 <= k < a + 1 + |op.Text()| ==> ReadOpAt(s, k) == None
  {
    WordLetters(op);
    assert s[a + 1 + 0] == op.Text()[0];
    forall k | a + 2 <= k < a + 1 + |op.Text()| ensures ReadOpAt(s, k) == None {
      assert s[a + 1 + (k - a - 1)] == op.Text()[k - a - 1] && s[a + 1 + (k - a - 2)] == op.Text()[k - a - 2];
      NoOpInWord(s, k);
    }
    FirstWord(s, a + 1, op);
  }

  lemma FirstWord(s: string, i: nat, op: Op)
    requires 0 < i && i + |op.Text()| < |s| && s[i - 1] == ' ' && s[i + |op.Text()|] == ' '
    requires forall k :: 0 <= k < |op.Text()| ==> s[i + k] == op.Text()[k]
    requires IsWord(op)
    ensures ReadOpAt(s, i) == Some(op)
  {
    WordLetters(op);
    forall k | 0 <= k < |op.Text()| ensures Lower(s[i + k]) == op.Text()[k] { assert s[i + k] == op.Text()[k]; }
    assert WordIs(s, i, op.Text());
    assert s[i + 0] == op.Text()[0] && SymbolAt(s, i) == None;
    assert "unless"[0] == 'u' && "and"[0] == 'a' && "or"[0] == 'o';
    assert !op.Unless? ==> !WordIs(s, i, "unless");
    assert op.Or? ==> !WordIs(s, i, "and");
  }

  /** Where no number follows, a comparison is a candidate like any other operator. */
  lemma NotPlainScalar(env: Env, t: Tree, wrap: bool, after: string)
    requires ReadsNumbers(env) && DigitLeaves(t) && (wrap || t.Node?)
    ensures !PlainScalarFollows(env, " " + Operand(t, wrap) + after)
  {
    var x := Operand(t, wrap);
    Ends(t, wrap);
    TrimAround(1, x, after);
    hide Trim, Operand, ParseModifiers;
    var trimmed := Trim(" " + x + after);
    var k := VisibleBreak(t, wrap);
    assert trimmed[k] == x[k] && trimmed[0] == x[0];
    TrimTwice(" " + x + after);
    NoModifiers(env, trimmed, true, NO_MODIFIERS);
  }

  /** Anything but a bare number holds a space or a parenthesis. */
  lemma VisibleBreak(t: Tree, wrap: bool) returns (k: nat)
    requires DigitLeaves(t) && (wrap || t.Node?)
    ensures k < |Operand(t, wrap)| && Operand(t, wrap)[k] in {' ', '('}
  {
    hide Op.Text;
    if wrap {
      k := 0;
    } else {
      k := |Operand(t.lhs, t.wrapLeft)|;
    }
  }

  /** Text that starts like an operand carries no modifiers. */
  lemma NoModifiers(env: Env, s: string, allowBool: bool, soFar: Modifiers)
    requires s != "" && Trim(s) == s && (IsDigit(s[0]) || s[0] == '(')
    ensures ParseModifiers(env, s, allowBool, soFar) == Ok(soFar.(rest := s))
  {
    var name := ReadIdentifier(s).0;
    assert name == s[..IdentifierEnd(s, 0)];
    assert name == "" || name[0] == s[0];
    assert "bool"[0] == 'b' && "on"[0] == 'o' && "ignoring"[0] == 'i';
    assert "group_left"[0] == 'g' && "group_right"[0] == 'g';
  }

  lemma OpIsPrinted(s: string, a: nat, t: Tree)
    requires t.Node? && DigitLeaves(t.lhs) && At(s, a, Print(t))
    ensures var b := a + |Operand(t.lhs, t.wrapLeft)|;
            b + 2 + |t.op.Text()| <= |s| && s[b + 1 + |t.op.Text()|] == ' '
            && ReadOpAt(s, b) == None && ReadOpAt(s, b + 1) == Some(t.op)
            && (forall k :: b + 2 <= k < b + |t.op.Text()| + 2 ==> ReadOpAt(s, k) == None)
  {
    hide Print, Operand, ReadOpAt, At, Op.Text;
    NodeAt(s, a, t);
    Ends(t.lhs, t.wrapLeft);
    var left := Operand(t.lhs, t.wrapLeft);
    AtChar(s, a, left, |left| - 1);
    OpIsRead(s, a + |left|, t.op);
    AtChar(s, a + |left|, " " + t.op.Text() + " ", |t.op.Text()| + 1);
  }

  lemma CandidateIs(env: Env, s: string, minPrec: nat, i: nat, op: Op)
    requires i + |op.Text()| <= |s| && op.Text() != "" && ReadOpAt(s, i) == Some(op)
    ensures Candidate(env, s, minPrec, i)
         == if op.Precedence() < minPrec then None
            else if op.IsComparison() && PlainScalarFollows(env, s[i + |op.Text()|..]) then None
            else Some(op)
  {
    hide ReadOpAt, PlainScalarFollows, Op.Text, Op.Precedence;
  }

  lemma RestIs(s: string, e: nat, part: string)
    requires e < |s| && s[e] == ' ' && At(s, e + 1, part)
    ensures e + 1 + |part| <= |s| && s[e..] == " " + part + s[e + 1 + |part|..]
  {
  }

  lemma PrecedenceRange(op: Op)
    ensures 1 <= op.Precedence() <= 6
  {
  }

  lemma OpHasText(op: Op)
    ensures op.Text() != ""
  {
  }

  /** The operator of a node is a candidate where it is printed. */
  lemma OpIsCandidate(env: Env, s: string, minPrec: nat, a: nat, t: Tree)
    requires ReadsNumbers(env) && Splittable(t) && At(s, a, Print(t)) && t.op.Precedence() >= minPrec
    ensures var b := a + |Operand(t.lhs, t.wrapLeft)|;
            b + 1 < |s| && Candidate(env, s, minPrec, b + 1) == Some(t.op)
            && b + 2 + |t.op.Text()| <= |s|
            && ReadOpAt(s, b) == None
            && forall k :: b + 2 <= k < b + |t.op.Text()| + 2 ==> ReadOpAt(s, k) == None
  {
    hide Print, Operand, ReadOpAt, At, PlainScalarFollows, Op.Text, Candidate, ReadsNumbers;
    OpIsPrinted(s, a, t);
    OpHasText(t.op);
    var b := a + |Operand(t.lhs, t.wrapLeft)|;
    CandidateIs(env, s, minPrec, b + 1, t.op);
    if t.op.IsComparison() {
      NodeAt(s, a, t);
      var (e, right) := (b + 1 + |t.op.Text()|, Operand(t.rhs, t.wrapRight));
      RestIs(s, e, right);
      NotPlainScalar(env, t.rhs, t.wrapRight, s[e + 1 + |right|..]);
    }
  }

  /** Where the operator of a node is seen, whatever its precedence. */
  predicate Splittable(t: Tree) {
    t.Node? && DigitLeaves(t.lhs) && DigitLeaves(t.rhs) && (t.op.IsComparison() ==> t.wrapRight || t.rhs.Node?)
  }

  lemma NotBareNumber(t: Tree)
    requires Printable(t) && t.Node?
    ensures Splittable(t) && Printable(t.lhs) && Printable(t.rhs)
    ensures t.wrapLeft || t.lhs.Strength() > t.op.Precedence()
    ensures t.wrapRight || t.rhs.Strength() > t.op.Precedence()
  {
  }

  /** Scanning an operand that binds tighter than p neither replaces an operator of precedence
      p nor stops one from being chosen later. */
  lemma {:induction false} TopOverOperand(env: Env, s: string, minPrec: nat, a: nat, t: Tree, wrap: bool, p: nat,
                                          best: Option<Best>)
    returns (after: Option<Best>)
    requires ReadsNumbers(env) && Printable(t) && At(s, a, Operand(t, wrap)) && (wrap || t.Strength() > p)
    requires minPrec <= p < 100 && (best.Some? ==> best.value.End() <= |s|)
    ensures after.Some? ==> after.value.End() <= |s|
    ensures if Bound(best) <= p then after == best else Bound(after) > p
    ensures TopFrom(env, s, minPrec, a, 0, Outside, best)
         == TopFrom(env, s, minPrec, a + |Operand(t, wrap)|, 0, Outside, after)
    decreases t
  {
    hide At, TopFrom, ReadOpAt, Op.Text, Print;
    after := best;
    AtFits(s, a, Operand(t, wrap));
    if wrap {
      TopSkipsInside(env, s, minPrec, a, t, wrap, 0, best);
    } else if t.Number? {
      NumberAt(s, a, t);
      forall k | a <= k < a + |t.digits| ensures ReadOpAt(s, k) == None { NoOpAtDigit(s, k); }
      TopOverQuiet(env, s, minPrec, a, a + |t.digits|, best);
    } else {
      NodeAt(s, a, t);
      NotBareNumber(t);
      after := TopOverOperand(env, s, minPrec, a, t.lhs, t.wrapLeft, p, best);
      after := TopOverOp(env, s, minPrec, a, t, after);
      var c := a + |Operand(t.lhs, t.wrapLeft)| + |t.op.Text()| + 2;
      after := TopOverOperand(env, s, minPrec, c, t.rhs, t.wrapRight, p, after);
    }
  }

  /** Scanning past a printed operator: it becomes the best one when it is a candidate. */
  lemma ScanOp(env: Env, s: string, minPrec: nat, a: nat, t: Tree, best: Option<Best>) returns (after: Option<Best>)
    requires t.Node? && DigitLeaves(t.lhs) && At(s, a, Print(t))
    requires best.Some? ==> best.value.End() <= |s|
    ensures after.Some? ==> after.value.End() <= |s|
    ensures var b := a + |Operand(t.lhs, t.wrapLeft)|;
      b + 1 < |s|
      && (var c := Candidate(env, s, minPrec, b + 1);
          (c.Some? ==> c == Some(t.op))
          && after == if c.Some? && t.op.Precedence() <= Bound(best) then Some(Best(b + 1, t.op)) else best)
      && TopFrom(env, s, minPrec, b, 0, Outside, best)
         == TopFrom(env, s, minPrec, b + |t.op.Text()| + 2, 0, Outside, after)
  {
    hide At, ReadOpAt, Operand, Print, Op.Text, TopFrom, Candidate, Plain, Bound, Op.Precedence;
    var b := a + |Operand(t.lhs, t.wrapLeft)|;
    OpIsPrinted(s, a, t);
    OpHasText(t.op);
    NodeAt(s, a, t);
    PlainOpAt(s, b, t.op);
    CandidateIs(env, s, minPrec, b + 1, t.op);
    var c := Candidate(env, s, minPrec, b + 1);
    after := if c.Some? && t.op.Precedence() <= Bound(best) then Some(Best(b + 1, t.op)) else best;
    TopOverQuiet(env, s, minPrec, b, b + 1, best);
    TopStep(env, s, minPrec, b + 1, best, after);
    TopOverQuiet(env, s, minPrec, b + 2, b + |t.op.Text()| + 2, after);
  }

  lemma TopOverOp(env: Env, s: string, minPrec: nat, a: nat, t: Tree, best: Option<Best>)
    returns (after: Option<Best>)
    requires ReadsNumbers(env) && Splittable(t) && At(s, a, Print(t)) && t.op.Precedence() >= minPrec
    requires best.Some? ==> best.value.End() <= |s|
    ensures after.Some? ==> after.value.End() <= |s|
    ensures after == if t.op.Precedence() <= Bound(best)
                     then Some(Best(a + |Operand(t.lhs, t.wrapLeft)| + 1, t.op)) else best
    ensures var b := a + |Operand(t.lhs, t.wrapLeft)|;
            TopFrom(env, s, minPrec, b, 0, Outside, best)
            == TopFrom(env, s, minPrec, b + |t.op.Text()| + 2, 0, Outside, after)
  {
    hide At, Operand, Print, Op.Text, TopFrom, Candidate, ReadsNumbers, Bound, Op.Precedence;
    OpIsCandidate(env, s, minPrec, a, t);
    after := ScanOp(env, s, minPrec, a, t, best);
  }

  lemma TopStep(env: Env, s: string, minPrec: nat, i: nat, best: Option<Best>, after: Option<Best>)
    requires i < |s| && Plain(s[i]) && (best.Some? ==> best.value.End() <= |s|)
    requires var c := Candidate(env, s, minPrec, i);
      after == if c.Some? && c.value.Precedence() <= Bound(best) then Some(Best(i, c.value)) else best
    ensures after.Some? ==> after.value.End() <= |s|
    ensures TopFrom(env, s, minPrec, i, 0, Outside, best) == TopFrom(env, s, minPrec, i + 1, 0, Outside, after)
  {
    hide Candidate;
  }

  /** The operator that splits a printed node is its own. */
  lemma TopOfNode(env: Env, t: Tree, minPrec: nat)
    requires ReadsNumbers(env) && Printable(t) && t.Node? && t.op.Precedence() >= minPrec
    ensures FindTop(env, Print(t), minPrec) == Some(Best(|Operand(t.lhs, t.wrapLeft)| + 1, t.op))
  {
    hide Operand, At, Print, TopFrom, Op.Text, Trim, ReadsNumbers, Printable, Splittable, Op.Precedence;
    PrecedenceRange(t.op);
    var s := Print(t);
    var left := Operand(t.lhs, t.wrapLeft);
    AtWhole(s);
    NodeAt(s, 0, t);
    NotBareNumber(t);
    var p := t.op.Precedence();
    var before := TopOverOperand(env, s, minPrec, 0, t.lhs, t.wrapLeft, p, None);
    var chosen := TopOverOp(env, s, minPrec, 0, t, before);
    var last := TopOverOperand(env, s, minPrec, |left| + |t.op.Text()| + 2, t.rhs, t.wrapRight, p, chosen);
    AtEnd(env, s, minPrec, |s|, last);
    OperandCases(t, false);
    Ends(t, false);
    TrimPrinted(t, false);
  }

  lemma AtEnd(env: Env, s: string, minPrec: nat, i: nat, best: Option<Best>)
    requires i == |s| && (best.Some? ==> best.value.End() <= |s|)
    ensures TopFrom(env, s, minPrec, i, 0, Outside, best) == best
  {
  }

  lemma AtWhole(s: string)
    ensures At(s, 0, s)
  {
  }

  lemma TopOfNumber(env: Env, digits: string, minPrec: nat)
    requires Digits(digits)
    ensures FindTop(env, digits, minPrec) == None
  {
    hide ReadOpAt;
    forall k | 0 <= k < |digits| ensures Plain(digits[k]) && ReadOpAt(digits, k) == None { NoOpAtDigit(digits, k); }
    TopOverQuiet(env, digits, minPrec, 0, |digits|, None);
    TrimPrinted(Number(digits), false);
  }

  // ---------------------------------------------------------------- round trip

  lemma ParseNumber(env: Env, digits: string, minPrec: nat)
    requires ReadsNumbers(env) && Digits(digits)
    ensures if InFloatRange(digits) then ParseBinary(env, digits, minPrec) == Ok(Scalar(Decimal(digits)))
            else ParseBinary(env, digits, minPrec).Err?
  {
    hide FindTop, TrimParens, TrimParensForBinary, Trim, InFloatRange, IsFunctionName, ReadIdentifier;
    var t := Number(digits);
    TrimPrinted(t, false);
    Unnamed(digits);
    BareStays(t, minPrec);
    TopOfNumber(env, digits, minPrec);
  }

  lemma ParseSame(env: Env, s: string, p: nat, t: string, q: nat)
    requires TrimParensForBinary(Trim(s), p) == TrimParensForBinary(Trim(t), q)
    ensures ParseBinary(env, s, p) == ParseBinary(env, t, q)
  {
    hide TrimParensForBinary, Trim, FindTop, ParsePrimary, ParseModifiers;
  }

  /** The parse of both operands, put together. */
  function Combine(op: Op, l: Result<Expr>, r: Result<Expr>): Result<Expr> {
    if l.Err? then l else if r.Err? then r else Ok(Binary(op, l.value, r.value, false, None))
  }

  lemma ParseSplits(env: Env, s: string, minPrec: nat, op: Op, start: nat, right: string)
    requires TrimParensForBinary(Trim(s), minPrec) == (s, minPrec) && FindTop(env, s, minPrec) == Some(Best(start, op))
    requires start + |op.Text()| <= |s|
    requires ParseModifiers(env, s[start + |op.Text()|..], op.IsComparison(), NO_MODIFIERS)
          == Ok(NO_MODIFIERS.(rest := right))
    ensures ParseBinary(env, s, minPrec) ==
      Combine(op, ParseBinary(env, s[..start], op.Precedence() + 1), ParseBinary(env, right, op.Precedence() + 1))
  {
    hide TrimParensForBinary, Trim, FindTop, ParsePrimary, ParseModifiers, Op.Text, Op.Precedence, Op.IsComparison;
  }

  lemma PrintSplits(t: Tree)
    requires t.Node?
    ensures var start := |Operand(t.lhs, t.wrapLeft)| + 1;
            start + |t.op.Text()| <= |Print(t)| && Print(t)[..start] == Operand(t.lhs, t.wrapLeft) + " "
            && Print(t)[start + |t.op.Text()|..] == " " + Operand(t.rhs, t.wrapRight)
  {
    hide Operand, Op.Text;
  }

  /** Text that is split at the operator of a node is parsed operand by operand. */
  lemma ParseAtOp(env: Env, t: Tree, minPrec: nat)
    requires t.Node? && DigitLeaves(t)
    requires FindTop(env, Print(t), minPrec) == Some(Best(|Operand(t.lhs, t.wrapLeft)| + 1, t.op))
    ensures ParseBinary(env, Print(t), minPrec) ==
      Combine(t.op, ParseBinary(env, Operand(t.lhs, t.wrapLeft), t.op.Precedence() + 1),
              ParseBinary(env, Operand(t.rhs, t.wrapRight), t.op.Precedence() + 1))
  {
    hide Trim, TrimParensForBinary, FindTop, ParseBinary, ParseModifiers, Print, Operand, Op.Text, Op.Precedence;
    TrimPrinted(t, false);
    OperandCases(t, false);
    BareStays(t, minPrec);
    PrintSplits(t);
    SpaceIsIgnored(env, t.lhs, t.wrapLeft, t.op.Precedence() + 1);
    ModifiersSkipSpace(env, t.rhs, t.wrapRight, t.op.IsComparison());
    ParseSplits(env, Print(t), minPrec, t.op, |Operand(t.lhs, t.wrapLeft)| + 1, Operand(t.rhs, t.wrapRight));
  }

  /** Outer parentheses reset the least precedence. */
  lemma ParseWrapped(env: Env, t: Tree, minPrec: nat)
    requires DigitLeaves(t)
    ensures ParseBinary(env, Operand(t, true), minPrec) == ParseBinary(env, Print(t), 1)
  {
    hide Trim, TrimParensForBinary, ParseBinary, Print, Operand;
    TrimPrinted(t, true);
    TrimPrinted(t, false);
    OperandCases(t, false);
    WrappedOpens(t, minPrec);
    BareStays(t, 1);
    ParseSame(env, Operand(t, true), minPrec, Print(t), 1);
  }

  /** Once its outer parentheses are gone, printed text is parsed at its own operator. */
  lemma {:induction false} ParseOperand(env: Env, t: Tree, wrap: bool, minPrec: nat)
    requires ReadsNumbers(env) && Printable(t) && (wrap || t.Strength() >= minPrec)
    ensures ParseBinary(env, Operand(t, wrap), minPrec) == Ok(Meaning(t))
    decreases t, wrap
  {
    hide FindTop, ParseBinary, Print, Operand, Op.Text;
    OperandCases(t, false);
    if wrap {
      ParseWrapped(env, t, minPrec);
      StrengthIsPositive(t);
      ParseOperand(env, t, false, 1);
    } else if t.Number? {
      PrintNumber(t);
      ParseNumber(env, t.digits, minPrec);
    } else {
      TopOfNode(env, t, minPrec);
      ParseAtOp(env, t, minPrec);
      NotBareNumber(t);
      ParseOperand(env, t.lhs, t.wrapLeft, t.op.Precedence() + 1);
      ParseOperand(env, t.rhs, t.wrapRight, t.op.Precedence() + 1);
    }
  }

  lemma StrengthIsPositive(t: Tree)
    ensures t.Strength() >= 1
  {
  }

  lemma PrintNumber(t: Tree)
    requires t.Number?
    ensures Print(t) == t.digits
  {
  }

  lemma SpaceIsIgnored(env: Env, t: Tree, wrap: bool, minPrec: nat)
    requires DigitLeaves(t)
    ensures ParseBinary(env, Operand(t, wrap) + " ", minPrec) == ParseBinary(env, Operand(t, wrap), minPrec)
  {
    hide Operand, Trim, TrimParensForBinary, ParseBinary;
    var x := Operand(t, wrap);
    Ends(t, wrap);
    TrimPrinted(t, wrap);
    assert "" + x + " " == x + " ";
    TrimAround(0, x, " ");
    ParseSame(env, x + " ", minPrec, x, minPrec);
  }

  lemma ModifiersSkipSpace(env: Env, t: Tree, wrap: bool, allowBool: bool)
    requires DigitLeaves(t)
    ensures ParseModifiers(env, " " + Operand(t, wrap), allowBool, NO_MODIFIERS)
         == Ok(NO_MODIFIERS.(rest := Operand(t, wrap)))
  {
    hide Operand, Trim, ParseModifiers;
    var x := Operand(t, wrap);
    Ends(t, wrap);
    TrimPrinted(t, wrap);
    assert " " + x + "" == " " + x;
    TrimAround(1, x, "");
    NoModifiers(env, x, allowBool, NO_MODIFIERS);
    ModifiersTrim(env, " " + x, x, allowBool, NO_MODIFIERS);
  }

  /** Main result: a printed tree is parsed back exactly, whichever operands that bind tighter
      are left without parentheses. */
  lemma ParseAfterPrint(env: Env, t: Tree)
    requires ReadsNumbers(env) && Printable(t)
    ensures Parse(env, Print(t)) == Ok(Meaning(t))
  {
    hide Trim, ParseBinary, Print, Operand;
    OperandCases(t, false);
    TrimPrinted(t, false);
    Ends(t, false);
    StrengthIsPositive(t);
    ParseOperand(env, t, false, 1);
  }

  // ---------------------------------------------------------------- every way to read a text

  function Leaves(t: Tree): nat { if t.Number? then 1 else Leaves(t.lhs) + Leaves(t.rhs) }

  function LeafCount(e: Expr): nat { if e.Binary? then LeafCount(e.lhs) + LeafCount(e.rhs) else 1 }

  lemma {:induction false} LeavesOfMeaning(t: Tree)
    ensures LeafCount(Meaning(t)) == Leaves(t) >= 1
  {
    if t.Node? {
      LeavesOfMeaning(t.lhs);
      LeavesOfMeaning(t.rhs);
    }
  }

  /** The operators outside parentheses, from left to right. */
  function TopOps(t: Tree, wrap: bool): seq<Op> {
    if wrap || t.Number? then [] else TopOps(t.lhs, t.wrapLeft) + [t.op] + TopOps(t.rhs, t.wrapRight)
  }

  /** An operator outside parentheses. */
  datatype Path = Here | InLeft(rest: Path) | InRight(rest: Path)

  predicate HasPath(t: Tree, path: Path) {
    t.Node? &&
    match path
    case Here => true
    case InLeft(rest) => !t.wrapLeft && HasPath(t.lhs, rest)
    case InRight(rest) => !t.wrapRight && HasPath(t.rhs, rest)
  }

  /** The tree that puts the operator at the path at the root of the same text. */
  function Recut(t: Tree, path: Path): (u: Tree)
    requires HasPath(t, path)
    ensures u.Node?
  {
    match path
    case Here => t
    case InLeft(rest) =>
      var c := Recut(t.lhs, rest);
      Node(c.op, c.lhs, c.wrapLeft, Node(t.op, c.rhs, c.wrapRight, t.rhs, t.wrapRight), false)
    case InRight(rest) =>
      var c := Recut(t.rhs, rest);
      Node(c.op, Node(t.op, t.lhs, t.wrapLeft, c.lhs, c.wrapLeft), false, c.rhs, c.wrapRight)
  }

  lemma Regroup<T>(a: seq<T>, b: seq<T>, c: seq<T>, d: seq<T>, e: seq<T>)
    ensures (a + b + c) + d + e == a + b + (c + d + e)
  {
  }

  lemma SplitPrint(t: Tree)
    requires t.Node?
    ensures Print(t) == Operand(t.lhs, t.wrapLeft) + (" " + t.op.Text() + " ") + Operand(t.rhs, t.wrapRight)
    ensures Operand(t, false) == Print(t)
  {
  }

  /** It prints the same text, and the split moves with the path. */
  lemma {:induction false} RecutIsSameText(t: Tree, path: Path)
    requires HasPath(t, path) && DigitLeaves(t)
    ensures var u := Recut(t, path);
      Print(u) == Print(t) && DigitLeaves(u) && TopOps(u, false) == TopOps(t, false)
      && Leaves(u) == Leaves(t) && (Leaves(u.lhs) == Leaves(t.lhs) <==> path.Here?)
    decreases path
  {
    hide Op.Text, Print, Operand;
    if !path.Here? {
      var side := if path.InLeft? then t.lhs else t.rhs;
      var c := Recut(side, path.rest);
      RecutIsSameText(side, path.rest);
      SomeLeaves(c.lhs);
      SomeLeaves(c.rhs);
      SplitPrint(t);
      SplitPrint(c);
      SplitPrint(side);
      var u, here, there := Recut(t, path), " " + t.op.Text() + " ", " " + c.op.Text() + " ";
      var l, r := Operand(c.lhs, c.wrapLeft), Operand(c.rhs, c.wrapRight);
      SplitPrint(u);
      if path.InLeft? {
        SplitPrint(u.rhs);
        Regroup(l, there, r, here, Operand(t.rhs, t.wrapRight));
        Regroup(TopOps(c.lhs, c.wrapLeft), [c.op], TopOps(c.rhs, c.wrapRight), [t.op], TopOps(t.rhs, t.wrapRight));
      } else {
        SplitPrint(u.lhs);
        Regroup(Operand(t.lhs, t.wrapLeft), here, l, there, r);
        Regroup(TopOps(t.lhs, t.wrapLeft), [t.op], TopOps(c.lhs, c.wrapLeft), [c.op], TopOps(c.rhs, c.wrapRight));
      }
    }
  }

  lemma {:induction false} SomeLeaves(t: Tree)
    ensures Leaves(t) >= 1
  {
    if t.Node? {
      SomeLeaves(t.lhs);
    }
  }

  /** The operator of u, printed from a on, is a candidate and the best one. */
  predicate ChosenAt(env: Env, s: string, minPrec: nat, a: nat, u: Tree, best: Option<Best>) {
    u.Node? &&
    var start := a + |Operand(u.lhs, u.wrapLeft)| + 1;
    best == Some(Best(start, u.op)) && start < |s| && Candidate(env, s, minPrec, start) == Some(u.op)
  }

  /** Whatever the scan chooses in printed text is an operator outside parentheses, at the
      place where the tree cut there has it, and a candidate. */
  lemma {:induction false} ScanTree(env: Env, s: string, minPrec: nat, a: nat, t: Tree, wrap: bool, best: Option<Best>)
    returns (after: Option<Best>, path: Option<Path>)
    requires DigitLeaves(t) && At(s, a, Operand(t, wrap)) && (best.Some? ==> best.value.End() <= |s|)
    ensures after.Some? ==> after.value.End() <= |s|
    ensures TopFrom(env, s, minPrec, a, 0, Outside, best)
         == TopFrom(env, s, minPrec, a + |Operand(t, wrap)|, 0, Outside, after)
    ensures path.None? ==> after == best
    ensures path.Some? ==> !wrap && HasPath(t, path.value) && ChosenAt(env, s, minPrec, a, Recut(t, path.value), after)
    decreases t
  {
    hide At, TopFrom, ReadOpAt, Op.Text, Print, Candidate, Recut, HasPath;
    after, path := best, None;
    AtFits(s, a, Operand(t, wrap));
    if wrap {
      TopSkipsInside(env, s, minPrec, a, t, wrap, 0, best);
    } else if t.Number? {
      NumberAt(s, a, t);
      forall k | a <= k < a + |t.digits| ensures ReadOpAt(s, k) == None { NoOpAtDigit(s, k); }
      TopOverQuiet(env, s, minPrec, a, a + |t.digits|, best);
    } else {
      NodeAt(s, a, t);
      var inLeft, inRight;
      var c := a + |Operand(t.lhs, t.wrapLeft)| + |t.op.Text()| + 2;
      var left, here;
      left, inLeft := ScanTree(env, s, minPrec, a, t.lhs, t.wrapLeft, best);
      here := ScanOp(env, s, minPrec, a, t, left);
      after, inRight := ScanTree(env, s, minPrec, c, t.rhs, t.wrapRight, here);
      if inRight.Some? {
        path := Some(InRight(inRight.value));
        MovedRight(env, s, minPrec, a, t, inRight.value, after);
      } else if here != left {
        path := Some(Here);
        RecutHere(t);
      } else if inLeft.Some? {
        path := Some(InLeft(inLeft.value));
        MovedLeft(env, s, minPrec, a, t, inLeft.value, after);
      }
    }
  }

  lemma RecutHere(t: Tree)
    requires t.Node?
    ensures HasPath(t, Here) && Recut(t, Here) == t
  {
  }

  lemma MovedLeft(env: Env, s: string, minPrec: nat, a: nat, t: Tree, rest: Path, best: Option<Best>)
    requires t.Node? && !t.wrapLeft && HasPath(t.lhs, rest) && ChosenAt(env, s, minPrec, a, Recut(t.lhs, rest), best)
    ensures HasPath(t, InLeft(rest)) && ChosenAt(env, s, minPrec, a, Recut(t, InLeft(rest)), best)
  {
    hide Candidate, Operand, Op.Text;
  }

  lemma RecutRight(t: Tree, rest: Path)
    requires t.Node? && !t.wrapRight && HasPath(t.rhs, rest)
    ensures HasPath(t, InRight(rest))
    ensures var c := Recut(t.rhs, rest);
      Recut(t, InRight(rest)) ==
      Node(c.op, Node(t.op, t.lhs, t.wrapLeft, c.lhs, c.wrapLeft), false, c.rhs, c.wrapRight)
  {
  }

  lemma MovedRight(env: Env, s: string, minPrec: nat, a: nat, t: Tree, rest: Path, best: Option<Best>)
    requires t.Node? && !t.wrapRight && HasPath(t.rhs, rest)
    requires ChosenAt(env, s, minPrec, a + |Operand(t.lhs, t.wrapLeft)| + |t.op.Text()| + 2, Recut(t.rhs, rest), best)
    ensures HasPath(t, InRight(rest)) && ChosenAt(env, s, minPrec, a, Recut(t, InRight(rest)), best)
  {
    RecutRight(t, rest);
    hide Candidate, Op.Text, Operand, Print, Recut, HasPath;
    SplitPrint(Recut(t, InRight(rest)).lhs);
  }

  // ---------------------------------------------------------------- texts that are not split

  lemma NamesAreWords(name: string)
    requires IsFunctionName(name)
    ensures name != "" && IsLetter(name[0])
  {
  }

  /** Printed text that is not split is a number, or no expression at all. */
  lemma WholeText(env: Env, t: Tree, minPrec: nat)
    requires ReadsNumbers(env) && DigitLeaves(t) && t.Node? && FindTop(env, Print(t), minPrec) == None
    ensures ParseBinary(env, Print(t), minPrec).Err?
  {
    hide Trim, TrimParens, TrimParensForBinary, FindTop, IsFunctionName, ReadIdentifier, Operand, Print;
    var s := Print(t);
    SplitPrint(t);
    TrimPrinted(t, false);
    BareStays(t, minPrec);
    Ends(t, false);
    var k := VisibleBreak(t, false);
    Unnamed(s);
  }

  lemma Unnamed(s: string)
    requires s != "" && Trim(s) == s && (IsDigit(s[0]) || s[0] == '(')
    ensures !IsFunctionName(ReadIdentifier(s).0)
  {
    hide IsFunctionName;
    var name := ReadIdentifier(s).0;
    assert name == s[..IdentifierEnd(s, 0)];
    assert name == "" || name[0] == s[0];
    if IsFunctionName(name) {
      NamesAreWords(name);
    }
  }

  /** Where printed text is split, some tree with that text has the operator at its root. */
  lemma SplitIsRecut(env: Env, t: Tree, minPrec: nat) returns (path: Path)
    requires ReadsNumbers(env) && DigitLeaves(t) && t.Node? && FindTop(env, Print(t), minPrec).Some?
    ensures HasPath(t, path)
    ensures var u := Recut(t, path);
      DigitLeaves(u) && Print(u) == Print(t)
      && FindTop(env, Print(u), minPrec) == Some(Best(|Operand(u.lhs, u.wrapLeft)| + 1, u.op))
      && ChosenAt(env, Print(u), minPrec, 0, u, FindTop(env, Print(u), minPrec))
  {
    hide TopFrom, Candidate, Print, Operand, At, Recut, HasPath, FindTop, ReadsNumbers, Op.Text;
    var s := Print(t);
    SplitPrint(t);
    AtWhole(s);
    var after, found := ScanTree(env, s, minPrec, 0, t, false, None);
    AtEnd(env, s, minPrec, |s|, after);
    FindTopIs(env, t, minPrec);
    path := found.value;
    RecutIsSameText(t, path);
  }

  lemma FindTopIs(env: Env, t: Tree, minPrec: nat)
    requires DigitLeaves(t)
    ensures FindTop(env, Print(t), minPrec) == TopFrom(env, Print(t), minPrec, 0, 0, Outside, None)
  {
    hide TopFrom, Trim, Print, Operand;
    OperandCases(t, false);
    Ends(t, false);
    TrimPrinted(t, false);
  }

  /** A comparison is not split off where a bare number is all that follows. */
  lemma ChosenIsTight(env: Env, s: string, minPrec: nat, u: Tree, best: Option<Best>)
    requires ReadsNumbers(env) && DigitLeaves(u) && ChosenAt(env, s, minPrec, 0, u, best) && s == Print(u)
    ensures u.op.Precedence() >= minPrec
    ensures !(u.op.IsComparison() && !u.wrapRight && Digits(Print(u.rhs)) && InFloatRange(Print(u.rhs)))
  {
    hide Print, Op.Text, Op.Precedence, ReadOpAt, PlainScalarFollows, Operand, At, Digits, ReadsNumbers,
         InFloatRange;
    var i := |Operand(u.lhs, u.wrapLeft)| + 1;
    AtWhole(s);
    OpIsPrinted(s, 0, u);
    OpHasText(u.op);
    CandidateIs(env, s, minPrec, i, u.op);
    PrintSplits(u);
    SplitPrint(u);
    if !u.wrapRight && Digits(Print(u.rhs)) && InFloatRange(Print(u.rhs)) {
      OperandCases(u.rhs, false);
      NumberFollows(env, Print(u.rhs));
    }
  }

  lemma NumberFollows(env: Env, digits: string)
    requires ReadsNumbers(env) && Digits(digits) && InFloatRange(digits)
    ensures PlainScalarFollows(env, " " + digits)
  {
    hide Trim, ParseModifiers, InFloatRange;
    assert " " + digits + "" == " " + digits;
    TrimAround(1, digits, "");
    TrimPrinted(Number(digits), false);
    NoModifiers(env, digits, true, NO_MODIFIERS);
  }

  // ---------------------------------------------------------------- exactly the printable texts are read

  /** Whatever is read from printed text is the meaning of a printable tree with the same
      text, and the same operators outside parentheses. */
  lemma {:induction false} ReadsPrintable(env: Env, t: Tree, wrap: bool, minPrec: nat) returns (v: Tree)
    requires ReadsNumbers(env) && DigitLeaves(t) && minPrec <= 100
    requires ParseBinary(env, Operand(t, wrap), minPrec).Ok?
    ensures Printable(v) && (wrap || v.Strength() >= minPrec) && Operand(v, wrap) == Operand(t, wrap)
    ensures ParseBinary(env, Operand(t, wrap), minPrec) == Ok(Meaning(v))
    ensures Leaves(v) == Leaves(t) && TopOps(v, wrap) == TopOps(t, wrap)
    decreases |Operand(t, wrap)|
  {
    hide FindTop, ParseBinary, Print, Operand, Op.Text, Recut, ChosenAt, ReadsNumbers, HasPath, InFloatRange;
    OperandCases(t, wrap);
    if wrap {
      ParseWrapped(env, t, minPrec);
      OperandCases(t, false);
      v := ReadsPrintable(env, t, false, 1);
      OperandCases(v, false);
      OperandCases(v, true);
    } else if t.Number? {
      PrintNumber(t);
      ParseNumber(env, t.digits, minPrec);
      v := t;
    } else {
      if FindTop(env, Print(t), minPrec).None? {
        WholeText(env, t, minPrec);
      }
      var path := SplitIsRecut(env, t, minPrec);
      var u := Recut(t, path);
      RecutIsSameText(t, path);
      ChosenIsTight(env, Print(u), minPrec, u, FindTop(env, Print(u), minPrec));
      ParseAtOp(env, u, minPrec);
      SplitPrint(u);
      PrecedenceRange(u.op);
      var l := ReadsPrintable(env, u.lhs, u.wrapLeft, u.op.Precedence() + 1);
      var r := ReadsPrintable(env, u.rhs, u.wrapRight, u.op.Precedence() + 1);
      v := Node(u.op, l, u.wrapLeft, r, u.wrapRight);
      SplitPrint(v);
      if r.Number? {
        OperandCases(r, false);
        OperandCases(u.rhs, false);
        PrintNumber(r);
      }
    }
  }

  /** Main result: printed text is parsed back to its tree exactly when the tree is printed
      with the parentheses its operators need. */
  lemma ParseAfterPrintIff(env: Env, t: Tree)
    requires ReadsNumbers(env) && DigitLeaves(t)
    ensures Parse(env, Print(t)) == Ok(Meaning(t)) <==> Printable(t)
  {
    hide Print, Operand, ParseBinary, Tight, ReadsNumbers;
    ParsePrinted(env, t);
    if Printable(t) {
      ParseAfterPrint(env, t);
    }
    if ParseBinary(env, Print(t), 1) == Ok(Meaning(t)) {
      OperandCases(t, false);
      OwnOperator(env, t, false, 1);
    }
  }

  lemma ParsePrinted(env: Env, t: Tree)
    requires DigitLeaves(t)
    ensures Parse(env, Print(t)) == ParseBinary(env, Print(t), 1)
  {
    hide Print, Operand, ParseBinary, Trim;
    OperandCases(t, false);
    Ends(t, false);
    TrimPrinted(t, false);
  }

  /** A parse that gives back the tree splits at its own operators, since any other split
      moves a leaf from one side to the other. */
  lemma {:induction false} OwnOperator(env: Env, t: Tree, wrap: bool, minPrec: nat)
    requires ReadsNumbers(env) && DigitLeaves(t) && minPrec <= 100
    requires ParseBinary(env, Operand(t, wrap), minPrec) == Ok(Meaning(t))
    ensures Printable(t) && (wrap || t.Strength() >= minPrec)
    decreases t, wrap
  {
    hide FindTop, ParseBinary, Print, Operand, Op.Text, Recut, ChosenAt, ReadsNumbers, HasPath, InFloatRange;
    OperandCases(t, wrap);
    if wrap {
      ParseWrapped(env, t, minPrec);
      OperandCases(t, false);
      OwnOperator(env, t, false, 1);
    } else if t.Number? {
      PrintNumber(t);
      ParseNumber(env, t.digits, minPrec);
    } else {
      if FindTop(env, Print(t), minPrec).None? {
        WholeText(env, t, minPrec);
      }
      var path := SplitIsRecut(env, t, minPrec);
      var u := Recut(t, path);
      ChosenIsTight(env, Print(u), minPrec, u, FindTop(env, Print(u), minPrec));
      ParseAtOp(env, u, minPrec);
      PrecedenceRange(u.op);
      var l := ReadsPrintable(env, u.lhs, u.wrapLeft, u.op.Precedence() + 1);
      LeavesOfMeaning(l);
      LeavesOfMeaning(t.lhs);
      RecutIsSameText(t, path);
      RecutHere(t);
      OwnOperator(env, t.lhs, t.wrapLeft, t.op.Precedence() + 1);
      OwnOperator(env, t.rhs, t.wrapRight, t.op.Precedence() + 1);
      if t.rhs.Number? {
        PrintNumber(t.rhs);
      }
    }
  }

  /** A text is accepted exactly when some printable tree prints it. */
  lemma AcceptedIff(env: Env, t: Tree)
    requires ReadsNumbers(env) && DigitLeaves(t)
    ensures Parse(env, Print(t)).Ok? <==> exists v :: Printable(v) && Print(v) == Print(t)
  {
    hide Print, Operand, ParseBinary, Tight, ReadsNumbers;
    ParsePrinted(env, t);
    OperandCases(t, false);
    if Parse(env, Print(t)).Ok? {
      var v := ReadsPrintable(env, t, false, 1);
      OperandCases(v, false);
    }
    if v :| Printable(v) && Print(v) == Print(t) {
      ParseAfterPrint(env, v);
    }
  }

  // ---------------------------------------------------------------- chains are rejected

  /** Outside parentheses a printable tree has its own operator, and only tighter ones. */
  lemma {:induction false} LowestOnce(t: Tree, wrap: bool, p: nat)
    requires Tight(t) && (wrap || t.Strength() >= p)
    ensures forall k :: 0 <= k < |TopOps(t, wrap)| ==> TopOps(t, wrap)[k].Precedence() >= p
    ensures !wrap && t.Node? ==>
      var c := |TopOps(t.lhs, t.wrapLeft)|;
      c < |TopOps(t, wrap)| && TopOps(t, wrap)[c] == t.op
      && forall k :: 0 <= k < |TopOps(t, wrap)| && k != c ==> TopOps(t, wrap)[k].Precedence() > t.op.Precedence()
    decreases t
  {
    hide Op.Precedence, Op.IsComparison;
    if !wrap && t.Node? {
      LowestOnce(t.lhs, t.wrapLeft, t.op.Precedence() + 1);
      LowestOnce(t.rhs, t.wrapRight, t.op.Precedence() + 1);
    }
  }

  lemma NoTopOps(t: Tree)
    ensures TopOps(t, false) != [] ==> t.Node?
  {
  }

  /** Any text whose lowest precedence outside parentheses occurs twice is rejected, whatever
      its operands and however long. */
  lemma EqualChainIsRejected(env: Env, t: Tree, i: nat, j: nat)
    requires ReadsNumbers(env) && DigitLeaves(t) && i < j < |TopOps(t, false)|
    requires TopOps(t, false)[i].Precedence() == TopOps(t, false)[j].Precedence()
    requires forall k :: 0 <= k < |TopOps(t, false)| ==>
      TopOps(t, false)[k].Precedence() >= TopOps(t, false)[i].Precedence()
    ensures Parse(env, Print(t)).Err?
  {
    hide Print, Operand, ParseBinary, ReadsNumbers, Op.Precedence, TopOps;
    ParsePrinted(env, t);
    OperandCases(t, false);
    if Parse(env, Print(t)).Ok? {
      var v := ReadsPrintable(env, t, false, 1);
      StrengthIsPositive(v);
      LowestOnce(v, false, 1);
      NoTopOps(v);
    }
  }

  lemma EndsInNumber(t: Tree)
    requires t.Node? && DigitLeaves(t)
    ensures Print(t) != ""
    ensures t.wrapRight ==> Print(t)[|Print(t)| - 1] == ')'
    ensures !t.wrapRight && t.rhs.Number? ==> IsDigit(Print(t)[|Print(t)| - 1])
  {
    hide Op.Text, Print;
    SplitPrint(t);
    OperandCases(t.rhs, t.wrapRight);
    Ends(t.rhs, t.wrapRight);
    if t.rhs.Number? {
      PrintNumber(t.rhs);
    }
  }

  /** A comparison with a bare number on its right is never split off: when everything before
      it binds tighter, the text is rejected. */
  lemma TrailingComparisonIsRejected(env: Env, t: Tree)
    requires ReadsNumbers(env) && DigitLeaves(t) && t.Node? && t.op.IsComparison()
    requires t.rhs.Number? && !t.wrapRight
    requires forall k :: 0 <= k < |TopOps(t, false)| - 1 ==> TopOps(t, false)[k].Precedence() > t.op.Precedence()
    ensures Parse(env, Print(t)).Err?
  {
    hide Print, Operand, ParseBinary, ReadsNumbers, Op.Precedence, Op.IsComparison;
    ParsePrinted(env, t);
    OperandCases(t, false);
    if Parse(env, Print(t)).Ok? {
      var v := ReadsPrintable(env, t, false, 1);
      OperandCases(v, false);
      NoTopOps(v);
      EndsInNumber(t);
      LastOp(t);
      EndsInNumber(v);
      RootIsLast(v);
    }
  }

  /** The only operator of lowest precedence is the root; when it comes last, nothing follows
      it outside parentheses. */
  lemma RootIsLast(v: Tree)
    requires Tight(v) && v.Node?
    requires var ops := TopOps(v, false);
      forall k :: 0 <= k < |ops| - 1 ==> ops[k].Precedence() > ops[|ops| - 1].Precedence()
    ensures v.op == TopOps(v, false)[|TopOps(v, false)| - 1] && (v.wrapRight || v.rhs.Number?)
  {
    hide Op.Precedence, Op.IsComparison;
    LowestOnce(v, false, v.op.Precedence());
  }

  lemma LastOp(t: Tree)
    requires t.Node? && t.rhs.Number?
    ensures TopOps(t, false) != [] && TopOps(t, false)[|TopOps(t, false)| - 1] == t.op
  {
  }
}
