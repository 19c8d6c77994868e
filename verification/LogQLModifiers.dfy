/** Vector matching and the bool modifier: an operator written with any list of modifiers is read
    back with what the list says. */
module LogQLModifiers {
  import opened Options
  import opened LogQLParser
  import opened LogQLRoundTrip

  datatype Modifier =
    | AsBool
    | On(labels: string)
    | Ignoring(labels: string)
    | GroupLeft(labels: string)
    | GroupRight(labels: string)
  {
    function Word(): string {
      match this
      case AsBool => "bool"
      case On(_) => "on"
      case Ignoring(_) => "ignoring"
      case GroupLeft(_) => "group_left"
      case GroupRight(_) => "group_right"
    }

    function Text(): string { if AsBool? then Word() + " " else Word() + (" (" + labels + ") ") }

    /** A list of labels holds no quotation mark and no bracket. */
    predicate Writable() { AsBool? || forall k :: 0 <= k < |labels| ==> Plain(labels[k]) }
  }

  function Texts(ms: seq<Modifier>): string {
    if ms == [] then "" else ms[0].Text() + Texts(ms[1..])
  }

  predicate AllWritable(ms: seq<Modifier>) { forall k :: 0 <= k < |ms| ==> ms[k].Writable() }

  predicate HasBool(ms: seq<Modifier>) { exists k :: 0 <= k < |ms| && ms[k].AsBool? }

  /** What the list says: the last on or ignoring decides the matching labels, the last group
      modifier the side and the copied labels. */
  function MatchingOf(env: Env, m: Option<Matching>, ms: seq<Modifier>): Option<Matching>
    decreases |ms|
  {
    if ms == [] then m
    else
      var was := if m.Some? then m.value else Matching(false, [], "", []);
      MatchingOf(env,
        match ms[0]
        case AsBool => m
        case On(labels) => Some(Matching(true, env.csv(labels), was.group, was.copied))
        case Ignoring(labels) => Some(Matching(false, env.csv(labels), was.group, was.copied))
        case GroupLeft(labels) => Some(Matching(was.on, was.labels, "left", env.csv(labels)))
        case GroupRight(labels) => Some(Matching(was.on, was.labels, "right", env.csv(labels))),
        ms[1..])
  }

  /** Text that starts and ends like an operand. */
  predicate Visible(x: string) {
    x != "" && (IsDigit(x[0]) || x[0] == '(') && (IsDigit(x[|x| - 1]) || x[|x| - 1] == ')')
  }

  // ---------------------------------------------------------------- reading modifiers

  lemma TrimmedEnds(x: string)
    requires x != "" && !IsAsciiSpace(x[0]) && !IsAsciiSpace(x[|x| - 1])
    ensures Trim(x) == x && Trim(" " + x) == x
  {
    hide Trim;
    assert "" + x + "" == x && " " + x + "" == " " + x;
    TrimAround(0, x, "");
    TrimAround(1, x, "");
  }

  lemma WordLetters(m: Modifier)
    ensures m.Word() != "" && IsLetter(m.Word()[0])
    ensures forall k :: 0 <= k < |m.Word()| ==> IsLetter(m.Word()[k]) || m.Word()[k] == '_'
  {
  }

  lemma TextsEnd(ms: seq<Modifier>, x: string)
    requires Visible(x)
    ensures var t := Texts(ms) + x;
      t != "" && !IsAsciiSpace(t[0]) && !IsAsciiSpace(t[|t| - 1])
  {
    hide Modifier.Word;
    var t := Texts(ms) + x;
    assert t[|t| - 1] == x[|x| - 1];
    if ms != [] {
      WordLetters(ms[0]);
      assert ms[0].Text()[0] == ms[0].Word()[0];
      assert t[0] == ms[0].Text()[0];
    }
  }

  lemma {:induction false} EndOfWord(s: string, word: string, i: nat)
    requires i <= |word| < |s| && word <= s && s[|word|] == ' '
    requires forall k :: 0 <= k < |word| ==> IsLetter(word[k]) || word[k] == '_'
    ensures IdentifierEnd(s, i) == |word|
    decreases |word| - i
  {
    if i < |word| {
      assert s[i] == word[i];
      EndOfWord(s, word, i + 1);
    }
  }

  /** A modifier's word, and what follows it. */
  lemma WordIsReadOff(m: Modifier, z: string)
    requires z != "" && !IsAsciiSpace(z[0]) && !IsAsciiSpace(z[|z| - 1])
    ensures ReadIdentifier(m.Word() + (" " + z)) == (m.Word(), z)
    ensures Trim(m.Word() + (" " + z)) == m.Word() + (" " + z)
  {
    hide Modifier.Word, Trim;
    var t := m.Word() + (" " + z);
    WordLetters(m);
    assert t[0] == m.Word()[0] && t[|t| - 1] == z[|z| - 1];
    TrimmedEnds(t);
    TrimmedEnds(z);
    assert t[|m.Word()|] == ' ';
    EndOfWord(t, m.Word(), 0);
    assert t[..|m.Word()|] == m.Word() && t[|m.Word()|..] == " " + z;
  }

  lemma LabelsAreReadOff(labels: string, y: string)
    requires (forall k :: 0 <= k < |labels| ==> Plain(labels[k]))
    requires y != "" && !IsAsciiSpace(y[0]) && !IsAsciiSpace(y[|y| - 1])
    ensures ParseParenthesized("(" + labels + (") " + y)) == Ok((labels, y))
  {
    hide Trim, MatchFrom;
    var z := "(" + labels + (") " + y);
    assert z[0] == '(' && z[|z| - 1] == y[|y| - 1];
    TrimmedEnds(z);
    TrimmedEnds(y);
    var close := |labels| + 1;
    assert forall k :: 1 <= k < close ==> z[k] == labels[k - 1];
    assert z[close] == ')';
    MatchSteps(z, 0, 0);
    MatchOverPlain(z, 1, close, 1);
    MatchSteps(z, close, 1);
    assert z[1..close] == labels && z[close + 1..] == " " + y;
  }

  lemma TextCases(m: Modifier, y: string)
    ensures m.AsBool? ==> m.Text() + y == m.Word() + (" " + y)
    ensures !m.AsBool? ==> m.Text() + y == m.Word() + (" " + ("(" + m.labels + (") " + y)))
  {
    hide Modifier.Word;
  }

  lemma OneLabelled(env: Env, m: Modifier, y: string, allowBool: bool, soFar: Modifiers)
    requires !m.AsBool? && m.Writable() && y != "" && !IsAsciiSpace(y[0]) && !IsAsciiSpace(y[|y| - 1])
    ensures ParseModifiers(env, m.Text() + y, allowBool, soFar) ==
            ParseModifiers(env, y, allowBool, soFar.(matching := MatchingOf(env, soFar.matching, [m])))
  {
    hide Trim, ParseParenthesized, ReadIdentifier, Modifier.Text;
    TextCases(m, y);
    assert [m][1..] == [];
    var z := "(" + m.labels + (") " + y);
    assert z[|z| - 1] == y[|y| - 1];
    WordIsReadOff(m, z);
    LabelsAreReadOff(m.labels, y);
    assert "group_left"[6..] == "left" && "group_right"[6..] == "right";
  }

  /** One modifier, then the rest. */
  lemma OneModifier(env: Env, m: Modifier, y: string, allowBool: bool, soFar: Modifiers)
    requires m.Writable() && y != "" && !IsAsciiSpace(y[0]) && !IsAsciiSpace(y[|y| - 1])
    ensures var t := m.Text() + y;
      if m.AsBool? && !allowBool then ParseModifiers(env, t, allowBool, soFar).Err?
      else
        ParseModifiers(env, t, allowBool, soFar) ==
        ParseModifiers(env, y, allowBool, Modifiers(MatchingOf(env, soFar.matching, [m]),
            soFar.boolModifier || m.AsBool?, soFar.rest))
  {
    hide Trim, ParseParenthesized, ReadIdentifier, Modifier.Text;
    if m.AsBool? {
      assert [m][1..] == [];
      TextCases(m, y);
      WordIsReadOff(m, y);
    } else {
      hide ParseModifiers, MatchingOf;
      OneLabelled(env, m, y, allowBool, soFar);
    }
  }

  lemma MatchingOfFirst(env: Env, m: Option<Matching>, ms: seq<Modifier>)
    requires ms != []
    ensures MatchingOf(env, m, ms) == MatchingOf(env, MatchingOf(env, m, [ms[0]]), ms[1..])
    ensures HasBool(ms) <==> ms[0].AsBool? || HasBool(ms[1..])
  {
    assert [ms[0]][1..] == [];
    if k :| 0 <= k < |ms[1..]| && ms[1..][k].AsBool? {
      assert ms[k + 1].AsBool?;
    }
    if k :| 0 <= k < |ms| && ms[k].AsBool? && k > 0 {
      assert ms[1..][k - 1].AsBool?;
    }
  }

  /** Any list of modifiers before an operand is read as it says; bool is an error where it is
      not allowed. */
  lemma {:induction false} ModifiersAreRead(env: Env, ms: seq<Modifier>, x: string, allowBool: bool, soFar: Modifiers)
    requires AllWritable(ms) && Visible(x)
    ensures var r := ParseModifiers(env, Texts(ms) + x, allowBool, soFar);
      if HasBool(ms) && !allowBool then r.Err?
      else r == Ok(Modifiers(MatchingOf(env, soFar.matching, ms), soFar.boolModifier || HasBool(ms), x))
    decreases |ms|
  {
    hide ParseModifiers, Modifier.Text, Modifier.Word, Modifier.Writable;
    if ms == [] {
      assert "" + x == x;
      TrimmedEnds(x);
      NoModifiers(env, x, allowBool, soFar);
    } else {
      var y := Texts(ms[1..]) + x;
      TextsEnd(ms[1..], x);
      assert Texts(ms) + x == ms[0].Text() + y;
      OneModifier(env, ms[0], y, allowBool, soFar);
      MatchingOfFirst(env, soFar.matching, ms);
      ModifiersAreRead(env, ms[1..], x, allowBool,
          Modifiers(MatchingOf(env, soFar.matching, [ms[0]]), soFar.boolModifier || ms[0].AsBool?, soFar.rest));
    }
  }

  // ---------------------------------------------------------------- scanning past modifiers

  lemma NoOpInIdentifier(s: string, k: nat)
    requires 0 < k < |s| && (IsLetter(s[k - 1]) || s[k - 1] == '_') && (IsLetter(s[k]) || s[k] == '_')
    ensures ReadOpAt(s, k) == None
  {
  }

  lemma NoOpAtWord(s: string, a: nat, m: Modifier)
    requires At(s, a, m.Word() + " ")
    ensures ReadOpAt(s, a) == None
  {
    var word := m.Word() + " ";
    AtFits(s, a, word);
    AtChar(s, a, word, 0);
    AtChar(s, a, word, 1);
    assert Lower(s[a]) == s[a] && Lower(s[a + 1]) == s[a + 1];
    assert "unless"[0] == 'u' && "and"[0] == 'a' && "or"[0] == 'o' && "or"[1] == 'r';
    assert !WordIs(s, a, "or") by {
      assert Lower(s[a + 0]) == m.Word()[0] && Lower(s[a + 1]) == word[1];
    }
    assert !WordIs(s, a, "unless") && !WordIs(s, a, "and") by {
      assert Lower(s[a + 0]) == m.Word()[0];
    }
  }

  /** No operator is read inside the word of a modifier. */
  lemma QuietWord(s: string, a: nat, m: Modifier)
    requires At(s, a, m.Word() + " ")
    ensures a + |m.Word()| + 1 <= |s|
    ensures forall k :: a <= k < a + |m.Word()| + 1 ==> Plain(s[k]) && ReadOpAt(s, k) == None
  {
    hide Modifier.Word, ReadOpAt, At;
    var word := m.Word() + " ";
    AtFits(s, a, word);
    WordLetters(m);
    forall k | a <= k < a + |word| ensures Plain(s[k]) && ReadOpAt(s, k) == None {
      AtChar(s, a, word, k - a);
      if k == a {
        NoOpAtWord(s, a, m);
      } else if k - a < |m.Word()| {
        AtChar(s, a, word, k - a - 1);
        NoOpInIdentifier(s, k);
      } else {
        NoOpAtDigit(s, k);
      }
    }
  }

  lemma TextParts(s: string, a: nat, m: Modifier)
    requires At(s, a, m.Text())
    ensures At(s, a, m.Word() + " ") && a + |m.Text()| <= |s|
    ensures m.AsBool? ==> m.Text() == m.Word() + " "
    ensures !m.AsBool? ==>
      var b := a + |m.Word()| + 1;
      |m.Text()| == |m.Word()| + |m.labels| + 4 && s[b] == '(' && s[b + 1 + |m.labels|] == ')'
      && s[b + 2 + |m.labels|] == ' ' && At(s, b + 1, m.labels)
  {
    hide Modifier.Word, At;
    AtFits(s, a, m.Text());
    if !m.AsBool? {
      assert m.Text() == (m.Word() + " ") + ("(" + m.labels + ") ");
      AtBoth(s, a, m.Word() + " ", "(" + m.labels + ") ");
      var b := a + |m.Word()| + 1;
      assert "(" + m.labels + ") " == "(" + (m.labels + ") ");
      AtBoth(s, b, "(", m.labels + ") ");
      AtChar(s, b, "(", 0);
      AtBoth(s, b + 1, m.labels, ") ");
      AtChar(s, b + 1 + |m.labels|, ") ", 0);
      AtChar(s, b + 1 + |m.labels|, ") ", 1);
    }
  }

  lemma TopOverLabels(env: Env, s: string, minPrec: nat, b: nat, labels: string, best: Option<Best>)
    requires (forall k :: 0 <= k < |labels| ==> Plain(labels[k])) && At(s, b + 1, labels) && b + |labels| + 2 < |s|
    requires s[b] == '(' && s[b + 1 + |labels|] == ')' && s[b + 2 + |labels|] == ' '
    requires best.Some? ==> best.value.End() <= |s|
    ensures TopFrom(env, s, minPrec, b, 0, Outside, best)
         == TopFrom(env, s, minPrec, b + 3 + |labels|, 0, Outside, best)
  {
    hide TopFrom, ReadOpAt, At, Plain;
    var e := b + 1 + |labels|;
    TopSteps(env, s, minPrec, b, 0, best);
    forall k | b + 1 <= k < e ensures Plain(s[k]) { AtChar(s, b + 1, labels, k - b - 1); }
    TopInside(env, s, minPrec, b + 1, e, 1, best);
    TopSteps(env, s, minPrec, e, 1, best);
    NoOpAtDigit(s, e + 1);
    SpaceIsPlain();
    TopOverQuiet(env, s, minPrec, e + 1, e + 2, best);
  }

  lemma SpaceIsPlain()
    ensures Plain(' ')
  {
  }

  lemma TopOverModifier(env: Env, s: string, minPrec: nat, a: nat, m: Modifier, best: Option<Best>)
    requires m.Writable() && At(s, a, m.Text()) && (best.Some? ==> best.value.End() <= |s|)
    ensures a + |m.Text()| <= |s|
    ensures TopFrom(env, s, minPrec, a, 0, Outside, best)
         == TopFrom(env, s, minPrec, a + |m.Text()|, 0, Outside, best)
  {
    hide Modifier.Word, Modifier.Text, TopFrom, ReadOpAt, At, Plain;
    TextParts(s, a, m);
    QuietWord(s, a, m);
    var b := a + |m.Word()| + 1;
    TopOverQuiet(env, s, minPrec, a, b, best);
    if !m.AsBool? {
      TopOverLabels(env, s, minPrec, b, m.labels, best);
    }
  }

  lemma {:induction false} TopOverModifiers(env: Env, s: string, minPrec: nat, a: nat, ms: seq<Modifier>,
                                            best: Option<Best>)
    requires AllWritable(ms) && At(s, a, Texts(ms)) && (best.Some? ==> best.value.End() <= |s|)
    ensures a + |Texts(ms)| <= |s|
    ensures TopFrom(env, s, minPrec, a, 0, Outside, best)
         == TopFrom(env, s, minPrec, a + |Texts(ms)|, 0, Outside, best)
    decreases |ms|
  {
    hide At, Modifier.Text, TopFrom, Modifier.Writable;
    AtFits(s, a, Texts(ms));
    if ms != [] {
      AtBoth(s, a, ms[0].Text(), Texts(ms[1..]));
      TopOverModifier(env, s, minPrec, a, ms[0], best);
      TopOverModifiers(env, s, minPrec, a + |ms[0].Text()|, ms[1..], best);
    }
  }

  // ---------------------------------------------------------------- an operator with modifiers

  /** Two operands, an operator and its modifiers. */
  datatype Written = Written(op: Op, ms: seq<Modifier>, lhs: Tree, wrapLeft: bool, rhs: Tree, wrapRight: bool) {
    function Left(): string { Operand(lhs, wrapLeft) }
    function Right(): string { Operand(rhs, wrapRight) }
    function Text(): string { Left() + (" " + op.Text() + " ") + (Texts(ms) + Right()) }

    /** Both operands bind tighter or are in parentheses, and a comparison with a bare number
        says bool. */
    predicate Fits() {
      AllWritable(ms) && Printable(lhs) && Printable(rhs)
      && (wrapLeft || lhs.Strength() > op.Precedence()) && (wrapRight || rhs.Strength() > op.Precedence())
      && (op.IsComparison() && rhs.Number? && !wrapRight ==> HasBool(ms))
    }
  }

  lemma WrittenParts(w: Written)
    ensures var s, n := w.Text(), |w.Left()|;
      At(s, 0, w.Left()) && At(s, n, " " + w.op.Text() + " ") && At(s, n + |w.op.Text()| + 2, Texts(w.ms))
      && At(s, n + |w.op.Text()| + 2 + |Texts(w.ms)|, w.Right())
      && |s| == n + |w.op.Text()| + 2 + |Texts(w.ms)| + |w.Right()|
  {
    hide Op.Text, At;
    var s := w.Text();
    AtWhole(s);
    NodeParts(s, 0, w.op, w.Left(), Texts(w.ms) + w.Right());
    AtBoth(s, |w.Left()| + |w.op.Text()| + 2, Texts(w.ms), w.Right());
  }

  /** The comparison is not taken for one with a bare number on its right. */
  lemma NotABareNumber(env: Env, w: Written)
    requires ReadsNumbers(env) && w.Fits() && w.op.IsComparison()
    ensures !PlainScalarFollows(env, " " + (Texts(w.ms) + w.Right()))
  {
    var (x, t) := (w.Right(), Texts(w.ms) + w.Right());
    Ends(w.rhs, w.wrapRight);
    TextsEnd(w.ms, x);
    TrimmedEnds(t);
    TrimPrinted(w.rhs, w.wrapRight);
    ModifiersAreRead(env, w.ms, x, true, NO_MODIFIERS);
    hide Trim, Operand, ParseModifiers, Texts;
    if w.wrapRight || w.rhs.Node? {
      var k := VisibleBreak(w.rhs, w.wrapRight);
    }
  }

  lemma FitsParts(w: Written)
    requires w.Fits()
    ensures DigitLeaves(w.lhs) && DigitLeaves(w.rhs) && Printable(w.lhs) && Printable(w.rhs) && AllWritable(w.ms)
    ensures w.wrapLeft || w.lhs.Strength() > w.op.Precedence()
    ensures w.wrapRight || w.rhs.Strength() > w.op.Precedence()
  {
    hide Tight, InRange, DigitLeaves;
  }

  lemma TopOverWrittenOp(env: Env, w: Written, before: Option<Best>)
    requires ReadsNumbers(env) && w.Fits() && (before.Some? ==> before.value.End() <= |w.Text()|)
    requires Bound(before) > w.op.Precedence()
    ensures var (s, b, n) := (w.Text(), |w.Left()|, |w.op.Text()|);
      b + n + 2 <= |s|
      && TopFrom(env, s, 1, b, 0, Outside, before)
         == TopFrom(env, s, 1, b + n + 2, 0, Outside, Some(Best(b + 1, w.op)))
  {
    hide Operand, At, TopFrom, Op.Text, ReadsNumbers, Op.Precedence, Op.IsComparison, Texts, ReadOpAt,
         PlainScalarFollows, Candidate, IsDigit, Written.Text, Written.Fits, Plain, Bound;
    PrecedenceRange(w.op);
    OpHasText(w.op);
    WrittenParts(w);
    FitsParts(w);
    var (s, b, n) := (w.Text(), |w.Left()|, |w.op.Text()|);
    LeftEnds(w);
    OpIsRead(s, b, w.op);
    PlainOpAt(s, b, w.op);
    CandidateIs(env, s, 1, b + 1, w.op);
    RightOf(w);
    if w.op.IsComparison() {
      NotABareNumber(env, w);
    }
    var chosen := Some(Best(b + 1, w.op));
    TopOverQuiet(env, s, 1, b, b + 1, before);
    TopStep(env, s, 1, b + 1, before, chosen);
    TopOverQuiet(env, s, 1, b + 2, b + n + 2, chosen);
  }

  /** The text is split at the operator. */
  lemma TopOfWritten(env: Env, w: Written)
    requires ReadsNumbers(env) && w.Fits()
    ensures FindTop(env, w.Text(), 1) == Some(Best(|w.Left()| + 1, w.op))
  {
    hide Operand, At, TopFrom, Op.Text, Trim, ReadsNumbers, Printable, Op.Precedence, Texts, Written.Text, Written.Fits,
         IsAsciiSpace;
    PrecedenceRange(w.op);
    WrittenParts(w);
    FitsParts(w);
    var (s, p, b) := (w.Text(), w.op.Precedence(), |w.Left()|);
    var before := TopOverOperand(env, s, 1, 0, w.lhs, w.wrapLeft, p, None);
    TopOverWrittenOp(env, w, before);
    var chosen := Some(Best(b + 1, w.op));
    RightOf(w);
    TopOverModifiers(env, s, 1, b + |w.op.Text()| + 2, w.ms, chosen);
    var c := b + |w.op.Text()| + 2 + |Texts(w.ms)|;
    var last := TopOverOperand(env, s, 1, c, w.rhs, w.wrapRight, p, chosen);
    AtEnd(env, s, 1, |s|, last);
    WrittenEnds(w);
  }

  lemma LeftEnds(w: Written)
    requires DigitLeaves(w.lhs)
    ensures w.Left() != "" && |w.Left()| <= |w.Text()|
    ensures IsDigit(w.Text()[|w.Left()| - 1]) || w.Text()[|w.Left()| - 1] == ')'
  {
    hide Operand, Op.Text, Texts;
    Ends(w.lhs, w.wrapLeft);
    assert w.Text()[|w.Left()| - 1] == w.Left()[|w.Left()| - 1];
  }

  lemma RightOf(w: Written)
    ensures |w.Left()| + 1 + |w.op.Text()| <= |w.Text()|
    ensures w.Text()[|w.Left()| + 1 + |w.op.Text()|..] == " " + (Texts(w.ms) + w.Right())
    ensures w.Text()[..|w.Left()| + 1] == w.Left() + " "
  {
    hide Operand, Op.Text, Texts;
  }

  lemma WrittenEnds(w: Written)
    requires DigitLeaves(w.lhs) && DigitLeaves(w.rhs)
    ensures Visible(w.Text()) && Trim(w.Text()) == w.Text()
  {
    hide Operand, Op.Text, Texts, Trim;
    Ends(w.lhs, w.wrapLeft);
    Ends(w.rhs, w.wrapRight);
    var s := w.Text();
    assert s[0] == w.Left()[0] && s[|s| - 1] == w.Right()[|w.Right()| - 1];
    TrimmedEnds(s);
  }

  lemma NotWrapped(w: Written)
    requires DigitLeaves(w.lhs) && DigitLeaves(w.rhs)
    ensures !IsWrapped(w.Text())
  {
    hide Op.Text, Texts, MatchFrom, Print, At, Written.Text;
    WrittenParts(w);
    Ends(w.rhs, w.wrapRight);
    if w.wrapLeft {
      MatchOfWrapped(w.Text(), 0, w.lhs);
    } else {
      BareIsNotWrapped(w.Text(), w.lhs);
    }
  }

  lemma ParseWithModifiers(env: Env, s: string, op: Op, start: nat, m: Result<Modifiers>)
    requires TrimParensForBinary(Trim(s), 1) == (s, 1) && FindTop(env, s, 1) == Some(Best(start, op))
    requires start + |op.Text()| <= |s|
    requires ParseModifiers(env, s[start + |op.Text()|..], op.IsComparison(), NO_MODIFIERS) == m
    ensures m.Err? ==> ParseBinary(env, s, 1).Err?
    ensures m.Ok? ==>
      var (l, r) := (ParseBinary(env, s[..start], op.Precedence() + 1),
          ParseBinary(env, m.value.rest, op.Precedence() + 1));
      l.Ok? && r.Ok? ==>
        ParseBinary(env, s, 1) == Ok(Binary(op, l.value, r.value, m.value.boolModifier, m.value.matching))
  {
    hide TrimParensForBinary, Trim, FindTop, ParsePrimary, ParseModifiers, Op.Text, Op.Precedence, Op.IsComparison;
  }

  /** Main result: an operator between two operands, with any list of modifiers, is read as what
      the list says: the bool modifier, the labels to match on or to ignore, the side that may
      have several matches and the labels copied from the other. Only a comparison may say
      bool. */
  lemma WrittenIsRead(env: Env, w: Written)
    requires ReadsNumbers(env) && w.Fits()
    ensures if HasBool(w.ms) && !w.op.IsComparison() then Parse(env, w.Text()).Err?
            else Parse(env, w.Text()) == Ok(Binary(w.op, Meaning(w.lhs), Meaning(w.rhs), HasBool(w.ms),
                                                   MatchingOf(env, None, w.ms)))
  {
    hide Operand, Op.Text, Trim, ReadsNumbers, Op.Precedence, Op.IsComparison, Texts, FindTop, ParseBinary,
         ParseModifiers, Written.Text, IsWrapped, Tight, InRange;
    var s := w.Text();
    TopOfWritten(env, w);
    WrittenEnds(w);
    NotWrapped(w);
    RightOf(w);
    Ends(w.rhs, w.wrapRight);
    TextsEnd(w.ms, w.Right());
    var t := Texts(w.ms) + w.Right();
    TrimmedEnds(t);
    ModifiersTrim(env, " " + t, t, w.op.IsComparison(), NO_MODIFIERS);
    ModifiersAreRead(env, w.ms, w.Right(), w.op.IsComparison(), NO_MODIFIERS);
    SpaceIsIgnored(env, w.lhs, w.wrapLeft, w.op.Precedence() + 1);
    ParseOperand(env, w.lhs, w.wrapLeft, w.op.Precedence() + 1);
    ParseOperand(env, w.rhs, w.wrapRight, w.op.Precedence() + 1);
    ParseWithModifiers(env, s, w.op, |w.Left()| + 1,
        ParseModifiers(env, " " + t, w.op.IsComparison(), NO_MODIFIERS));
  }

  lemma ExampleFits(w: Written)
    requires w == Written(Gt, [AsBool, On("a")], Number("1"), false, Number("2"), false)
    ensures w.Fits() && HasBool(w.ms) && w.Text() == "1 > bool on (a) 2"
  {
    assert w.ms[0] == AsBool && w.ms[1] == On("a") && w.ms[1..] == [On("a")] && w.ms[1..][1..] == [];
    assert Decimal("1"[..0]) == 0.0 && Decimal("2"[..0]) == 0.0;
    assert Decimal("1") == 1.0 && Decimal("2") == 2.0;
    assert Texts([On("a")]) == "on (a) ";
    assert Texts(w.ms) == "bool on (a) ";
    assert Operand(w.lhs, false) == "1" && Operand(w.rhs, false) == "2";
  }

  /** A comparison with the bool modifier takes a bare number. */
  lemma BoolExample(env: Env)
    requires ReadsNumbers(env)
    ensures Parse(env, "1 > bool on (a) 2") ==
            Ok(Binary(Gt, Scalar(1.0), Scalar(2.0), true, Some(Matching(true, env.csv("a"), "", []))))
  {
    hide Parse, Written.Fits, Written.Text, ReadsNumbers;
    var w := Written(Gt, [AsBool, On("a")], Number("1"), false, Number("2"), false);
    ExampleFits(w);
    WrittenIsRead(env, w);
    assert w.ms[1..] == [On("a")] && w.ms[1..][1..] == [];
    assert MatchingOf(env, None, w.ms) == MatchingOf(env, None, [On("a")]);
    assert MatchingOf(env, None, [On("a")]) == Some(Matching(true, env.csv("a"), "", []));
    assert Decimal("1"[..0]) == 0.0 && Decimal("2"[..0]) == 0.0;
    assert Decimal("1") == 1.0 && Decimal("2") == 2.0;
  }
}
