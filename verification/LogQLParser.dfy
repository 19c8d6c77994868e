/** The recursive LogQL expression parser over strings, and the texts it reads back exactly.
    Number parsing, comma lists and the parsers of selectors and named functions are
    parameters. */
module LogQLParser {
  import opened Options

  datatype Result<+T> = Ok(value: T) | Err(message: string)

  datatype Op = Or | And | Unless | Eq | Ne | Gt | Ge | Lt | Le | Add | Sub | Mul | Div | Mod | Pow {
    function Text(): string {
      match this
      case Or => "or" case And => "and" case Unless => "unless"
      case Eq => "==" case Ne => "!=" case Gt => ">" case Ge => ">=" case Lt => "<" case Le => "<="
      case Add => "+" case Sub => "-" case Mul => "*" case Div => "/" case Mod => "%" case Pow => "^"
    }

    function Precedence(): nat {
      match this
      case Or => 1
      case And => 2 case Unless => 2
      case Eq => 3 case Ne => 3 case Gt => 3 case Ge => 3 case Lt => 3 case Le => 3
      case Add => 4 case Sub => 4
      case Mul => 5 case Div => 5 case Mod => 5
      case Pow => 6
    }

    predicate IsComparison() { Eq? || Ne? || Gt? || Ge? || Lt? || Le? }
  }

  datatype Matching = Matching(on: bool, labels: seq<string>, group: string, copied: seq<string>)

  datatype Expr =
    | Scalar(value: real)
    | Binary(op: Op, lhs: Expr, rhs: Expr, boolModifier: bool, matching: Option<Matching>)
    | Primary(text: string)

  datatype Env = Env(
    float: string -> Option<real>,        // strconv.ParseFloat
    csv: string -> seq<string>,           // labels between commas
    selector: string -> Result<Expr>,     // a stream selector, which starts with a brace
    named: string -> Result<Expr>)        // everything that starts with the name of a function

  // ---------------------------------------------------------------- characters

  predicate IsAsciiSpace(c: char) { c == ' ' || '\t' <= c <= '\r' }
  predicate IsDigit(c: char) { '0' <= c <= '9' }
  predicate IsLetter(c: char) { 'a' <= c <= 'z' || 'A' <= c <= 'Z' }
  predicate IsWordChar(c: char) { IsLetter(c) || IsDigit(c) || c == '_' || c == '.' }

  function Lower(c: char): char {
    if 'A' <= c <= 'Z' then c - 'A' + 'a' else c
  }

  function TrimLeft(s: string): (r: string)
    ensures |r| <= |s|
  {
    if s == "" || !IsAsciiSpace(s[0]) then s else TrimLeft(s[1..])
  }

  function TrimRight(s: string): (r: string)
    ensures |r| <= |s|
  {
    if s == "" || !IsAsciiSpace(s[|s| - 1]) then s else TrimRight(s[..|s| - 1])
  }

  function Trim(s: string): (r: string)
    ensures |r| <= |s|
  {
    TrimRight(TrimLeft(s))
  }

  // ---------------------------------------------------------------- quotes and parentheses

  /** Where a scanner is with respect to string literals. */
  datatype Quote = Outside | Double | Escaped | Backquote

  function NextQuote(q: Quote, c: char): Quote {
    match q
    case Outside => if c == '"' then Double else if c == '`' then Backquote else Outside
    case Double => if c == '\\' then Escaped else if c == '"' then Outside else Double
    case Escaped => Double
    case Backquote => if c == '`' then Outside else Backquote
  }

  /** The quote state before position i. */
  function QuoteAt(s: string, i: nat): Quote
    requires i <= |s|
  {
    if i == 0 then Outside else NextQuote(QuoteAt(s, i - 1), s[i - 1])
  }

  /** Position i belongs to a string literal, its quotes included. */
  predicate InLiteral(s: string, i: nat)
    requires i < |s|
  {
    !QuoteAt(s, i).Outside? || s[i] == '"' || s[i] == '`'
  }

  /** Open less closed parentheses outside literals, before position i. */
  function OpenAt(s: string, i: nat): int
    requires i <= |s|
  {
    if i == 0 then 0
    else
      var step := if InLiteral(s, i - 1) then 0 else if s[i - 1] == '(' then 1 else if s[i - 1] == ')' then -1 else 0;
      OpenAt(s, i - 1) + step
  }

  /** A closing parenthesis outside literals after which none is open. */
  predicate ClosesAll(s: string, i: nat)
    requires i < |s|
  {
    s[i] == ')' && !InLiteral(s, i) && OpenAt(s, i + 1) == 0
  }

  /** The scan for such a parenthesis, from position i on. */
  function MatchFrom(s: string, i: nat, depth: int, q: Quote): (r: int)
    ensures r == -1 || i <= r < |s|
    decreases |s| - i
  {
    if i >= |s| then -1
    else
      var c := s[i];
      if !q.Outside? || c == '"' || c == '`' then MatchFrom(s, i + 1, depth, NextQuote(q, c))
      else if c == '(' then MatchFrom(s, i + 1, depth + 1, q)
      else if c == ')' then if depth - 1 == 0 then i else MatchFrom(s, i + 1, depth - 1, q)
      else MatchFrom(s, i + 1, depth, q)
  }

  function FindMatching(s: string): (r: int)
    ensures r == -1 || 0 <= r < |s|
  {
    MatchFrom(s, 0, 0, Outside)
  }

  lemma {:induction false} MatchFromIsFirst(s: string, i: nat)
    requires i <= |s|
    ensures var r := MatchFrom(s, i, OpenAt(s, i), QuoteAt(s, i));
      if r == -1 then forall k :: i <= k < |s| ==> !ClosesAll(s, k)
      else i <= r < |s| && ClosesAll(s, r) && forall k :: i <= k < r ==> !ClosesAll(s, k)
    decreases |s| - i
  {
    if i < |s| {
      MatchFromIsFirst(s, i + 1);
    }
  }

  /** The first parenthesis that closes all that were opened before it, if there is one. */
  lemma FindMatchingIsFirst(s: string)
    ensures var r := FindMatching(s);
      if r == -1 then forall k :: 0 <= k < |s| ==> !ClosesAll(s, k)
      else ClosesAll(s, r) && forall k :: 0 <= k < r ==> !ClosesAll(s, k)
  {
    MatchFromIsFirst(s, 0);
  }

  /** The two variables in which the loops keep the state: the open quotation mark, or the null
      character, and whether the character before was a backslash. */
  ghost predicate Tracks(q: Quote, quote: char, escaped: bool) {
    match q
    case Outside => quote == '\0' && !escaped
    case Double => quote == '"' && !escaped
    case Escaped => quote == '"' && escaped
    case Backquote => quote == '`' && !escaped
  }

  method FindMatchingParenthesis(s: string) returns (r: int)
    ensures r == FindMatching(s)
    ensures if r == -1 then forall k :: 0 <= k < |s| ==> !ClosesAll(s, k)
            else 0 <= r < |s| && ClosesAll(s, r) && forall k :: 0 <= k < r ==> !ClosesAll(s, k)
  {
    FindMatchingIsFirst(s);
    hide ClosesAll;
    var depth, quote, escaped := 0, '\0', false;
    ghost var q := Outside;
    for i := 0 to |s|
      invariant Tracks(q, quote, escaped) && FindMatching(s) == MatchFrom(s, i, depth, q)
    {
      var c := s[i];
      q := NextQuote(q, c);
      if quote != '\0' {
        if escaped {
          escaped := false;
          continue;
        }
        if quote == '"' && c == '\\' {
          escaped := true;
          continue;
        }
        if c == quote {
          quote := '\0';
        }
        continue;
      }
      if c == '"' || c == '`' {
        quote := c;
        continue;
      }
      if c == '(' {
        depth := depth + 1;
        continue;
      }
      if c == ')' {
        depth := depth - 1;
        if depth == 0 {
          return i;
        }
      }
    }
    r := -1;
  }

  predicate IsWrapped(s: string) { s != "" && s[0] == '(' && FindMatching(s) == |s| - 1 }

  lemma OpeningIsNotItsMatch(s: string)
    requires s != "" && s[0] == '('
    ensures FindMatching(s) != 0
  {
  }

  /** Outer parentheses are dropped, however many there are. */
  function TrimParens(s: string): (r: string)
    ensures |r| <= |s|
    decreases |s|
  {
    var t := Trim(s);
    if IsWrapped(t) then OpeningIsNotItsMatch(t); TrimParens(t[1..|t| - 1]) else t
  }

  /** Inside parentheses every operator is acceptable again. */
  function TrimParensForBinary(s: string, minPrec: nat): (r: (string, nat))
    ensures |r.0| <= |s|
    decreases |s|
  {
    var t := Trim(s);
    if IsWrapped(t) then OpeningIsNotItsMatch(t); TrimParensForBinary(t[1..|t| - 1], 1) else (t, minPrec)
  }

  method TrimOuterParensForBinary(s: string, minPrec: nat) returns (text: string, prec: nat)
    ensures (text, prec) == TrimParensForBinary(s, minPrec)
  {
    text, prec := s, minPrec;
    while true
      invariant TrimParensForBinary(text, prec) == TrimParensForBinary(s, minPrec)
      decreases |text|
    {
      text := Trim(text);
      TrimTwice(text);
      if text == "" || text[0] != '(' {
        return;
      }
      var close := FindMatchingParenthesis(text);
      if close != |text| - 1 {
        return;
      }
      OpeningIsNotItsMatch(text);
      text, prec := text[1..close], 1;
    }
  }

  lemma {:induction false} TrimTwice(s: string)
    ensures Trim(Trim(s)) == Trim(s)
  {
    TrimLeftStarts(s);
    TrimRightKeepsStart(TrimLeft(s));
    TrimRightEnds(TrimLeft(s));
  }

  lemma {:induction false} TrimLeftStarts(s: string)
    ensures TrimLeft(s) == "" || !IsAsciiSpace(TrimLeft(s)[0])
  {
    if s != "" && IsAsciiSpace(s[0]) {
      TrimLeftStarts(s[1..]);
    }
  }

  lemma {:induction false} TrimRightEnds(s: string)
    ensures TrimRight(s) == "" || !IsAsciiSpace(TrimRight(s)[|TrimRight(s)| - 1])
  {
    if s != "" && IsAsciiSpace(s[|s| - 1]) {
      TrimRightEnds(s[..|s| - 1]);
    }
  }

  lemma {:induction false} TrimRightKeepsStart(s: string)
    ensures TrimRight(s) <= s
  {
    if s != "" && IsAsciiSpace(s[|s| - 1]) {
      TrimRightKeepsStart(s[..|s| - 1]);
    }
  }

  // ---------------------------------------------------------------- operators

  predicate WordBoundary(s: string, i: int) {
    i < 0 || i >= |s| || !IsWordChar(s[i])
  }

  /** Whether the nearest visible character before i leaves an operand to be read. */
  predicate IsUnary(s: string, i: nat)
    requires i <= |s|
  {
    if i == 0 then true
    else if IsAsciiSpace(s[i - 1]) then IsUnary(s, i - 1)
    else s[i - 1] in {'(', ',', '+', '-', '*', '/', '%', '^', '<', '>', '=', '!'}
  }

  method IsUnaryOperator(s: string, idx: nat) returns (r: bool)
    requires idx <= |s|
    ensures r == IsUnary(s, idx)
  {
    var i: nat := idx;
    while i > 0
      invariant i <= idx && IsUnary(s, i) == IsUnary(s, idx)
    {
      if !IsAsciiSpace(s[i - 1]) {
        return s[i - 1] in {'(', ',', '+', '-', '*', '/', '%', '^', '<', '>', '=', '!'};
      }
      i := i - 1;
    }
    r := true;
  }

  function SymbolAt(s: string, i: nat): Option<Op>
    requires i < |s|
  {
    var c := s[i];
    var equals := i + 1 < |s| && s[i + 1] == '=';
    if c == '>' && equals then Some(Ge)
    else if c == '<' && equals then Some(Le)
    else if c == '=' && equals then Some(Eq)
    else if c == '!' && equals then Some(Ne)
    else if c == '+' then Some(Add)
    else if c == '-' then Some(Sub)
    else if c == '*' then Some(Mul)
    else if c == '/' then Some(Div)
    else if c == '%' then Some(Mod)
    else if c == '^' then Some(Pow)
    else if c == '>' then Some(Gt)
    else if c == '<' then Some(Lt)
    else None
  }

  predicate WordIs(s: string, i: nat, word: string) {
    i + |word| <= |s| && (forall k :: 0 <= k < |word| ==> Lower(s[i + k]) == word[k])
    && WordBoundary(s, i + |word|)
  }

  function ReadOpAt(s: string, i: nat): (r: Option<Op>)
    requires i < |s|
    ensures r.Some? ==> i + |r.value.Text()| <= |s|
  {
    var symbol := SymbolAt(s, i);
    if symbol.Some? then
      if (symbol.value.Add? || symbol.value.Sub?) && IsUnary(s, i) then None else symbol
    else if !WordBoundary(s, i - 1) then None
    else if WordIs(s, i, "unless") then Some(Unless)
    else if WordIs(s, i, "and") then Some(And)
    else if WordIs(s, i, "or") then Some(Or)
    else None
  }

  predicate HasPrefixAt(s: string, i: nat, prefix: string) { i + |prefix| <= |s| && s[i..i + |prefix|] == prefix }

  /** The symbols in the order in which they are tried, so that ">=" is not taken for ">". */
  const SYMBOLS := [Ge, Le, Eq, Ne, Add, Sub, Mul, Div, Mod, Pow, Gt, Lt]
  const WORDS := [Unless, And, Or]

  /** Whether the symbol stands at i, character by character. */
  predicate StandsAt(s: string, i: nat, op: Op)
    requires i < |s|
  {
    var c := s[i];
    var equals := i + 1 < |s| && s[i + 1] == '=';
    match op
    case Ge => c == '>' && equals
    case Le => c == '<' && equals
    case Eq => c == '=' && equals
    case Ne => c == '!' && equals
    case Add => c == '+'
    case Sub => c == '-'
    case Mul => c == '*'
    case Div => c == '/'
    case Mod => c == '%'
    case Pow => c == '^'
    case Gt => c == '>'
    case Lt => c == '<'
    case _ => false
  }

  lemma StandsIff(s: string, i: nat, op: Op)
    requires i < |s| && op in SYMBOLS
    ensures HasPrefixAt(s, i, op.Text()) <==> StandsAt(s, i, op)
  {
    var t := op.Text();
    if i + |t| <= |s| {
      var part := s[i..i + |t|];
      assert part[0] == s[i] && (|t| == 2 ==> part[1] == s[i + 1]);
      assert part == t <==> part[0] == t[0] && (|t| == 2 ==> part[1] == t[1]);
    }
  }

  lemma FirstStanding(s: string, i: nat, k: nat)
    requires i < |s| && k <= |SYMBOLS| && forall j :: 0 <= j < k ==> !StandsAt(s, i, SYMBOLS[j])
    ensures k < |SYMBOLS| && StandsAt(s, i, SYMBOLS[k]) ==> SymbolAt(s, i) == Some(SYMBOLS[k])
    ensures k == |SYMBOLS| ==> SymbolAt(s, i) == None
  {
    assert SYMBOLS[0] == Ge && SYMBOLS[1] == Le && SYMBOLS[2] == Eq && SYMBOLS[3] == Ne && SYMBOLS[4] == Add
        && SYMBOLS[5] == Sub && SYMBOLS[6] == Mul && SYMBOLS[7] == Div && SYMBOLS[8] == Mod && SYMBOLS[9] == Pow
        && SYMBOLS[10] == Gt && SYMBOLS[11] == Lt;
  }

  lemma SymbolIsFirst(s: string, i: nat, k: nat)
    requires i < |s| && k <= |SYMBOLS| && forall j :: 0 <= j < k ==> !HasPrefixAt(s, i, SYMBOLS[j].Text())
    ensures k < |SYMBOLS| && HasPrefixAt(s, i, SYMBOLS[k].Text()) ==> SymbolAt(s, i) == Some(SYMBOLS[k])
    ensures k == |SYMBOLS| ==> SymbolAt(s, i) == None
  {
    hide HasPrefixAt, Op.Text, StandsAt, SymbolAt;
    forall j | 0 <= j < |SYMBOLS| ensures HasPrefixAt(s, i, SYMBOLS[j].Text()) <==> StandsAt(s, i, SYMBOLS[j]) {
      assert SYMBOLS[j] in SYMBOLS;
      StandsIff(s, i, SYMBOLS[j]);
    }
    FirstStanding(s, i, k);
  }

  /** readLogQLBinaryOpAt: the symbols in their order, then the words between word boundaries,
      in either case. */
  method ReadBinaryOpAt(s: string, i: nat) returns (op: Option<Op>)
    requires i < |s|
    ensures op == ReadOpAt(s, i)
  {
    hide SymbolAt, IsUnary, HasPrefixAt, Op.Text, WordBoundary, Lower;
    for k := 0 to |SYMBOLS|
      invariant forall j :: 0 <= j < k ==> !HasPrefixAt(s, i, SYMBOLS[j].Text())
    {
      if HasPrefixAt(s, i, SYMBOLS[k].Text()) {
        SymbolIsFirst(s, i, k);
        if SYMBOLS[k].Add? || SYMBOLS[k].Sub? {
          var unary := IsUnaryOperator(s, i);
          if unary {
            return None;
          }
        }
        return Some(SYMBOLS[k]);
      }
    }
    SymbolIsFirst(s, i, |SYMBOLS|);
    if !WordBoundary(s, i - 1) {
      return None;
    }
    for k := 0 to |WORDS|
      invariant forall j :: 0 <= j < k ==> !WordIs(s, i, WORDS[j].Text())
    {
      var word := WORDS[k].Text();
      if i + |word| <= |s| && (forall j :: 0 <= j < |word| ==> Lower(s[i + j]) == word[j])
          && WordBoundary(s, i + |word|) {
        assert WordIs(s, i, word);
        TextOfWords();
        return Some(WORDS[k]);
      }
    }
    TextOfWords();
    assert forall j :: 0 <= j < |WORDS| ==> !WordIs(s, i, WORDS[j].Text());
    op := None;
  }

  lemma TextOfWords()
    ensures WORDS[0].Text() == "unless" && WORDS[1].Text() == "and" && WORDS[2].Text() == "or"
  {
  }

  // ---------------------------------------------------------------- modifiers

  function IdentifierEnd(s: string, i: nat): (r: nat)
    requires i <= |s|
    ensures i <= r <= |s|
    ensures r < |s| ==> !(IsWordChar(s[r]) || s[r] == ':')
    decreases |s| - i
  {
    if i < |s| && (IsWordChar(s[i]) || s[i] == ':') then IdentifierEnd(s, i + 1) else i
  }

  function ReadIdentifier(s: string): (r: (string, string))
    ensures |r.0| + |r.1| <= |s|
  {
    var t := Trim(s);
    var end := IdentifierEnd(t, 0);
    (t[..end], Trim(t[end..]))
  }

  method ReadIdentifierOf(s: string) returns (name: string, rest: string)
    ensures (name, rest) == ReadIdentifier(s)
  {
    var t := Trim(s);
    if t == "" {
      TrimEmpty();
      return "", "";
    }
    var i := 0;
    while i < |t|
      invariant i <= |t| && IdentifierEnd(t, i) == IdentifierEnd(t, 0)
    {
      if !(IsLetter(t[i]) || IsDigit(t[i]) || t[i] == '_' || t[i] == '.' || t[i] == ':') {
        break;
      }
      i := i + 1;
    }
    return t[..i], Trim(t[i..]);
  }

  lemma TrimEmpty()
    ensures Trim("") == ""
  {
  }

  function ParseParenthesized(s: string): (r: Result<(string, string)>)
    ensures r.Ok? ==> |r.value.1| < |s|
  {
    var t := Trim(s);
    if t == "" || t[0] != '(' then Err("expected parenthesized expression")
    else
      var close := FindMatching(t);
      if close < 0 then Err("unterminated parenthesized expression")
      else OpeningIsNotItsMatch(t); Ok((t[1..close], Trim(t[close + 1..])))
  }

  datatype Modifiers = Modifiers(matching: Option<Matching>, boolModifier: bool, rest: string)

  function OrNew(m: Option<Matching>): Matching {
    if m.Some? then m.value else Matching(false, [], "", [])
  }

  function ParseModifiers(env: Env, s: string, allowBool: bool, soFar: Modifiers): (r: Result<Modifiers>)
    ensures r.Ok? ==> |r.value.rest| <= |s|
    decreases |s|
  {
    var t := Trim(s);
    var (name, rest) := ReadIdentifier(t);
    if name == "bool" then
      if !allowBool then Err("bool modifier is only valid for comparison operators")
      else ParseModifiers(env, rest, allowBool, soFar.(boolModifier := true))
    else if name == "on" || name == "ignoring" then
      var inner := ParseParenthesized(rest);
      if inner.Err? then Err(inner.message)
      else
        var matching := OrNew(soFar.matching).(on := name == "on", labels := env.csv(inner.value.0));
        ParseModifiers(env, inner.value.1, allowBool, soFar.(matching := Some(matching)))
    else if name == "group_left" || name == "group_right" then
      var inner := if rest != "" && rest[0] == '(' then ParseParenthesized(rest) else Ok(("", rest));
      if inner.Err? then Err(inner.message)
      else
        var copied := if rest != "" && rest[0] == '(' then env.csv(inner.value.0) else [];
        var matching := OrNew(soFar.matching).(group := name[6..], copied := copied);
        ParseModifiers(env, inner.value.1, allowBool, soFar.(matching := Some(matching)))
    else Ok(soFar.(rest := t))
  }

  const NO_MODIFIERS := Modifiers(None, false, "")

  /** Leading and trailing spaces do not matter. */
  lemma ModifiersTrim(env: Env, s: string, t: string, allowBool: bool, soFar: Modifiers)
    requires Trim(s) == Trim(t)
    ensures ParseModifiers(env, s, allowBool, soFar) == ParseModifiers(env, t, allowBool, soFar)
  {
    hide Trim, ReadIdentifier, ParseParenthesized;
  }

  lemma RestIsTrimmed(s: string)
    ensures Trim(ReadIdentifier(s).1) == ReadIdentifier(s).1
  {
    TrimTwice(Trim(s)[IdentifierEnd(Trim(s), 0)..]);
  }

  lemma InnerIsTrimmed(s: string)
    ensures var inner := ParseParenthesized(s); inner.Ok? ==> Trim(inner.value.1) == inner.value.1
  {
    hide Trim;
    var t := Trim(s);
    var close := FindMatching(t);
    if close >= 0 {
      TrimTwice(t[close + 1..]);
    }
  }

  /** parseLogQLBinaryModifiers: one modifier after another, later ones of a kind replacing
      earlier ones. */
  method ParseBinaryModifiers(env: Env, input: string, allowBool: bool) returns (r: Result<Modifiers>)
    ensures r == ParseModifiers(env, input, allowBool, NO_MODIFIERS)
  {
    hide Trim, ReadIdentifier, ParseParenthesized;
    var text := Trim(input);
    TrimTwice(input);
    ModifiersTrim(env, input, text, allowBool, NO_MODIFIERS);
    var matching: Option<Matching>, boolModifier := None, false;
    while true
      invariant Trim(text) == text
      invariant ParseModifiers(env, input, allowBool, NO_MODIFIERS) ==
                ParseModifiers(env, text, allowBool, Modifiers(matching, boolModifier, ""))
      decreases |text|
    {
      var name, rest := ReadIdentifierOf(text);
      RestIsTrimmed(text);
      InnerIsTrimmed(rest);
      match name {
        case "bool" =>
          if !allowBool {
            return Err("bool modifier is only valid for comparison operators");
          }
          boolModifier := true;
          text := Trim(rest);
        case "on" | "ignoring" =>
          var inner := ParseParenthesized(Trim(rest));
          if inner.Err? {
            return Err(inner.message);
          }
          if matching.None? {
            matching := Some(Matching(false, [], "", []));
          }
          matching := Some(matching.value.(on := name == "on", labels := env.csv(inner.value.0)));
          text := Trim(inner.value.1);
        case "group_left" | "group_right" =>
          var copied: seq<string>, tail := [], Trim(rest);
          if tail != "" && tail[0] == '(' {
            var inner := ParseParenthesized(tail);
            if inner.Err? {
              return Err(inner.message);
            }
            copied, tail := env.csv(inner.value.0), inner.value.1;
          }
          if matching.None? {
            matching := Some(Matching(false, [], "", []));
          }
          matching := Some(matching.value.(group := name[|"group_"|..], copied := copied));
          text := Trim(tail);
        case _ =>
          return Ok(Modifiers(matching, boolModifier, text));
      }
    }
  }

  function ParseScalar(env: Env, s: string): Option<real> { env.float(Trim(s)) }

  /** A comparison with a plain number on its right is left to the operand's own parser. */
  predicate PlainScalarFollows(env: Env, s: string) {
    var t := Trim(s);
    t != "" &&
    var m := ParseModifiers(env, t, true, NO_MODIFIERS);
    m.Ok? && !m.value.boolModifier && ParseScalar(env, m.value.rest).Some?
  }

  // ---------------------------------------------------------------- the top-level operator

  datatype Best = Best(start: nat, op: Op) {
    function End(): nat { start + |op.Text()| }
  }

  function Bound(best: Option<Best>): nat { if best.Some? then best.value.op.Precedence() else 100 }

  /** The operator at i, when it may split the text. */
  function Candidate(env: Env, s: string, minPrec: nat, i: nat): (r: Option<Op>)
    requires i < |s|
    ensures r.Some? ==> i + |r.value.Text()| <= |s|
  {
    var op := ReadOpAt(s, i);
    if op.None? || op.value.Precedence() < minPrec then None
    else if op.value.IsComparison() && PlainScalarFollows(env, s[i + |op.value.Text()|..]) then None
    else op
  }

  predicate Opens(c: char) { c in {'(', '[', '{'} }
  predicate Closes(c: char) { c in {')', ']', '}'} }

  /** Brackets of any kind open before position i, outside literals; one that closes nothing
      is ignored. */
  function DepthAt(s: string, i: nat): nat
    requires i <= |s|
  {
    if i == 0 then 0
    else
      var depth := DepthAt(s, i - 1);
      if InLiteral(s, i - 1) then depth
      else if Opens(s[i - 1]) then depth + 1
      else if Closes(s[i - 1]) && depth > 0 then depth - 1
      else depth
  }

  /** An operator that may split the text, outside literals and brackets. */
  predicate Splits(env: Env, s: string, minPrec: nat, i: nat)
    requires i < |s|
  {
    !InLiteral(s, i) && !Opens(s[i]) && !Closes(s[i]) && DepthAt(s, i) == 0 && Candidate(env, s, minPrec, i).Some?
  }

  /** Of the splitting operators before n, the last one of the lowest precedence. */
  ghost predicate LastLowest(env: Env, s: string, minPrec: nat, n: nat, best: Option<Best>)
    requires n <= |s|
  {
    match best
    case None => forall i :: 0 <= i < n ==> !Splits(env, s, minPrec, i)
    case Some(b) =>
      b.start < n && Splits(env, s, minPrec, b.start) && Candidate(env, s, minPrec, b.start) == Some(b.op)
      && forall i :: 0 <= i < n && Splits(env, s, minPrec, i) ==>
           var p := Candidate(env, s, minPrec, i).value.Precedence();
           p >= b.op.Precedence() && (i > b.start ==> p > b.op.Precedence())
  }

  /** The scan for that operator, from position i on. */
  function TopFrom(env: Env, s: string, minPrec: nat, i: nat, depth: nat, q: Quote,
                   best: Option<Best>): (r: Option<Best>)
    requires best.Some? ==> best.value.End() <= |s|
    ensures r.Some? ==> r.value.End() <= |s|
    decreases |s| - i
  {
    if i >= |s| then best
    else
      var c := s[i];
      if !q.Outside? || c == '"' || c == '`' then TopFrom(env, s, minPrec, i + 1, depth, NextQuote(q, c), best)
      else if Opens(c) then TopFrom(env, s, minPrec, i + 1, depth + 1, q, best)
      else if Closes(c) then
        TopFrom(env, s, minPrec, i + 1, if depth > 0 then depth - 1 else 0, q, best)
      else if depth != 0 then TopFrom(env, s, minPrec, i + 1, depth, q, best)
      else
        var op := Candidate(env, s, minPrec, i);
        TopFrom(env, s, minPrec, i + 1, depth, q,
                if op.Some? && op.value.Precedence() <= Bound(best) then Some(Best(i, op.value)) else best)
  }

  function FindTop(env: Env, s: string, minPrec: nat): (r: Option<Best>)
    ensures r.Some? ==> r.value.End() <= |s|
  {
    var t := Trim(s);
    if t != "" && t[0] == '{' then None else TopFrom(env, s, minPrec, 0, 0, Outside, None)
  }

  lemma OneMoreOp(env: Env, s: string, minPrec: nat, i: nat, best: Option<Best>)
    requires i < |s| && LastLowest(env, s, minPrec, i, best)
    ensures if !Splits(env, s, minPrec, i) then LastLowest(env, s, minPrec, i + 1, best)
            else
              var op := Candidate(env, s, minPrec, i).value;
              LastLowest(env, s, minPrec, i + 1, if op.Precedence() <= Bound(best) then Some(Best(i, op)) else best)
  {
    hide Candidate, Op.Text, InLiteral, DepthAt;
  }

  lemma {:induction false} TopFromIsLastLowest(env: Env, s: string, minPrec: nat, i: nat, best: Option<Best>)
    requires i <= |s| && LastLowest(env, s, minPrec, i, best) && (best.Some? ==> best.value.End() <= |s|)
    ensures LastLowest(env, s, minPrec, |s|, TopFrom(env, s, minPrec, i, DepthAt(s, i), QuoteAt(s, i), best))
    decreases |s| - i
  {
    hide LastLowest, Candidate, Op.Text, Op.Precedence;
    if i < |s| {
      OneMoreOp(env, s, minPrec, i, best);
      var op := Candidate(env, s, minPrec, i);
      var better := Splits(env, s, minPrec, i) && op.value.Precedence() <= Bound(best);
      var more := if better then Some(Best(i, op.value)) else best;
      TopFromIsLastLowest(env, s, minPrec, i + 1, more);
    }
  }

  /** The operator a text is split at: outside literals and brackets, of the lowest precedence,
      and the last such. */
  lemma FindTopIsLastLowest(env: Env, s: string, minPrec: nat)
    ensures if Trim(s) != "" && Trim(s)[0] == '{' then FindTop(env, s, minPrec) == None
            else LastLowest(env, s, minPrec, |s|, FindTop(env, s, minPrec))
  {
    hide TopFrom, Trim;
    TopFromIsLastLowest(env, s, minPrec, 0, None);
  }

  method FindTopLevelBinaryOp(env: Env, s: string, minPrec: nat) returns (best: Option<Best>)
    ensures best == FindTop(env, s, minPrec)
    ensures if Trim(s) != "" && Trim(s)[0] == '{' then best == None
            else LastLowest(env, s, minPrec, |s|, best)
  {
    FindTopIsLastLowest(env, s, minPrec);
    hide LastLowest, Candidate, Trim, Op.Text, Op.Precedence, Op.IsComparison, ReadOpAt, PlainScalarFollows;
    best := None;
    var t := Trim(s);
    if t != "" && t[0] == '{' {
      return;
    }
    var depth, quote, escaped := 0, '\0', false;
    ghost var q := Outside;
    for i := 0 to |s|
      invariant depth >= 0 && (best.Some? ==> best.value.End() <= |s|) && Tracks(q, quote, escaped)
      invariant FindTop(env, s, minPrec) == TopFrom(env, s, minPrec, i, depth, q, best)
    {
      var c := s[i];
      q := NextQuote(q, c);
      if quote != '\0' {
        if escaped {
          escaped := false;
          continue;
        }
        if quote == '"' && c == '\\' {
          escaped := true;
          continue;
        }
        if c == quote {
          quote := '\0';
        }
        continue;
      }
      match c {
        case '"' => quote := c; continue;
        case '`' => quote := c; continue;
        case '(' => depth := depth + 1; continue;
        case '[' => depth := depth + 1; continue;
        case '{' => depth := depth + 1; continue;
        case ')' => depth := if depth > 0 then depth - 1 else 0; continue;
        case ']' => depth := if depth > 0 then depth - 1 else 0; continue;
        case '}' => depth := if depth > 0 then depth - 1 else 0; continue;
        case _ =>
      }
      if depth != 0 {
        continue;
      }
      var op := ReadBinaryOpAt(s, i);
      CandidateAt(env, s, minPrec, i);
      if op.None? || op.value.Precedence() < minPrec {
        continue;
      }
      if op.value.IsComparison() && PlainScalarFollows(env, s[i + |op.value.Text()|..]) {
        continue;
      }
      if op.value.Precedence() <= (if best.Some? then best.value.op.Precedence() else 100) {
        best := Some(Best(i, op.value));
      }
    }
  }

  lemma CandidateAt(env: Env, s: string, minPrec: nat, i: nat)
    requires i < |s|
    ensures var op := ReadOpAt(s, i);
      Candidate(env, s, minPrec, i) ==
        if op.None? || op.value.Precedence() < minPrec then None
        else if op.value.IsComparison() && PlainScalarFollows(env, s[i + |op.value.Text()|..]) then None
        else op
  {
    hide ReadOpAt, PlainScalarFollows, Op.Text, Op.Precedence;
  }

  // ---------------------------------------------------------------- the parser

  predicate IsRangeFunction(name: string) {
    name in {"count_over_time", "rate", "bytes_over_time", "bytes_rate", "sum_over_time", "avg_over_time",
             "max_over_time", "min_over_time", "first_over_time", "last_over_time", "stdvar_over_time",
             "stddev_over_time", "absent_over_time"}
  }

  predicate IsVectorFunction(name: string) {
    name in {"sum", "min", "max", "avg", "count", "stddev", "stdvar", "topk", "bottomk", "vector", "label_replace",
             "label_join", "quantile_over_time"}
  }

  /** The functions and aggregations parseLogQLPrimary knows. */
  predicate IsFunctionName(name: string) { IsRangeFunction(name) || IsVectorFunction(name) }

  function ParsePrimary(env: Env, s: string): Result<Expr> {
    var t := TrimParens(Trim(s));
    if t != "" && t[0] == '{' then env.selector(t)
    else if ParseScalar(env, t).Some? then Ok(Scalar(ParseScalar(env, t).value))
    else if IsFunctionName(ReadIdentifier(t).0) then env.named(t)
    else Err("unsupported LogQL expression")
  }

  /** Every recursive call reads a strictly shorter text. */
  function ParseBinary(env: Env, s: string, minPrec: nat): Result<Expr>
    decreases |s|
  {
    var (t, prec) := TrimParensForBinary(Trim(s), minPrec);
    var best := FindTop(env, t, prec);
    if best.None? then ParsePrimary(env, t)
    else
      var (start, op) := (best.value.start, best.value.op);
      assert op.Text() != "";
      var m := ParseModifiers(env, t[best.value.End()..], op.IsComparison(), NO_MODIFIERS);
      if m.Err? then Err(m.message)
      else
        var lhs := ParseBinary(env, t[..start], op.Precedence() + 1);
        if lhs.Err? then lhs
        else
          var rhs := ParseBinary(env, m.value.rest, op.Precedence() + 1);
          if rhs.Err? then rhs
          else Ok(Binary(op, lhs.value, rhs.value, m.value.boolModifier, m.value.matching))
  }

  function Parse(env: Env, input: string): Result<Expr> {
    var t := Trim(input);
    if t == "" then Err("missing query") else ParseBinary(env, t, 1)
  }
}
