/** Texts that are not split: selectors, calls of named functions, and numbers. */
module LogQLPrimary {
  import opened Options
  import opened Bits
  import opened LogQLParser
  import opened LogQLRoundTrip
  import opened LogQLModifiers

  lemma FirstStays(s: string)
    requires s != "" && !IsAsciiSpace(s[0])
    ensures Trim(s) != "" && Trim(s)[0] == s[0] && Trim(Trim(s)) == Trim(s)
  {
    TrimTwice(s);
    assert [s[0]] <= s;
    TrimRightKeeps(s, [s[0]]);
    assert [s[0]] <= TrimRight(s);
  }

  lemma BraceStays(s: string, minPrec: nat)
    requires s != "" && s[0] == '{' && Trim(s) == s
    ensures TrimParensForBinary(s, minPrec) == (s, minPrec) && TrimParens(s) == s
  {
    hide Trim, FindMatching;
  }

  /** Text that starts with a brace goes to the selector parser whole, whatever operators it
      holds. */
  lemma SelectorIsHandedOver(env: Env, s: string)
    requires Trim(s) != "" && Trim(s)[0] == '{'
    ensures Parse(env, s) == env.selector(Trim(s))
  {
    hide Trim, TrimParens, TrimParensForBinary, TopFrom;
    var t := Trim(s);
    TrimTwice(s);
    BraceStays(t, 1);
  }

  /** A function name, and its arguments in parentheses. */
  function Call(name: string, arguments: string): string { name + ("(" + arguments + ")") }

  lemma NameStarts(name: string)
    requires IsFunctionName(name)
    ensures |name| >= 3 && IsLetter(name[0])
    ensures name[0] !in {'o', 'u'} && (name[0] == 'a' ==> name[1] != 'n')
  {
  }

  lemma RangeLetters(name: string)
    requires IsRangeFunction(name)
    ensures forall k :: 0 <= k < |name| ==> 'a' <= name[k] <= 'z' || name[k] == '_'
  {
  }

  lemma VectorLetters(name: string)
    requires IsVectorFunction(name)
    ensures forall k :: 0 <= k < |name| ==> 'a' <= name[k] <= 'z' || name[k] == '_'
  {
  }

  lemma NameLetters(name: string)
    requires IsFunctionName(name)
    ensures forall k :: 0 <= k < |name| ==> 'a' <= name[k] <= 'z' || name[k] == '_'
  {
    hide IsRangeFunction, IsVectorFunction;
    if IsRangeFunction(name) {
      RangeLetters(name);
    } else {
      VectorLetters(name);
    }
  }

  lemma NoOpAtName(s: string, name: string)
    requires IsFunctionName(name) && |name| < |s| && name <= s
    ensures forall k :: 0 <= k < |name| ==> Plain(s[k]) && ReadOpAt(s, k) == None
  {
    hide ReadOpAt, IsFunctionName;
    NameStarts(name);
    NameLetters(name);
    forall k | 0 <= k < |name| ensures Plain(s[k]) && ReadOpAt(s, k) == None {
      assert s[k] == name[k];
      if k > 0 {
        assert s[k - 1] == name[k - 1];
        NoOpInIdentifier(s, k);
      } else {
        NoOpFirst(s, name);
      }
    }
  }

  lemma NoOpFirst(s: string, name: string)
    requires 3 <= |name| < |s| && name <= s && IsLetter(name[0]) && name[0] !in {'o', 'u'}
    requires name[0] == 'a' ==> name[1] != 'n'
    requires forall k :: 0 <= k < |name| ==> 'a' <= name[k] <= 'z' || name[k] == '_'
    ensures ReadOpAt(s, 0) == None
  {
    assert s[0] == name[0] && s[1] == name[1];
    assert Lower(s[0 + 0]) == name[0] && Lower(s[0 + 1]) == name[1];
    assert "unless"[0] == 'u' && "and"[0] == 'a' && "and"[1] == 'n' && "or"[0] == 'o';
  }

  lemma CallIsNotSplit(env: Env, name: string, arguments: string)
    requires IsFunctionName(name) && forall k :: 0 <= k < |arguments| ==> Plain(arguments[k])
    ensures var s := Call(name, arguments); Trim(s) == s && FindTop(env, s, 1) == None
    ensures !IsWrapped(Call(name, arguments))
  {
    hide IsFunctionName, TopFrom, ReadOpAt, MatchFrom, Trim;
    var s := Call(name, arguments);
    NameStarts(name);
    NameLetters(name);
    var (b, e) := (|name| + 1, |name| + 1 + |arguments|);
    assert s[0] == name[0] && s[|s| - 1] == ')' && s[|name|] == '(' && s[e] == ')';
    TrimmedEnds(s);
    NoOpAtName(s, name);
    TopOverQuiet(env, s, 1, 0, |name|, None);
    TopSteps(env, s, 1, |name|, 0, None);
    assert forall k :: b <= k < e ==> s[k] == arguments[k - b];
    TopInside(env, s, 1, b, e, 1, None);
    TopSteps(env, s, 1, e, 1, None);
    AtEnd(env, s, 1, |s|, None);
  }

  lemma {:induction false} EndOfName(s: string, name: string, i: nat)
    requires i <= |name| < |s| && name <= s && s[|name|] == '('
    requires forall k :: 0 <= k < |name| ==> IsLetter(name[k]) || name[k] == '_'
    ensures IdentifierEnd(s, i) == |name|
    decreases |name| - i
  {
    if i < |name| {
      assert s[i] == name[i];
      EndOfName(s, name, i + 1);
    }
  }

  const FUNCTIONS: set<string> :=
    {"count_over_time", "rate", "bytes_over_time", "bytes_rate", "sum_over_time", "avg_over_time", "max_over_time",
     "min_over_time", "first_over_time", "last_over_time", "stdvar_over_time", "stddev_over_time", "absent_over_time",
     "quantile_over_time", "sum", "min", "max", "avg", "count", "stddev", "stdvar", "topk", "bottomk", "vector",
     "label_replace", "label_join"}

  lemma Listed(name: string)
    requires name in FUNCTIONS
    ensures IsFunctionName(name)
  {
  }

  /** A call of a known function goes to its parser whole. */
  lemma CallIsHandedOver(env: Env, name: string, arguments: string)
    requires ReadsNumbers(env) && name in FUNCTIONS && forall k :: 0 <= k < |arguments| ==> Plain(arguments[k])
    ensures Parse(env, Call(name, arguments)) == env.named(Call(name, arguments))
  {
    hide IsFunctionName, FindTop, Trim, IsWrapped;
    Listed(name);
    hide FUNCTIONS;
    var s := Call(name, arguments);
    NameStarts(name);
    NameLetters(name);
    CallIsNotSplit(env, name, arguments);
    assert s[|name|] == '(' && s[0] == name[0];
    EndOfName(s, name, 0);
    assert s[..|name|] == name;
    assert env.float(s) == None;
  }

  // ---------------------------------------------------------------- numbers

  function Numeral(n: nat): string {
    (if n < 10 then "" else Numeral(n / 10)) + [('0' as int + n % 10) as char]
  }

  lemma {:induction false} NumeralMeans(n: nat)
    ensures Digits(Numeral(n)) && Decimal(Numeral(n)) == n as real
  {
    var (s, last) := (Numeral(n), ('0' as int + n % 10) as char);
    assert s[|s| - 1] == last && last as int - '0' as int == n % 10;
    if n < 10 {
      assert s == [last] && s[..0] == "";
    } else {
      NumeralMeans(n / 10);
      assert s[..|s| - 1] == Numeral(n / 10);
      assert n == 10 * (n / 10) + n % 10;
      forall k | 0 <= k < |s| ensures IsDigit(s[k]) {
        assert k < |s| - 1 ==> s[k] == Numeral(n / 10)[k];
      }
    }
  }

  lemma Pow2Of11()
    ensures Pow2(11) == 2048
  {
    assert Pow2(4) == 16;
    assert Pow2(7) == 128;
  }

  lemma PowersOf2()
    ensures Pow2(54) == 18014398509481984 && Pow2(97) == 158456325028528675187087900672
  {
    hide Pow2;
    Pow2Of11();
    Pow2Is64();
    Pow2Adds(11, 11);
    Pow2Adds(22, 11);
    Pow2Adds(64, 33);
    Pow2Adds(11, 43);
    Pow2Adds(54, 43);
    Pow2Adds(10, 33);
    Pow2Adds(10, 1);
    Pow2Of1();
  }

  lemma Pow2Of1()
    ensures Pow2(1) == 2
  {
  }

  lemma Square(a: nat, b: nat, x: nat)
    requires Pow2(a) == x && b == 2 * a
    ensures Pow2(b) == x * x
  {
    hide Pow2;
    Pow2Adds(a, a);
  }

  /** The limit is that of float64: the numbers below it do not round to infinity. */
  lemma FloatLimitIs()
    ensures Pow2(1024) >= Pow2(970) && FLOAT_LIMIT == (Pow2(1024) - Pow2(970)) as real
  {
    hide Pow2;
    PowersOf2();
    var p: nat := 158456325028528675187087900672;
    Square(97, 194, p);
    Square(194, 388, p * p);
    Square(388, 776, p * p * (p * p));
    Pow2Adds(776, 194);
    Pow2Adds(970, 54);
  }

  /** A number alone is read as its value, up to the largest float64. */
  lemma NumberIsRead(env: Env, n: nat)
    requires ReadsNumbers(env)
    ensures if n < Pow2(1024) - Pow2(970) then Parse(env, Numeral(n)) == Ok(Scalar(n as real))
            else Parse(env, Numeral(n)).Err?
  {
    hide Pow2, ParseBinary, Numeral, Decimal, Digits, Trim;
    NumeralMeans(n);
    FloatLimitIs();
    TrimPrinted(Number(Numeral(n)), false);
    ParseNumber(env, Numeral(n), 1);
    if Numeral(n) == "" {
      assert false by {
        NoDigits();
      }
    }
  }

  lemma NoDigits()
    ensures !Digits("")
  {
  }

  // ---------------------------------------------------------------- words as operators

  /** Not next to a letter, a digit, an underscore or a dot. */
  predicate Alone(s: string, k: int) {
    k < 0 || k >= |s|
    || !('a' <= s[k] <= 'z' || 'A' <= s[k] <= 'Z' || '0' <= s[k] <= '9' || s[k] == '_' || s[k] == '.')
  }

  predicate SameLetter(c: char, lower: char) { c == lower || ('A' <= c <= 'Z' && c as int + 32 == lower as int) }

  lemma LowerIs(c: char, lower: char)
    requires 'a' <= lower <= 'z'
    ensures Lower(c) == lower <==> SameLetter(c, lower)
  {
  }

  lemma WordIff(s: string, i: nat, word: string)
    requires forall k :: 0 <= k < |word| ==> 'a' <= word[k] <= 'z'
    ensures WordIs(s, i, word) <==>
      i + |word| <= |s| && (forall k :: 0 <= k < |word| ==> SameLetter(s[i + k], word[k])) && Alone(s, i + |word|)
  {
    if i + |word| <= |s| {
      forall k | 0 <= k < |word| ensures Lower(s[i + k]) == word[k] <==> SameLetter(s[i + k], word[k]) {
        LowerIs(s[i + k], word[k]);
      }
    }
  }

  /** or, and and unless are operators in any case, and only as words of their own. */
  lemma WordIsReadIff(s: string, i: nat, op: Op)
    requires i < |s| && IsWord(op)
    ensures ReadOpAt(s, i) == Some(op) <==>
      var word := op.Text();
      i + |word| <= |s| && (forall k :: 0 <= k < |word| ==> SameLetter(s[i + k], word[k]))
      && Alone(s, i - 1) && Alone(s, i + |word|)
  {
    LogQLRoundTrip.WordLetters(op);
    WordIff(s, i, op.Text());
    FirstLetters(s, i);
    if WordIs(s, i, op.Text()) {
      assert Lower(s[i + 0]) == op.Text()[0];
      LetterIsNoSymbol(s, i);
    }
  }

  lemma LetterIsNoSymbol(s: string, i: nat)
    requires i < |s| && 'a' <= Lower(s[i]) <= 'z'
    ensures SymbolAt(s, i) == None
  {
  }

  lemma FirstLetters(s: string, i: nat)
    requires i < |s|
    ensures WordIs(s, i, "unless") ==> Lower(s[i]) == 'u'
    ensures WordIs(s, i, "and") ==> Lower(s[i]) == 'a'
    ensures WordIs(s, i, "or") ==> Lower(s[i]) == 'o'
  {
    assert "unless"[0] == 'u' && "and"[0] == 'a' && "or"[0] == 'o';
    assert s[i + 0] == s[i];
  }
}
