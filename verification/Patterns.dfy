/** Regular expressions made of characters, dots, stars, groups and alternatives: how their text
    is read and which strings they match, anchored at both ends. */
module Patterns {
  import opened Options

  datatype Regex = Empty | Literal(c: char) | Any | Star(r: Regex) | Cat(l: Regex, r: Regex) | Alt(l: Regex, r: Regex)

  /** Dots match line breaks as well. */
  predicate Accepts(r: Regex, v: string)
    decreases r, |v|
  {
    match r
    case Empty => v == ""
    case Literal(c) => v == [c]
    case Any => |v| == 1
    case Star(one) => v == "" || exists i :: 0 < i <= |v| && Accepts(one, v[..i]) && Accepts(r, v[i..])
    case Cat(a, b) => exists i :: 0 <= i <= |v| && Accepts(a, v[..i]) && Accepts(b, v[i..])
    case Alt(a, b) => Accepts(a, v) || Accepts(b, v)
  }

  // ---------------------------------------------------------------- reading

  /** An expression and the text after it. */
  type Reading = Option<(Regex, string)>

  predicate Meta(c: char) { c in {'*', '+', '?', '[', ']', '{', '}', '\\', '^', '$'} }

  /** Alternatives up to the end or to a closing parenthesis. Escapes, classes, anchors and the
      other repetitions are not read. */
  function ReadAlternatives(s: string): (r: Reading)
    ensures r.Some? ==> |r.value.1| <= |s| && (r.value.1 != "" ==> r.value.1[0] == ')')
    decreases |s|, 3
  {
    match ReadSequence(s)
    case None => None
    case Some((a, rest)) =>
      if rest != "" && rest[0] == '|' then
        match ReadAlternatives(rest[1..])
        case None => None
        case Some((b, end)) => Some((Alt(a, b), end))
      else Some((a, rest))
  }

  function ReadSequence(s: string): (r: Reading)
    ensures r.Some? ==> |r.value.1| <= |s| && (r.value.1 != "" ==> r.value.1[0] in {'|', ')'})
    decreases |s|, 2
  {
    if s == "" || s[0] in {'|', ')'} then Some((Empty, s))
    else
      match ReadItem(s)
      case None => None
      case Some((a, rest)) =>
        match ReadSequence(rest)
        case None => None
        case Some((b, end)) => Some((Cat(a, b), end))
  }

  function ReadItem(s: string): (r: Reading)
    requires s != ""
    ensures r.Some? ==> |r.value.1| < |s|
    decreases |s|, 1
  {
    match ReadAtom(s)
    case None => None
    case Some((a, rest)) => if rest != "" && rest[0] == '*' then Some((Star(a), rest[1..])) else Some((a, rest))
  }

  function ReadAtom(s: string): (r: Reading)
    requires s != ""
    ensures r.Some? ==> |r.value.1| < |s|
    decreases |s|, 0
  {
    if s[0] == '(' then
      match ReadAlternatives(if "?:" <= s[1..] then s[3..] else s[1..])
      case None => None
      case Some((a, rest)) => if rest == "" then None else Some((a, rest[1..]))
    else if s[0] == '.' then Some((Any, s[1..]))
    else if Meta(s[0]) then None
    else Some((Literal(s[0]), s[1..]))
  }

  function Read(s: string): Option<Regex> {
    match ReadAlternatives(s)
    case None => None
    case Some((r, rest)) => if rest == "" then Some(r) else None
  }

  lemma ReadOne(s: string, a: Regex)
    requires ReadSequence(s) == Some((a, ""))
    ensures Read(s) == Some(a)
  {
  }

  lemma ReadTwo(s: string, a: Regex, rest: string, b: Regex)
    requires ReadSequence(s) == Some((a, "|" + rest)) && ReadSequence(rest) == Some((b, ""))
    ensures Read(s) == Some(Alt(a, b))
  {
    assert ("|" + rest)[1..] == rest;
    assert ReadAlternatives(rest) == Some((b, ""));
  }

  // ---------------------------------------------------------------- parts of a match

  lemma CatBy(a: Regex, b: Regex, v: string, i: nat)
    requires i <= |v| && Accepts(a, v[..i]) && Accepts(b, v[i..])
    ensures Accepts(Cat(a, b), v)
  {
  }

  lemma CatSplit(a: Regex, b: Regex, v: string) returns (i: nat)
    requires Accepts(Cat(a, b), v)
    ensures i <= |v| && Accepts(a, v[..i]) && Accepts(b, v[i..])
  {
    i :| 0 <= i <= |v| && Accepts(a, v[..i]) && Accepts(b, v[i..]);
  }

  lemma AltIs(a: Regex, b: Regex, v: string)
    ensures Accepts(Alt(a, b), v) <==> Accepts(a, v) || Accepts(b, v)
  {
  }

  lemma EmptyIs(v: string)
    ensures Accepts(Empty, v) <==> v == ""
  {
  }

  lemma LiteralIs(c: char, v: string)
    ensures Accepts(Literal(c), v) <==> v == [c]
  {
  }

  // ---------------------------------------------------------------- expressions that match everything

  ghost predicate AcceptsAll(r: Regex) { forall v :: Accepts(r, v) }

  lemma AllAccepts(r: Regex, v: string)
    requires AcceptsAll(r)
    ensures Accepts(r, v)
  {
  }

  lemma {:induction false} DotStarAccepts(v: string)
    ensures Accepts(Star(Any), v)
  {
    if v != "" {
      DotStarAccepts(v[1..]);
      assert Accepts(Any, v[..1]);
    }
  }

  lemma AllIsAll(r: Regex)
    requires r == Star(Any) || r == Cat(Star(Any), Empty)
    ensures AcceptsAll(r)
  {
    forall v ensures Accepts(r, v) {
      DotStarAccepts(v);
      if r.Cat? {
        assert v[..|v|] == v && v[|v|..] == "";
        assert Accepts(Star(Any), v[..|v|]) && Accepts(Empty, v[|v|..]);
      }
    }
  }

  // ---------------------------------------------------------------- leading and trailing characters

  predicate Ordinary(s: string) { forall k :: 0 <= k < |s| ==> !Meta(s[k]) && s[k] !in {'(', ')', '|', '.'} }

  /** The characters of `text`, then r. */
  function After(text: string, r: Regex): Regex {
    if text == "" then r else Cat(Literal(text[0]), After(text[1..], r))
  }

  lemma FirstAccepts(c: char, r: Regex, v: string)
    ensures Accepts(Cat(Literal(c), r), v) <==> v != "" && v[0] == c && Accepts(r, v[1..])
  {
    hide Accepts;
    if Accepts(Cat(Literal(c), r), v) {
      var i := CatSplit(Literal(c), r, v);
      LiteralIs(c, v[..i]);
      assert |v[..i]| == i == 1 && v[..i][0] == v[0];
    }
    if v != "" && v[0] == c && Accepts(r, v[1..]) {
      LiteralIs(c, v[..1]);
      CatBy(Literal(c), r, v, 1);
    }
  }

  lemma {:induction false} AfterAccepts(text: string, r: Regex, v: string)
    ensures Accepts(After(text, r), v) <==> text <= v && Accepts(r, v[|text|..])
  {
    hide Accepts;
    if text == "" {
      assert v[0..] == v;
    } else {
      FirstAccepts(text[0], After(text[1..], r), v);
      if v != "" {
        AfterAccepts(text[1..], r, v[1..]);
        assert text <= v <==> text[0] == v[0] && text[1..] <= v[1..];
        assert text <= v ==> v[1..][|text| - 1..] == v[|text|..];
      }
    }
  }

  lemma TextAccepts(text: string, v: string)
    ensures Accepts(After(text, Empty), v) <==> v == text
  {
    hide Accepts;
    AfterAccepts(text, Empty, v);
    if text <= v {
      EmptyIs(v[|text|..]);
      assert v[|text|..] == "" <==> v == text;
    }
  }

  lemma EndsWith(r: Regex, text: string, v: string)
    requires Accepts(Cat(r, After(text, Empty)), v)
    ensures |text| <= |v| && v[|v| - |text|..] == text
  {
    hide Accepts;
    var i := CatSplit(r, After(text, Empty), v);
    TextAccepts(text, v[i..]);
    assert i == |v| - |text|;
  }

  lemma AllBefore(r: Regex, text: string, v: string)
    requires AcceptsAll(r) && |text| <= |v| && v[|v| - |text|..] == text
    ensures Accepts(Cat(r, After(text, Empty)), v)
  {
    hide Accepts, AcceptsAll;
    var i := |v| - |text|;
    TextAccepts(text, v[i..]);
    AllAccepts(r, v[..i]);
    CatBy(r, After(text, Empty), v, i);
  }

  /** Everything, then the characters of `text`. */
  lemma AllThenAccepts(r: Regex, text: string, v: string)
    requires AcceptsAll(r)
    ensures Accepts(Cat(r, After(text, Empty)), v) <==> |text| <= |v| && v[|v| - |text|..] == text
  {
    hide Accepts, AcceptsAll, After;
    if Accepts(Cat(r, After(text, Empty)), v) {
      EndsWith(r, text, v);
    } else if |text| <= |v| && v[|v| - |text|..] == text {
      AllBefore(r, text, v);
    }
  }

  /** Characters in front are read one by one. */
  lemma {:induction false} ReadAfter(text: string, s: string, r: Regex, end: string)
    requires Ordinary(text) && (s != "" ==> s[0] != '*') && ReadSequence(s) == Some((r, end))
    ensures ReadSequence(text + s) == Some((After(text, r), end))
    decreases |text|
  {
    if text == "" {
      assert text + s == s;
    } else {
      var rest := text[1..] + s;
      ReadAfter(text[1..], s, r, end);
      assert (text + s)[1..] == rest && (text + s)[0] == text[0];
      assert rest != "" ==> rest[0] != '*';
      assert ReadItem(text + s) == Some((Literal(text[0]), rest));
    }
  }

  /** Trailing characters up to the end of a sequence. */
  lemma ReadTrailing(text: string, s: string)
    requires Ordinary(text) && (s == "" || s[0] in {'|', ')'})
    ensures ReadSequence(text + s) == Some((After(text, Empty), s))
  {
    assert ReadSequence(s) == Some((Empty, s));
    ReadAfter(text, s, Empty, s);
  }

  /** The three ways to write what matches everything. */
  const ALL := [".*", "(.*)", "(?:.*)"]

  function AllRegex(k: nat): Regex { if k == 0 then Star(Any) else Cat(Star(Any), Empty) }

  lemma DotStarIsRead(rest: string)
    ensures ReadItem(".*" + rest) == Some((Star(Any), rest))
  {
    assert (".*" + rest)[1..] == "*" + rest && ("*" + rest)[1..] == rest;
  }

  lemma DotStarInGroup(rest: string)
    ensures ReadAlternatives(".*)" + rest) == Some((Cat(Star(Any), Empty), ")" + rest))
  {
    assert ".*)" + rest == ".*" + (")" + rest);
    DotStarIsRead(")" + rest);
    assert ReadSequence(")" + rest) == Some((Empty, ")" + rest));
  }

  lemma AllIsRead(k: nat, rest: string)
    requires k < |ALL| && (rest != "" ==> rest[0] != '*')
    ensures ReadItem(ALL[k] + rest) == Some((AllRegex(k), rest)) && AcceptsAll(AllRegex(k))
  {
    AllIsAll(AllRegex(k));
    DotStarIsRead(rest);
    DotStarInGroup(rest);
    assert (")" + rest)[1..] == rest;
    match k
    case 0 =>
    case 1 => assert ("(.*)" + rest)[1..] == ".*)" + rest && (".*)" + rest)[0] == '.';
    case 2 =>
      assert ("(?:.*)" + rest)[1..] == "?:" + (".*)" + rest);
      assert ("(?:.*)" + rest)[3..] == ".*)" + rest;
  }

  /** ALL[k] followed by characters up to the end of a sequence. */
  lemma AllSequence(k: nat, text: string, s: string)
    requires k < |ALL| && Ordinary(text) && (s == "" || s[0] in {'|', ')'})
    ensures ReadSequence(ALL[k] + (text + s)) == Some((Cat(AllRegex(k), After(text, Empty)), s))
    ensures AcceptsAll(AllRegex(k))
  {
    hide ReadItem;
    var rest := text + s;
    assert rest != "" ==> rest[0] != '*';
    AllIsRead(k, rest);
    ReadTrailing(text, s);
    assert (ALL[k] + rest)[0] == ALL[k][0];
  }

  lemma AllStarts(k: nat, rest: string)
    requires k < |ALL|
    ensures ALL[k] + rest != "" && (ALL[k] + rest)[0] != '*'
  {
    assert (ALL[k] + rest)[0] == ALL[k][0];
  }

  lemma LastPart(left: string, right: string, v: string)
    requires left <= v && |left| + |right| <= |v|
    ensures v[|left|..][|v[|left|..]| - |right|..] == v[|v| - |right|..]
  {
  }

  /** left ALL[k] right */
  lemma PlainPattern(left: string, k: nat, right: string, v: string)
    requires k < |ALL| && Ordinary(left) && Ordinary(right)
    ensures var r := Read(left + ALL[k] + right);
      r.Some? && (Accepts(r.value, v) <==>
                  |left| + |right| <= |v| && left <= v && v[|v| - |right|..] == right)
  {
    hide ReadSequence, Accepts, Read;
    AllSequence(k, right, "");
    assert right + "" == right;
    var all := Cat(AllRegex(k), After(right, Empty));
    AllStarts(k, right);
    ReadAfter(left, ALL[k] + right, all, "");
    assert left + ALL[k] + right == left + (ALL[k] + right);
    ReadOne(left + ALL[k] + right, After(left, all));
    AfterAccepts(left, all, v);
    if left <= v {
      var rest := v[|left|..];
      AllThenAccepts(AllRegex(k), right, rest);
      if |right| <= |rest| {
        LastPart(left, right, v);
      }
    }
  }

  /** left ALL[k] | right: two alternatives. */
  lemma AllOrNothing(left: string, k: nat, right: string, v: string)
    requires k < |ALL| && Ordinary(left) && Ordinary(right)
    ensures var r := Read(left + (ALL[k] + "|") + right);
      r.Some? && (Accepts(r.value, v) <==> left <= v || v == right)
  {
    hide ReadSequence, Accepts, Read;
    var (s, text) := ("|" + right, left + (ALL[k] + "|") + right);
    AllSequence(k, "", s);
    assert "" + s == s;
    var all := Cat(AllRegex(k), After("", Empty));
    AllStarts(k, s);
    ReadAfter(left, ALL[k] + s, all, s);
    ReadTrailing(right, "");
    assert right + "" == right;
    assert text == left + (ALL[k] + s);
    ReadTwo(text, After(left, all), right, After(right, Empty));
    AltIs(After(left, all), After(right, Empty), v);
    TextAccepts(right, v);
    AfterAccepts(left, all, v);
    if left <= v {
      AllThenAccepts(AllRegex(k), "", v[|left|..]);
    }
  }

  /** left | ALL[k] right */
  lemma NothingOrAll(left: string, k: nat, right: string, v: string)
    requires k < |ALL| && Ordinary(left) && Ordinary(right)
    ensures var r := Read(left + ("|" + ALL[k]) + right);
      r.Some? && (Accepts(r.value, v) <==> v == left || (|right| <= |v| && v[|v| - |right|..] == right))
  {
    hide ReadSequence, Accepts, Read;
    var (s, text) := ("|" + (ALL[k] + right), left + ("|" + ALL[k]) + right);
    AllSequence(k, right, "");
    assert right + "" == right;
    ReadTrailing(left, s);
    assert text == left + s;
    var all := Cat(AllRegex(k), After(right, Empty));
    ReadTwo(text, After(left, Empty), ALL[k] + right, all);
    AltIs(After(left, Empty), all, v);
    TextAccepts(left, v);
    AllThenAccepts(AllRegex(k), right, v);
  }
}
