/** Selectors that one pass over the label index can serve, and the match-all patterns that are
    dropped from them. */
module Selectors {
  import opened Options
  import opened Patterns

  const METRIC_NAME := "__name__"

  datatype Kind = Equal | NotEqual | Regexp | NotRegexp
  datatype Matcher = Matcher(name: string, kind: Kind, value: string)
  datatype Label = Label(name: string, value: string)

  /** The label equalities of one selector; its metric name is set apart. */
  datatype MatcherSet = MatcherSet(metric: string, labels: seq<Label>)

  type Labels = map<string, string>

  // ---------------------------------------------------------------- match-all patterns

  /** unicode.IsSpace */
  predicate IsSpace(c: char) {
    var n := c as int;
    9 <= n <= 13 || n == 32 || n == 0x85 || n == 0xA0 || n == 0x1680 || 0x2000 <= n <= 0x200A
    || n == 0x2028 || n == 0x2029 || n == 0x202F || n == 0x205F || n == 0x3000
  }

  function LeadingSpaces(s: string): (n: nat)
    ensures n <= |s| && (forall k :: 0 <= k < n ==> IsSpace(s[k])) && (n < |s| ==> !IsSpace(s[n]))
  {
    if s != [] && IsSpace(s[0]) then 1 + LeadingSpaces(s[1..]) else 0
  }

  function TrailingSpaces(s: string): (n: nat)
    ensures n <= |s| && (forall k :: |s| - n <= k < |s| ==> IsSpace(s[k]))
    ensures n < |s| ==> !IsSpace(s[|s| - n - 1])
  {
    if s != [] && IsSpace(s[|s| - 1]) then 1 + TrailingSpaces(s[..|s| - 1]) else 0
  }

  /** A pattern as spaces before, core, and spaces after. */
  datatype Padded = Padded(left: string, core: string, right: string)

  function Pads(s: string): (r: Padded)
    ensures s == r.left + r.core + r.right
  {
    var rest := s[LeadingSpaces(s)..];
    var n := |rest| - TrailingSpaces(rest);
    Padded(s[..LeadingSpaces(s)], rest[..n], rest[n..])
  }

  lemma PadsOf(s: string, left: string, core: string, right: string)
    requires s == left + core + right && core != "" && !IsSpace(core[0]) && !IsSpace(core[|core| - 1])
    requires (forall c :: c in left ==> IsSpace(c)) && (forall c :: c in right ==> IsSpace(c))
    ensures Pads(s) == Padded(left, core, right)
  {
    hide IsSpace;
    var n := LeadingSpaces(s);
    assert s[|left|] == core[0];
    assert forall k :: 0 <= k < |left| ==> s[k] == left[k];
    assert n == |left|;
    assert s[n..] == core + right;
    var m := TrailingSpaces(core + right);
    assert (core + right)[|core| - 1] == core[|core| - 1];
    assert forall k :: 0 <= k < |right| ==> (core + right)[|core| + k] == right[k];
    assert m == |right|;
  }

  // One alternative, or an empty one after or before it.
  const PLAIN := {".*", "(.*)", "(?:.*)"}
  const OR_EMPTY := {".*|", "(.*)|", "(?:.*)|"}
  const EMPTY_OR := {"|.*", "|(.*)", "|(?:.*)"}

  /** matcherIsNoop */
  predicate Noop(m: Matcher) {
    m.kind.Regexp? && Pads(m.value).core in PLAIN + OR_EMPTY + EMPTY_OR
  }

  /** What a pattern around one of the nine cores matches, anchored at both ends; the spaces
      belong to the alternative they stand at. */
  predicate PaddedMatches(p: Padded, v: string) {
    if p.core in PLAIN then
      |p.left| + |p.right| <= |v| && p.left <= v && v[|v| - |p.right|..] == p.right
    else if p.core in OR_EMPTY then p.left <= v || v == p.right
    else v == p.left || (|p.right| <= |v| && v[|v| - |p.right|..] == p.right)
  }

  /** Matching with regular expressions: by their meaning for those that Patterns reads, open
      for all others. */
  datatype Env = Env(other: (string, string) -> bool)

  predicate RegexpMatches(env: Env, pattern: string, v: string) {
    match Read(pattern)
    case Some(r) => Accepts(r, v)
    case None => env.other(pattern, v)
  }

  lemma SpacesAreOrdinary(s: string)
    requires forall c :: c in s ==> IsSpace(c)
    ensures Ordinary(s)
  {
    forall k | 0 <= k < |s| ensures !Meta(s[k]) && s[k] !in {'(', ')', '|', '.'} {
      assert s[k] in s;
    }
  }

  lemma WhichAll(core: string) returns (k: nat)
    requires core in PLAIN + OR_EMPTY + EMPTY_OR
    ensures k < |ALL|
    ensures core in PLAIN ==> core == ALL[k]
    ensures core in OR_EMPTY ==> core == ALL[k] + "|"
    ensures core in EMPTY_OR ==> core == "|" + ALL[k]
  {
    CoresDiffer(core);
    k := if core in {".*", ".*|", "|.*"} then 0 else if core in {"(.*)", "(.*)|", "|(.*)"} then 1 else 2;
    assert ALL[0] + "|" == ".*|" && ALL[1] + "|" == "(.*)|" && ALL[2] + "|" == "(?:.*)|";
    assert "|" + ALL[0] == "|.*" && "|" + ALL[1] == "|(.*)" && "|" + ALL[2] == "|(?:.*)";
  }

  /** The nine patterns mean what PaddedMatches says, with any spaces around them. */
  lemma PaddedMeaning(env: Env, pattern: string, v: string)
    requires Pads(pattern).core in PLAIN + OR_EMPTY + EMPTY_OR
    ensures RegexpMatches(env, pattern, v) <==> PaddedMatches(Pads(pattern), v)
  {
    hide Read, Accepts;
    var p := Pads(pattern);
    SpacesAround(pattern);
    hide Pads;
    var k := WhichAll(p.core);
    CoresDiffer(p.core);
    if p.core in PLAIN {
      PlainPattern(p.left, k, p.right, v);
    } else if p.core in OR_EMPTY {
      AllOrNothing(p.left, k, p.right, v);
    } else {
      NothingOrAll(p.left, k, p.right, v);
    }
  }

  lemma SpacesAround(s: string)
    ensures var p := Pads(s); s == p.left + p.core + p.right && Ordinary(p.left) && Ordinary(p.right)
  {
    hide IsSpace;
    var p := Pads(s);
    var rest := s[LeadingSpaces(s)..];
    assert forall k :: 0 <= k < |p.right| ==> p.right[k] == rest[|rest| - TrailingSpaces(rest) + k];
    SpacesAreOrdinary(p.left);
    SpacesAreOrdinary(p.right);
  }

  /** The spaces restrict when they stand at the alternative that could match everything. */
  predicate Restricts(pattern: string) {
    var p := Pads(pattern);
    (p.left != "" && p.core !in EMPTY_OR) || (p.right != "" && p.core !in OR_EMPTY)
  }

  /** A dropped pattern matches everything exactly when its spaces do not restrict; "x" is a
      value it misses otherwise. */
  lemma DroppedMatchesAllIff(env: Env, m: Matcher)
    requires Noop(m)
    ensures (forall v :: RegexpMatches(env, m.value, v)) <==> !Restricts(m.value)
    ensures RegexpMatches(env, m.value, "x") <==> !Restricts(m.value)
  {
    hide Pads, RegexpMatches, PaddedMatches, Restricts;
    PaddedMeaning(env, m.value, "x");
    PaddedRestricts(m.value, "x");
    if !Restricts(m.value) {
      forall v ensures RegexpMatches(env, m.value, v) {
        PaddedMeaning(env, m.value, v);
        PaddedRestricts(m.value, v);
      }
    }
  }

  lemma PaddedRestricts(pattern: string, v: string)
    requires Pads(pattern).core in PLAIN + OR_EMPTY + EMPTY_OR
    ensures !Restricts(pattern) ==> PaddedMatches(Pads(pattern), v)
    ensures Restricts(pattern) && v == "x" ==> !PaddedMatches(Pads(pattern), v)
  {
    CoresDiffer(Pads(pattern).core);
    PadsAreSpaces(pattern);
    hide Pads;
    assert v[|v|..] == "";
  }

  lemma CoresDiffer(core: string)
    ensures core in PLAIN ==> core !in OR_EMPTY && core !in EMPTY_OR
    ensures core in OR_EMPTY ==> core !in EMPTY_OR
  {
    assert core in PLAIN ==> core[|core| - 1] != '|' && core[0] != '|';
    assert core in OR_EMPTY ==> core[|core| - 1] == '|' && core[0] != '|';
    assert core in EMPTY_OR ==> core[0] == '|';
  }

  lemma PadsAreSpaces(s: string)
    ensures var p := Pads(s);
      (p.left != "" ==> IsSpace(p.left[0])) && (p.right != "" ==> IsSpace(p.right[|p.right| - 1]))
  {
  }

  // ---------------------------------------------------------------- selectors

  function ValueOf(series: Labels, name: string): string {
    if name in series then series[name] else ""
  }

  predicate Matches(env: Env, m: Matcher, series: Labels) {
    var value := ValueOf(series, m.name);
    match m.kind
    case Equal => value == m.value
    case NotEqual => value != m.value
    case Regexp => RegexpMatches(env, m.value, value)
    case NotRegexp => !RegexpMatches(env, m.value, value)
  }

  predicate SelectedBy(env: Env, matchers: seq<Matcher>, series: Labels) {
    forall i :: 0 <= i < |matchers| ==> Matches(env, matchers[i], series)
  }

  /** What the matchers that are not dropped select. */
  predicate KeptSelect(env: Env, matchers: seq<Matcher>, series: Labels) {
    forall i :: 0 <= i < |matchers| && !Noop(matchers[i]) ==> Matches(env, matchers[i], series)
  }

  predicate SetSelects(metric: string, labels: seq<Label>, series: Labels) {
    (metric != "" ==> ValueOf(series, METRIC_NAME) == metric)
    && forall p :: 0 <= p < |labels| ==> ValueOf(series, labels[p].name) == labels[p].value
  }

  function LabelMatchers(matchers: seq<Matcher>): nat {
    if matchers == [] then 0
    else
      var m := matchers[|matchers| - 1];
      LabelMatchers(matchers[..|matchers| - 1]) + if Noop(m) || m.name == METRIC_NAME then 0 else 1
  }

  /** The selectors one pass can serve: equalities with non-empty values, one per label, on one
      metric, with 1 to 64 labels. */
  predicate Exact(matchers: seq<Matcher>) {
    (forall i :: 0 <= i < |matchers| && !Noop(matchers[i]) ==>
      matchers[i].name != "" && matchers[i].kind.Equal? && matchers[i].value != "")
    && (forall i, j :: 0 <= i < j < |matchers| && !Noop(matchers[i]) && !Noop(matchers[j])
          && matchers[i].name == matchers[j].name
          ==> matchers[i].name == METRIC_NAME && matchers[i].value == matchers[j].value)
    && (exists i :: 0 <= i < |matchers| && !Noop(matchers[i]) && matchers[i].name == METRIC_NAME)
    && 1 <= LabelMatchers(matchers) <= 64
  }

  predicate WellFormed(wanted: MatcherSet) {
    wanted.metric != "" && 1 <= |wanted.labels| <= 64
    && (forall p :: 0 <= p < |wanted.labels| ==>
          wanted.labels[p].name != "" && wanted.labels[p].name != METRIC_NAME && wanted.labels[p].value != "")
    && forall p, q :: 0 <= p < q < |wanted.labels| ==> wanted.labels[p].name != wanted.labels[q].name
  }

  /** What the scan of the first i matchers knows. */
  ghost predicate Scanned(matchers: seq<Matcher>, i: nat, metric: string, seen: set<string>) {
    i <= |matchers|
    && (metric != "" <==> exists j :: 0 <= j < i && !Noop(matchers[j]) && matchers[j].name == METRIC_NAME)
    && METRIC_NAME !in seen
    && (forall j :: 0 <= j < i && !Noop(matchers[j]) ==>
          matchers[j].name != "" && matchers[j].kind.Equal? && matchers[j].value != ""
          && if matchers[j].name == METRIC_NAME then matchers[j].value == metric else matchers[j].name in seen)
    && (forall name :: name in seen ==> exists j :: 0 <= j < i && !Noop(matchers[j]) && matchers[j].name == name)
    && (forall j, k ::
          0 <= j < k < i && !Noop(matchers[j]) && !Noop(matchers[k]) && matchers[j].name == matchers[k].name ==>
          matchers[j].name == METRIC_NAME)
  }

  lemma ScanNoop(matchers: seq<Matcher>, i: nat, metric: string, seen: set<string>)
    requires i < |matchers| && Scanned(matchers, i, metric, seen) && Noop(matchers[i])
    ensures Scanned(matchers, i + 1, metric, seen)
  {
    hide Noop;
  }

  lemma ScanMetric(matchers: seq<Matcher>, i: nat, metric: string, seen: set<string>)
    requires i < |matchers| && Scanned(matchers, i, metric, seen) && !Noop(matchers[i])
    requires matchers[i].name == METRIC_NAME && matchers[i].kind.Equal? && matchers[i].value != ""
    ensures if metric != "" && metric != matchers[i].value then !Exact(matchers)
            else Scanned(matchers, i + 1, matchers[i].value, seen)
  {
    hide Noop, LabelMatchers;
    assert !Noop(matchers[i]);
    if metric != "" {
      var j :| 0 <= j < i && !Noop(matchers[j]) && matchers[j].name == METRIC_NAME;
      assert matchers[j].value == metric;
    }
  }

  lemma ScanLabel(matchers: seq<Matcher>, i: nat, metric: string, seen: set<string>)
    requires i < |matchers| && Scanned(matchers, i, metric, seen) && !Noop(matchers[i])
    requires matchers[i].name != METRIC_NAME && matchers[i].name != "" && matchers[i].kind.Equal?
    requires matchers[i].value != ""
    ensures if matchers[i].name in seen then !Exact(matchers)
            else Scanned(matchers, i + 1, metric, seen + {matchers[i].name})
  {
    hide Noop, LabelMatchers;
    assert !Noop(matchers[i]);
    if matchers[i].name in seen {
      var j :| 0 <= j < i && !Noop(matchers[j]) && matchers[j].name == matchers[i].name;
    }
  }

  lemma BadMatcher(matchers: seq<Matcher>, i: nat)
    requires i < |matchers| && !Noop(matchers[i])
    requires matchers[i].name == "" || !matchers[i].kind.Equal? || matchers[i].value == ""
    ensures !Exact(matchers)
  {
    assert !Noop(matchers[i]);
  }

  lemma ScanEnds(matchers: seq<Matcher>, metric: string, seen: set<string>)
    requires Scanned(matchers, |matchers|, metric, seen)
    ensures Exact(matchers) <==> metric != "" && 1 <= LabelMatchers(matchers) <= 64
  {
  }

  /** Accepts exactly the selectors above, and the equalities it returns select what the
      matchers that are not dropped select. */
  method ExactMatcherSet(ghost env: Env, matchers: seq<Matcher>) returns (r: Option<MatcherSet>)
    ensures r.Some? <==> Exact(matchers)
    ensures r.Some? ==> WellFormed(r.value)
    ensures r.Some? ==> forall s :: KeptSelect(env, matchers, s) <==> SetSelects(r.value.metric, r.value.labels, s)
  {
    hide Scanned, Exact, KeptSelect, SetSelects, Noop;
    var metric: string, seen: set<string>, labels: seq<Label> := "", {}, [];
    EmptyScan(env, matchers);
    for i := 0 to |matchers|
      invariant Scanned(matchers, i, metric, seen)
      invariant |labels| == LabelMatchers(matchers[..i])
      invariant Distinct(labels, seen)
      invariant forall s :: KeptSelect(env, matchers[..i], s) <==> SetSelects(metric, labels, s)
    {
      var m := matchers[i];
      ghost var (wasMetric, wasLabels) := (metric, labels);
      assert matchers[..i + 1][..i] == matchers[..i];
      forall s
        ensures KeptSelect(env, matchers[..i + 1], s) <==>
                KeptSelect(env, matchers[..i], s) && (Noop(m) || Matches(env, m, s))
      {
        KeptSelectMore(env, matchers, i, s);
      }
      if Noop(m) {
        ScanNoop(matchers, i, metric, seen);
        continue;
      }
      if m.name == METRIC_NAME {
        if !m.kind.Equal? || m.value == "" {
          BadMatcher(matchers, i);
          return None;
        }
        ScanMetric(matchers, i, metric, seen);
        if metric != "" && metric != m.value {
          return None;
        }
        metric := m.value;
        forall s ensures SetSelects(metric, labels, s) <==> SetSelects(wasMetric, labels, s) && Matches(env, m, s) {
          SetSelectsMetric(metric, wasMetric, labels, s);
        }
        continue;
      }
      if m.name == "" || !m.kind.Equal? || m.value == "" {
        BadMatcher(matchers, i);
        return None;
      }
      ScanLabel(matchers, i, metric, seen);
      if m.name in seen {
        return None;
      }
      OneMoreDistinct(labels, seen, Label(m.name, m.value));
      seen := seen + {m.name};
      labels := labels + [Label(m.name, m.value)];
      forall s ensures SetSelects(metric, labels, s) <==> SetSelects(wasMetric, wasLabels, s) && Matches(env, m, s) {
        SetSelectsMore(metric, wasLabels, Label(m.name, m.value), s);
      }
    }
    assert matchers[..|matchers|] == matchers;
    ScanEnds(matchers, metric, seen);
    if metric == "" || |labels| == 0 || |labels| > 64 {
      return None;
    }
    r := Some(MatcherSet(metric, labels));
  }

  /** The labels collected so far. */
  ghost predicate Distinct(labels: seq<Label>, seen: set<string>) {
    (forall p :: 0 <= p < |labels| ==>
      labels[p].name in seen && labels[p].name != "" && labels[p].name != METRIC_NAME && labels[p].value != "")
    && forall p, q :: 0 <= p < q < |labels| ==> labels[p].name != labels[q].name
  }

  lemma OneMoreDistinct(labels: seq<Label>, seen: set<string>, l: Label)
    requires Distinct(labels, seen) && l.name !in seen && l.name != "" && l.name != METRIC_NAME && l.value != ""
    ensures Distinct(labels + [l], seen + {l.name})
  {
  }

  lemma EmptyScan(env: Env, matchers: seq<Matcher>)
    ensures Scanned(matchers, 0, "", {})
    ensures forall s :: KeptSelect(env, matchers[..0], s) && SetSelects("", [], s)
  {
  }

  lemma SetSelectsMetric(metric: string, was: string, labels: seq<Label>, s: Labels)
    requires metric != "" && (was == "" || was == metric)
    ensures SetSelects(metric, labels, s) <==> SetSelects(was, labels, s) && ValueOf(s, METRIC_NAME) == metric
  {
  }

  lemma KeptSelectMore(env: Env, matchers: seq<Matcher>, i: nat, s: Labels)
    requires i < |matchers|
    ensures KeptSelect(env, matchers[..i + 1], s) <==>
            KeptSelect(env, matchers[..i], s) && (Noop(matchers[i]) || Matches(env, matchers[i], s))
  {
    hide Noop, Matches;
    if KeptSelect(env, matchers[..i + 1], s) {
      forall j | 0 <= j < i && !Noop(matchers[..i][j]) ensures Matches(env, matchers[..i][j], s) {
        assert matchers[..i + 1][j] == matchers[..i][j];
      }
      assert matchers[..i + 1][i] == matchers[i];
    }
  }

  lemma SetSelectsMore(metric: string, labels: seq<Label>, l: Label, s: Labels)
    ensures SetSelects(metric, labels + [l], s) <==> SetSelects(metric, labels, s) && ValueOf(s, l.name) == l.value
  {
    if SetSelects(metric, labels + [l], s) {
      assert (labels + [l])[|labels|] == l;
      forall p | 0 <= p < |labels| ensures ValueOf(s, labels[p].name) == labels[p].value {
        assert (labels + [l])[p] == labels[p];
      }
    }
  }

  // ---------------------------------------------------------------- what dropping a pattern costs

  /** A dropped pattern costs nothing when it matches everything, or when the equality on its
      label has a value it matches. */
  predicate Harmless(env: Env, wanted: MatcherSet, m: Matcher) {
    !Restricts(m.value)
    || (m.name == METRIC_NAME && RegexpMatches(env, m.value, wanted.metric))
    || exists p :: 0 <= p < |wanted.labels| && wanted.labels[p].name == m.name
                   && RegexpMatches(env, m.value, wanted.labels[p].value)
  }

  /** The equalities select exactly what the selector selects, less what dropped patterns
      would have removed. */
  lemma SelectedByIs(env: Env, matchers: seq<Matcher>, s: Labels)
    ensures SelectedBy(env, matchers, s) <==>
      KeptSelect(env, matchers, s) && forall i :: 0 <= i < |matchers| && Noop(matchers[i]) ==>
          Matches(env, matchers[i], s)
  {
    hide Noop, Matches;
  }

  lemma HarmlessMatches(env: Env, wanted: MatcherSet, m: Matcher, s: Labels)
    requires Noop(m) && WellFormed(wanted) && Harmless(env, wanted, m)
    requires SetSelects(wanted.metric, wanted.labels, s)
    ensures Matches(env, m, s)
  {
    hide Restricts, RegexpMatches;
    DroppedMatchesAllIff(env, m);
  }

  /** A series with exactly the wanted labels. */
  function Witness(metric: string, labels: seq<Label>): Labels {
    if labels == [] then map[METRIC_NAME := metric]
    else
      var l := labels[|labels| - 1];
      Witness(metric, labels[..|labels| - 1])[l.name := l.value]
  }

  lemma {:induction false} WitnessHas(metric: string, labels: seq<Label>)
    requires forall p :: 0 <= p < |labels| ==> labels[p].name != METRIC_NAME
    requires forall p, q :: 0 <= p < q < |labels| ==> labels[p].name != labels[q].name
    ensures var w := Witness(metric, labels);
      METRIC_NAME in w && w[METRIC_NAME] == metric
      && forall p :: 0 <= p < |labels| ==> labels[p].name in w && w[labels[p].name] == labels[p].value
  {
    if labels != [] {
      WitnessHas(metric, labels[..|labels| - 1]);
    }
  }

  /** A pattern that is not harmless: some series has all wanted labels and fails it. */
  lemma HarmIsSeen(env: Env, wanted: MatcherSet, m: Matcher) returns (s: Labels)
    requires Noop(m) && WellFormed(wanted) && !Harmless(env, wanted, m)
    ensures SetSelects(wanted.metric, wanted.labels, s) && !Matches(env, m, s)
  {
    hide Restricts, RegexpMatches, Noop;
    DroppedMatchesAllIff(env, m);
    WitnessHas(wanted.metric, wanted.labels);
    s := Witness(wanted.metric, wanted.labels);
    NoopIsRegexp(m);
    if m.name != METRIC_NAME && forall p :: 0 <= p < |wanted.labels| ==> wanted.labels[p].name != m.name {
      s := s[m.name := "x"];
    }
  }

  lemma NoopIsRegexp(m: Matcher)
    requires Noop(m)
    ensures m.kind.Regexp?
  {
  }

  /** Main result on selectors: the equalities select the same series as the selector exactly
      when every dropped pattern is harmless. */
  lemma SameSeriesIff(env: Env, matchers: seq<Matcher>, wanted: MatcherSet)
    requires WellFormed(wanted)
    requires forall s :: KeptSelect(env, matchers, s) <==> SetSelects(wanted.metric, wanted.labels, s)
    ensures (forall s :: SelectedBy(env, matchers, s) <==> SetSelects(wanted.metric, wanted.labels, s)) <==>
            forall i :: 0 <= i < |matchers| && Noop(matchers[i]) ==> Harmless(env, wanted, matchers[i])
  {
    hide Noop, Matches, Harmless, SetSelects, SelectedBy, KeptSelect, WellFormed;
    if forall i :: 0 <= i < |matchers| && Noop(matchers[i]) ==> Harmless(env, wanted, matchers[i]) {
      forall s ensures SelectedBy(env, matchers, s) <==> SetSelects(wanted.metric, wanted.labels, s) {
        SelectedByIs(env, matchers, s);
        if SetSelects(wanted.metric, wanted.labels, s) {
          forall i | 0 <= i < |matchers| && Noop(matchers[i]) ensures Matches(env, matchers[i], s) {
            HarmlessMatches(env, wanted, matchers[i], s);
          }
        }
      }
    } else {
      var i :| 0 <= i < |matchers| && Noop(matchers[i]) && !Harmless(env, wanted, matchers[i]);
      var s := HarmIsSeen(env, wanted, matchers[i]);
      SelectedByIs(env, matchers, s);
    }
  }

  const NAMED := Matcher("__name__", Equal, "m")
  const EQUAL := Matcher("a", Equal, "b")
  const PADDED := Matcher("c", Regexp, " .*")

  lemma PaddedIsNoop()
    ensures Noop(PADDED) && Restricts(PADDED.value)
  {
    PadsOf(" .*", " ", ".*", "");
    CoresDiffer(".*");
  }

  lemma {:induction false} OneLabelMatcher(matchers: seq<Matcher>)
    requires matchers == [NAMED, EQUAL, PADDED]
    ensures LabelMatchers(matchers) == 1
  {
    PaddedIsNoop();
    hide Noop;
    assert matchers[..2][..1][..0] == [];
    assert LabelMatchers(matchers[..2][..1]) == 0;
    assert LabelMatchers(matchers[..2]) == if Noop(EQUAL) then 0 else 1;
    assert !Noop(EQUAL) by { NotNoop(EQUAL); }
  }

  lemma NotNoop(m: Matcher)
    requires !m.kind.Regexp?
    ensures !Noop(m)
  {
  }

  /** {__name__="m", a="b", c=~" .*"}: the pattern asks for a value that starts with a space,
      and the equalities returned ask for nothing. */
  lemma PaddedPatternIsDropped(env: Env)
    ensures var matchers := [NAMED, EQUAL, PADDED];
      var series := map["__name__" := "m", "a" := "b", "c" := "x"];
      Exact(matchers) && KeptSelect(env, matchers, series) && !SelectedBy(env, matchers, series)
  {
    hide Restricts, RegexpMatches, Noop, LabelMatchers;
    var matchers := [NAMED, EQUAL, PADDED];
    var series := map["__name__" := "m", "a" := "b", "c" := "x"];
    OneLabelMatcher(matchers);
    PaddedIsNoop();
    NotNoop(NAMED);
    NotNoop(EQUAL);
    DroppedMatchesAllIff(env, PADDED);
    assert matchers[0] == NAMED && matchers[1] == EQUAL && matchers[2] == PADDED;
    assert !Matches(env, matchers[2], series);
  }
}
