/** The identity of a series: a hash over its labels in name order, each length-prefixed. The
    ordinary path sorts and encodes; the fast path streams labels that arrive in order. */
module Identity {
  import opened Bits
  import opened ProtoWire

  datatype Label = Label(name: seq<Byte>, value: seq<Byte>)

  // "__name__"
  const METRIC_NAME: seq<Byte> := [95, 95, 110, 97, 109, 101, 95, 95]

  lemma MetricNameSpells()
    ensures |METRIC_NAME| == |"__name__"|
    ensures forall k :: 0 <= k < |METRIC_NAME| ==> METRIC_NAME[k] == "__name__"[k] as int
  {
  }

  /** The buffer both paths encode into before they fall back to incremental hashing. */
  const BUFFER: nat := 512

  // ---------------------------------------------------------------- name order

  /** Byte-wise string order. */
  predicate Less(a: seq<Byte>, b: seq<Byte>) {
    if b == [] then false
    else if a == [] then true
    else a[0] < b[0] || (a[0] == b[0] && Less(a[1..], b[1..]))
  }

  lemma {:induction false} LessIsTotal(a: seq<Byte>, b: seq<Byte>)
    ensures Less(a, b) || a == b || Less(b, a)
    ensures !(Less(a, b) && Less(b, a)) && (a == b ==> !Less(a, b))
  {
    if a != [] && b != [] {
      LessIsTotal(a[1..], b[1..]);
      assert a == [a[0]] + a[1..] && b == [b[0]] + b[1..];
    }
  }

  lemma {:induction false} LessIsTransitive(a: seq<Byte>, b: seq<Byte>, c: seq<Byte>)
    requires Less(a, b) && Less(b, c)
    ensures Less(a, c)
  {
    if a != [] && b != [] && c != [] && a[0] == b[0] == c[0] {
      LessIsTransitive(a[1..], b[1..], c[1..]);
    }
  }

  /** Names strictly ascending: sorted, and no name twice. */
  ghost predicate Ascending(labels: seq<Label>) {
    forall i, j :: 0 <= i < j < |labels| ==> Less(labels[i].name, labels[j].name)
  }

  ghost predicate SortedByName(labels: seq<Label>) {
    forall i, j :: 0 <= i < j < |labels| ==> !Less(labels[j].name, labels[i].name)
  }

  // ---------------------------------------------------------------- encoding

  /** Eight little-endian bytes. */
  function Fixed(n: nat, bytes: nat): (r: seq<Byte>)
    ensures |r| == bytes
  {
    if bytes == 0 then [] else [n % 256] + Fixed(n / 256, bytes - 1)
  }

  function Part(s: seq<Byte>): (r: seq<Byte>)
    ensures |r| == 8 + |s|
  {
    Fixed(|s|, 8) + s
  }

  function EncodeLabel(l: Label): (r: seq<Byte>)
    ensures |r| == 16 + |l.name| + |l.value|
  {
    Part(l.name) + Part(l.value)
  }

  function Encode(labels: seq<Label>): seq<Byte> {
    if labels == [] then [] else Encode(labels[..|labels| - 1]) + EncodeLabel(labels[|labels| - 1])
  }

  function Pow256(k: nat): (r: nat)
    ensures r >= 1
  {
    if k == 0 then 1 else 256 * Pow256(k - 1)
  }

  lemma {:induction false} FixedIsInjective(m: nat, n: nat, k: nat)
    requires m < Pow256(k) && n < Pow256(k) && Fixed(m, k) == Fixed(n, k)
    ensures m == n
  {
    if k > 0 {
      var a, b := Fixed(m, k), Fixed(n, k);
      assert a[0] == m % 256 && b[0] == n % 256;
      assert a[1..] == Fixed(m / 256, k - 1) && b[1..] == Fixed(n / 256, k - 1);
      FixedIsInjective(m / 256, n / 256, k - 1);
    }
  }

  lemma Pow256Of8()
    ensures Pow256(8) == TWO64
  {
    assert Pow256(4) == 0x1_0000_0000;
  }

  /** A length prefix says where its part ends: parts are read back uniquely. */
  lemma PartIsPrefixFree(s: seq<Byte>, t: seq<Byte>, x: seq<Byte>, y: seq<Byte>)
    requires |s| < TWO64 && |t| < TWO64 && Part(s) + x == Part(t) + y
    ensures s == t && x == y
  {
    Pow256Of8();
    var a, b := Part(s) + x, Part(t) + y;
    assert a[..8] == Fixed(|s|, 8) && b[..8] == Fixed(|t|, 8);
    FixedIsInjective(|s|, |t|, 8);
    assert a[8..8 + |s|] == s && b[8..8 + |t|] == t;
    assert a[8 + |s|..] == x && b[8 + |t|..] == y;
  }

  ghost predicate Storable(labels: seq<Label>) {
    forall l :: l in labels ==> |l.name| < TWO64 && |l.value| < TWO64
  }

  lemma {:induction false} EncodeFront(labels: seq<Label>)
    requires labels != []
    ensures Encode(labels) == EncodeLabel(labels[0]) + Encode(labels[1..])
  {
    hide EncodeLabel;
    var n := |labels| - 1;
    if n > 0 {
      EncodeFront(labels[..n]);
      assert labels[..n][1..] == labels[1..][..n - 1];
    }
  }

  lemma LabelIsPrefixFree(l: Label, m: Label, x: seq<Byte>, y: seq<Byte>)
    requires |l.name| < TWO64 && |l.value| < TWO64 && |m.name| < TWO64 && |m.value| < TWO64
    requires EncodeLabel(l) + x == EncodeLabel(m) + y
    ensures l == m && x == y
  {
    hide Part;
    assert EncodeLabel(l) + x == Part(l.name) + (Part(l.value) + x);
    assert EncodeLabel(m) + y == Part(m.name) + (Part(m.value) + y);
    PartIsPrefixFree(l.name, m.name, Part(l.value) + x, Part(m.value) + y);
    PartIsPrefixFree(l.value, m.value, x, y);
  }

  lemma EncodeNothing()
    ensures Encode([]) == []
  {
  }

  /** Different label lists are hashed over different bytes. */
  lemma {:induction false} EncodeIsInjective(a: seq<Label>, b: seq<Label>)
    requires Storable(a) && Storable(b) && Encode(a) == Encode(b)
    ensures a == b
    decreases |a|
  {
    hide EncodeLabel, Encode;
    EncodeNothing();
    if a != [] {
      EncodeFront(a);
    }
    if b != [] {
      EncodeFront(b);
    }
    if a != [] && b != [] {
      LabelIsPrefixFree(a[0], b[0], Encode(a[1..]), Encode(b[1..]));
      EncodeIsInjective(a[1..], b[1..]);
      assert a == [a[0]] + a[1..] && b == [b[0]] + b[1..];
    }
  }

  // ---------------------------------------------------------------- sorting

  /** Inserting after every label whose name is not greater, from the end. */
  function InsertLast(s: seq<Label>, x: Label): (r: seq<Label>)
    ensures |r| == |s| + 1
  {
    if s == [] || !Less(x.name, s[|s| - 1].name) then s + [x]
    else InsertLast(s[..|s| - 1], x) + [s[|s| - 1]]
  }

  function SortLabels(s: seq<Label>): (r: seq<Label>)
    ensures |r| == |s|
  {
    if s == [] then [] else InsertLast(SortLabels(s[..|s| - 1]), s[|s| - 1])
  }

  lemma {:induction false} InsertLastSorts(s: seq<Label>, x: Label)
    requires SortedByName(s)
    ensures SortedByName(InsertLast(s, x)) && multiset(InsertLast(s, x)) == multiset(s) + multiset{x}
  {
    if s != [] {
      var n := |s| - 1;
      assert s == s[..n] + [s[n]];
      if Less(x.name, s[n].name) {
        InsertLastSorts(s[..n], x);
        var r := InsertLast(s[..n], x);
        forall i | 0 <= i < |r| ensures !Less(s[n].name, r[i].name) {
          assert r[i] in multiset(r);
          assert r[i] == x || r[i] in s[..n];
          LessIsTotal(s[n].name, x.name);
        }
      } else {
        forall i | 0 <= i <= n ensures !Less(x.name, s[i].name) {
          NotLessIsTransitive(x.name, s[n].name, s[i].name);
        }
      }
    }
  }

  lemma NotLessIsTransitive(a: seq<Byte>, b: seq<Byte>, c: seq<Byte>)
    requires !Less(a, b) && (b == c || !Less(b, c))
    ensures !Less(a, c)
  {
    LessIsTotal(a, b);
    LessIsTotal(b, c);
    LessIsTotal(a, c);
    if Less(a, c) && Less(b, a) {
      LessIsTransitive(b, a, c);
    }
  }

  /** The sort of the ordinary path orders by name and only reorders. */
  lemma {:induction false} SortLabelsSorts(s: seq<Label>)
    ensures SortedByName(SortLabels(s)) && multiset(SortLabels(s)) == multiset(s)
  {
    if s != [] {
      var n := |s| - 1;
      SortLabelsSorts(s[..n]);
      InsertLastSorts(SortLabels(s[..n]), s[n]);
      assert s == s[..n] + [s[n]];
    }
  }

  /** Labels already in order are left as they are. */
  lemma {:induction false} SortedIsFixed(s: seq<Label>)
    requires SortedByName(s)
    ensures SortLabels(s) == s
  {
    if s != [] {
      SortedIsFixed(s[..|s| - 1]);
    }
  }

  lemma MovedDown(before: seq<Label>, after: seq<Label>, i: nat, k: nat)
    requires k <= i < |before| == |after| && after[k] == before[i]
    requires forall m :: 0 <= m < k || i < m < |after| ==> after[m] == before[m]
    requires forall m :: k < m <= i ==> after[m] == before[m - 1]
    requires k > 0 ==> !Less(before[i].name, before[k - 1].name)
    requires forall m :: k <= m < i ==> Less(before[i].name, before[m].name)
    ensures after[..i + 1] == InsertLast(before[..i], before[i]) && after[i + 1..] == before[i + 1..]
  {
    hide Less, InsertLast;
    InsertLastAt(before[..i], before[i], k);
    assert after[..i + 1] == before[..i][..k] + [before[i]] + before[..i][k..];
  }

  /** One round of sortRemoteWriteLabelsByName: a[i] moves down past every greater name. */
  method InsertInPlace(a: array<Label>, i: nat)
    requires i < a.Length
    modifies a
    ensures a[..i + 1] == InsertLast(old(a[..i]), old(a[i])) && a[i + 1..] == old(a[i + 1..])
  {
    hide Less, InsertLast;
    ghost var before := a[..];
    var x := a[i];
    var j := i - 1;
    while j >= 0 && Less(x.name, a[j].name)
      invariant -1 <= j < i
      invariant forall k :: 0 <= k <= j || i < k < a.Length ==> a[k] == before[k]
      invariant forall k :: j + 1 < k <= i ==> a[k] == before[k - 1]
      invariant forall k :: j < k < i ==> Less(x.name, before[k].name)
    {
      a[j + 1] := a[j];
      j := j - 1;
    }
    a[j + 1] := x;
    MovedDown(before, a[..], i, j + 1);
  }

  /** sortRemoteWriteLabelsByName: the insertion sort in place. */
  method SortInPlace(a: array<Label>)
    modifies a
    ensures a[..] == SortLabels(old(a[..]))
  {
    hide InsertLast;
    ghost var s := a[..];
    for i := 0 to a.Length
      invariant a[..i] == SortLabels(s[..i]) && a[i..] == s[i..]
    {
      assert s[..i + 1][..i] == s[..i] && a[i] == a[i..][0] == s[i];
      assert a[i + 1..] == s[i + 1..];
      InsertInPlace(a, i);
    }
    assert s[..a.Length] == s && a[..a.Length] == a[..];
  }

  /** Where InsertLast puts the label. */
  lemma {:induction false} InsertLastAt(s: seq<Label>, x: Label, k: nat)
    requires k <= |s| && (k > 0 ==> !Less(x.name, s[k - 1].name))
    requires forall i :: k <= i < |s| ==> Less(x.name, s[i].name)
    ensures InsertLast(s, x) == s[..k] + [x] + s[k..]
  {
    hide Less;
    if k < |s| {
      var n := |s| - 1;
      InsertLastAt(s[..n], x, k);
      assert s[..n][..k] == s[..k];
      assert s[..n][k..] + [s[n]] == s[k..];
      assert s[..k] + [x] + s[..n][k..] + [s[n]] == s[..k] + [x] + (s[..n][k..] + [s[n]]);
    } else {
      assert s[..k] == s && s[k..] == [];
    }
  }

  // ---------------------------------------------------------------- the ordinary identity

  datatype Result = Identified(id: Uint64, metric: seq<Byte>) | Invalid

  /** The value of the last label with the metric name, or nothing. */
  function MetricOf(labels: seq<Label>): seq<Byte> {
    if labels == [] then []
    else
      var n := |labels| - 1;
      if labels[n].name == METRIC_NAME then labels[n].value else MetricOf(labels[..n])
  }

  predicate ValidNames(sorted: seq<Label>) {
    (forall i :: 0 <= i < |sorted| ==> sorted[i].name != [])
    && (forall i :: 0 < i < |sorted| ==> sorted[i].name != sorted[i - 1].name)
  }

  /** The identity of a list of labels, in any order: invalid without labels, with an empty
      or repeated name, or without a metric name. */
  function SeriesIdentity(hash: seq<Byte> -> Uint64, labels: seq<Label>): Result {
    var sorted := SortLabels(labels);
    if labels == [] || !ValidNames(sorted) || MetricOf(sorted) == [] then Invalid
    else Identified(hash(Encode(sorted)), MetricOf(sorted))
  }

  /** remoteWriteSeriesIdentityLabels: one pass over the sorted labels that fills the buffer
      while it lasts, then hashes either the buffer or, label by label, the whole list. */
  method OrdinaryIdentity(hash: seq<Byte> -> Uint64, labels: array<Label>) returns (r: Result)
    modifies labels
    ensures r == SeriesIdentity(hash, old(labels[..]))
    ensures labels[..] == old(labels[..]) || labels[..] == SortLabels(old(labels[..]))
  {
    hide Less, SortLabels, InsertLast, ValidNames, MetricOf, Encode;
    ghost var input := labels[..];
    if labels.Length == 0 {
      return Invalid;
    }
    var inOrder := InNameOrder(labels);
    if !inOrder {
      SortInPlace(labels);
    } else {
      SortedIsFixed(input);
    }
    r := HashSorted(hash, labels[..]);
  }

  lemma OneMoreName(sorted: seq<Label>, i: nat)
    requires i < |sorted| && ValidNames(sorted[..i])
    ensures ValidNames(sorted[..i + 1]) <==> sorted[i].name != [] && (i > 0 ==> sorted[i].name != sorted[i - 1].name)
    ensures MetricOf(sorted[..i + 1]) ==
            if sorted[i].name == METRIC_NAME then sorted[i].value else MetricOf(sorted[..i])
    ensures Encode(sorted[..i + 1]) == Encode(sorted[..i]) + EncodeLabel(sorted[i])
  {
    hide EncodeLabel;
    assert sorted[..i + 1][..i] == sorted[..i];
  }

  lemma BadName(sorted: seq<Label>, i: nat)
    requires i < |sorted| && (sorted[i].name == [] || (i > 0 && sorted[i].name == sorted[i - 1].name))
    ensures !ValidNames(sorted)
  {
  }

  /** The pass over the sorted labels. */
  method HashSorted(hash: seq<Byte> -> Uint64, sorted: seq<Label>) returns (r: Result)
    ensures r == if !ValidNames(sorted) || MetricOf(sorted) == [] then Invalid
                 else Identified(hash(Encode(sorted)), MetricOf(sorted))
  {
    var encoded: seq<Byte>, useBuffer, metric, previous := [], true, [], [];
    for i := 0 to |sorted|
      invariant ValidNames(sorted[..i]) && metric == MetricOf(sorted[..i])
      invariant i > 0 ==> previous == sorted[i - 1].name
      invariant useBuffer ==> encoded == Encode(sorted[..i])
    {
      hide ValidNames, MetricOf, Encode, EncodeLabel;
      var x := sorted[i];
      OneMoreName(sorted, i);
      if x.name == [] || (i > 0 && x.name == previous) {
        BadName(sorted, i);
        return Invalid;
      }
      previous := x.name;
      if x.name == METRIC_NAME {
        metric := x.value;
      }
      if useBuffer {
        var needed := 16 + |x.name| + |x.value|;
        if |encoded| + needed <= BUFFER {
          encoded := encoded + EncodeLabel(x);
        } else {
          useBuffer := false;
        }
      }
    }
    assert sorted[..|sorted|] == sorted;
    if metric == [] {
      return Invalid;
    }
    if useBuffer {
      return Identified(hash(encoded), metric);
    }
    var written := DigestBytes(sorted);
    return Identified(hash(written), metric);
  }

  /** remoteWriteLabelsSorted */
  method InNameOrder(labels: array<Label>) returns (r: bool)
    ensures r <==> SortedByName(labels[..])
  {
    var i := 1;
    while i < labels.Length
      invariant 1 <= i && (i <= labels.Length ==> SortedByName(labels[..i]))
      invariant labels.Length > 0 ==> i <= labels.Length
    {
      if Less(labels[i].name, labels[i - 1].name) {
        assert labels[..][i] == labels[i] && labels[..][i - 1] == labels[i - 1];
        return false;
      }
      forall k | 0 <= k < i ensures !Less(labels[i].name, labels[k].name) {
        assert labels[..i][k] == labels[k] && labels[..i][i - 1] == labels[i - 1];
        NotLessIsTransitive(labels[i].name, labels[i - 1].name, labels[k].name);
      }
      assert labels[..i + 1] == labels[..i] + [labels[i]];
      i := i + 1;
    }
    assert labels.Length > 0 ==> labels[..i] == labels[..];
    return true;
  }

  /** The bytes remoteWriteSeriesDigestHash feeds to the digest. */
  method DigestBytes(labels: seq<Label>) returns (written: seq<Byte>)
    ensures written == Encode(labels)
  {
    written := [];
    for i := 0 to |labels|
      invariant written == Encode(labels[..i])
    {
      assert labels[..i + 1][..i] == labels[..i];
      written := written + Fixed(|labels[i].name|, 8);
      written := written + labels[i].name;
      written := written + Fixed(|labels[i].value|, 8);
      written := written + labels[i].value;
      assert written == Encode(labels[..i]) + EncodeLabel(labels[i]);
    }
    assert labels[..|labels|] == labels;
  }

  // ---------------------------------------------------------------- the streaming identity

  datatype Added = Accepted | Unordered | Rejected

  /** remoteWriteFastIdentity: the digest holds the bytes written to it, the buffer what is
      not written yet. */
  class Streaming {
    var written: seq<Byte>
    var encoded: seq<Byte>
    var previous: seq<Byte>
    var metric: seq<Byte>
    var useBuffer: bool
    var labelCount: nat
    ghost var labels: seq<Label>

    /** Whether or not the buffer has spilled, the digest plus the buffer is the encoding. */
    ghost predicate Valid()
      reads this
    {
      |labels| == labelCount && Ascending(labels)
      && (forall i :: 0 <= i < |labels| ==> labels[i].name != [])
      && (labels != [] ==> previous == labels[|labels| - 1].name)
      && metric == MetricOf(labels)
      && (if useBuffer then written == [] && encoded == Encode(labels) && |encoded| <= BUFFER
          else written == Encode(labels))
    }

    constructor ()
      ensures Valid() && labels == []
    {
      written, encoded, previous, metric, useBuffer, labelCount := [], [], [], [], true, 0;
      labels := [];
    }

    method Reset()
      modifies this
      ensures Valid() && labels == []
    {
      written, encoded, previous, metric, useBuffer, labelCount := [], [], [], [], true, 0;
      labels := [];
    }

    /** addParts: an empty or repeated name is an error, a name out of order ends the fast
        path, anything else extends the encoding. */
    method Add(x: Label) returns (r: Added)
      requires Valid()
      modifies this
      ensures r == if x.name == [] then Rejected
                   else if old(labels) == [] || Less(old(labels)[|old(labels)| - 1].name, x.name) then Accepted
                   else if x.name == old(labels)[|old(labels)| - 1].name then Rejected
                   else Unordered
      ensures r.Accepted? ==> Valid() && labels == old(labels) + [x]
      ensures !r.Accepted? ==> Valid() && labels == old(labels)
    {
      hide Less, EncodeLabel, Encode, MetricOf, Ascending;
      if x.name == [] {
        return Rejected;
      }
      if labelCount > 0 {
        LessIsTotal(previous, x.name);
        if !Less(previous, x.name) {
          return if x.name == previous then Rejected else Unordered;
        }
      }
      AppendAscends(labels, x);
      OneMoreLabel(labels, x);
      LabelSize(x);
      previous := x.name;
      labelCount := labelCount + 1;
      if x.name == METRIC_NAME {
        metric := x.value;
      }
      var needed := 16 + |x.name| + |x.value|;
      if useBuffer && |encoded| + needed <= BUFFER {
        encoded := encoded + EncodeLabel(x);
      } else {
        if useBuffer {
          useBuffer := false;
          written := written + encoded;
          encoded := [];
        }
        written := written + EncodeLabel(x);
      }
      labels := labels + [x];
      return Accepted;
    }

    /** finish: the same identity the ordinary path computes for these labels. */
    method Finish(hash: seq<Byte> -> Uint64) returns (r: Result)
      requires Valid()
      ensures r == SeriesIdentity(hash, labels)
    {
      hide Less, Encode;
      AscendingIsSorted(labels);
      SortedIsFixed(labels);
      if labelCount == 0 || metric == [] {
        return Invalid;
      }
      return Identified(hash(if useBuffer then encoded else written), metric);
    }
  }

  lemma OneMoreLabel(labels: seq<Label>, x: Label)
    ensures Encode(labels + [x]) == Encode(labels) + EncodeLabel(x)
    ensures MetricOf(labels + [x]) == if x.name == METRIC_NAME then x.value else MetricOf(labels)
  {
    assert (labels + [x])[..|labels|] == labels;
  }

  lemma LabelSize(x: Label)
    ensures |EncodeLabel(x)| == 16 + |x.name| + |x.value|
  {
  }

  lemma AppendAscends(labels: seq<Label>, x: Label)
    requires Ascending(labels) && (labels != [] ==> Less(labels[|labels| - 1].name, x.name))
    ensures Ascending(labels + [x])
  {
    forall i | 0 <= i < |labels| ensures Less(labels[i].name, x.name) {
      if i < |labels| - 1 {
        LessIsTransitive(labels[i].name, labels[|labels| - 1].name, x.name);
      }
    }
  }

  lemma AscendingIsSorted(labels: seq<Label>)
    requires Ascending(labels)
    ensures SortedByName(labels)
    ensures forall i :: 0 < i < |labels| ==> labels[i].name != labels[i - 1].name
  {
    forall i, j | 0 <= i < j < |labels|
      ensures !Less(labels[j].name, labels[i].name) && labels[i].name != labels[j].name
    {
      LessIsTotal(labels[i].name, labels[j].name);
    }
  }

  // ---------------------------------------------------------------- order does not matter

  lemma {:induction false} DistinctSortedAscends(s: seq<Label>)
    requires SortedByName(s) && forall i :: 0 < i < |s| ==> s[i].name != s[i - 1].name
    ensures Ascending(s)
  {
    if |s| > 1 {
      var n := |s| - 1;
      DistinctSortedAscends(s[..n]);
      LessIsTotal(s[n - 1].name, s[n].name);
      AppendAscends(s[..n], s[n]);
      assert s == s[..n] + [s[n]];
    }
  }

  lemma LastIsGreatest(s: seq<Label>, x: Label)
    requires Ascending(s) && x in s
    ensures x == s[|s| - 1] || Less(x.name, s[|s| - 1].name)
  {
  }

  lemma LastsAgree(a: seq<Label>, b: seq<Label>)
    requires Ascending(a) && Ascending(b) && multiset(a) == multiset(b) && a != [] && b != []
    ensures a[|a| - 1] == b[|b| - 1]
  {
    hide Less;
    var x, y := a[|a| - 1], b[|b| - 1];
    assert x in multiset(b) && y in multiset(a);
    LastIsGreatest(a, y);
    LastIsGreatest(b, x);
    LessIsTotal(x.name, y.name);
  }

  lemma {:induction false} AscendingIsUnique(a: seq<Label>, b: seq<Label>)
    requires Ascending(a) && Ascending(b) && multiset(a) == multiset(b)
    ensures a == b
    decreases |a|
  {
    hide Less;
    assert |a| == |multiset(a)| && |b| == |multiset(b)|;
    if a != [] {
      var n := |a| - 1;
      LastsAgree(a, b);
      WithoutLast(a);
      WithoutLast(b);
      AscendingIsUnique(a[..n], b[..n]);
    }
  }

  lemma WithoutLast(s: seq<Label>)
    requires s != []
    ensures var n := |s| - 1; s == s[..n] + [s[n]] && multiset(s[..n]) == multiset(s) - multiset{s[n]}
  {
    assert s == s[..|s| - 1] + [s[|s| - 1]];
  }

  // ---------------------------------------------------------------- which label lists have an identity

  function Names(labels: seq<Label>): set<seq<Byte>> { set l | l in labels :: l.name }

  predicate NoEmptyName(labels: seq<Label>) { forall l :: l in labels ==> l.name != [] }

  ghost predicate DistinctNames(labels: seq<Label>) {
    forall i, j :: 0 <= i < j < |labels| ==> labels[i].name != labels[j].name
  }

  predicate NamesMetric(labels: seq<Label>) {
    exists l :: l in labels && l.name == METRIC_NAME && l.value != []
  }

  lemma NamesOfMore(s: seq<Label>, l: Label)
    ensures Names(s + [l]) == Names(s) + {l.name}
    ensures DistinctNames(s + [l]) <==> DistinctNames(s) && l.name !in Names(s)
  {
    var t := s + [l];
    assert t[|s|] == l && forall i :: 0 <= i < |s| ==> t[i] == s[i];
    if l.name in Names(s) {
      var m :| m in s && m.name == l.name;
      var i :| 0 <= i < |s| && s[i] == m;
      assert t[i].name == t[|s|].name;
    }
    if DistinctNames(t) {
      forall i, j | 0 <= i < j < |s| ensures s[i].name != s[j].name {
        assert t[i].name != t[j].name;
      }
    }
  }

  /** Names are distinct when there are as many names as labels. */
  lemma {:induction false} DistinctByCount(s: seq<Label>)
    ensures |Names(s)| <= |s| && (DistinctNames(s) <==> |Names(s)| == |s|)
  {
    hide Names, DistinctNames;
    if s == [] {
      NoNames();
    } else {
      var n := |s| - 1;
      DistinctByCount(s[..n]);
      NamesOfMore(s[..n], s[n]);
      assert s == s[..n] + [s[n]];
    }
  }

  lemma NoNames()
    ensures Names([]) == {} && DistinctNames([])
  {
  }

  lemma SameLabels(a: seq<Label>, b: seq<Label>)
    requires multiset(a) == multiset(b)
    ensures |a| == |b| && Names(a) == Names(b) && (NoEmptyName(a) <==> NoEmptyName(b))
    ensures DistinctNames(a) <==> DistinctNames(b)
  {
    forall l ensures l in a <==> l in b { assert l in multiset(a) <==> l in multiset(b); }
    assert |a| == |multiset(a)| && |b| == |multiset(b)|;
    DistinctByCount(a);
    DistinctByCount(b);
  }

  /** The adjacent comparisons of the sorted list find every empty and every repeated name. */
  lemma ValidNamesIff(labels: seq<Label>)
    ensures ValidNames(SortLabels(labels)) <==> NoEmptyName(labels) && DistinctNames(labels)
  {
    hide Less, SortLabels;
    var sorted := SortLabels(labels);
    SortLabelsSorts(labels);
    SameLabels(sorted, labels);
    if ValidNames(sorted) {
      DistinctSortedAscends(sorted);
      forall i, j | 0 <= i < j < |sorted| ensures sorted[i].name != sorted[j].name {
        LessIsTotal(sorted[i].name, sorted[j].name);
      }
    }
  }

  lemma {:induction false} MetricOfIs(labels: seq<Label>)
    requires DistinctNames(labels)
    ensures MetricOf(labels) != [] <==> NamesMetric(labels)
  {
    if labels != [] {
      var n := |labels| - 1;
      MetricOfIs(labels[..n]);
      assert labels == labels[..n] + [labels[n]];
    } else {
      assert !NamesMetric(labels);
    }
  }

  /** A label list has an identity exactly when no name is empty or repeated and the metric
      name is there. */
  lemma IdentifiedIff(hash: seq<Byte> -> Uint64, labels: seq<Label>)
    ensures SeriesIdentity(hash, labels).Identified? <==>
      NoEmptyName(labels) && DistinctNames(labels) && NamesMetric(labels)
  {
    hide Less, SortLabels, Encode;
    var sorted := SortLabels(labels);
    SortLabelsSorts(labels);
    ValidNamesIff(labels);
    SameLabels(sorted, labels);
    forall l ensures l in sorted <==> l in labels { assert l in multiset(sorted) <==> l in multiset(labels); }
    if DistinctNames(labels) {
      MetricOfIs(sorted);
    }
  }

  /** A series keeps its id, or its rejection, however a client orders its labels. */
  lemma IdentityIgnoresOrder(hash: seq<Byte> -> Uint64, a: seq<Label>, b: seq<Label>)
    requires multiset(a) == multiset(b)
    ensures SeriesIdentity(hash, a) == SeriesIdentity(hash, b)
  {
    hide Less, SortLabels, Encode;
    SortLabelsSorts(a);
    SortLabelsSorts(b);
    SameLabels(a, b);
    ValidNamesIff(a);
    ValidNamesIff(b);
    if ValidNames(SortLabels(a)) {
      DistinctSortedAscends(SortLabels(a));
      DistinctSortedAscends(SortLabels(b));
      AscendingIsUnique(SortLabels(a), SortLabels(b));
    }
  }
}
