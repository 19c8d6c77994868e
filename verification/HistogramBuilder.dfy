/** Virtual Prometheus series built from stored histogram samples: one temporality per series,
    cumulative buckets, and stale markers for buckets that disappear. */
module HistogramBuilder {
  import opened Options
  import opened Bits
  import opened Counts
  import Accumulation = DeltaAccumulation

  const METRIC_NAME := "__name__"
  const LE := "le"
  const PLUS_INF := "+Inf"

  type Labels = map<string, string>
  type Value = Accumulation.Value

  datatype Suffix = Bucket | Count | Sum {
    function Text(): string {
      match this
      case Bucket => "_bucket"
      case Count => "_count"
      case Sum => "_sum"
    }
  }

  /** One virtual series of a source; bound is the le label of a bucket. */
  datatype Key = Key(suffix: Suffix, bound: string) {
    predicate Proper() { suffix.Bucket? || bound == "" }
  }

  datatype Temporality = Cumulative | Delta

  datatype Upper = Finite(v: real) | NotFinite

  /** The stored series behind virtual ones, with its label map. */
  datatype Origin = Origin(metricName: string, labels: Labels) {
    predicate Valid() { METRIC_NAME in labels && labels[METRIC_NAME] == metricName }
  }

  /** A stored histogram sample; a temporality of None is any other text. */
  datatype Sample = Sample(id: nat, timestamp: int, sum: Value, count: Uint64, bounds: seq<Upper>,
                           counts: seq<Uint64>, temporality: Option<Temporality>)

  /** A point of a virtual series. The source and the key it was written for are kept here to
      state what the builder guarantees. */
  datatype SeriesPoint = SeriesPoint(t: int, value: Value, from: nat, key: Key)

  function Number(n: nat): Value { Accumulation.Finite(n as real) }

  /** What a sample writes for a bucket that disappeared. */
  function StaleMarker(s: Sample, b: string): SeriesPoint {
    SeriesPoint(s.timestamp, Accumulation.Stale, s.id, Key(Bucket, b))
  }

  datatype Meta = Meta(labels: Labels, delta: bool, samples: seq<SeriesPoint>)

  datatype Source = Source(series: map<Key, nat>, temporality: Option<Temporality>, bucketsChecked: bool,
                           totalsChecked: bool) {
    predicate Checked(kind: Kind) { if kind.Buckets? then bucketsChecked else totalsChecked }
  }

  const NEW_SOURCE := Source(map[], None, false, false)

  datatype Kind = Buckets | Totals
  datatype Tag = Tag(kind: Kind, labels: Labels)

  datatype Error = Invalid(message: string) | Limit(message: string)
  datatype Outcome<+T> = Ok(value: T) | Fail(error: Error)

  /** isFloat tells the float64 values among the reals: only they are ever formatted. */
  datatype Config = Config(
    origins: map<nat, Origin>, matches: Labels -> bool, isFloat: real -> bool, format: real -> string,
    maxSeries: nat, maxSamples: nat, withSamples: bool, strict: bool)
  {
    /** Formatting tells float64 values apart, and from infinity. */
    ghost predicate Valid() {
      (forall id :: id in origins ==> origins[id].Valid())
      && (forall x: real, y: real :: isFloat(x) && isFloat(y) && format(x) == format(y) ==> x == y)
      && (forall x: real :: isFloat(x) ==> format(x) != PLUS_INF)
    }

    /** The bounds of a stored sample are float64 values. */
    predicate Reads(s: Sample) {
      forall i :: 0 <= i < |s.bounds| && s.bounds[i].Finite? ==> isFloat(s.bounds[i].v)
    }
  }

  function Tally(n: nat): (r: string)
    ensures |r| == n && forall c :: c in r ==> c == 'I'
  {
    if n == 0 then "" else ['I'] + Tally(n - 1)
  }

  /** Such configurations exist: here whole numbers, printed as tallies. */
  lemma SomeConfigIsValid(origins: map<nat, Origin>, matches: Labels -> bool)
    returns (cfg: Config)
    requires forall id :: id in origins ==> origins[id].Valid()
    ensures cfg.Valid() && cfg.origins == origins && cfg.matches == matches
    ensures forall x: real :: x >= 0.0 && x == x.Floor as real ==> cfg.isFloat(x)
  {
    cfg := Config(origins, matches, x => x >= 0.0 && x == x.Floor as real,
                  x => if x >= 0.0 then Tally(x.Floor) else "", 1, 0, true, true);
    assert PLUS_INF[0] == '+';
  }

  function KindOf(s: Suffix): Kind { if s.Bucket? then Buckets else Totals }

  function Sign(delta: bool): Temporality { if delta then Delta else Cumulative }

  function VirtualLabels(o: Origin, key: Key): Labels {
    var named := o.labels[METRIC_NAME := o.metricName + key.suffix.Text()];
    if key.suffix.Bucket? then named[LE := key.bound] else named
  }

  /** What a source is filed under when its temporality is compared with others': its labels,
      without le for buckets, whose le label is generated. */
  function TagOf(o: Origin, kind: Kind): Tag {
    Tag(kind, map k | k in o.labels && !(kind.Buckets? && k == LE) && o.labels[k] != "" :: o.labels[k])
  }

  /** The labels of a virtual series, label by label: the name says what the series counts, le is
      the bound of a bucket, and every other label is the source's. */
  lemma VirtualLabelsAre(o: Origin, key: Key, name: string)
    ensures var l := VirtualLabels(o, key);
      "__name__" in l
      && l["__name__"] == o.metricName + (match key.suffix
                                          case Bucket => "_bucket" case Count => "_count" case Sum => "_sum")
      && (key.suffix.Bucket? ==> "le" in l && l["le"] == key.bound)
      && (name != "__name__" && !(name == "le" && key.suffix.Bucket?) ==>
            (name in l <==> name in o.labels) && (name in l ==> l[name] == o.labels[name]))
  {
    assert |"__name__"| == 8 && |"le"| == 2;
  }

  // ---------------------------------------------------------------- two sources, one series

  lemma SuffixesTellApart(m: string, s: Suffix, n: string, t: Suffix)
    requires m + s.Text() == n + t.Text()
    ensures s == t && m == n
  {
    var (x, y) := (m + s.Text(), n + t.Text());
    assert x[|x| - 2] == s.Text()[|s.Text()| - 2] && y[|y| - 2] == t.Text()[|t.Text()| - 2];
    assert s == t;
    assert x[..|m|] == m && y[..|n|] == n;
  }

  /** Sources that write to the same virtual series are filed under the same tag. */
  lemma SameSeriesSameTag(o: Origin, k: Key, p: Origin, l: Key)
    requires o.Valid() && p.Valid() && VirtualLabels(o, k) == VirtualLabels(p, l)
    ensures k.suffix == l.suffix && TagOf(o, KindOf(k.suffix)) == TagOf(p, KindOf(l.suffix))
    ensures k.suffix.Bucket? ==> k.bound == l.bound
  {
    var (v, w) := (VirtualLabels(o, k), VirtualLabels(p, l));
    assert v[METRIC_NAME] == o.metricName + k.suffix.Text() && w[METRIC_NAME] == p.metricName + l.suffix.Text();
    SuffixesTellApart(o.metricName, k.suffix, p.metricName, l.suffix);
    var kind := KindOf(k.suffix);
    forall n | n != METRIC_NAME && !(kind.Buckets? && n == LE)
      ensures (n in o.labels <==> n in p.labels) && (n in o.labels ==> o.labels[n] == p.labels[n]) {
      assert (n in v <==> n in o.labels) && (n in w <==> n in p.labels);
      assert (n in v ==> v[n] == o.labels[n]) && (n in w ==> w[n] == p.labels[n]);
    }
    assert TagOf(o, kind).labels == TagOf(p, kind).labels;
    if k.suffix.Bucket? {
      assert v[LE] == k.bound && w[LE] == l.bound;
    }
  }

  /** The labels a reader sees: a label without a value is no label. */
  function NonEmpty(labels: Labels): Labels {
    map k | k in labels && labels[k] != "" :: labels[k]
  }

  /** Two sources write to the same virtual series of a kind. */
  ghost predicate ShareSeries(o: Origin, p: Origin, kind: Kind) {
    forall key: Key :: KindOf(key.suffix) == kind ==> NonEmpty(VirtualLabels(o, key)) == NonEmpty(VirtualLabels(p, key))
  }

  lemma SameTagSameSeries(o: Origin, p: Origin, kind: Kind, key: Key)
    requires o.Valid() && p.Valid() && KindOf(key.suffix) == kind && TagOf(o, kind) == TagOf(p, kind)
    ensures NonEmpty(VirtualLabels(o, key)) == NonEmpty(VirtualLabels(p, key))
  {
    var (a, b) := (TagOf(o, kind).labels, TagOf(p, kind).labels);
    forall k | !(kind.Buckets? && k == LE)
      ensures (k in o.labels && o.labels[k] != "") <==> (k in p.labels && p.labels[k] != "")
      ensures k in o.labels && o.labels[k] != "" ==> o.labels[k] == p.labels[k] {
      assert k in a <==> k in b;
      assert k in a ==> a[k] == b[k];
    }
    assert o.metricName == p.metricName;
    var (v, w) := (VirtualLabels(o, key), VirtualLabels(p, key));
    forall k ensures (k in v && v[k] != "") <==> (k in w && w[k] != "")
      ensures k in v && v[k] != "" ==> v[k] == w[k] {
      if k != METRIC_NAME && !(kind.Buckets? && k == LE) {
        assert (k in v <==> k in o.labels) && (k in w <==> k in p.labels);
      }
    }
    assert NonEmpty(v).Keys == NonEmpty(w).Keys;
  }

  lemma SharedSeriesSameTag(o: Origin, p: Origin, kind: Kind)
    requires o.Valid() && p.Valid() && ShareSeries(o, p, kind)
    ensures TagOf(o, kind) == TagOf(p, kind)
  {
    var key := Key(if kind.Buckets? then Bucket else Count, "");
    var (v, w) := (VirtualLabels(o, key), VirtualLabels(p, key));
    assert NonEmpty(v) == NonEmpty(w);
    assert v[METRIC_NAME] == o.metricName + key.suffix.Text() && w[METRIC_NAME] == p.metricName + key.suffix.Text();
    assert METRIC_NAME in NonEmpty(v) && METRIC_NAME in NonEmpty(w);
    SuffixesTellApart(o.metricName, key.suffix, p.metricName, key.suffix);
    forall k | !(kind.Buckets? && k == LE)
      ensures (k in o.labels && o.labels[k] != "") <==> (k in p.labels && p.labels[k] != "")
      ensures k in o.labels && o.labels[k] != "" ==> o.labels[k] == p.labels[k] {
      if k != METRIC_NAME {
        assert (k in v <==> k in o.labels) && (k in w <==> k in p.labels);
        assert k in NonEmpty(v) <==> k in NonEmpty(w);
        assert k in NonEmpty(v) ==> NonEmpty(v)[k] == NonEmpty(w)[k];
      }
    }
    assert TagOf(o, kind).labels.Keys == TagOf(p, kind).labels.Keys;
    assert TagOf(o, kind).labels == TagOf(p, kind).labels;
  }

  /** Sources have one tag of a kind exactly when they write to the same series of that kind. */
  lemma SameTagIff(o: Origin, p: Origin, kind: Kind)
    requires o.Valid() && p.Valid()
    ensures TagOf(o, kind) == TagOf(p, kind) <==> ShareSeries(o, p, kind)
  {
    hide TagOf, VirtualLabels;
    if TagOf(o, kind) == TagOf(p, kind) {
      forall key: Key | KindOf(key.suffix) == kind
        ensures NonEmpty(VirtualLabels(o, key)) == NonEmpty(VirtualLabels(p, key)) {
        SameTagSameSeries(o, p, kind, key);
      }
    }
    if ShareSeries(o, p, kind) {
      SharedSeriesSameTag(o, p, kind);
    }
  }

  // ---------------------------------------------------------------- buckets of one sample

  predicate GoodBuckets(s: Sample) {
    |s.counts| == |s.bounds| + 1
    && (forall i :: 0 <= i < |s.bounds| ==> s.bounds[i].Finite?)
    && (forall i :: 0 < i < |s.bounds| ==> s.bounds[i - 1].v < s.bounds[i].v)
    && Running(s.counts, |s.counts|) == s.count
  }

  ghost predicate AreBuckets(cfg: Config, s: Sample, buckets: map<string, nat>)
    requires GoodBuckets(s)
  {
    PLUS_INF in buckets && buckets[PLUS_INF] == s.count
    && (forall i :: 0 <= i < |s.bounds| ==>
          cfg.format(s.bounds[i].v) in buckets && buckets[cfg.format(s.bounds[i].v)] == Running(s.counts, i + 1))
    && (forall b :: b in buckets ==> b == PLUS_INF || exists i :: 0 <= i < |s.bounds| && b == cfg.format(s.bounds[i].v))
  }

  /** The first n bounds are finite and increasing. */
  predicate GoodBounds(s: Sample, n: nat) {
    (forall i :: 0 <= i < n && i < |s.bounds| ==> s.bounds[i].Finite?)
    && (forall i, j :: 0 <= i < n && i < |s.bounds| && j == i + 1 && j < n && j < |s.bounds| ==>
          s.bounds[i].v < s.bounds[j].v)
  }

  function BoundText(cfg: Config, s: Sample, i: nat): string {
    if i < |s.bounds| && s.bounds[i].Finite? then cfg.format(s.bounds[i].v) else PLUS_INF
  }

  /** What the first n buckets put into the map. */
  ghost predicate AreFirstBuckets(cfg: Config, s: Sample, n: nat, buckets: map<string, nat>) {
    n <= |s.counts|
    && (forall k :: 0 <= k < n ==>
          BoundText(cfg, s, k) in buckets && buckets[BoundText(cfg, s, k)] == Running(s.counts, k + 1))
    && (forall b :: b in buckets ==> exists k :: 0 <= k < n && b == BoundText(cfg, s, k))
  }

  lemma TextsAreApart(cfg: Config, s: Sample, k: nat, i: nat)
    requires cfg.Valid() && cfg.Reads(s) && k < i <= |s.bounds| && GoodBounds(s, i + 1)
    ensures BoundText(cfg, s, k) != BoundText(cfg, s, i)
  {
    if i < |s.bounds| {
      BoundsAscend(s.bounds, k, i);
    }
  }

  lemma OneMoreBucket(cfg: Config, s: Sample, n: nat, buckets: map<string, nat>)
    requires cfg.Valid() && cfg.Reads(s) && n < |s.counts| == |s.bounds| + 1 && GoodBounds(s, n + 1)
    requires AreFirstBuckets(cfg, s, n, buckets)
    ensures AreFirstBuckets(cfg, s, n + 1, buckets[BoundText(cfg, s, n) := Running(s.counts, n + 1)])
  {
    hide BoundText, GoodBounds, Running;
    var now := buckets[BoundText(cfg, s, n) := Running(s.counts, n + 1)];
    forall k | 0 <= k < n + 1
      ensures BoundText(cfg, s, k) in now && now[BoundText(cfg, s, k)] == Running(s.counts, k + 1) {
      if k < n {
        TextsAreApart(cfg, s, k, n);
      }
    }
    forall b | b in now ensures exists k :: 0 <= k < n + 1 && b == BoundText(cfg, s, k) {
      if b in buckets {
        var k :| 0 <= k < n && b == BoundText(cfg, s, k);
      } else {
        assert b == BoundText(cfg, s, n);
      }
    }
  }

  lemma NoBuckets(cfg: Config, s: Sample)
    ensures AreFirstBuckets(cfg, s, 0, map[])
  {
  }

  lemma AllBuckets(cfg: Config, s: Sample, buckets: map<string, nat>)
    requires GoodBuckets(s) && AreFirstBuckets(cfg, s, |s.counts|, buckets)
    ensures AreBuckets(cfg, s, buckets)
  {
    assert BoundText(cfg, s, |s.bounds|) == PLUS_INF;
    forall i | 0 <= i < |s.bounds|
      ensures cfg.format(s.bounds[i].v) in buckets
      ensures buckets[cfg.format(s.bounds[i].v)] == Running(s.counts, i + 1) {
      assert BoundText(cfg, s, i) == cfg.format(s.bounds[i].v);
    }
  }

  /** Accepts exactly the well-formed samples, without ever overflowing 64 bits. */
  method SampleBuckets(cfg: Config, s: Sample) returns (r: Option<map<string, nat>>)
    requires cfg.Valid() && cfg.Reads(s)
    ensures r.Some? <==> GoodBuckets(s)
    ensures r.Some? ==> AreBuckets(cfg, s, r.value)
  {
    hide AreBuckets, AreFirstBuckets, Config.Valid;
    NoBuckets(cfg, s);
    if |s.counts| != |s.bounds| + 1 {
      return None;
    }
    var buckets: map<string, nat>, cumulative: Uint64 := map[], 0;
    for i := 0 to |s.counts|
      invariant cumulative == Running(s.counts, i)
      invariant GoodBounds(s, i) && AreFirstBuckets(cfg, s, i, buckets)
    {
      RunningGrows(s.counts, i + 1, |s.counts|);
      if s.counts[i] > TWO64 - 1 - cumulative {
        return None;
      }
      cumulative := cumulative + s.counts[i];
      var bound := PLUS_INF;
      if i < |s.bounds| {
        if s.bounds[i].NotFinite? || (i > 0 && s.bounds[i].v <= s.bounds[i - 1].v) {
          return None;
        }
        bound := cfg.format(s.bounds[i].v);
      }
      OneMoreBucket(cfg, s, i, buckets);
      buckets := buckets[bound := cumulative];
    }
    if cumulative != s.count {
      return None;
    }
    AllBuckets(cfg, s, buckets);
    r := Some(buckets);
  }

  lemma {:induction false} BoundsAscend(bounds: seq<Upper>, k: nat, i: nat)
    requires k < i < |bounds| && (forall j :: 0 <= j <= i ==> bounds[j].Finite?)
    requires forall j :: 0 < j <= i ==> bounds[j - 1].v < bounds[j].v
    ensures bounds[k].v < bounds[i].v
    decreases i
  {
    if k < i - 1 {
      BoundsAscend(bounds, k, i - 1);
    }
  }

  /** The bucket points of one sample are nondecreasing in their bound, and the last one is the
      observation count. */
  lemma BucketsAreCumulative(cfg: Config, s: Sample, buckets: map<string, nat>, i: nat, j: nat)
    requires GoodBuckets(s) && AreBuckets(cfg, s, buckets) && i <= j < |s.bounds|
    ensures "+Inf" in buckets
    ensures buckets[cfg.format(s.bounds[i].v)] <= buckets[cfg.format(s.bounds[j].v)] <= buckets["+Inf"] == s.count
  {
    RunningGrows(s.counts, i + 1, j + 1);
    RunningGrows(s.counts, j + 1, |s.counts|);
  }

  // ---------------------------------------------------------------- builder invariants

  ghost predicate Indexed(series: seq<Meta>, byLabels: map<Labels, nat>) {
    (forall l :: l in byLabels ==> byLabels[l] < |series| && series[byLabels[l]].labels == l)
    && (forall i :: 0 <= i < |series| ==> series[i].labels in byLabels && byLabels[series[i].labels] == i)
  }

  predicate BindsTo(cfg: Config, series: seq<Meta>, id: nat, key: Key, i: nat)
    requires id in cfg.origins
  {
    i < |series| && series[i].labels == VirtualLabels(cfg.origins[id], key) && cfg.matches(series[i].labels)
  }

  /** Series handed out to sources carry the labels the source and key ask for. */
  ghost predicate Bound(cfg: Config, series: seq<Meta>, bySource: map<nat, Source>) {
    forall id :: id in bySource ==>
      id in cfg.origins
      && forall key :: key in bySource[id].series ==> BindsTo(cfg, series, id, key, bySource[id].series[key])
  }

  predicate Agrees(cfg: Config, id: nat, src: Source, kind: Kind, filed: map<Tag, Temporality>)
    requires id in cfg.origins
  {
    var tag := TagOf(cfg.origins[id], kind);
    src.temporality.Some? && tag in filed && filed[tag] == src.temporality.value
  }

  predicate CheckedFirst(cfg: Config, id: nat, src: Source, filed: map<Tag, Temporality>)
    requires id in cfg.origins
  {
    (forall kind :: src.Checked(kind) ==> Agrees(cfg, id, src, kind, filed))
    && (src.temporality.Some? ==> src.Checked(Buckets) || src.Checked(Totals))
    && (forall key :: key in src.series ==> src.Checked(KindOf(key.suffix)))
  }

  /** A source was compared with the others before it wrote its first point of each kind. */
  ghost predicate Filed(cfg: Config, bySource: map<nat, Source>, filed: map<Tag, Temporality>) {
    forall id :: id in bySource ==> id in cfg.origins && CheckedFirst(cfg, id, bySource[id], filed)
  }

  predicate FiledIt(cfg: Config, id: nat, src: Source, tag: Tag, t: Temporality) {
    id in cfg.origins && src.Checked(tag.kind) && src.temporality == Some(t) && TagOf(cfg.origins[id], tag.kind) == tag
  }

  /** Every temporality on file was put there by a source that has it. */
  ghost predicate Claimed(cfg: Config, bySource: map<nat, Source>, filed: map<Tag, Temporality>) {
    forall tag :: tag in filed ==> exists id :: id in bySource && FiledIt(cfg, id, bySource[id], tag, filed[tag])
  }

  lemma ClaimedStays(cfg: Config, was: map<nat, Source>, now: map<nat, Source>, filed: map<Tag, Temporality>)
    requires Claimed(cfg, was, filed)
    requires forall id :: id in was ==>
      id in now && now[id].temporality == was[id].temporality
      && forall kind :: was[id].Checked(kind) ==> now[id].Checked(kind)
    ensures Claimed(cfg, now, filed)
  {
    hide TagOf, Source.Checked;
    forall tag | tag in filed ensures exists id :: id in now && FiledIt(cfg, id, now[id], tag, filed[tag]) {
      var id :| id in was && FiledIt(cfg, id, was[id], tag, filed[tag]);
      assert FiledIt(cfg, id, now[id], tag, filed[tag]);
    }
  }

  lemma ClaimedWithKey(cfg: Config, bySource: map<nat, Source>, filed: map<Tag, Temporality>, id: nat, key: Key, i: nat)
    requires Claimed(cfg, bySource, filed) && id in bySource
    ensures Claimed(cfg, bySource[id := bySource[id].(series := bySource[id].series[key := i])], filed)
  {
    hide Claimed;
    ClaimedStays(cfg, bySource, bySource[id := bySource[id].(series := bySource[id].series[key := i])], filed);
  }

  lemma TagHasKind(o: Origin, kind: Kind)
    ensures TagOf(o, kind).kind == kind
  {
  }

  /** The delta flag of a series names the temporality of every source bound to it. */
  ghost predicate Named(series: seq<Meta>, bySource: map<nat, Source>) {
    forall id, key :: id in bySource && key in bySource[id].series && bySource[id].series[key] < |series| ==>
      bySource[id].temporality == Some(Sign(series[bySource[id].series[key]].delta))
  }

  predicate WrittenBy(bySource: map<nat, Source>, p: SeriesPoint, i: nat) {
    p.from in bySource && p.key in bySource[p.from].series && bySource[p.from].series[p.key] == i
  }

  /** Points are written only by sources bound to the series. */
  ghost predicate Written(series: seq<Meta>, bySource: map<nat, Source>) {
    forall i, k :: 0 <= i < |series| && 0 <= k < |series[i].samples| ==> WrittenBy(bySource, series[i].samples[k], i)
  }

  /** The buckets remembered for a source are bound series of it. */
  ghost predicate Remembered(bySource: map<nat, Source>, previous: map<nat, map<string, nat>>) {
    forall id, b :: id in previous && b in previous[id] ==> BucketIs(bySource, id, b, previous[id][b])
  }

  predicate BucketIs(bySource: map<nat, Source>, id: nat, b: string, i: nat) {
    id in bySource && Key(Bucket, b) in bySource[id].series && bySource[id].series[Key(Bucket, b)] == i
  }

  /** What a reader relies on: all points of a series come from sources of one temporality, and
      the delta flag names it. */
  lemma OneTemporality(series: seq<Meta>, bySource: map<nat, Source>, i: nat, k: nat)
    requires Named(series, bySource) && Written(series, bySource)
    requires i < |series| && k < |series[i].samples|
    ensures series[i].samples[k].from in bySource
    ensures bySource[series[i].samples[k].from].temporality == Some(Sign(series[i].delta))
  {
    var p := series[i].samples[k];
    assert WrittenBy(bySource, p, i);
  }

  /** Different keys of one source are different series. */
  lemma KeysAreApart(cfg: Config, series: seq<Meta>, bySource: map<nat, Source>, id: nat, k: Key, l: Key)
    requires cfg.Valid() && Bound(cfg, series, bySource) && id in bySource && k != l && k.Proper() && l.Proper()
    requires k in bySource[id].series && l in bySource[id].series
    ensures bySource[id].series[k] != bySource[id].series[l]
  {
    var (m, o) := (bySource[id].series, cfg.origins[id]);
    assert BindsTo(cfg, series, id, k, m[k]) && BindsTo(cfg, series, id, l, m[l]);
    if m[k] == m[l] {
      SameSeriesSameTag(o, k, o, l);
    }
  }

  // ---------------------------------------------------------------- which samples are at fault

  function SourceOf(bySource: map<nat, Source>, id: nat): Source {
    if id in bySource then bySource[id] else NEW_SOURCE
  }

  /** The temporality of a sample suits its source and the sources with the same tag. */
  predicate Fits(o: Origin, src: Source, filed: map<Tag, Temporality>, t: Option<Temporality>, kind: Kind) {
    var tag := TagOf(o, kind);
    t.Some? && (src.temporality.None? || src.temporality == t)
    && (src.Checked(kind) || tag !in filed || filed[tag] == t.value)
  }

  /** A source whose points of this kind go to the same series, with the other temporality. */
  ghost predicate Opposes(cfg: Config, bySource: map<nat, Source>, other: nat, o: Origin, t: Temporality, kind: Kind) {
    other in bySource && other in cfg.origins && bySource[other].Checked(kind)
    && bySource[other].temporality.Some? && bySource[other].temporality.value != t
    && ShareSeries(cfg.origins[other], o, kind)
  }

  /** No known temporality, or not that of the source, or another source writes to the same
      series with the other one. */
  ghost predicate Clashes(cfg: Config, bySource: map<nat, Source>, id: nat, t: Option<Temporality>, kind: Kind)
    requires id in cfg.origins
  {
    t.None? || (SourceOf(bySource, id).temporality.Some? && SourceOf(bySource, id).temporality != t)
    || exists other :: Opposes(cfg, bySource, other, cfg.origins[id], t.value, kind)
  }

  /** Tags leave exactly the samples unfit that clash with their own source or with one that
      writes to the same series. */
  lemma FitsIff(cfg: Config, bySource: map<nat, Source>, filed: map<Tag, Temporality>, id: nat,
                t: Option<Temporality>, kind: Kind)
    requires cfg.Valid() && Filed(cfg, bySource, filed) && Claimed(cfg, bySource, filed) && id in cfg.origins
    ensures Fits(cfg.origins[id], SourceOf(bySource, id), filed, t, kind) <==> !Clashes(cfg, bySource, id, t, kind)
  {
    hide TagOf, ShareSeries, Source.Checked;
    var (o, src, tag) := (cfg.origins[id], SourceOf(bySource, id), TagOf(cfg.origins[id], kind));
    assert o.Valid();
    CheckedAgrees(cfg, bySource, filed, id, kind);
    if t.Some? && (src.temporality.None? || src.temporality == t) {
      TagHasKind(o, kind);
      if tag in filed && filed[tag] != t.value {
        var other :| other in bySource && FiledIt(cfg, other, bySource[other], tag, filed[tag]);
        SameTagIff(cfg.origins[other], o, kind);
        assert Opposes(cfg, bySource, other, o, t.value, kind);
      }
      if other :| Opposes(cfg, bySource, other, o, t.value, kind) {
        SameTagIff(cfg.origins[other], o, kind);
        assert CheckedFirst(cfg, other, bySource[other], filed) && Agrees(cfg, other, bySource[other], kind, filed);
      }
    }
  }

  /** A sample that may be refused as invalid: malformed buckets, or a temporality that clashes
      with that of its series, for a suffix that is asked for. */
  ghost predicate AtFault(cfg: Config, bySource: map<nat, Source>, s: Sample, suffixes: seq<Suffix>)
    requires s.id in cfg.origins
  {
    exists suffix :: suffix in suffixes
      && ((suffix.Bucket? && !GoodBuckets(s))
          || (cfg.withSamples && Clashes(cfg, bySource, s.id, s.temporality, KindOf(suffix))))
  }

  lemma CheckedAgrees(cfg: Config, bySource: map<nat, Source>, filed: map<Tag, Temporality>, id: nat, kind: Kind)
    requires Filed(cfg, bySource, filed) && id in cfg.origins
    ensures SourceOf(bySource, id).Checked(kind) ==> Agrees(cfg, id, SourceOf(bySource, id), kind, filed)
  {
    hide TagOf;
    if id in bySource {
      assert CheckedFirst(cfg, id, bySource[id], filed);
    }
  }

  /** What reading points of a sample may change of its source and the filed temporalities. */
  predicate Advances(was: Source, wasFiled: map<Tag, Temporality>, now: Source, filed: map<Tag, Temporality>,
                     t: Option<Temporality>)
  {
    (now.temporality == was.temporality || now.temporality == t)
    && (forall kind :: was.Checked(kind) ==> now.Checked(kind))
    && forall tag :: tag in filed ==>
         (tag in wasFiled && filed[tag] == wasFiled[tag]) || (t.Some? && filed[tag] == t.value)
  }

  /** A sample that suited before still does after some of its points are read. */
  lemma StillFits(o: Origin, was: Source, wasFiled: map<Tag, Temporality>, now: Source, filed: map<Tag, Temporality>,
                  t: Option<Temporality>, kind: Kind)
    requires Advances(was, wasFiled, now, filed, t) && Fits(o, was, wasFiled, t, kind)
    ensures Fits(o, now, filed, t, kind)
  {
    hide TagOf, Source.Checked;
  }

  lemma AdvancesFurther(a: Source, aFiled: map<Tag, Temporality>, b: Source, bFiled: map<Tag, Temporality>,
                        c: Source, cFiled: map<Tag, Temporality>, t: Option<Temporality>)
    requires Advances(a, aFiled, b, bFiled, t) && Advances(b, bFiled, c, cFiled, t)
    ensures Advances(a, aFiled, c, cFiled, t)
  {
    hide Source.Checked;
  }

  lemma SeriesAlone(was: Source, now: Source, filed: map<Tag, Temporality>, t: Option<Temporality>)
    requires now == was.(series := now.series)
    ensures Advances(was, filed, now, filed, t)
  {
  }

  lemma NoAdvance(src: Source, filed: map<Tag, Temporality>, t: Option<Temporality>)
    ensures Advances(src, filed, src, filed, t)
  {
  }

  // ---------------------------------------------------------------- what a sample adds

  /** Series only grow, and only by points of this sample. */
  ghost predicate Extended(was: seq<Meta>, now: seq<Meta>, s: Sample) {
    forall j: nat ::
      SamplesAt(was, j) <= SamplesAt(now, j)
      && forall k :: |SamplesAt(was, j)| <= k < |SamplesAt(now, j)| ==>
           SamplesAt(now, j)[k].from == s.id && SamplesAt(now, j)[k].t == s.timestamp
  }

  lemma SameIsExtended(was: seq<Meta>, now: seq<Meta>, s: Sample)
    requires forall j: nat :: SamplesAt(now, j) == SamplesAt(was, j)
    ensures Extended(was, now, s)
  {
    hide SamplesAt;
  }

  lemma OnePointExtends(was: seq<Meta>, now: seq<Meta>, s: Sample, i: nat, p: SeriesPoint)
    requires p.from == s.id && p.t == s.timestamp && SamplesAt(now, i) == SamplesAt(was, i) + [p]
    requires forall j: nat :: j != i ==> SamplesAt(now, j) == SamplesAt(was, j)
    ensures Extended(was, now, s)
  {
    hide SamplesAt;
  }

  lemma ExtendedFurther(a: seq<Meta>, b: seq<Meta>, c: seq<Meta>, s: Sample)
    requires Extended(a, b, s) && Extended(b, c, s)
    ensures Extended(a, c, s)
  {
    hide SamplesAt;
    forall j: nat
      ensures SamplesAt(a, j) <= SamplesAt(c, j)
      ensures forall k :: |SamplesAt(a, j)| <= k < |SamplesAt(c, j)| ==>
        SamplesAt(c, j)[k].from == s.id && SamplesAt(c, j)[k].t == s.timestamp
    {
      forall k | |SamplesAt(a, j)| <= k < |SamplesAt(b, j)| ensures SamplesAt(c, j)[k] == SamplesAt(b, j)[k] {
        assert SamplesAt(b, j) == SamplesAt(c, j)[..|SamplesAt(b, j)|];
      }
    }
  }

  /** How many points the series hold together. */
  function Points(series: seq<Meta>): nat {
    if series == [] then 0 else Points(series[..|series| - 1]) + |series[|series| - 1].samples|
  }

  lemma {:induction false} PointsWith(series: seq<Meta>, i: nat, m: Meta)
    requires i < |series|
    ensures Points(series[i := m]) == Points(series) - |series[i].samples| + |m.samples|
  {
    var n := |series| - 1;
    if i < n {
      assert series[i := m][..n] == series[..n][i := m];
      PointsWith(series[..n], i, m);
    } else {
      assert series[i := m][..n] == series[..n];
    }
  }

  lemma PointsGrow(series: seq<Meta>, m: Meta)
    ensures Points(series + [m]) == Points(series) + |m.samples|
  {
    assert (series + [m])[..|series|] == series;
  }

  function SamplesAt(series: seq<Meta>, i: nat): seq<SeriesPoint> { if i < |series| then series[i].samples else [] }

  class Builder {
    const cfg: Config
    var series: seq<Meta>
    var byLabels: map<Labels, nat>
    var bySource: map<nat, Source>
    var previousBucket: map<nat, map<string, nat>>
    var skipped: set<nat>
    var temporality: map<Tag, Temporality>
    var samples: nat

    ghost predicate Valid()
      reads this
    {
      cfg.Valid() && Indexed(series, byLabels) && Bound(cfg, series, bySource) && Written(series, bySource)
      && Remembered(bySource, previousBucket)
      && (cfg.withSamples ==>
            Filed(cfg, bySource, temporality) && Claimed(cfg, bySource, temporality) && Named(series, bySource))
      && |series| <= cfg.maxSeries && samples == Points(series) && (cfg.maxSamples > 0 ==> samples <= cfg.maxSamples)
    }

    /** One more series or one more point would be over a limit; no limit on points is 0. */
    predicate Full()
      reads this
    {
      |series| == cfg.maxSeries || Points(series) == cfg.maxSamples > 0
    }

    constructor (cfg: Config)
      requires cfg.Valid()
      ensures Valid() && this.cfg == cfg && series == []
    {
      this.cfg := cfg;
      series, byLabels, bySource, previousBucket := [], map[], map[], map[];
      skipped, temporality, samples := {}, map[], 0;
    }

    /** In every state the builder can reach, every point of every series comes from a source of
        the temporality its delta flag names. */
    lemma EverySeriesHasOneTemporality(i: nat, k: nat)
      requires Valid() && cfg.withSamples && i < |series| && k < |series[i].samples|
      ensures series[i].samples[k].from in bySource
      ensures bySource[series[i].samples[k].from].temporality == Some(Sign(series[i].delta))
    {
      OneTemporality(series, bySource, i, k);
    }

    method AppendSample(i: nat, p: SeriesPoint) returns (r: Outcome<()>)
      requires Valid() && i < |series| && WrittenBy(bySource, p, i)
      modifies this`series, this`samples
      ensures Valid()
      ensures r.Ok? ==> series == old(series)[i := old(series)[i].(samples := old(series)[i].samples + [p])]
      ensures r.Fail? ==> r.error.Limit? && series == old(series) && Full()
    {
      hide Filed, Claimed, Named, Written, Remembered, Indexed, Bound, WrittenBy, Config.Valid, Points;
      PointsWith(series, i, series[i].(samples := series[i].samples + [p]));
      if cfg.maxSamples > 0 && samples >= cfg.maxSamples {
        return Fail(Limit("histogram sample limit exceeded"));
      }
      AppendKeeps(cfg, series, byLabels, bySource, i, p);
      series := series[i := series[i].(samples := series[i].samples + [p])];
      samples := samples + 1;
      r := Ok(());
    }

    /** The temporality checks of addPoint: the sample must have one, it must be the source's,
        and before the first point of a kind it must be that of every source with the same tag. */
    method CheckTemporality(id: nat, t: Option<Temporality>, kind: Kind) returns (error: Option<Error>)
      requires Valid() && cfg.withSamples && id in bySource
      modifies this`bySource, this`temporality
      ensures Valid()
      ensures id in bySource && bySource == old(bySource)[id := bySource[id]]
      ensures bySource[id].series == old(bySource[id]).series
      ensures error.None? ==> t.Some? && bySource[id].temporality == t && bySource[id].Checked(kind)
      ensures Advances(old(bySource[id]), old(temporality), bySource[id], temporality, t)
      ensures error.Some? ==> error.value.Invalid? && bySource == old(bySource)
      ensures error.Some? <==> !Fits(cfg.origins[id], old(bySource[id]), old(temporality), t, kind)
      ensures error.Some? <==> Clashes(cfg, old(bySource), id, t, kind)
    {
      hide Filed, Claimed, Named, Written, Remembered, Indexed, Bound, TagOf, Config.Valid, Points;
      OriginsKnown(cfg, series, bySource, id);
      FitsIff(cfg, bySource, temporality, id, t, kind);
      hide Clashes;
      var src := bySource[id];
      if t.None? {
        return Some(Invalid("virtual counters require cumulative or delta histograms"));
      }
      if src.temporality.Some? && src.temporality != t {
        return Some(Invalid("mixed temporality"));
      }
      var tag := TagOf(cfg.origins[id], kind);
      var filed := temporality;
      if !src.Checked(kind) {
        if tag in filed && filed[tag] != t.value {
          return Some(Invalid("mixed temporality"));
        }
        filed := filed[tag := t.value];
        src := if kind.Buckets? then src.(bucketsChecked := true) else src.(totalsChecked := true);
      }
      src := src.(temporality := t);
      CheckKeeps(cfg, series, bySource, temporality, id, src, t.value, kind, filed);
      CheckClaims(cfg, bySource, temporality, id, src, t.value, kind, filed);
      RememberedKeeps(bySource, bySource[id := src], previousBucket);
      bySource, temporality := bySource[id := src], filed;
      error := None;
    }

    /** Gives the source its series for the key, shared with every source of the same labels. */
    method Bind(id: nat, key: Key, delta: bool) returns (r: Outcome<nat>)
      requires Valid() && id in bySource && key !in bySource[id].series
      requires cfg.matches(VirtualLabels(cfg.origins[id], key))
      requires cfg.withSamples ==>
        bySource[id].temporality == Some(Sign(delta)) && bySource[id].Checked(KindOf(key.suffix))
      modifies this`series, this`byLabels, this`bySource
      ensures Valid()
      ensures forall j :: 0 <= j ==> SamplesAt(series, j) == SamplesAt(old(series), j)
      ensures r.Ok? ==>
        r.value < |series| && |series| >= |old(series)|
        && bySource == old(bySource)[id := old(bySource[id]).(series := old(bySource[id]).series[key := r.value])]
      ensures r.Fail? ==> r.error.Limit? && bySource == old(bySource) && Full()
    {
      hide Filed, Claimed, Named, Written, Remembered, Indexed, VirtualLabels, Bound, Config.Valid, Points,
           Source.Checked;
      OriginsKnown(cfg, series, bySource, id);
      var labels := VirtualLabels(cfg.origins[id], key);
      var isNew := labels !in byLabels;
      if isNew && |series| >= cfg.maxSeries {
        return Fail(Limit("histogram series limit exceeded"));
      }
      ghost var (wasSeries, wasLabels) := (series, byLabels);
      GrowKeeps(cfg, series, byLabels, bySource, labels);
      PointsGrow(series, Meta(labels, false, []));
      if isNew {
        byLabels := byLabels[labels := |series|];
        series := series + [Meta(labels, false, [])];
      }
      LabelsAreIndexed(series, byLabels, labels);
      var i := byLabels[labels];
      ghost var grown := series;
      PointsWith(series, i, series[i].(delta := delta));
      if cfg.withSamples {
        series := series[i := series[i].(delta := delta)];
      }
      BindKeeps(cfg, grown, series, byLabels, bySource, temporality, id, key, i, delta);
      var src := bySource[id];
      if cfg.withSamples {
        ClaimedWithKey(cfg, bySource, temporality, id, key, i);
      }
      RememberedKeeps(bySource, bySource[id := src.(series := src.series[key := i])], previousBucket);
      bySource := bySource[id := src.(series := src.series[key := i])];
      r := Ok(i);
    }

    /** addPoint: None when the matchers reject the series. */
    method AddPoint(s: Sample, key: Key, value: Value) returns (r: Outcome<Option<nat>>)
      requires Valid() && s.id in bySource
      modifies this`series, this`byLabels, this`bySource, this`temporality, this`samples
      ensures Valid() && bySource.Keys == old(bySource).Keys
      ensures KeepsKeys(old(bySource[s.id]), bySource[s.id])
      ensures r.Fail? && r.error.Limit? ==> Full()
      ensures r.Fail? && r.error.Invalid? ==>
        series == old(series) && cfg.withSamples
        && !Fits(cfg.origins[s.id], old(bySource[s.id]), old(temporality), s.temporality, KindOf(key.suffix))
      ensures Advances(old(bySource[s.id]), old(temporality), bySource[s.id], temporality, s.temporality)
      ensures Extended(old(series), series, s)
      ensures r.Ok? && r.value.None? ==> !cfg.matches(VirtualLabels(cfg.origins[s.id], key)) && series == old(series)
      ensures r.Ok? && r.value.Some? ==>
        r.value.value < |series|
        && key in bySource[s.id].series && bySource[s.id].series[key] == r.value.value
        && (forall j :: 0 <= j && j != r.value.value ==> SamplesAt(series, j) == SamplesAt(old(series), j))
        && SamplesAt(series, r.value.value) == SamplesAt(old(series), r.value.value)
             + if cfg.withSamples then [SeriesPoint(s.timestamp, value, s.id, key)] else []
    {
      hide Filed, Claimed, Named, Written, Remembered, Indexed, VirtualLabels, Bound, Source.Checked, Advances,
           Extended, Fits,
           Config.Valid, SamplesAt, Points;
      OriginsKnown(cfg, series, bySource, s.id);
      ghost var (src, filed, before) := (bySource[s.id], temporality, series);
      NoAdvance(src, filed, s.temporality);
      SameIsExtended(before, before, s);
      var known := key in bySource[s.id].series;
      if !known && !cfg.matches(VirtualLabels(cfg.origins[s.id], key)) {
        return Ok(None);
      }
      if cfg.withSamples {
        var error := CheckTemporality(s.id, s.temporality, KindOf(key.suffix));
        if error.Some? {
          return Fail(error.value);
        }
        SignOf(s.temporality);
      }
      var i;
      if known {
        i := bySource[s.id].series[key];
        BoundInRange(cfg, series, bySource, s.id, key);
      } else {
        ghost var (checked, nowFiled) := (bySource[s.id], temporality);
        var bound := Bind(s.id, key, cfg.withSamples && s.temporality == Some(Delta));
        SameIsExtended(before, series, s);
        if bound.Fail? {
          return Fail(bound.error);
        }
        SeriesAlone(checked, bySource[s.id], nowFiled, s.temporality);
        AdvancesFurther(src, filed, checked, nowFiled, bySource[s.id], temporality, s.temporality);
        i := bound.value;
      }
      if cfg.withSamples {
        ghost var was := series;
        var point := SeriesPoint(s.timestamp, value, s.id, key);
        var appended := AppendSample(i, point);
        if appended.Fail? {
          return Fail(appended.error);
        }
        Appended(was, series, i, point);
        OnePointExtends(before, series, s, i, point);
      }
      r := Ok(Some(i));
    }

    /** The bucket branch of addSample: one value point for each bucket the matchers select, and
        one stale marker for each bucket that the source had before and lacks now. */
    method AddBuckets(s: Sample) returns (r: Outcome<()>, ghost buckets: map<string, nat>)
      requires Valid() && s.id in bySource && cfg.Reads(s)
      modifies this`series, this`byLabels, this`bySource, this`temporality, this`samples, this`previousBucket
      ensures Valid() && bySource.Keys == old(bySource).Keys
      ensures KeepsKeys(old(bySource[s.id]), bySource[s.id])
      ensures r.Fail? && r.error.Limit? ==> Full()
      ensures !GoodBuckets(s) ==>
        r.Fail? && r.error.Invalid? && series == old(series) && previousBucket == old(previousBucket)
      ensures r.Fail? && r.error.Invalid? && GoodBuckets(s) ==>
        cfg.withSamples && !Fits(cfg.origins[s.id], old(bySource[s.id]), old(temporality), s.temporality, Buckets)
      ensures Advances(old(bySource[s.id]), old(temporality), bySource[s.id], temporality, s.temporality)
      ensures Extended(old(series), series, s) && (!cfg.withSamples ==> previousBucket == old(previousBucket))
      ensures r.Ok? ==> GoodBuckets(s) && AreBuckets(cfg, s, buckets)
      ensures r.Ok? && cfg.withSamples ==>
        var current := BucketsOf(previousBucket, s.id);
        var gone := Gone(BucketsOf(old(previousBucket), s.id), current);
        (forall b :: b in buckets ==> (b in current <==> Selects(cfg, s.id, b)))
        && Placed(s, old(series), series, current, buckets) && Staled(s, old(series), series, gone)
        && Untouched(old(series), series, current, gone)
    {
      hide Filed, Claimed, Named, Written, Remembered, Indexed, VirtualLabels, Bound, Config.Valid, Points,
           Source.Checked, AreBuckets,
           Placed, Staled, Untouched, BucketIs, Selects, Gone, SamplesAt, Advances, Extended, Fits;
      buckets := map[];
      ghost var (src, filed) := (bySource[s.id], temporality);
      NoAdvance(src, filed, s.temporality);
      SameIsExtended(series, series, s);
      var found := SampleBuckets(cfg, s);
      if found.None? {
        return Fail(Invalid("histogram buckets")), buckets;
      }
      buckets := found.value;
      ghost var before := series;
      var rest, current: map<string, nat> := found.value.Keys, map[];
      NothingPlaced(s, series, buckets);
      while rest != {}
        invariant Valid() && bySource.Keys == old(bySource).Keys && rest <= buckets.Keys
        invariant previousBucket == old(previousBucket) && KeepsKeys(old(bySource[s.id]), bySource[s.id])
        invariant current.Keys <= buckets.Keys - rest && buckets == found.value
        invariant forall b :: b in current ==> BucketIs(bySource, s.id, b, current[b])
        invariant forall b :: b in buckets && b !in rest ==> (b in current <==> Selects(cfg, s.id, b))
        invariant cfg.withSamples ==>
          Placed(s, before, series, current, buckets) && Untouched(before, series, current, map[])
        invariant Advances(src, filed, bySource[s.id], temporality, s.temporality) && Extended(before, series, s)
        decreases |rest|
      {
        var b :| b in rest;
        rest := rest - {b};
        ghost var (was, sources, now, nowFiled) := (series, bySource, bySource[s.id], temporality);
        OriginsKnown(cfg, series, bySource, s.id);
        if Fits(cfg.origins[s.id], src, filed, s.temporality, Buckets) {
          StillFits(cfg.origins[s.id], src, filed, now, nowFiled, s.temporality, Buckets);
        }
        var added := AddPoint(s, Key(Bucket, b), Number(found.value[b]));
        AdvancesFurther(src, filed, now, nowFiled, bySource[s.id], temporality, s.temporality);
        ExtendedFurther(before, was, series, s);
        if added.Fail? {
          return Fail(added.error), buckets;
        }
        StillBuckets(sources, bySource, s.id, current);
        SelectsIs(cfg, series, bySource, s.id, b);
        if added.value.Some? {
          BucketIsOf(bySource, s.id, b, added.value.value);
          NotAmong(cfg, series, bySource, s.id, current, b, added.value.value);
          if cfg.withSamples {
            PlaceOne(s, before, was, series, current, buckets, b, added.value.value);
          }
          current := current[b := added.value.value];
        }
      }
      if cfg.withSamples {
        ghost var was := series;
        r := AddStaleMarkers(s, current, before, buckets);
        ExtendedFurther(before, was, series, s);
        if r.Fail? {
          return;
        }
        RememberMore(bySource, previousBucket, s.id, current);
        previousBucket := previousBucket[s.id := current];
      }
      r := Ok(());
    }

    /** Marks the buckets of the source's previous sample that this one lacks. */
    method AddStaleMarkers(s: Sample, current: map<string, nat>, ghost before: seq<Meta>,
                           ghost buckets: map<string, nat>)
      returns (r: Outcome<()>)
      requires Valid() && s.id in bySource
      requires forall b :: b in current ==> BucketIs(bySource, s.id, b, current[b])
      requires Placed(s, before, series, current, buckets) && Untouched(before, series, current, map[])
      modifies this`series, this`samples
      ensures Valid() && Extended(old(series), series, s) && (r.Fail? ==> r.error.Limit? && Full())
      ensures r.Ok? ==>
        var gone := Gone(BucketsOf(previousBucket, s.id), current);
        Placed(s, before, series, current, buckets) && Staled(s, before, series, gone)
            && Untouched(before, series, current, gone)
    {
      hide Filed, Claimed, Named, Written, Remembered, Indexed, VirtualLabels, Bound, Config.Valid, Points,
           Source.Checked, Placed,
           Staled, Untouched, BucketIs, WrittenBy, Extended, SamplesAt;
      SameIsExtended(series, series, s);
      var previous := BucketsOf(previousBucket, s.id);
      var rest: set<string>, gone: map<string, nat> := Gone(previous, current).Keys, map[];
      NothingStaled(s, before, series);
      PreviousAreBuckets(bySource, previousBucket, s.id);
      while rest != {}
        invariant Valid() && rest <= Gone(previous, current).Keys
        invariant gone == map b | b in Gone(previous, current) && b !in rest :: previous[b]
        invariant Placed(s, before, series, current, buckets) && Staled(s, before, series, gone)
        invariant Untouched(before, series, current, gone) && Extended(old(series), series, s)
        decreases |rest|
      {
        var b :| b in rest;
        rest := rest - {b};
        var i := previous[b];
        BucketInRange(cfg, series, bySource, s.id, b, i);
        NotAmong(cfg, series, bySource, s.id, current, b, i);
        NotAmong(cfg, series, bySource, s.id, gone, b, i);
        ghost var was := series;
        BucketIsWriter(bySource, StaleMarker(s, b), i);
        r := AppendSample(i, StaleMarker(s, b));
        if r.Fail? {
          return;
        }
        StaleOne(s, before, was, series, current, buckets, gone, b, i);
        Appended(was, series, i, StaleMarker(s, b));
        OnePointExtends(was, series, s, i, StaleMarker(s, b));
        ExtendedFurther(old(series), was, series, s);
        gone := gone[b := i];
      }
      assert gone == Gone(previous, current);
      r := Ok(());
    }

    /** The suffixes read so far, from the state in which the sample arrived. */
    ghost predicate Progress(s: Sample, done: seq<Suffix>, src: Source, filed: map<Tag, Temporality>, start: seq<Meta>,
                             last: map<string, nat>)
      reads this
    {
      Valid() && s.id in bySource && s.id in cfg.origins
      && Advances(src, filed, bySource[s.id], temporality, s.temporality) && Extended(start, series, s)
      && (forall b :: b in last ==> BucketIs(bySource, s.id, b, last[b]))
      && (cfg.withSamples ==> AllRecorded(cfg, series, bySource, s, done))
      && if cfg.withSamples && Bucket in done then Ended(cfg, series, s, last, BucketsOf(previousBucket, s.id))
         else BucketsOf(previousBucket, s.id) == last
    }

    method AddBucketSuffix(s: Sample, ghost done: seq<Suffix>, ghost src: Source, ghost filed: map<Tag, Temporality>,
                           ghost start: seq<Meta>, ghost last: map<string, nat>)
      returns (r: Outcome<()>)
      requires Progress(s, done, src, filed, start, last) && cfg.Reads(s)
      modifies this`series, this`byLabels, this`bySource, this`temporality, this`samples, this`previousBucket
      ensures Valid() && s.id in bySource && Extended(start, series, s)
      ensures r.Fail? && r.error.Limit? ==> Full()
      ensures r.Fail? && r.error.Invalid? ==>
        !GoodBuckets(s) || (cfg.withSamples && !Fits(cfg.origins[s.id], src, filed, s.temporality, Buckets))
      ensures r.Ok? ==> Progress(s, done + [Bucket], src, filed, start, last)
    {
      hide Filed, Claimed, Named, Written, Remembered, Indexed, VirtualLabels, Bound, Config.Valid, Points,
           Source.Checked, Placed,
           Staled, Untouched, AreBuckets, GoodBuckets, AllRecorded, BucketIs, KeepsKeys, Advances, Extended, Fits,
           Ended, SamplesAt, Bucketed, Gone;
      ghost var (before, was, previous, wasFiled) := (series, bySource, BucketsOf(previousBucket, s.id), temporality);
      PreviousAreBuckets(bySource, previousBucket, s.id);
      if Fits(cfg.origins[s.id], src, filed, s.temporality, Buckets) {
        StillFits(cfg.origins[s.id], src, filed, was[s.id], wasFiled, s.temporality, Buckets);
      }
      ghost var buckets;
      r, buckets := AddBuckets(s);
      AdvancesFurther(src, filed, was[s.id], wasFiled, bySource[s.id], temporality, s.temporality);
      ExtendedFurther(start, before, series, s);
      if r.Ok? {
        StillBuckets(was, bySource, s.id, last);
        if cfg.withSamples {
          ghost var now := BucketsOf(previousBucket, s.id);
          GoneStay(was, bySource, s.id, previous, now);
          PreviousAreBuckets(bySource, previousBucket, s.id);
          AfterBuckets(cfg, before, was, series, bySource, s, done, buckets, now, Gone(previous, now));
          BucketedNow(cfg, s, before, series, now, buckets);
          if Bucket in done {
            EndedAgain(cfg, before, series, bySource, s, last, previous, now);
          } else {
            EndedFirst(cfg, before, series, s, last, now);
          }
        }
      }
    }

    method AddTotalSuffix(s: Sample, suffix: Suffix, ghost done: seq<Suffix>, ghost src: Source,
                          ghost filed: map<Tag, Temporality>, ghost start: seq<Meta>, ghost last: map<string, nat>)
      returns (r: Outcome<()>)
      requires Progress(s, done, src, filed, start, last) && !suffix.Bucket?
      modifies this`series, this`byLabels, this`bySource, this`temporality, this`samples
      ensures Valid() && s.id in bySource && Extended(start, series, s)
      ensures r.Fail? && r.error.Limit? ==> Full()
      ensures r.Fail? && r.error.Invalid? ==>
        cfg.withSamples && !Fits(cfg.origins[s.id], src, filed, s.temporality, Totals)
      ensures r.Ok? ==> Progress(s, done + [suffix], src, filed, start, last)
    {
      hide Filed, Claimed, Named, Written, Remembered, Indexed, VirtualLabels, Bound, Config.Valid, Points,
           Source.Checked, AreBuckets,
           GoodBuckets, AllRecorded, BucketIs, KeepsKeys, Advances, Extended, Fits, Ended, SamplesAt, Bucketed;
      ghost var (before, was, wasFiled) := (series, bySource, temporality);
      if Fits(cfg.origins[s.id], src, filed, s.temporality, Totals) {
        StillFits(cfg.origins[s.id], src, filed, was[s.id], wasFiled, s.temporality, Totals);
      }
      var key := Key(suffix, "");
      var value := if suffix.Count? then Number(s.count) else s.sum;
      var added := AddPoint(s, key, value);
      AdvancesFurther(src, filed, was[s.id], wasFiled, bySource[s.id], temporality, s.temporality);
      ExtendedFurther(start, before, series, s);
      if added.Fail? {
        return Fail(added.error);
      }
      StillBuckets(was, bySource, s.id, last);
      if cfg.withSamples {
        AfterPoint(cfg, before, was, series, bySource, s, done, key, added.value);
        if Bucket in done {
          EndedBeside(cfg, before, was, series, bySource, s, last, BucketsOf(previousBucket, s.id), key, value,
              added.value);
        }
      }
      r := Ok(());
    }

    /** Reads the requested suffixes in order. When nothing fails, every selected series of the
        sample ends with the point the sample gives it, and every bucket that disappeared with
        a stale marker; whatever happens, no other point is added anywhere, and only a sample
        at fault is invalid. */
    method AddSample(s: Sample, suffixes: seq<Suffix>) returns (r: Outcome<()>)
      requires Valid() && s.id in cfg.origins && cfg.Reads(s)
      modifies this`series, this`byLabels, this`bySource, this`temporality, this`samples, this`previousBucket
      ensures Valid() && s.id in bySource && Extended(old(series), series, s)
      ensures r.Fail? && r.error.Limit? ==> Full()
      ensures r.Fail? && r.error.Invalid? ==> AtFault(cfg, old(bySource), s, suffixes)
      ensures r.Ok? && cfg.withSamples ==> AllRecorded(cfg, series, bySource, s, suffixes)
      ensures r.Ok? && cfg.withSamples && Bucket in suffixes ==>
        Ended(cfg, series, s, BucketsOf(old(previousBucket), s.id), BucketsOf(previousBucket, s.id))
    {
      hide Filed, Claimed, Named, Written, Remembered, Indexed, Bound, Config.Valid, Points, Source.Checked,
           GoodBuckets, AllRecorded,
           BucketIs, Advances, Extended, Fits, Ended;
      ghost var (src, filed, start) := (SourceOf(bySource, s.id), temporality, series);
      if cfg.withSamples {
        FitsIff(cfg, bySource, temporality, s.id, s.temporality, Buckets);
        FitsIff(cfg, bySource, temporality, s.id, s.temporality, Totals);
      }
      hide Clashes;
      ghost var last := BucketsOf(previousBucket, s.id);
      NoAdvance(src, filed, s.temporality);
      SameIsExtended(series, series, s);
      if s.id !in bySource {
        NewSourceKeeps(cfg, series, bySource, temporality, previousBucket, s.id);
        if cfg.withSamples {
          ClaimedStays(cfg, bySource, bySource[s.id := NEW_SOURCE], temporality);
        }
        bySource := bySource[s.id := NEW_SOURCE];
      }
      PreviousAreBuckets(bySource, previousBucket, s.id);
      NothingToRecord(cfg, series, bySource, s);
      for i := 0 to |suffixes|
        invariant Progress(s, suffixes[..i], src, filed, start, last)
      {
        hide Progress, Valid;
        assert suffixes[..i + 1] == suffixes[..i] + [suffixes[i]];
        match suffixes[i] {
          case Bucket => r := AddBucketSuffix(s, suffixes[..i], src, filed, start, last);
          case _ => r := AddTotalSuffix(s, suffixes[i], suffixes[..i], src, filed, start, last);
        }
        if r.Fail? {
          assert suffixes[i] in suffixes;
          return;
        }
      }
      assert suffixes[..|suffixes|] == suffixes;
      r := Ok(());
    }

    /** A broad selector skips an invalid sample and remembers its source; an exact one fails.
        Either way only a sample at fault is refused, also when its source was skipped before. */
    method Add(s: Sample, suffixes: seq<Suffix>) returns (error: Option<Error>, ghost kept: bool)
      requires Valid() && s.id in cfg.origins && cfg.Reads(s)
      modifies this
      ensures Valid() && Extended(old(series), series, s)
      ensures error.Some? ==> !kept && skipped == old(skipped)
      ensures error.Some? ==>
        (error.value.Limit? && Full()) || (cfg.strict && AtFault(cfg, old(bySource), s, suffixes))
      ensures error.None? && !kept ==>
        !cfg.strict && skipped == old(skipped) + {s.id} && AtFault(cfg, old(bySource), s, suffixes)
      ensures kept ==> skipped == old(skipped) && s.id in bySource
      ensures kept && cfg.withSamples ==> AllRecorded(cfg, series, bySource, s, suffixes)
      ensures kept && cfg.withSamples && Bucket in suffixes ==>
        Ended(cfg, series, s, BucketsOf(old(previousBucket), s.id), BucketsOf(previousBucket, s.id))
    {
      hide Filed, Claimed, Named, Written, Remembered, Indexed, Bound, Config.Valid, Points, AllRecorded, AtFault,
           Extended, Ended;
      kept := false;
      var added := AddSample(s, suffixes);
      if added.Ok? {
        kept := true;
        return None, kept;
      }
      if cfg.strict || !added.error.Invalid? {
        return Some(added.error), kept;
      }
      skipped := skipped + {s.id};
      error := None;
    }

    /** finish: every series sorted, and delta series turned into running totals. */
    method Finish() returns (out: seq<Finished>)
      requires Valid()
      ensures |out| == |series|
      ensures forall i :: 0 <= i < |series| ==>
        out[i].labels == series[i].labels && out[i].delta == series[i].delta && IsFinished(series[i], out[i].samples)
      ensures forall i, j :: 0 <= i < j < |out| ==> out[i].labels != out[j].labels
    {
      hide Filed, Claimed, Named, Written, Remembered, Bound, Config.Valid, Points;
      out := [];
      for i := 0 to |series|
        invariant |out| == i
        invariant forall k :: 0 <= k < i ==>
          out[k].labels == series[k].labels && out[k].delta == series[k].delta && IsFinished(series[k], out[k].samples)
      {
        hide Indexed;
        var samples := Accumulation.FinishSamples(Stored(series[i].samples), series[i].delta);
        assert IsFinished(series[i], samples);
        hide IsFinished;
        out := out + [Finished(series[i].labels, series[i].delta, samples)];
      }
    }
  }

  // ---------------------------------------------------------------- finished series

  datatype Finished = Finished(labels: Labels, delta: bool, samples: seq<Accumulation.Sample>)

  /** The points of a series as samples. */
  function Stored(points: seq<SeriesPoint>): (r: seq<Accumulation.Sample>)
    ensures |r| == |points|
  {
    seq(|points|, k requires 0 <= k < |points| => Accumulation.Sample(points[k].t, points[k].value))
  }

  /** What a reader gets: the points in time order, or for a delta series their running total. */
  ghost predicate IsFinished(meta: Meta, samples: seq<Accumulation.Sample>) {
    var points := Stored(meta.samples);
    if meta.delta then Accumulation.RunningTotal(points, samples)
    else Accumulation.InOrder(samples) && multiset(samples) == multiset(points)
  }

  // ---------------------------------------------------------------- disappearing buckets

  /** The bounds a well-formed sample has a count for. */
  ghost predicate HasBound(cfg: Config, s: Sample, b: string) {
    b == PLUS_INF || exists i :: 0 <= i < |s.bounds| && s.bounds[i].Finite? && b == cfg.format(s.bounds[i].v)
  }

  /** The remembered buckets are the selected ones of the sample. */
  ghost predicate Bucketed(cfg: Config, s: Sample, now: map<string, nat>) {
    forall b :: b in now <==> HasBound(cfg, s, b) && Selects(cfg, s.id, b)
  }

  /** The remembered buckets are those of the sample, and every bucket remembered before and
      gone now ends with a stale marker. */
  ghost predicate Ended(cfg: Config, series: seq<Meta>, s: Sample, was: map<string, nat>, now: map<string, nat>) {
    Bucketed(cfg, s, now)
    && forall b :: b in was && b !in now ==>
         var points := SamplesAt(series, was[b]);
         points != [] && points[|points| - 1] == StaleMarker(s, b)
  }

  lemma BucketedNow(cfg: Config, s: Sample, before: seq<Meta>, series: seq<Meta>, now: map<string, nat>,
                    buckets: map<string, nat>)
    requires GoodBuckets(s) && AreBuckets(cfg, s, buckets) && Placed(s, before, series, now, buckets)
    requires forall b :: b in buckets ==> (b in now <==> Selects(cfg, s.id, b))
    ensures Bucketed(cfg, s, now)
  {
    hide Selects, SamplesAt, Running;
    forall b ensures b in buckets <==> HasBound(cfg, s, b) {
      if b in buckets && b != PLUS_INF {
        var i :| 0 <= i < |s.bounds| && b == cfg.format(s.bounds[i].v);
        assert s.bounds[i].Finite?;
      }
    }
  }

  lemma EndedFirst(cfg: Config, before: seq<Meta>, series: seq<Meta>, s: Sample, was: map<string, nat>,
                   now: map<string, nat>)
    requires Staled(s, before, series, Gone(was, now)) && Bucketed(cfg, s, now)
    ensures Ended(cfg, series, s, was, now)
  {
    hide SamplesAt, Bucketed;
    forall b | b in was && b !in now
      ensures SamplesAt(series, was[b])
          == SamplesAt(before, was[b]) + [StaleMarker(s, b)]
    {
      assert b in Gone(was, now);
    }
  }

  /** Reading the buckets a second time marks nothing again. */
  lemma EndedAgain(cfg: Config, before: seq<Meta>, series: seq<Meta>, bySource: map<nat, Source>, s: Sample,
                   was: map<string, nat>, middle: map<string, nat>, now: map<string, nat>)
    requires cfg.Valid() && Bound(cfg, series, bySource) && Ended(cfg, before, s, was, middle) && Bucketed(cfg, s, now)
    requires forall b :: b in was ==> BucketIs(bySource, s.id, b, was[b])
    requires forall b :: b in now ==> BucketIs(bySource, s.id, b, now[b])
    requires Untouched(before, series, now, Gone(middle, now))
    ensures Ended(cfg, series, s, was, now)
  {
    hide Bound, Config.Valid, BucketIs, SamplesAt, Selects, HasBound;
    forall b ensures b in middle <==> b in now {
      assert b in middle <==> HasBound(cfg, s, b) && Selects(cfg, s.id, b);
    }
    assert Gone(middle, now) == map[];
    forall b | b in was && b !in now ensures SamplesAt(series, was[b]) == SamplesAt(before, was[b]) {
      NotAmong(cfg, series, bySource, s.id, now, b, was[b]);
    }
  }

  lemma EndedBeside(cfg: Config, before: seq<Meta>, sources: map<nat, Source>, series: seq<Meta>,
                    bySource: map<nat, Source>,
                    s: Sample, was: map<string, nat>, now: map<string, nat>, key: Key, v: Value, at: Option<nat>)
    requires cfg.Valid() && Bound(cfg, series, bySource) && !key.suffix.Bucket? && key.Proper()
    requires Ended(cfg, before, s, was, now) && Pointed(cfg, before, sources, series, bySource, s, key, v, at)
    requires forall b :: b in was ==> BucketIs(bySource, s.id, b, was[b])
    ensures Ended(cfg, series, s, was, now)
  {
    hide Bound, Config.Valid, SamplesAt, Bucketed, VirtualLabels;
    forall b | b in was && b !in now ensures SamplesAt(series, was[b]) == SamplesAt(before, was[b]) {
      assert BucketIs(bySource, s.id, b, was[b]);
      if at.Some? {
        KeysAreApart(cfg, series, bySource, s.id, key, Key(Bucket, b));
      }
    }
  }

  lemma Appended(was: seq<Meta>, now: seq<Meta>, i: nat, p: SeriesPoint)
    requires i < |was| && now == was[i := was[i].(samples := was[i].samples + [p])]
    ensures SamplesAt(now, i) == SamplesAt(was, i) + [p]
    ensures forall j: nat :: j != i ==> SamplesAt(now, j) == SamplesAt(was, j)
  {
  }

  // ---------------------------------------------------------------- what one sample changes

  /** A source never loses a series. */
  predicate KeepsKeys(was: Source, now: Source) {
    forall k :: k in was.series ==> k in now.series && now.series[k] == was.series[k]
  }

  /** The newest point of a selected series is the one this sample gives it. */
  predicate Recorded(cfg: Config, series: seq<Meta>, bySource: map<nat, Source>, s: Sample, key: Key, value: Value)
    requires s.id in bySource && s.id in cfg.origins
  {
    cfg.matches(VirtualLabels(cfg.origins[s.id], key)) ==>
      key in bySource[s.id].series
      && var points := SamplesAt(series, bySource[s.id].series[key]);
         points != [] && points[|points| - 1] == SeriesPoint(s.timestamp, value, s.id, key)
  }

  /** Every selected bucket of the sample has its cumulative count. */
  ghost predicate BucketsRecorded(cfg: Config, series: seq<Meta>, bySource: map<nat, Source>, s: Sample)
    requires s.id in bySource && s.id in cfg.origins
  {
    GoodBuckets(s)
    && exists buckets: map<string, nat> ::
         AreBuckets(cfg, s, buckets)
         && forall b :: b in buckets ==> Recorded(cfg, series, bySource, s, Key(Bucket, b), Number(buckets[b]))
  }

  /** The points every requested suffix of a sample asks for. */
  ghost predicate AllRecorded(cfg: Config, series: seq<Meta>, bySource: map<nat, Source>, s: Sample,
                              suffixes: seq<Suffix>)
    requires s.id in bySource && s.id in cfg.origins
  {
    (Bucket in suffixes ==> BucketsRecorded(cfg, series, bySource, s))
    && (Count in suffixes ==> Recorded(cfg, series, bySource, s, Key(Count, ""), Number(s.count)))
    && (Sum in suffixes ==> Recorded(cfg, series, bySource, s, Key(Sum, ""), s.sum))
  }

  /** What reading one point changes: None when the matchers reject its series. */
  ghost predicate Pointed(cfg: Config, before: seq<Meta>, was: map<nat, Source>, series: seq<Meta>,
                          bySource: map<nat, Source>,
                          s: Sample, key: Key, value: Value, at: Option<nat>)
  {
    s.id in was && s.id in bySource && s.id in cfg.origins && KeepsKeys(was[s.id], bySource[s.id])
    && match at
       case None => !cfg.matches(VirtualLabels(cfg.origins[s.id], key)) && series == before
       case Some(i) =>
         key in bySource[s.id].series && bySource[s.id].series[key] == i
         && (forall j :: 0 <= j && j != i ==> SamplesAt(series, j) == SamplesAt(before, j))
         && SamplesAt(series, i) == SamplesAt(before, i) + [SeriesPoint(s.timestamp, value, s.id, key)]
  }

  /** A point recorded for one key is still there after another key of the source got one. */
  lemma RecordedStays(cfg: Config, before: seq<Meta>, was: map<nat, Source>, series: seq<Meta>,
                      bySource: map<nat, Source>,
                      s: Sample, key: Key, value: Value, other: Key, v: Value, at: Option<nat>)
    requires cfg.Valid() && Bound(cfg, series, bySource) && key.Proper() && other.Proper() && key != other
    requires Pointed(cfg, before, was, series, bySource, s, other, v, at) && Recorded(cfg, before, was, s, key, value)
    ensures Recorded(cfg, series, bySource, s, key, value)
  {
    hide Bound, VirtualLabels, Config.Valid, SamplesAt;
    if at.Some? && cfg.matches(VirtualLabels(cfg.origins[s.id], key)) {
      KeysAreApart(cfg, series, bySource, s.id, key, other);
    }
  }

  lemma PointRecorded(cfg: Config, before: seq<Meta>, was: map<nat, Source>, series: seq<Meta>,
                      bySource: map<nat, Source>,
                      s: Sample, key: Key, v: Value, at: Option<nat>)
    requires Pointed(cfg, before, was, series, bySource, s, key, v, at)
    ensures Recorded(cfg, series, bySource, s, key, v)
  {
    hide VirtualLabels, SamplesAt;
  }

  /** Reading a count or a sum completes the points of its suffix and keeps the others. */
  lemma AfterPoint(cfg: Config, before: seq<Meta>, was: map<nat, Source>, series: seq<Meta>, bySource: map<nat, Source>,
                   s: Sample, suffixes: seq<Suffix>, key: Key, at: Option<nat>)
    requires cfg.Valid() && Bound(cfg, series, bySource) && !key.suffix.Bucket? && key.Proper()
    requires Pointed(cfg, before, was, series, bySource, s, key,
                     if key.suffix.Count? then Number(s.count) else s.sum, at)
    requires AllRecorded(cfg, before, was, s, suffixes)
    ensures AllRecorded(cfg, series, bySource, s, suffixes + [key.suffix])
  {
    hide Bound, Config.Valid, Recorded, AreBuckets, GoodBuckets;
    var v := if key.suffix.Count? then Number(s.count) else s.sum;
    PointRecorded(cfg, before, was, series, bySource, s, key, v, at);
    if Bucket in suffixes {
      var buckets :| AreBuckets(cfg, s, buckets)
        && forall b :: b in buckets ==> Recorded(cfg, before, was, s, Key(Bucket, b), Number(buckets[b]));
      forall b | b in buckets ensures Recorded(cfg, series, bySource, s, Key(Bucket, b), Number(buckets[b])) {
        RecordedStays(cfg, before, was, series, bySource, s, Key(Bucket, b), Number(buckets[b]), key, v, at);
      }
    }
    if Count in suffixes && key.suffix.Sum? {
      RecordedStays(cfg, before, was, series, bySource, s, Key(Count, ""), Number(s.count), key, v, at);
    }
    if Sum in suffixes && key.suffix.Count? {
      RecordedStays(cfg, before, was, series, bySource, s, Key(Sum, ""), s.sum, key, v, at);
    }
  }

  /** Reading the buckets completes theirs and keeps the counts and sums. */
  lemma AfterBuckets(cfg: Config, before: seq<Meta>, was: map<nat, Source>, series: seq<Meta>,
                     bySource: map<nat, Source>,
                     s: Sample, suffixes: seq<Suffix>, buckets: map<string, nat>, current: map<string, nat>,
                         gone: map<string, nat>)
    requires cfg.Valid() && Bound(cfg, series, bySource) && GoodBuckets(s) && AreBuckets(cfg, s, buckets)
    requires s.id in was && s.id in bySource && s.id in cfg.origins && KeepsKeys(was[s.id], bySource[s.id])
    requires forall b :: b in current ==> BucketIs(bySource, s.id, b, current[b])
    requires forall b :: b in gone ==> BucketIs(bySource, s.id, b, gone[b])
    requires forall b :: b in buckets ==> (b in current <==> Selects(cfg, s.id, b))
    requires Placed(s, before, series, current, buckets) && Untouched(before, series, current, gone)
    requires AllRecorded(cfg, before, was, s, suffixes)
    ensures AllRecorded(cfg, series, bySource, s, suffixes + [Bucket])
  {
    hide Bound, Config.Valid, AreBuckets, GoodBuckets, VirtualLabels, SamplesAt;
    forall b | b in buckets ensures Recorded(cfg, series, bySource, s, Key(Bucket, b), Number(buckets[b])) {
      assert b in current ==> BucketIs(bySource, s.id, b, current[b]);
    }
    if Count in suffixes {
      OthersStay(cfg, before, was, series, bySource, s, Key(Count, ""), Number(s.count), current, gone);
    }
    if Sum in suffixes {
      OthersStay(cfg, before, was, series, bySource, s, Key(Sum, ""), s.sum, current, gone);
    }
  }

  lemma OthersStay(cfg: Config, before: seq<Meta>, was: map<nat, Source>, series: seq<Meta>, bySource: map<nat, Source>,
                   s: Sample, key: Key, value: Value, current: map<string, nat>, gone: map<string, nat>)
    requires cfg.Valid() && Bound(cfg, series, bySource) && !key.suffix.Bucket? && key.Proper()
    requires s.id in was && s.id in bySource && s.id in cfg.origins && KeepsKeys(was[s.id], bySource[s.id])
    requires forall b :: b in current ==> BucketIs(bySource, s.id, b, current[b])
    requires forall b :: b in gone ==> BucketIs(bySource, s.id, b, gone[b])
    requires Untouched(before, series, current, gone) && Recorded(cfg, before, was, s, key, value)
    ensures Recorded(cfg, series, bySource, s, key, value)
  {
    hide Bound, Config.Valid, VirtualLabels, SamplesAt;
    if cfg.matches(VirtualLabels(cfg.origins[s.id], key)) {
      forall b | b in current ensures current[b] != bySource[s.id].series[key] {
        assert BucketIs(bySource, s.id, b, current[b]);
        KeysAreApart(cfg, series, bySource, s.id, key, Key(Bucket, b));
      }
      forall b | b in gone ensures gone[b] != bySource[s.id].series[key] {
        assert BucketIs(bySource, s.id, b, gone[b]);
        KeysAreApart(cfg, series, bySource, s.id, key, Key(Bucket, b));
      }
    }
  }

  predicate Selects(cfg: Config, id: nat, b: string) {
    id in cfg.origins && cfg.matches(VirtualLabels(cfg.origins[id], Key(Bucket, b)))
  }

  function BucketsOf(previous: map<nat, map<string, nat>>, id: nat): map<string, nat> {
    if id in previous then previous[id] else map[]
  }

  /** The buckets that disappear. */
  function Gone(previous: map<string, nat>, current: map<string, nat>): map<string, nat> {
    map b | b in previous && b !in current :: previous[b]
  }

  /** Each bucket of the sample got one point with its cumulative count. */
  ghost predicate Placed(s: Sample, before: seq<Meta>, now: seq<Meta>, current: map<string, nat>,
                         buckets: map<string, nat>) {
    forall b :: b in current ==>
      b in buckets
      && SamplesAt(now, current[b])
         == SamplesAt(before, current[b]) + [SeriesPoint(s.timestamp, Number(buckets[b]), s.id, Key(Bucket, b))]
  }

  /** Each bucket that disappeared got one stale marker. */
  ghost predicate Staled(s: Sample, before: seq<Meta>, now: seq<Meta>, gone: map<string, nat>) {
    forall b :: b in gone ==>
      SamplesAt(now, gone[b]) == SamplesAt(before, gone[b]) + [StaleMarker(s, b)]
  }

  /** No other series changed. */
  ghost predicate Untouched(before: seq<Meta>, now: seq<Meta>, current: map<string, nat>, gone: map<string, nat>) {
    forall j: nat :: (forall b :: b in current ==> current[b] != j) && (forall b :: b in gone ==> gone[b] != j) ==>
      SamplesAt(now, j) == SamplesAt(before, j)
  }

  lemma NothingPlaced(s: Sample, series: seq<Meta>, buckets: map<string, nat>)
    ensures Placed(s, series, series, map[], buckets) && Untouched(series, series, map[], map[])
  {
  }

  lemma NothingStaled(s: Sample, before: seq<Meta>, series: seq<Meta>)
    ensures Staled(s, before, series, map[])
  {
  }

  lemma PlaceOne(s: Sample, before: seq<Meta>, was: seq<Meta>, now: seq<Meta>, current: map<string, nat>,
                 buckets: map<string, nat>, b: string, i: nat)
    requires Placed(s, before, was, current, buckets) && Untouched(before, was, current, map[])
    requires b in buckets && b !in current && forall c :: c in current ==> current[c] != i
    requires forall j :: 0 <= j && j != i ==> SamplesAt(now, j) == SamplesAt(was, j)
    requires SamplesAt(now, i)
          == SamplesAt(was, i) + [SeriesPoint(s.timestamp, Number(buckets[b]), s.id, Key(Bucket, b))]
    ensures Placed(s, before, now, current[b := i], buckets) && Untouched(before, now, current[b := i], map[])
  {
    hide SamplesAt;
    assert SamplesAt(was, i) == SamplesAt(before, i);
    var more := current[b := i];
    forall j: nat | forall c :: c in more ==> more[c] != j ensures SamplesAt(now, j) == SamplesAt(before, j) {
      assert more[b] == i;
      forall c | c in current ensures current[c] != j { assert more[c] == current[c]; }
    }
  }

  lemma StaleOne(s: Sample, before: seq<Meta>, was: seq<Meta>, now: seq<Meta>, current: map<string, nat>,
                 buckets: map<string, nat>, gone: map<string, nat>, b: string, i: nat)
    requires Placed(s, before, was, current, buckets) && Staled(s, before, was, gone)
    requires Untouched(before, was, current, gone)
    requires i < |was| && b !in gone && (forall c :: c in current ==> current[c] != i)
    requires (forall c :: c in gone ==> gone[c] != i)
    requires now
        == was[i := was[i].(samples := was[i].samples + [StaleMarker(s, b)])]
    ensures Placed(s, before, now, current, buckets) && Staled(s, before, now, gone[b := i])
    ensures Untouched(before, now, current, gone[b := i])
  {
    assert forall j: nat :: j != i ==> SamplesAt(now, j) == SamplesAt(was, j);
    assert SamplesAt(now, i) == SamplesAt(was, i) + [StaleMarker(s, b)];
    hide SamplesAt;
    assert SamplesAt(was, i) == SamplesAt(before, i);
    var more := gone[b := i];
    forall j: nat | (forall c :: c in current ==> current[c] != j) && (forall c :: c in more ==> more[c] != j)
      ensures SamplesAt(now, j) == SamplesAt(before, j) {
      assert more[b] == i;
      forall c | c in gone ensures gone[c] != j { assert more[c] == gone[c]; }
    }
  }

  lemma StillBuckets(was: map<nat, Source>, now: map<nat, Source>, id: nat, current: map<string, nat>)
    requires id in was && id in now
    requires KeepsKeys(was[id], now[id])
    requires forall b :: b in current ==> BucketIs(was, id, b, current[b])
    ensures forall b :: b in current ==> BucketIs(now, id, b, current[b])
  {
  }

  lemma BucketIsOf(bySource: map<nat, Source>, id: nat, b: string, i: nat)
    requires id in bySource && Key(Bucket, b) in bySource[id].series && bySource[id].series[Key(Bucket, b)] == i
    ensures BucketIs(bySource, id, b, i)
  {
  }

  lemma BucketIsWriter(bySource: map<nat, Source>, p: SeriesPoint, i: nat)
    requires p.key.suffix.Bucket? && BucketIs(bySource, p.from, p.key.bound, i)
    ensures WrittenBy(bySource, p, i)
  {
    assert p.key == Key(Bucket, p.key.bound);
  }

  lemma BucketInRange(cfg: Config, series: seq<Meta>, bySource: map<nat, Source>, id: nat, b: string, i: nat)
    requires Bound(cfg, series, bySource) && BucketIs(bySource, id, b, i)
    ensures i < |series|
  {
    BoundInRange(cfg, series, bySource, id, Key(Bucket, b));
  }

  lemma PreviousAreBuckets(bySource: map<nat, Source>, previous: map<nat, map<string, nat>>, id: nat)
    requires Remembered(bySource, previous)
    ensures forall b :: b in BucketsOf(previous, id) ==> BucketIs(bySource, id, b, BucketsOf(previous, id)[b])
  {
  }

  /** Buckets that disappear are still bound to their series. */
  lemma GoneStay(was: map<nat, Source>, now: map<nat, Source>, id: nat, previous: map<string, nat>,
                 current: map<string, nat>)
    requires id in was && id in now && KeepsKeys(was[id], now[id])
    requires forall b :: b in previous ==> BucketIs(was, id, b, previous[b])
    ensures forall b :: b in Gone(previous, current) ==> BucketIs(now, id, b, Gone(previous, current)[b])
  {
    StillBuckets(was, now, id, previous);
  }

  lemma NothingToRecord(cfg: Config, series: seq<Meta>, bySource: map<nat, Source>, s: Sample)
    requires s.id in bySource && s.id in cfg.origins
    ensures AllRecorded(cfg, series, bySource, s, [])
  {
  }

  lemma RememberMore(bySource: map<nat, Source>, previous: map<nat, map<string, nat>>, id: nat,
                     current: map<string, nat>)
    requires Remembered(bySource, previous) && forall b :: b in current ==> BucketIs(bySource, id, b, current[b])
    ensures Remembered(bySource, previous[id := current])
  {
  }

  /** A bucket's series is none of the series of other buckets of its source. */
  lemma NotAmong(cfg: Config, series: seq<Meta>, bySource: map<nat, Source>, id: nat, others: map<string, nat>,
                 b: string, i: nat)
    requires cfg.Valid() && Bound(cfg, series, bySource) && BucketIs(bySource, id, b, i) && b !in others
    requires forall c :: c in others ==> BucketIs(bySource, id, c, others[c])
    ensures forall c :: c in others ==> others[c] != i
  {
    hide Bound, VirtualLabels, Config.Valid;
    forall c | c in others ensures others[c] != i {
      assert BucketIs(bySource, id, c, others[c]);
      KeysAreApart(cfg, series, bySource, id, Key(Bucket, b), Key(Bucket, c));
    }
  }

  /** A key the source already has was selected when it was bound. */
  lemma SelectsIs(cfg: Config, series: seq<Meta>, bySource: map<nat, Source>, id: nat, b: string)
    requires Bound(cfg, series, bySource) && id in bySource
    ensures id in cfg.origins
    ensures Key(Bucket, b) in bySource[id].series ==> Selects(cfg, id, b)
    ensures !cfg.matches(VirtualLabels(cfg.origins[id], Key(Bucket, b))) ==> !Selects(cfg, id, b)
  {
    hide VirtualLabels;
    if Key(Bucket, b) in bySource[id].series {
      assert BindsTo(cfg, series, id, Key(Bucket, b), bySource[id].series[Key(Bucket, b)]);
    }
  }

  lemma NewSourceKeeps(cfg: Config, series: seq<Meta>, bySource: map<nat, Source>, filed: map<Tag, Temporality>,
                       previous: map<nat, map<string, nat>>, id: nat)
    requires Bound(cfg, series, bySource) && Written(series, bySource) && Remembered(bySource, previous)
    requires id !in bySource && id in cfg.origins
    ensures var now := bySource[id := NEW_SOURCE];
            Bound(cfg, series, now) && Written(series, now) && Remembered(now, previous)
            && (Filed(cfg, bySource, filed) ==> Filed(cfg, now, filed))
            && (Named(series, bySource) ==> Named(series, now))
  {
    hide TagOf, VirtualLabels;
    var now := bySource[id := NEW_SOURCE];
    forall i, k | 0 <= i < |series| && 0 <= k < |series[i].samples| ensures WrittenBy(now, series[i].samples[k], i) {
      assert WrittenBy(bySource, series[i].samples[k], i);
    }
    forall other, b | other in previous && b in previous[other] ensures BucketIs(now, other, b, previous[other][b]) {
      assert BucketIs(bySource, other, b, previous[other][b]);
    }
    if Filed(cfg, bySource, filed) {
      forall other | other in now ensures other in cfg.origins && CheckedFirst(cfg, other, now[other], filed) {
        assert other == id || CheckedFirst(cfg, other, bySource[other], filed);
      }
    }
  }

  // ---------------------------------------------------------------- each step keeps the invariants

  lemma OriginsKnown(cfg: Config, series: seq<Meta>, bySource: map<nat, Source>, id: nat)
    requires Bound(cfg, series, bySource) && id in bySource
    ensures id in cfg.origins
  {
  }

  lemma SignOf(t: Option<Temporality>)
    requires t.Some?
    ensures t == Some(Sign(t == Some(Delta)))
  {
    match t.value
    case Cumulative =>
    case Delta =>
  }

  lemma BoundInRange(cfg: Config, series: seq<Meta>, bySource: map<nat, Source>, id: nat, key: Key)
    requires Bound(cfg, series, bySource) && id in bySource && key in bySource[id].series
    ensures bySource[id].series[key] < |series|
  {
    assert BindsTo(cfg, series, id, key, bySource[id].series[key]);
  }

  lemma LabelsAreIndexed(series: seq<Meta>, byLabels: map<Labels, nat>, labels: Labels)
    requires Indexed(series, byLabels) && labels in byLabels
    ensures byLabels[labels] < |series| && series[byLabels[labels]].labels == labels
  {
  }

  lemma AppendKeeps(cfg: Config, series: seq<Meta>, byLabels: map<Labels, nat>, bySource: map<nat, Source>, i: nat,
                    p: SeriesPoint)
    requires i < |series| && WrittenBy(bySource, p, i)
    requires Indexed(series, byLabels) && Bound(cfg, series, bySource) && Written(series, bySource)
    ensures var now := series[i := series[i].(samples := series[i].samples + [p])];
            Indexed(now, byLabels) && Bound(cfg, now, bySource) && Written(now, bySource)
            && (Named(series, bySource) ==> Named(now, bySource))
  {
    hide WrittenBy, VirtualLabels;
    var now := series[i := series[i].(samples := series[i].samples + [p])];
    forall id, key | id in bySource && key in bySource[id].series
      ensures BindsTo(cfg, now, id, key, bySource[id].series[key]) {
      assert BindsTo(cfg, series, id, key, bySource[id].series[key]);
    }
  }

  lemma RememberedKeeps(was: map<nat, Source>, now: map<nat, Source>, previous: map<nat, map<string, nat>>)
    requires Remembered(was, previous) && was.Keys <= now.Keys
    requires forall id, key :: id in was && key in was[id].series ==>
      key in now[id].series && now[id].series[key] == was[id].series[key]
    ensures Remembered(now, previous)
  {
    forall id, b | id in previous && b in previous[id] ensures BucketIs(now, id, b, previous[id][b]) {
      assert BucketIs(was, id, b, previous[id][b]);
      assert id in was.Keys && id in now.Keys;
    }
  }

  /** Filing a temporality never changes one that is filed already. */
  lemma CheckKeeps(cfg: Config, series: seq<Meta>, bySource: map<nat, Source>, was: map<Tag, Temporality>,
                   id: nat, src: Source, t: Temporality, kind: Kind, filed: map<Tag, Temporality>)
    requires Bound(cfg, series, bySource) && Filed(cfg, bySource, was) && Named(series, bySource)
    requires Written(series, bySource)
    requires id in bySource && (bySource[id].temporality.Some? ==> bySource[id].temporality == Some(t))
    requires src.series == bySource[id].series && src.temporality == Some(t)
    requires var tag := TagOf(cfg.origins[id], kind);
             if bySource[id].Checked(kind) then filed == was && src == bySource[id].(temporality := Some(t))
             else filed == was[tag := t] && (tag in was ==> was[tag] == t)
                  && src == (if kind.Buckets? then bySource[id].(bucketsChecked := true, temporality := Some(t))
                             else bySource[id].(totalsChecked := true, temporality := Some(t)))
    ensures var now := bySource[id := src];
            Bound(cfg, series, now) && Filed(cfg, now, filed) && Named(series, now) && Written(series, now)
  {
    hide TagOf, VirtualLabels;
    var now := bySource[id := src];
    forall other | other in now ensures other in cfg.origins && CheckedFirst(cfg, other, now[other], filed) {
      assert CheckedFirst(cfg, other, bySource[other], was);
      forall k | now[other].Checked(k) ensures Agrees(cfg, other, now[other], k, filed) {
        assert bySource[other].Checked(k) ==> Agrees(cfg, other, bySource[other], k, was);
      }
      forall key | key in now[other].series ensures now[other].Checked(KindOf(key.suffix)) {
        assert bySource[other].Checked(KindOf(key.suffix));
      }
      assert now[other].Checked(kind) || other != id;
    }
    forall i, k | 0 <= i < |series| && 0 <= k < |series[i].samples| ensures WrittenBy(now, series[i].samples[k], i) {
      assert WrittenBy(bySource, series[i].samples[k], i);
    }
    NamedKeeps(series, bySource, now, id, t);
  }

  lemma CheckClaims(cfg: Config, bySource: map<nat, Source>, was: map<Tag, Temporality>, id: nat, src: Source,
                    t: Temporality, kind: Kind, filed: map<Tag, Temporality>)
    requires Claimed(cfg, bySource, was) && id in bySource && id in cfg.origins
    requires bySource[id].temporality.Some? ==> bySource[id].temporality == Some(t)
    requires src.temporality == Some(t)
    requires var tag := TagOf(cfg.origins[id], kind);
             if bySource[id].Checked(kind) then filed == was && src == bySource[id].(temporality := Some(t))
             else filed == was[tag := t]
                  && src == (if kind.Buckets? then bySource[id].(bucketsChecked := true, temporality := Some(t))
                             else bySource[id].(totalsChecked := true, temporality := Some(t)))
    ensures Claimed(cfg, bySource[id := src], filed)
  {
    hide TagOf;
    var (now, mine) := (bySource[id := src], TagOf(cfg.origins[id], kind));
    TagHasKind(cfg.origins[id], kind);
    forall tag | tag in filed ensures exists other :: other in now && FiledIt(cfg, other, now[other], tag, filed[tag]) {
      if tag in was && filed[tag] == was[tag] {
        var other :| other in bySource && FiledIt(cfg, other, bySource[other], tag, was[tag]);
        assert FiledIt(cfg, other, now[other], tag, filed[tag]);
      } else {
        assert tag == mine;
        assert FiledIt(cfg, id, now[id], tag, filed[tag]);
      }
    }
  }

  lemma NamedKeeps(series: seq<Meta>, was: map<nat, Source>, now: map<nat, Source>, id: nat, t: Temporality)
    requires Named(series, was) && id in was && id in now && now == was[id := now[id]]
    requires now[id].series == was[id].series && now[id].temporality == Some(t)
    requires was[id].temporality.None? || was[id].temporality == Some(t)
    ensures Named(series, now)
  {
    forall other, key | other in now && key in now[other].series && now[other].series[key] < |series|
      ensures now[other].temporality == Some(Sign(series[now[other].series[key]].delta)) {
      assert other in was && key in was[other].series;
    }
  }

  lemma GrowKeeps(cfg: Config, series: seq<Meta>, byLabels: map<Labels, nat>, bySource: map<nat, Source>,
                  labels: Labels)
    requires Indexed(series, byLabels) && Bound(cfg, series, bySource) && Written(series, bySource)
    ensures labels !in byLabels ==>
      var (now, index) := (series + [Meta(labels, false, [])], byLabels[labels := |series|]);
      Indexed(now, index) && Bound(cfg, now, bySource) && Written(now, bySource)
      && (Named(series, bySource) ==> Named(now, bySource))
  {
    hide WrittenBy, VirtualLabels;
    var now := series + [Meta(labels, false, [])];
    forall id, key | id in bySource && key in bySource[id].series
      ensures BindsTo(cfg, now, id, key, bySource[id].series[key]) && bySource[id].series[key] < |series| {
      assert BindsTo(cfg, series, id, key, bySource[id].series[key]);
    }
  }

  /** Binding a source to a series that others write keeps one temporality, because all of them
      are filed under one tag. */
  lemma BindKeeps(cfg: Config, was: seq<Meta>, now: seq<Meta>, byLabels: map<Labels, nat>, bySource: map<nat, Source>,
                  filed: map<Tag, Temporality>, id: nat, key: Key, i: nat, delta: bool)
    requires cfg.Valid() && Indexed(was, byLabels) && Bound(cfg, was, bySource) && Written(was, bySource)
    requires id in bySource && key !in bySource[id].series && i < |was|
    requires was[i].labels == VirtualLabels(cfg.origins[id], key) && cfg.matches(was[i].labels)
    requires now == if cfg.withSamples then was[i := was[i].(delta := delta)] else was
    requires cfg.withSamples ==>
      Filed(cfg, bySource, filed) && Named(was, bySource)
      && bySource[id].temporality == Some(Sign(delta)) && bySource[id].Checked(KindOf(key.suffix))
    ensures var sources := bySource[id := bySource[id].(series := bySource[id].series[key := i])];
            Indexed(now, byLabels) && Bound(cfg, now, sources) && Written(now, sources)
            && (cfg.withSamples ==> Filed(cfg, sources, filed) && Named(now, sources))
  {
    hide TagOf, VirtualLabels, Filed, Named, Bound, Written, Config.Valid, Points, Source.Checked;
    BoundWithKey(cfg, was, now, bySource, id, key, i);
    WrittenWithKey(was, now, bySource, id, key, i);
    if cfg.withSamples {
      FiledWithKey(cfg, bySource, filed, id, key, i);
      NamedWithKey(cfg, was, now, bySource, filed, id, key, i, delta);
    }
  }

  lemma BoundWithKey(cfg: Config, was: seq<Meta>, now: seq<Meta>, bySource: map<nat, Source>, id: nat, key: Key, i: nat)
    requires Bound(cfg, was, bySource) && id in bySource && i < |was| == |now|
    requires was[i].labels == VirtualLabels(cfg.origins[id], key) && cfg.matches(was[i].labels)
    requires forall j :: 0 <= j < |was| ==> now[j].labels == was[j].labels
    ensures Bound(cfg, now, bySource[id := bySource[id].(series := bySource[id].series[key := i])])
  {
    hide VirtualLabels;
    var sources := bySource[id := bySource[id].(series := bySource[id].series[key := i])];
    forall other, k | other in sources && k in sources[other].series
      ensures BindsTo(cfg, now, other, k, sources[other].series[k]) {
      if other != id || k != key {
        assert BindsTo(cfg, was, other, k, bySource[other].series[k]);
      }
    }
  }

  lemma WrittenWithKey(was: seq<Meta>, now: seq<Meta>, bySource: map<nat, Source>, id: nat, key: Key, i: nat)
    requires Written(was, bySource) && id in bySource && key !in bySource[id].series && |was| == |now|
    requires forall j :: 0 <= j < |was| ==> now[j].samples == was[j].samples
    ensures Written(now, bySource[id := bySource[id].(series := bySource[id].series[key := i])])
  {
    var sources := bySource[id := bySource[id].(series := bySource[id].series[key := i])];
    forall j, k | 0 <= j < |now| && 0 <= k < |now[j].samples| ensures WrittenBy(sources, now[j].samples[k], j) {
      assert WrittenBy(bySource, was[j].samples[k], j);
    }
  }

  lemma FiledWithKey(cfg: Config, bySource: map<nat, Source>, filed: map<Tag, Temporality>, id: nat, key: Key, i: nat)
    requires Filed(cfg, bySource, filed) && id in bySource && bySource[id].Checked(KindOf(key.suffix))
    ensures Filed(cfg, bySource[id := bySource[id].(series := bySource[id].series[key := i])], filed)
  {
    hide TagOf;
    var sources := bySource[id := bySource[id].(series := bySource[id].series[key := i])];
    forall other | other in sources ensures other in cfg.origins && CheckedFirst(cfg, other, sources[other], filed) {
      assert CheckedFirst(cfg, other, bySource[other], filed);
      assert forall kind :: sources[other].Checked(kind) == bySource[other].Checked(kind);
    }
  }

  lemma NamedWithKey(cfg: Config, was: seq<Meta>, now: seq<Meta>, bySource: map<nat, Source>,
                     filed: map<Tag, Temporality>, id: nat, key: Key, i: nat, delta: bool)
    requires cfg.Valid() && Bound(cfg, was, bySource) && Filed(cfg, bySource, filed) && Named(was, bySource)
    requires id in bySource && i < |was| && was[i].labels == VirtualLabels(cfg.origins[id], key)
    requires now == was[i := was[i].(delta := delta)]
    requires bySource[id].temporality == Some(Sign(delta)) && bySource[id].Checked(KindOf(key.suffix))
    ensures Named(now, bySource[id := bySource[id].(series := bySource[id].series[key := i])])
  {
    hide TagOf, VirtualLabels;
    var sources := bySource[id := bySource[id].(series := bySource[id].series[key := i])];
    forall other, k | other in sources && k in sources[other].series && sources[other].series[k] < |now|
      ensures sources[other].temporality == Some(Sign(now[sources[other].series[k]].delta)) {
      if other == id && k == key {
      } else if bySource[other].series[k] == i {
        SharersAgree(cfg, was, bySource, filed, id, key, i, other, k);
      }
    }
  }

  lemma SharersAgree(cfg: Config, series: seq<Meta>, bySource: map<nat, Source>, filed: map<Tag, Temporality>,
                     id: nat, key: Key, i: nat, other: nat, k: Key)
    requires cfg.Valid() && Bound(cfg, series, bySource) && Filed(cfg, bySource, filed)
    requires id in bySource && other in bySource && i < |series|
    requires series[i].labels == VirtualLabels(cfg.origins[id], key)
    requires bySource[id].Checked(KindOf(key.suffix)) && k in bySource[other].series && bySource[other].series[k] == i
    ensures bySource[other].temporality == bySource[id].temporality
  {
    hide TagOf, VirtualLabels;
    assert BindsTo(cfg, series, other, k, i);
    SameSeriesSameTag(cfg.origins[id], key, cfg.origins[other], k);
    assert CheckedFirst(cfg, id, bySource[id], filed) && CheckedFirst(cfg, other, bySource[other], filed);
    assert Agrees(cfg, id, bySource[id], KindOf(key.suffix), filed);
    assert Agrees(cfg, other, bySource[other], KindOf(k.suffix), filed);
  }
}
