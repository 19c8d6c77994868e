/** The second pass of the fast path over the bytes of a request: it looks for the labels of the
    series that are new. */
module LabelPass {
  import opened Options
  import opened Bits
  import opened ProtoWire
  import opened Identity
  import opened RemoteBatch

  // ---------------------------------------------------------------- the pass over decoded series

  /** The labels of every needed id, or nothing when a series on the way has no identity or an
      id is not met. */
  function SecondPass(cfg: Config, series: seq<TimeSeries>, needed: set<nat>): Option<map<nat, seq<Label>>> {
    if needed == {} then Some(map[])
    else if series == [] then None
    else
      match SeriesIdentity(cfg.hash, series[0].labels)
      case Invalid => None
      case Identified(id, _) =>
        Found(id, series[0].labels, needed, SecondPass(cfg, series[1..], needed - {id}))
  }

  function Ids(cfg: Config, series: seq<TimeSeries>): set<nat> {
    if series == [] then {}
    else
      Ids(cfg, series[1..]) +
      match SeriesIdentity(cfg.hash, series[0].labels) case Invalid => {} case Identified(id, _) => {id}
  }

  ghost predicate AllIdentified(cfg: Config, series: seq<TimeSeries>) {
    forall k :: 0 <= k < |series| ==> SeriesIdentity(cfg.hash, series[k].labels).Identified?
  }

  /** The second pass succeeds exactly when some prefix of the series has every needed id and
      no series without an identity. */
  lemma {:induction false} SecondPassIff(cfg: Config, series: seq<TimeSeries>, needed: set<nat>)
    ensures SecondPass(cfg, series, needed).Some? <==>
      exists n: nat :: n <= |series| && AllIdentified(cfg, series[..n]) && needed <= Ids(cfg, series[..n])
    decreases |series|
  {
    hide SeriesIdentity;
    if needed == {} {
      assert AllIdentified(cfg, series[..0]) && needed <= Ids(cfg, series[..0]);
    } else if series == [] {
    } else {
      match SeriesIdentity(cfg.hash, series[0].labels)
      case Invalid =>
        forall n: nat | n <= |series| ensures n == 0 || !AllIdentified(cfg, series[..n]) {
          FirstDecides(cfg, series, n);
        }
      case Identified(id, _) =>
        SecondPassIff(cfg, series[1..], needed - {id});
        forall n: nat | n < |series|
          ensures AllIdentified(cfg, series[..n + 1]) <==> AllIdentified(cfg, series[1..][..n])
          ensures Ids(cfg, series[..n + 1]) == Ids(cfg, series[1..][..n]) + {id}
        {
          PrefixOfTail(cfg, series, n);
        }
        if n: nat :| n <= |series| && AllIdentified(cfg, series[..n]) && needed <= Ids(cfg, series[..n]) {
          assert n > 0;
          assert series[..n - 1 + 1] == series[..n];
          assert needed - {id} <= Ids(cfg, series[1..][..n - 1]);
        }
        if SecondPass(cfg, series[1..], needed - {id}).Some? {
          var n: nat :| n <= |series[1..]| && AllIdentified(cfg, series[1..][..n])
              && needed - {id} <= Ids(cfg, series[1..][..n]);
          assert AllIdentified(cfg, series[..n + 1]) && needed <= Ids(cfg, series[..n + 1]);
        }
    }
  }

  lemma FirstDecides(cfg: Config, series: seq<TimeSeries>, n: nat)
    requires n <= |series|
    ensures n > 0 && AllIdentified(cfg, series[..n]) ==> SeriesIdentity(cfg.hash, series[0].labels).Identified?
  {
    hide SeriesIdentity;
    if n > 0 {
      assert series[..n][0] == series[0];
    }
  }

  lemma PrefixOfTail(cfg: Config, series: seq<TimeSeries>, n: nat)
    requires n < |series| && SeriesIdentity(cfg.hash, series[0].labels).Identified?
    ensures AllIdentified(cfg, series[..n + 1]) <==> AllIdentified(cfg, series[1..][..n])
    ensures Ids(cfg, series[..n + 1]) ==
            Ids(cfg, series[1..][..n]) + {SeriesIdentity(cfg.hash, series[0].labels).id}
  {
    hide SeriesIdentity;
    var longer, tail := series[..n + 1], series[1..][..n];
    assert longer[0] == series[0] && longer[1..] == tail;
    assert longer == [series[0]] + tail;
  }

  /** The ids of the records all come from series with an identity. */
  lemma {:induction false} RecordsAreIdentified(cfg: Config, series: seq<TimeSeries>)
    requires Build(cfg, series).Some?
    ensures forall k :: 0 <= k < |Build(cfg, series).value.records| ==>
      Build(cfg, series).value.records[k].id in Ids(cfg, series)
    ensures (forall k :: 0 <= k < |series| ==> series[k].samples != []) ==> AllIdentified(cfg, series)
  {
    hide SeriesIdentity, Find, MinBucket, MaxBucket, AddSamples, Kept;
    if series != [] {
      var n := |series| - 1;
      RecordsAreIdentified(cfg, series[..n]);
      IdsOfPrefix(cfg, series[..n], series[n]);
      assert series == series[..n] + [series[n]];
    }
  }

  lemma {:induction false} IdsOfPrefix(cfg: Config, series: seq<TimeSeries>, ts: TimeSeries)
    ensures Ids(cfg, series + [ts]) ==
            Ids(cfg, series) +
            match SeriesIdentity(cfg.hash, ts.labels) case Invalid => {} case Identified(id, _) => {id}
  {
    hide SeriesIdentity;
    if series == [] {
      assert [] + [ts] == [ts] && [ts][1..] == [];
    } else {
      assert (series + [ts])[1..] == series[1..] + [ts];
      IdsOfPrefix(cfg, series[1..], ts);
    }
  }

  // ---------------------------------------------------------------- the pass over the bytes

  /** The labels of one series message; a message with exemplars or histograms is skipped. */
  datatype LabelsRead = LabelsRead(labels: seq<Label>) | Passed | Unreadable

  /** The field loop of populateSeriesLabelsJSONFromTimeSeriesProto. Unlike the first pass it
      accepts field 0, and takes a sample for length-delimited whatever its wire type. */
  function ReadLabels(data: seq<Byte>, i: nat, labels: seq<Label>): LabelsRead
    requires i <= |data|
    decreases |data| - i
  {
    if i == |data| then LabelsRead(labels)
    else
      match Varint(data, i)
      case Malformed => Unreadable
      case Ok(key, start) =>
        var num := key / 8;
        if num == 3 || num == 4 then Passed
        else if num == 1 && key % 8 != WIRE_BYTES then Unreadable
        else
          match Content(data, start, if num == 2 then WIRE_BYTES else key % 8)
          case Malformed => Unreadable
          case Ok(payload, next) =>
            if num != 1 then ReadLabels(data, next, labels)
            else
              match DecodeLabel(payload.data)
              case None => Unreadable
              case Some(l) => ReadLabels(data, next, labels + [l])
  }

  /** populateSeriesLabelsJSONFromProto from position i on: the labels of every needed id, or
      an error. It stops as soon as nothing is needed any more. */
  function Pass(cfg: Config, data: seq<Byte>, i: nat, needed: set<nat>): (r: Option<map<nat, seq<Label>>>)
    requires i <= |data|
    ensures r.Some? ==> r.value.Keys == needed
    decreases |data| - i
  {
    if needed == {} then Some(map[])
    else if i == |data| then None
    else
      match Varint(data, i)
      case Malformed => None
      case Ok(key, start) =>
        if key / 8 == 1 && key % 8 != WIRE_BYTES then None
        else
          match Content(data, start, key % 8)
          case Malformed => None
          case Ok(payload, next) =>
            if key / 8 != 1 then Pass(cfg, data, next, needed)
            else
              match ReadLabels(payload.data, 0, [])
              case Unreadable => None
              case Passed => Pass(cfg, data, next, needed)
              case LabelsRead(labels) =>
                match SeriesIdentity(cfg.hash, labels)
                case Invalid => None
                case Identified(id, _) => Found(id, labels, needed, Pass(cfg, data, next, needed - {id}))
  }

  /** The labels of an id join what is found for the rest, if they are needed. */
  function Found(id: nat, labels: seq<Label>, needed: set<nat>,
                 rest: Option<map<nat, seq<Label>>>): (r: Option<map<nat, seq<Label>>>)
    ensures r.Some? <==> rest.Some?
    ensures rest.Some? && rest.value.Keys == needed - {id} ==> r.value.Keys == needed
  {
    match rest
    case None => None
    case Some(found) => Some(if id in needed then found[id := labels] else found)
  }

  method ReadLabelFields(data: seq<Byte>) returns (r: LabelsRead)
    ensures r == ReadLabels(data, 0, [])
  {
    hide Varint, Content, DecodeLabel, LengthDelimited;
    var labels, i := [], 0;
    while i < |data|
      invariant i <= |data| && ReadLabels(data, 0, []) == ReadLabels(data, i, labels)
      decreases |data| - i
    {
      var key := ReadVarint(data, i);
      if key.Malformed? {
        return Unreadable;
      }
      var num, wire := key.value / 8, key.value % 8;
      if num == 1 {
        if wire != WIRE_BYTES {
          return Unreadable;
        }
        var message := ReadBytes(data, key.next);
        BytesContent(data, key.next);
        if message.Malformed? {
          return Unreadable;
        }
        var l := ParseLabel(message.value);
        if l.None? {
          return Unreadable;
        }
        labels := labels + [l.value];
        i := message.next;
      } else if num == 2 {
        var sample := ReadBytes(data, key.next);
        BytesContent(data, key.next);
        if sample.Malformed? {
          return Unreadable;
        }
        i := sample.next;
      } else if num == 3 || num == 4 {
        return Passed;
      } else {
        var skip := SkipField(data, key.next, wire);
        if skip.Malformed? {
          return Unreadable;
        }
        i := skip.next;
      }
    }
    return LabelsRead(labels);
  }

  /** populateSeriesLabelsJSONFromProto: the labels found are filled in one by one. */
  method Populate(cfg: Config, data: seq<Byte>, ids: set<nat>) returns (r: Option<map<nat, seq<Label>>>)
    ensures r == Pass(cfg, data, 0, ids)
  {
    hide Varint, Content, SeriesIdentity, ReadLabels, LengthDelimited;
    var found: map<nat, seq<Label>>, needed, i := map[], ids, 0;
    NothingFound(Pass(cfg, data, 0, ids));
    while i < |data| && needed != {}
      invariant i <= |data| && found.Keys !! needed
      invariant Pass(cfg, data, 0, ids) == With(found, Pass(cfg, data, i, needed))
      decreases |data| - i
    {
      var key := ReadVarint(data, i);
      if key.Malformed? {
        return None;
      }
      var wire := key.value % 8;
      if key.value / 8 == 1 {
        if wire != WIRE_BYTES {
          return None;
        }
        var message := ReadBytes(data, key.next);
        BytesContent(data, key.next);
        if message.Malformed? {
          return None;
        }
        var read := ReadLabelFields(message.value);
        if read.Unreadable? {
          return None;
        }
        if read.LabelsRead? {
          var labels := new Label[|read.labels|](k requires 0 <= k < |read.labels| => read.labels[k]);
          assert labels[..] == read.labels;
          var identity := OrdinaryIdentity(cfg.hash, labels);
          if identity.Invalid? {
            return None;
          }
          var id := identity.id;
          FoundOne(found, id, read.labels, needed, Pass(cfg, data, message.next, needed - {id}));
          if id in needed {
            found := found[id := read.labels];
            needed := needed - {id};
          }
        }
        i := message.next;
      } else {
        var skip := SkipField(data, key.next, wire);
        if skip.Malformed? {
          return None;
        }
        i := skip.next;
      }
    }
    if needed != {} {
      return None;
    }
    assert found + map[] == found;
    return Some(found);
  }

  function With(found: map<nat, seq<Label>>, rest: Option<map<nat, seq<Label>>>): Option<map<nat, seq<Label>>> {
    match rest
    case None => None
    case Some(m) => Some(found + m)
  }

  lemma NothingFound(r: Option<map<nat, seq<Label>>>)
    ensures With(map[], r) == r
  {
    if r.Some? {
      assert map[] + r.value == r.value;
    }
  }

  lemma FoundOne(found: map<nat, seq<Label>>, id: nat, labels: seq<Label>, needed: set<nat>,
                 rest: Option<map<nat, seq<Label>>>)
    requires rest.Some? ==> rest.value.Keys == needed - {id}
    ensures With(found, Found(id, labels, needed, rest)) ==
            With(if id in needed then found[id := labels] else found, rest)
    ensures id !in needed ==> needed - {id} == needed
  {
    if rest.Some? && id in needed {
      assert found[id := labels] + rest.value == found + rest.value[id := labels];
    }
  }

  // ---------------------------------------------------------------- after the first pass

  /** The second reader finds the labels the first one found. */
  lemma {:induction false} ReadsSameLabels(data: seq<Byte>, i: nat, labels: seq<Label>, samples: seq<Sample>)
    requires i <= |data| && FastSeries(data, i, labels, samples).Parsed?
    ensures ReadLabels(data, i, labels) == LabelsRead(FastSeries(data, i, labels, samples).labels)
    decreases |data| - i
  {
    hide Varint, Content, DecodeLabel, DecodeSample, Less;
    if i < |data| {
      var key := Varint(data, i);
      var content := Content(data, key.next, key.value % 8);
      if key.value / 8 == 1 {
        ReadsSameLabels(data, content.next, labels + [DecodeLabel(content.value.data).value], samples);
      } else if key.value / 8 == 2 {
        ReadsSameLabels(data, content.next, labels, samples + [DecodeSample(content.value.data).value]);
      } else {
        ReadsSameLabels(data, content.next, labels, samples);
      }
    }
  }

  /** On a request the fast builder accepts, the pass over the bytes is the pass over the
      decoded series. */
  lemma {:induction false} PassIsSecondPass(cfg: Config, data: seq<Byte>, i: nat, batch: Batch, acc: Request,
                                            needed: set<nat>)
    requires i <= |data| && Fast(cfg, data, i, batch).Built?
    requires Decode(RequestStep, acc, data, i).Some?
    ensures var series := Decode(RequestStep, acc, data, i).value.series;
      acc.series <= series && Pass(cfg, data, i, needed) == SecondPass(cfg, series[|acc.series|..], needed)
    decreases |data| - i
  {
    hide Varint, Content, DecodeSeries, Decode, AddSeries, FastSeries, SeriesIdentity, ReadLabels;
    DecodeKeepsSeries(acc, data, i);
    if i == |data| {
      DecodeEnd(RequestStep, acc, data);
    } else {
      DecodeOneField(RequestStep, acc, data, i);
      var key := Varint(data, i);
      var content := Content(data, key.next, key.value % 8);
      if key.value / 8 == 1 {
        var message := content.value.data;
        var parsed := FastSeries(message, 0, [], []);
        FastSeriesDecodes(message, 0, [], []);
        DecodeSeriesIs(message);
        ReadsSameLabels(message, 0, [], []);
        var ts := TimeSeries(parsed.labels, parsed.samples, false);
        var more, after := acc.(series := acc.series + [ts]), AddParsed(cfg, batch, parsed).batch;
        DecodeKeepsSeries(more, data, content.next);
        var series := Decode(RequestStep, more, data, content.next).value.series;
        assert series[|acc.series|] == more.series[|acc.series|] == ts;
        assert series[|acc.series|..][1..] == series[|more.series|..];
        if needed != {} && SeriesIdentity(cfg.hash, ts.labels).Identified? {
          PassIsSecondPass(cfg, data, content.next, after, more, needed - {SeriesIdentity(cfg.hash, ts.labels).id});
        }
      } else {
        PassIsSecondPass(cfg, data, content.next, batch, acc, needed);
      }
    }
  }

  /** Main result on the second pass: after the fast builder it succeeds exactly when some
      prefix of the series has every needed id and no series without an identity. */
  lemma PassAfterFastIff(cfg: Config, data: seq<Byte>, needed: set<nat>)
    requires Fast(cfg, data, 0, EMPTY).Built?
    ensures DecodeRequest(data).Some?
    ensures var series := DecodeRequest(data).value.series;
      Pass(cfg, data, 0, needed) == SecondPass(cfg, series, needed)
      && (Pass(cfg, data, 0, needed).Some? <==>
          exists n: nat :: n <= |series| && AllIdentified(cfg, series[..n]) && needed <= Ids(cfg, series[..n]))
  {
    hide Fast, Decode, SecondPass, SeriesIdentity, Pass, Ids, AllIdentified;
    FastIsOrdinary(cfg, data);
    PassIsSecondPass(cfg, data, 0, EMPTY, Request([], false), needed);
    var series := DecodeRequest(data).value.series;
    assert series[0..] == series;
    SecondPassIff(cfg, series, needed);
  }

  /** So it finds labels for any of the new series when every series carries a sample. */
  lemma PassSucceeds(cfg: Config, data: seq<Byte>, needed: set<nat>)
    requires Fast(cfg, data, 0, EMPTY).Built?
    requires forall id :: id in needed ==> exists k :: 0 <= k < |Fast(cfg, data, 0, EMPTY).batch.records|
                                             && Fast(cfg, data, 0, EMPTY).batch.records[k].id == id
    ensures DecodeRequest(data).Some?
    ensures var series := DecodeRequest(data).value.series;
      (forall k :: 0 <= k < |series| ==> series[k].samples != []) ==> Pass(cfg, data, 0, needed).Some?
  {
    hide Fast, Build, SecondPass, SeriesIdentity, Pass, Ids;
    FastIsOrdinary(cfg, data);
    PassAfterFastIff(cfg, data, needed);
    var series := DecodeRequest(data).value.series;
    RecordsAreIdentified(cfg, series);
    assert series[..|series|] == series;
    if forall k :: 0 <= k < |series| ==> series[k].samples != [] {
      assert AllIdentified(cfg, series[..|series|]) && needed <= Ids(cfg, series[..|series|]);
    }
  }

  /** The labels it fills in for an id are labels of that id. */
  lemma {:induction false} PassIsRight(cfg: Config, data: seq<Byte>, i: nat, needed: set<nat>, id: nat)
    requires i <= |data| && Pass(cfg, data, i, needed).Some? && id in needed
    ensures id in Pass(cfg, data, i, needed).value
    ensures var identity := SeriesIdentity(cfg.hash, Pass(cfg, data, i, needed).value[id]);
      identity.Identified? && identity.id == id
    decreases |data| - i
  {
    hide SeriesIdentity, Varint, Content, ReadLabels;
    var key := Varint(data, i);
    var content := Content(data, key.next, key.value % 8);
    if key.value / 8 != 1 || ReadLabels(content.value.data, 0, []).Passed? {
      PassIsRight(cfg, data, content.next, needed, id);
    } else {
      var first := SeriesIdentity(cfg.hash, ReadLabels(content.value.data, 0, []).labels);
      if first.id != id {
        PassIsRight(cfg, data, content.next, needed - {first.id}, id);
      }
    }
  }

  lemma OneLabelIdentity(hash: seq<Byte> -> Uint64, l: Label)
    requires l.name != []
    ensures SeriesIdentity(hash, [l]) ==
            if l.name == METRIC_NAME && l.value != [] then Identified(hash(Encode([l])), l.value) else Invalid
  {
    hide Less, Encode;
    SortedIsFixed([l]);
    assert [l][..0] == [];
    assert MetricOf([l]) == (if l.name == METRIC_NAME then l.value else MetricOf([]));
    assert ValidNames([l]);
  }

  // ---------------------------------------------------------------- an idle series stops the pass

  /** A length-delimited field with a one-byte key and a one-byte length. */
  lemma SmallField(data: seq<Byte>, i: nat, key: Byte, body: seq<Byte>)
    requires key < 128 && key % 8 == WIRE_BYTES && |body| < 128 && i + 2 + |body| <= |data|
    requires data[i] == key && data[i + 1] == |body| && data[i + 2..i + 2 + |body|] == body
    ensures Varint(data, i) == Ok(key, i + 1)
    ensures Content(data, i + 1, WIRE_BYTES) == Ok(Bytes(body), i + 2 + |body|)
  {
    hide Groups;
    SmallVarint(data, i);
    SmallVarint(data, i + 1);
  }

  /** A label of short parts. */
  function SmallLabel(l: Label): seq<Byte>
    requires |l.name| < 128 && |l.value| < 128
  {
    [0x0a, |l.name|] + l.name + [0x12, |l.value|] + l.value
  }

  lemma SmallLabelDecodes(l: Label)
    requires |l.name| < 128 && |l.value| < 128
    ensures DecodeLabel(SmallLabel(l)) == Some(l)
  {
    hide Varint, Content, Scan, Fold;
    var data, n := SmallLabel(l), |l.name| + 2;
    assert data[2..n] == l.name && data[n + 2..n + 2 + |l.value|] == l.value;
    SmallField(data, 0, 0x0a, l.name);
    SmallField(data, n, 0x12, l.value);
    DecodeOneField(LabelStep, NO_LABEL, data, 0);
    DecodeOneField(LabelStep, Label(l.name, []), data, n);
    DecodeEnd(LabelStep, l, data);
  }

  const UNNAMED := Label([120], [121])
  const NAMED := Label(METRIC_NAME, [97])

  /** x="y" without a sample, then __name__="a" with an empty sample. */
  const IDLE: seq<Byte> := [0x0a, 6] + SmallLabel(UNNAMED)
  const BUSY: seq<Byte> := [0x0a, 13] + SmallLabel(NAMED) + [0x12, 0]
  const IDLE_FIRST: seq<Byte> := [0x0a, 8] + IDLE + [0x0a, 17] + BUSY

  lemma IdleMessage()
    ensures |IDLE| == 8 && FastSeries(IDLE, 0, [], []) == Parsed([UNNAMED], [])
    ensures ReadLabels(IDLE, 0, []) == LabelsRead([UNNAMED])
  {
    hide Varint, Content, DecodeLabel, DecodeSample;
    assert IDLE[2..8] == SmallLabel(UNNAMED);
    SmallField(IDLE, 0, 0x0a, SmallLabel(UNNAMED));
    SmallLabelDecodes(UNNAMED);
    var none: seq<Label> := [];
    assert none + [UNNAMED] == [UNNAMED];
  }

  lemma EmptySample(none: seq<Byte>)
    requires none == []
    ensures DecodeSample(none) == Some(NO_SAMPLE)
  {
    DecodeEnd(SampleStep, NO_SAMPLE, none);
  }

  lemma BusyMessage()
    ensures |BUSY| == 17 && FastSeries(BUSY, 0, [], []) == Parsed([NAMED], [NO_SAMPLE])
  {
    hide Varint, Content, DecodeLabel, DecodeSample;
    assert |SmallLabel(NAMED)| == 13;
    assert BUSY[2..15] == SmallLabel(NAMED);
    SmallField(BUSY, 0, 0x0a, SmallLabel(NAMED));
    SmallLabelDecodes(NAMED);
    var none: seq<Byte>, labels: seq<Label>, samples: seq<Sample> := [], [], [];
    assert BUSY[17..17] == none;
    SmallField(BUSY, 15, 0x12, none);
    EmptySample(none);
    assert labels + [NAMED] == [NAMED] && samples + [NO_SAMPLE] == [NO_SAMPLE];
    assert FastSeries(BUSY, 15, [NAMED], []) == Parsed([NAMED], [NO_SAMPLE]);
  }

  /** The condition is needed: the fast builder accepts this request, with one record, and the
      second pass fails to find its labels because an idle series comes first. */
  lemma IdleSeriesStopsPass(cfg: Config)
    requires !cfg.droppable(0)
    ensures var r := Fast(cfg, IDLE_FIRST, 0, EMPTY);
      r.Built? && |r.batch.records| == 1
      && Pass(cfg, IDLE_FIRST, 0, {r.batch.records[0].id}) == None
  {
    hide Varint, Content, FastSeries, SeriesIdentity, AddSamples, MinBucket, MaxBucket, Encode, ReadLabels;
    IdleMessage();
    BusyMessage();
    assert IDLE_FIRST[2..10] == IDLE && IDLE_FIRST[12..29] == BUSY;
    SmallField(IDLE_FIRST, 0, 0x0a, IDLE);
    SmallField(IDLE_FIRST, 10, 0x0a, BUSY);
    OneLabelIdentity(cfg.hash, NAMED);
    OneLabelIdentity(cfg.hash, UNNAMED);
    assert Kept(cfg, [NO_SAMPLE]) == [NO_SAMPLE] by {
      assert [NO_SAMPLE][..0] == [];
    }
    assert AddParsed(cfg, EMPTY, Parsed([UNNAMED], [])) == Built(EMPTY);
    assert AddParsed(cfg, EMPTY, Parsed([NAMED], [NO_SAMPLE])).Built?;
    assert Fast(cfg, IDLE_FIRST, 10, EMPTY) == AddParsed(cfg, EMPTY, Parsed([NAMED], [NO_SAMPLE]));
  }
}
