/** Building the rows of a remote-write request twice: the ordinary way from the decoded
    request, and the fast way straight from the bytes. */
module RemoteBatch {
  import opened Options
  import opened Arithmetic
  import opened Bits
  import opened ProtoWire
  import opened Identity
  import SeriesIndex

  /** A sample value is kept as its 64 bits. */
  datatype Sample = Sample(t: int, bits: nat)

  /** aux records that the series carries exemplars or histograms. */
  datatype TimeSeries = TimeSeries(labels: seq<Label>, samples: seq<Sample>, aux: bool)

  datatype Request = Request(series: seq<TimeSeries>, metadata: bool)

  const NO_LABEL := Label([], [])
  const NO_SAMPLE := Sample(0, 0)
  const NO_SERIES := TimeSeries([], [], false)

  // ---------------------------------------------------------------- decoding

  /** Go's int64(uint64). */
  function ToInt64(u: nat): int { if u < TWO64 / 2 then u else u - TWO64 }

  function LabelStep(acc: Label, f: Field): Option<Label> {
    if f.num == 1 then (if f.payload.Bytes? then Some(acc.(name := f.payload.data)) else None)
    else if f.num == 2 then (if f.payload.Bytes? then Some(acc.(value := f.payload.data)) else None)
    else Some(acc)
  }

  function SampleStep(acc: Sample, f: Field): Option<Sample> {
    if f.num == 1 then (if f.payload.Double? then Some(acc.(bits := f.payload.bits)) else None)
    else if f.num == 2 then (if f.payload.Number? then Some(acc.(t := ToInt64(f.payload.v))) else None)
    else Some(acc)
  }

  function SeriesStep(acc: TimeSeries, f: Field): Option<TimeSeries> {
    if f.num == 0 then None
    else if f.num == 1 then
      if !f.payload.Bytes? then None
      else
        match DecodeLabel(f.payload.data)
        case None => None
        case Some(l) => Some(acc.(labels := acc.labels + [l]))
    else if f.num == 2 then
      if !f.payload.Bytes? then None
      else
        match DecodeSample(f.payload.data)
        case None => None
        case Some(s) => Some(acc.(samples := acc.samples + [s]))
    else if f.num == 3 || f.num == 4 then Some(acc.(aux := true))
    else Some(acc)
  }

  function RequestStep(acc: Request, f: Field): Option<Request> {
    if f.num == 0 then None
    else if f.num == 1 then
      if !f.payload.Bytes? then None
      else
        match DecodeSeries(f.payload.data)
        case None => None
        case Some(s) => Some(acc.(series := acc.series + [s]))
    else if f.num == 3 then Some(acc.(metadata := true))
    else Some(acc)
  }

  /** Fields apply in order; the first bad one spoils the message. */
  function Fold<A>(step: (A, Field) -> Option<A>, acc: A, fields: seq<Field>): Option<A> {
    if fields == [] then Some(acc)
    else
      match step(acc, fields[0])
      case None => None
      case Some(next) => Fold(step, next, fields[1..])
  }

  function Decode<A>(step: (A, Field) -> Option<A>, acc: A, data: seq<Byte>, i: nat): Option<A>
    requires i <= |data|
  {
    match Scan(data, i)
    case Broken => None
    case Fields(fields) => Fold(step, acc, fields)
  }

  function DecodeLabel(data: seq<Byte>): Option<Label> { Decode(LabelStep, NO_LABEL, data, 0) }
  function DecodeSample(data: seq<Byte>): Option<Sample> { Decode(SampleStep, NO_SAMPLE, data, 0) }
  function DecodeSeries(data: seq<Byte>): Option<TimeSeries> { Decode(SeriesStep, NO_SERIES, data, 0) }
  function DecodeRequest(data: seq<Byte>): Option<Request> { Decode(RequestStep, Request([], false), data, 0) }

  /** Decoding goes field by field. */
  lemma DecodeOneField<A>(step: (A, Field) -> Option<A>, acc: A, data: seq<Byte>, i: nat)
    requires i < |data|
    ensures Decode(step, acc, data, i) ==
      match NextField(data, i)
      case Malformed => None
      case Ok(f, next) =>
        match step(acc, f)
        case None => None
        case Some(a) => Decode(step, a, data, next)
  {
    hide NextField;
    match NextField(data, i)
    case Malformed =>
    case Ok(f, next) =>
      match Scan(data, next)
      case Broken =>
      case Fields(rest) => assert ([f] + rest)[1..] == rest;
  }

  /** A one-byte varint. */
  lemma SmallVarint(data: seq<Byte>, i: nat)
    requires i < |data| && data[i] < 128
    ensures Varint(data, i) == Ok(data[i], i + 1)
  {
  }

  /** A field whose key fits one byte, as the shortcuts of the fast reader test for. */
  lemma OneByteKey(data: seq<Byte>, i: nat)
    requires i < |data| && data[i] < 128
    ensures NextField(data, i) ==
      match Content(data, i + 1, data[i] % 8)
      case Malformed => Malformed
      case Ok(payload, next) => Ok(Field(data[i] / 8, payload), next)
  {
    hide Content, Groups;
    SmallVarint(data, i);
  }

  // ---------------------------------------------------------------- decoding only adds

  lemma {:induction false} FoldKeepsLabels(acc: TimeSeries, fields: seq<Field>)
    requires Fold(SeriesStep, acc, fields).Some?
    ensures acc.labels <= Fold(SeriesStep, acc, fields).value.labels
    decreases |fields|
  {
    hide DecodeLabel, DecodeSample;
    if fields != [] {
      FoldKeepsLabels(SeriesStep(acc, fields[0]).value, fields[1..]);
    }
  }

  lemma DecodeKeepsLabels(acc: TimeSeries, data: seq<Byte>, i: nat)
    requires i <= |data| && Decode(SeriesStep, acc, data, i).Some?
    ensures acc.labels <= Decode(SeriesStep, acc, data, i).value.labels
  {
    hide Scan, Fold;
    FoldKeepsLabels(acc, Scan(data, i).fields);
  }

  lemma {:induction false} FoldKeepsSeries(acc: Request, fields: seq<Field>)
    requires Fold(RequestStep, acc, fields).Some?
    ensures acc.series <= Fold(RequestStep, acc, fields).value.series
    decreases |fields|
  {
    hide DecodeSeries;
    if fields != [] {
      FoldKeepsSeries(RequestStep(acc, fields[0]).value, fields[1..]);
    }
  }

  lemma DecodeKeepsSeries(acc: Request, data: seq<Byte>, i: nat)
    requires i <= |data| && Decode(RequestStep, acc, data, i).Some?
    ensures acc.series <= Decode(RequestStep, acc, data, i).value.series
  {
    hide Scan, Fold;
    FoldKeepsSeries(acc, Scan(data, i).fields);
  }

  // ---------------------------------------------------------------- reading labels and samples

  /** parseFastLabel: the shortcut for name then value, and the general loop. */
  method ParseLabel(data: seq<Byte>) returns (r: Option<Label>)
    ensures r == DecodeLabel(data)
  {
    hide Varint, Groups, Scan, Fold, LittleEndian;
    if |data| > 0 && data[0] == 0x0a {
      var name := ReadBytes(data, 1);
      OneByteKey(data, 0);
      DecodeOneField(LabelStep, NO_LABEL, data, 0);
      if name.Malformed? {
        return None;
      }
      if name.next < |data| && data[name.next] == 0x12 {
        var value := ReadBytes(data, name.next + 1);
        OneByteKey(data, name.next);
        DecodeOneField(LabelStep, Label(name.value, []), data, name.next);
        if value.Malformed? {
          return None;
        }
        if value.next == |data| {
          DecodeEnd(LabelStep, Label(name.value, value.value), data);
          return Some(Label(name.value, value.value));
        }
      }
    }
    r := ParseLabelFields(data);
  }

  lemma DecodeEnd<A>(step: (A, Field) -> Option<A>, acc: A, data: seq<Byte>)
    ensures Decode(step, acc, data, |data|) == Some(acc)
  {
  }

  method ParseLabelFields(data: seq<Byte>) returns (r: Option<Label>)
    ensures r == DecodeLabel(data)
  {
    hide Varint, Groups, Scan, Fold;
    var l, i := NO_LABEL, 0;
    while i < |data|
      invariant i <= |data| && DecodeLabel(data) == Decode(LabelStep, l, data, i)
      decreases |data| - i
    {
      DecodeOneField(LabelStep, l, data, i);
      var key := ReadVarint(data, i);
      if key.Malformed? {
        return None;
      }
      var num, wire := key.value / 8, key.value % 8;
      if num == 1 || num == 2 {
        if wire != WIRE_BYTES {
          return None;
        }
        var value := ReadBytes(data, key.next);
        if value.Malformed? {
          return None;
        }
        if num == 1 {
          l := l.(name := value.value);
        } else {
          l := l.(value := value.value);
        }
        i := value.next;
      } else {
        var skip := SkipField(data, key.next, wire);
        if skip.Malformed? {
          return None;
        }
        i := skip.next;
      }
    }
    DecodeEnd(LabelStep, l, data);
    return Some(l);
  }

  /** parseFastSample: the shortcut for value then timestamp, and the general loop. */
  method ParseSample(data: seq<Byte>) returns (r: Option<Sample>)
    ensures r == DecodeSample(data)
  {
    hide Varint, Groups, Scan, Fold, LittleEndian;
    if |data| >= 10 && data[0] == 0x09 && data[9] == 0x10 {
      var t := ReadVarint(data, 10);
      OneByteKey(data, 0);
      DecodeOneField(SampleStep, NO_SAMPLE, data, 0);
      var bits := LittleEndian(data[1..9]);
      OneByteKey(data, 9);
      DecodeOneField(SampleStep, Sample(0, bits), data, 9);
      if t.Malformed? {
        return None;
      }
      if t.next == |data| {
        DecodeEnd(SampleStep, Sample(ToInt64(t.value), bits), data);
        return Some(Sample(ToInt64(t.value), bits));
      }
    }
    r := ParseSampleFields(data);
  }

  method ParseSampleFields(data: seq<Byte>) returns (r: Option<Sample>)
    ensures r == DecodeSample(data)
  {
    hide Varint, Groups, Scan, Fold, LittleEndian;
    var s, i := NO_SAMPLE, 0;
    while i < |data|
      invariant i <= |data| && DecodeSample(data) == Decode(SampleStep, s, data, i)
      decreases |data| - i
    {
      DecodeOneField(SampleStep, s, data, i);
      var key := ReadVarint(data, i);
      if key.Malformed? {
        return None;
      }
      var num, wire := key.value / 8, key.value % 8;
      if num == 1 {
        if wire != WIRE_FIXED64 || |data| - key.next < 8 {
          return None;
        }
        s := s.(bits := LittleEndian(data[key.next..key.next + 8]));
        i := key.next + 8;
      } else if num == 2 {
        if wire != WIRE_VARINT {
          return None;
        }
        var value := ReadVarint(data, key.next);
        if value.Malformed? {
          return None;
        }
        s := s.(t := ToInt64(value.value));
        i := value.next;
      } else {
        var skip := SkipField(data, key.next, wire);
        if skip.Malformed? {
          return None;
        }
        i := skip.next;
      }
    }
    DecodeEnd(SampleStep, s, data);
    return Some(s);
  }

  // ---------------------------------------------------------------- rows and records

  /** The hash is xxhash64, the drop rule is the one on sample values; a step of at most 0
      keeps timestamps as they are. */
  datatype Config = Config(hash: seq<Byte> -> Uint64, droppable: nat -> bool, step: int, team: nat)

  datatype Row = Row(team: nat, metric: seq<Byte>, t: int, id: nat, bits: nat)

  datatype Record = Record(team: nat, id: nat, metric: seq<Byte>, minT: int, maxT: int)

  datatype Batch = Batch(rows: seq<Row>, records: seq<Record>)

  const EMPTY := Batch([], [])

  /** bucketTimestampForStepMS */
  function Bucket(t: int, step: int): int {
    if step <= 0 then t
    else
      var r := TruncRemainder(t, step);
      t - if r < 0 then r + step else r
  }

  /** Buckets start at multiples of the step, on either side of zero. */
  lemma BucketIsFloor(t: int, step: int)
    requires step > 0
    ensures Bucket(t, step) == (t / step) * step && Bucket(t, step) <= t < Bucket(t, step) + step
  {
    FloorOfTrunc(t, step);
    var q := TruncDiv(t, step);
    assert (q - 1) * step == q * step - step;
  }

  function Kept(cfg: Config, samples: seq<Sample>): seq<Sample> {
    if samples == [] then []
    else
      var n := |samples| - 1;
      Kept(cfg, samples[..n]) + if cfg.droppable(samples[n].bits) then [] else [samples[n]]
  }

  /** A sample in the same bucket of the same series as the last row replaces its value. */
  function AddSample(cfg: Config, rows: seq<Row>, id: nat, metric: seq<Byte>, s: Sample): seq<Row> {
    var t := Bucket(s.t, cfg.step);
    var n := |rows|;
    if n > 0 && rows[n - 1].id == id && rows[n - 1].t == t then rows[n - 1 := rows[n - 1].(bits := s.bits)]
    else rows + [Row(cfg.team, metric, t, id, s.bits)]
  }

  function AddSamples(cfg: Config, rows: seq<Row>, id: nat, metric: seq<Byte>, samples: seq<Sample>): seq<Row> {
    if samples == [] then rows
    else
      var n := |samples| - 1;
      AddSample(cfg, AddSamples(cfg, rows, id, metric, samples[..n]), id, metric, samples[n])
  }

  function MinBucket(cfg: Config, samples: seq<Sample>): int
    requires samples != []
  {
    var n := |samples| - 1;
    var t := Bucket(samples[n].t, cfg.step);
    if n == 0 then t else if t < MinBucket(cfg, samples[..n]) then t else MinBucket(cfg, samples[..n])
  }

  function MaxBucket(cfg: Config, samples: seq<Sample>): int
    requires samples != []
  {
    var n := |samples| - 1;
    var t := Bucket(samples[n].t, cfg.step);
    if n == 0 then t else if t > MaxBucket(cfg, samples[..n]) then t else MaxBucket(cfg, samples[..n])
  }

  function Find(records: seq<Record>, id: nat): (r: nat)
    ensures r <= |records|
    ensures r < |records| ==> records[r].id == id
    ensures r == |records| ==> forall k :: 0 <= k < |records| ==> records[k].id != id
  {
    if records == [] then 0 else if records[0].id == id then 0 else 1 + Find(records[1..], id)
  }

  /** One record per id; times widen. */
  function AddRecord(records: seq<Record>, r: Record): seq<Record> {
    var k := Find(records, r.id);
    if k == |records| then records + [r]
    else
      var was := records[k];
      records[k := was.(minT := if r.minT < was.minT then r.minT else was.minT,
                        maxT := if r.maxT > was.maxT then r.maxT else was.maxT)]
  }

  /** The samples of one series. A series that carries nothing is skipped before its labels are
      looked at; rows of exemplars and histograms are left out. */
  function AddSeries(cfg: Config, batch: Batch, ts: TimeSeries): Option<Batch> {
    if ts.samples == [] && !ts.aux then Some(batch)
    else
      match SeriesIdentity(cfg.hash, ts.labels)
      case Invalid => None
      case Identified(id, metric) =>
        var samples := Kept(cfg, ts.samples);
        if samples == [] then Some(batch)
        else
          Some(Batch(AddSamples(cfg, batch.rows, id, metric, samples),
                     AddRecord(batch.records,
                         Record(cfg.team, id, metric, MinBucket(cfg, samples), MaxBucket(cfg, samples)))))
  }

  function Build(cfg: Config, series: seq<TimeSeries>): Option<Batch> {
    if series == [] then Some(EMPTY)
    else
      match Build(cfg, series[..|series| - 1])
      case None => None
      case Some(batch) => AddSeries(cfg, batch, series[|series| - 1])
  }

  ghost predicate SamplesOnly(request: Request) {
    !request.metadata && forall k :: 0 <= k < |request.series| ==> !request.series[k].aux
  }

  // ---------------------------------------------------------------- rows are runs

  /** How many samples at the front are in one bucket. */
  function RunLength(cfg: Config, samples: seq<Sample>): (n: nat)
    requires samples != []
    ensures 1 <= n <= |samples|
  {
    if |samples| > 1 && Bucket(samples[1].t, cfg.step) == Bucket(samples[0].t, cfg.step)
    then 1 + RunLength(cfg, samples[1..]) else 1
  }

  /** One row per run of samples in one bucket, with the last value of the run. */
  function RunRows(cfg: Config, id: nat, metric: seq<Byte>, samples: seq<Sample>): seq<Row> {
    if samples == [] then []
    else
      var n := RunLength(cfg, samples);
      [Row(cfg.team, metric, Bucket(samples[0].t, cfg.step), id, samples[n - 1].bits)]
      + RunRows(cfg, id, metric, samples[n..])
  }

  predicate Continues(rows: seq<Row>, more: seq<Row>) {
    rows != [] && more != [] && rows[|rows| - 1].id == more[0].id && rows[|rows| - 1].t == more[0].t
  }

  /** Rows that follow others: a first row of the series and bucket of the last one replaces
      its value. */
  function Joined(rows: seq<Row>, more: seq<Row>): seq<Row> {
    var n := |rows| - 1;
    if Continues(rows, more) then rows[..n] + [rows[n].(bits := more[0].bits)] + more[1..]
    else rows + more
  }

  lemma FirstRun(cfg: Config, id: nat, metric: seq<Byte>, samples: seq<Sample>)
    ensures samples == [] ==> RunRows(cfg, id, metric, samples) == []
    ensures samples != [] ==>
      var n := RunLength(cfg, samples);
      RunRows(cfg, id, metric, samples) ==
      [Row(cfg.team, metric, Bucket(samples[0].t, cfg.step), id, samples[n - 1].bits)]
      + RunRows(cfg, id, metric, samples[n..])
  {
    hide Bucket, RunLength;
  }

  lemma OneRun(cfg: Config, id: nat, metric: seq<Byte>, samples: seq<Sample>)
    requires samples != [] && RunLength(cfg, samples) == |samples|
    ensures RunRows(cfg, id, metric, samples) ==
      [Row(cfg.team, metric, Bucket(samples[0].t, cfg.step), id, samples[|samples| - 1].bits)]
  {
    hide Bucket, RunLength;
    assert samples[|samples|..] == [];
  }

  /** One sample more makes the last run longer, or starts a run. */
  lemma {:induction false} RunRowsGrow(cfg: Config, id: nat, metric: seq<Byte>, samples: seq<Sample>, s: Sample)
    ensures var rows, t := RunRows(cfg, id, metric, samples), Bucket(s.t, cfg.step);
      (rows == [] <==> samples == [])
      && (rows != [] ==> rows[|rows| - 1].id == id && rows[|rows| - 1].t == Bucket(samples[|samples| - 1].t, cfg.step))
      && RunRows(cfg, id, metric, samples + [s]) ==
         if samples != [] && Bucket(samples[|samples| - 1].t, cfg.step) == t
         then rows[|rows| - 1 := rows[|rows| - 1].(bits := s.bits)]
         else rows + [Row(cfg.team, metric, t, id, s.bits)]
    decreases |samples|
  {
    hide Bucket, RunRows, RunLength;
    FirstRun(cfg, id, metric, samples);
    var more := samples + [s];
    if samples == [] {
      LoneSample(cfg, [s]);
      assert more == [s];
      OneRun(cfg, id, metric, [s]);
    } else {
      var n := RunLength(cfg, samples);
      RunLengthGrows(cfg, samples, s);
      FirstRun(cfg, id, metric, more);
      if n < |samples| {
        RunRowsGrow(cfg, id, metric, samples[n..], s);
        assert more[n..] == samples[n..] + [s];
      } else {
        OneRun(cfg, id, metric, samples);
        if RunLength(cfg, more) > n {
          OneRun(cfg, id, metric, more);
        } else {
          assert more[n..] == [s];
          LoneSample(cfg, [s]);
          OneRun(cfg, id, metric, [s]);
        }
      }
    }
  }

  lemma LoneSample(cfg: Config, samples: seq<Sample>)
    requires |samples| == 1
    ensures RunLength(cfg, samples) == 1
  {
  }

  lemma {:induction false} RunLengthGrows(cfg: Config, samples: seq<Sample>, s: Sample)
    requires samples != []
    ensures var n := RunLength(cfg, samples);
      Bucket(samples[n - 1].t, cfg.step) == Bucket(samples[0].t, cfg.step)
      && RunLength(cfg, samples + [s]) ==
         if n == |samples| && Bucket(s.t, cfg.step) == Bucket(samples[0].t, cfg.step) then n + 1 else n
    decreases |samples|
  {
    hide Bucket;
    var more := samples + [s];
    if |samples| > 1 {
      RunLengthGrows(cfg, samples[1..], s);
      assert more[1..] == samples[1..] + [s];
    } else {
      assert more[1..] == [s];
    }
  }

  /** However many rows there are already, the samples of a series add one row per run of
      equal buckets, holding the last value of the run; only the first run may instead go on
      in the last row before it. */
  lemma {:induction false} RowsAreRuns(cfg: Config, rows: seq<Row>, id: nat, metric: seq<Byte>, samples: seq<Sample>)
    ensures AddSamples(cfg, rows, id, metric, samples) == Joined(rows, RunRows(cfg, id, metric, samples))
    decreases |samples|
  {
    hide Bucket, RunRows, AddSample, Joined;
    if samples != [] {
      var n := |samples| - 1;
      RowsAreRuns(cfg, rows, id, metric, samples[..n]);
      RunRowsGrow(cfg, id, metric, samples[..n], samples[n]);
      AddToJoined(cfg, rows, RunRows(cfg, id, metric, samples[..n]), id, metric, samples[n]);
      assert samples == samples[..n] + [samples[n]];
    } else {
      RunRowsGrow(cfg, id, metric, samples, NO_SAMPLE);
      JoinNothing(rows);
    }
  }

  lemma JoinNothing(rows: seq<Row>)
    ensures Joined(rows, []) == rows
  {
  }

  lemma JoinOneMore(rows: seq<Row>, more: seq<Row>, row: Row)
    requires more != []
    ensures Joined(rows, more + [row]) == Joined(rows, more) + [row]
  {
    assert (more + [row])[1..] == more[1..] + [row];
  }

  lemma JoinNewValue(rows: seq<Row>, more: seq<Row>, bits: nat)
    requires more != []
    ensures var n, joined := |more| - 1, Joined(rows, more);
      var last := |joined| - 1;
      joined != [] && joined[last].id == more[n].id && joined[last].t == more[n].t
      && Joined(rows, more[n := more[n].(bits := bits)]) == joined[last := joined[last].(bits := bits)]
  {
    var n, joined := |more| - 1, Joined(rows, more);
    var changed := more[n := more[n].(bits := bits)];
    assert changed == more[..n] + [more[n].(bits := bits)];
    if Continues(rows, more) {
      if n == 0 {
        assert more[1..] == [] && changed[1..] == [];
      } else {
        assert changed[1..] == more[1..][n - 1 := more[n].(bits := bits)];
      }
    }
  }

  lemma AddToJoined(cfg: Config, rows: seq<Row>, more: seq<Row>, id: nat, metric: seq<Byte>, s: Sample)
    requires more != [] ==> more[|more| - 1].id == id
    ensures var n, t := |more| - 1, Bucket(s.t, cfg.step);
      AddSample(cfg, Joined(rows, more), id, metric, s) ==
      Joined(rows, if more != [] && more[n].t == t then more[n := more[n].(bits := s.bits)]
                   else more + [Row(cfg.team, metric, t, id, s.bits)])
  {
    hide Bucket;
    var row := Row(cfg.team, metric, Bucket(s.t, cfg.step), id, s.bits);
    if more == [] {
      JoinNothing(rows);
      assert more + [row] == [row];
    } else {
      hide Joined;
      JoinNewValue(rows, more, s.bits);
      JoinOneMore(rows, more, row);
    }
  }

  // ---------------------------------------------------------------- the ordinary builder

  lemma KeptGrows(cfg: Config, samples: seq<Sample>, i: nat)
    requires i < |samples|
    ensures Kept(cfg, samples[..i + 1]) ==
            Kept(cfg, samples[..i]) + if cfg.droppable(samples[i].bits) then [] else [samples[i]]
  {
    assert samples[..i + 1][..i] == samples[..i];
  }

  lemma OneMoreSample(cfg: Config, rows: seq<Row>, id: nat, metric: seq<Byte>, kept: seq<Sample>, s: Sample)
    ensures AddSamples(cfg, rows, id, metric, kept + [s])
        == AddSample(cfg, AddSamples(cfg, rows, id, metric, kept), id, metric, s)
    ensures var t := Bucket(s.t, cfg.step);
      MinBucket(cfg, kept + [s]) == (if kept == [] || t < MinBucket(cfg, kept) then t else MinBucket(cfg, kept))
      && MaxBucket(cfg, kept + [s]) == if kept == [] || t > MaxBucket(cfg, kept) then t else MaxBucket(cfg, kept)
  {
    hide AddSample, Bucket;
    assert (kept + [s])[..|kept|] == kept;
  }

  /** Appending a row, or replacing the value of the last one. */
  method AppendSample(cfg: Config, before: seq<Row>, id: nat, metric: seq<Byte>, s: Sample, t: int)
    returns (rows: seq<Row>)
    requires t == Bucket(s.t, cfg.step)
    ensures rows == AddSample(cfg, before, id, metric, s)
  {
    rows := before;
    if |rows| > 0 {
      var last := rows[|rows| - 1];
      if last.id == id && last.t == t {
        return rows[|rows| - 1 := last.(bits := s.bits)];
      }
    }
    rows := rows + [Row(cfg.team, metric, t, id, s.bits)];
  }

  /** The sample loop of buildRemoteWriteBatch. */
  method OrdinarySamples(cfg: Config, before: seq<Row>, id: nat, metric: seq<Byte>, samples: seq<Sample>)
    returns (rows: seq<Row>, haveTime: bool, minT: int, maxT: int)
    ensures var kept := Kept(cfg, samples);
      rows == AddSamples(cfg, before, id, metric, kept) && haveTime == (kept != [])
      && (haveTime ==> minT == MinBucket(cfg, kept) && maxT == MaxBucket(cfg, kept))
  {
    rows, haveTime, minT, maxT := before, false, 0, 0;
    ghost var kept := [];
    hide AddSample, Bucket, AddSamples, MinBucket, MaxBucket;
    NoSamples(cfg, kept);
    for i := 0 to |samples|
      invariant kept == Kept(cfg, samples[..i])
      invariant rows == AddSamples(cfg, before, id, metric, kept) && haveTime == (kept != [])
      invariant haveTime ==> minT == MinBucket(cfg, kept) && maxT == MaxBucket(cfg, kept)
    {
      var sample := samples[i];
      KeptGrows(cfg, samples, i);
      if !cfg.droppable(sample.bits) {
        OneMoreSample(cfg, before, id, metric, kept, sample);
        var bucket := Bucket(sample.t, cfg.step);
        if !haveTime {
          minT, maxT, haveTime := bucket, bucket, true;
        } else {
          minT := if bucket < minT then bucket else minT;
          maxT := if bucket > maxT then bucket else maxT;
        }
        rows := AppendSample(cfg, rows, id, metric, sample, bucket);
        kept := kept + [sample];
      }
    }
    assert samples[..|samples|] == samples;
  }

  /** The index of a list of records: the position of each id. */
  ghost predicate IndexOf(records: seq<Record>, index: map<nat, int>) {
    forall id: nat :: (id in index <==> Find(records, id) < |records|)
                      && (id in index ==> index[id] == Find(records, id))
  }

  lemma {:induction false} FindInLonger(records: seq<Record>, r: Record, id: nat)
    ensures Find(records + [r], id) ==
            if Find(records, id) < |records| then Find(records, id)
            else if r.id == id then |records| else |records| + 1
  {
    if records != [] && records[0].id != id {
      assert (records + [r])[1..] == records[1..] + [r];
      FindInLonger(records[1..], r, id);
    }
  }

  lemma {:induction false} FindKeepsIds(a: seq<Record>, b: seq<Record>, id: nat)
    requires |a| == |b| && forall k :: 0 <= k < |a| ==> a[k].id == b[k].id
    ensures Find(a, id) == Find(b, id)
  {
    if a != [] {
      FindKeepsIds(a[1..], b[1..], id);
    }
  }

  /** Keeping the index beside the records. */
  lemma IndexAfterAdd(records: seq<Record>, index: map<nat, int>, r: Record)
    requires IndexOf(records, index)
    ensures IndexOf(AddRecord(records, r), if r.id in index then index else index[r.id := |records|])
  {
    hide Find;
    var more := AddRecord(records, r);
    forall id: nat
      ensures Find(more, id) == if Find(records, r.id) < |records| then Find(records, id)
                                else if Find(records, id) < |records| then Find(records, id)
                                else if r.id == id then |records| else |records| + 1
    {
      if Find(records, r.id) < |records| {
        FindKeepsIds(records, more, id);
      } else {
        FindInLonger(records, r, id);
      }
    }
  }

  /** buildRemoteWriteBatch on series that carry samples only. */
  method BuildOrdinary(cfg: Config, series: seq<TimeSeries>) returns (r: Option<Batch>)
    requires forall k :: 0 <= k < |series| ==> !series[k].aux
    ensures r == Build(cfg, series)
  {
    hide SeriesIdentity, Find, AddSamples, Kept, MinBucket, MaxBucket, IndexOf;
    var rows, records, index: map<nat, int> := [], [], map[];
    NoRecords();
    for i := 0 to |series|
      invariant Build(cfg, series[..i]) == Some(Batch(rows, records))
      invariant IndexOf(records, index)
    {
      var ts := series[i];
      assert series[..i + 1][..i] == series[..i];
      BuildStops(cfg, series, i + 1);
      if |ts.samples| > 0 || ts.aux {
        var labels := new Label[|ts.labels|](k requires 0 <= k < |ts.labels| => ts.labels[k]);
        assert labels[..] == ts.labels;
        var identity := OrdinaryIdentity(cfg.hash, labels);
        if identity.Invalid? {
          return None;
        }
        var id, metric := identity.id, identity.metric;
        var haveTime, minT, maxT;
        rows, haveTime, minT, maxT := OrdinarySamples(cfg, rows, id, metric, ts.samples);
        if haveTime {
          var record := Record(cfg.team, id, metric, minT, maxT);
          IndexAfterAdd(records, index, record);
          records, index := AddOrdinaryRecord(records, index, record);
        } else {
          NoSamples(cfg, Kept(cfg, ts.samples));
        }
      }
    }
    assert series[..|series|] == series;
    return Some(Batch(rows, records));
  }

  lemma NoSamples(cfg: Config, kept: seq<Sample>)
    requires kept == []
    ensures forall rows, id, metric :: AddSamples(cfg, rows, id, metric, kept) == rows
  {
  }

  lemma NoRecords()
    ensures IndexOf([], map[])
  {
  }

  /** addRemoteWriteSeriesRecord */
  method AddOrdinaryRecord(records: seq<Record>, index: map<nat, int>, row: Record)
    returns (more: seq<Record>, grown: map<nat, int>)
    requires IndexOf(records, index)
    ensures more == AddRecord(records, row)
    ensures grown == if row.id in index then index else index[row.id := |records|]
  {
    more, grown := records, index;
    if row.id in index {
      var existing := records[index[row.id]];
      if row.minT < existing.minT {
        existing := existing.(minT := row.minT);
      }
      if row.maxT > existing.maxT {
        existing := existing.(maxT := row.maxT);
      }
      more := records[index[row.id] := existing];
    } else {
      grown := index[row.id := |records|];
      more := records + [row];
    }
  }

  /** A series that fails spoils every longer request. */
  lemma {:induction false} BuildStops(cfg: Config, series: seq<TimeSeries>, i: nat)
    requires i <= |series|
    ensures Build(cfg, series[..i]) == None ==> Build(cfg, series) == None
    decreases |series|
  {
    hide AddSeries;
    if i == |series| {
      assert series[..i] == series;
    } else {
      var n := |series| - 1;
      assert series[..n][..i] == series[..i];
      BuildStops(cfg, series[..n], i);
    }
  }

  // ---------------------------------------------------------------- the fast builder, as a function

  /** What the fast reader makes of one series: its labels and its samples as they stand in
      the bytes, a request it leaves to the ordinary path, or an error. */
  datatype Parsed = Parsed(labels: seq<Label>, samples: seq<Sample>) | Leave | Fail

  /** Labels must arrive in strictly ascending order. */
  function FastLabel(labels: seq<Label>, l: Label): Added {
    if l.name == [] then Rejected
    else if labels == [] || Less(labels[|labels| - 1].name, l.name) then Accepted
    else if l.name == labels[|labels| - 1].name then Rejected
    else Unordered
  }

  function FastSeries(data: seq<Byte>, i: nat, labels: seq<Label>, samples: seq<Sample>): Parsed
    requires i <= |data|
    decreases |data| - i
  {
    if i == |data| then Parsed(labels, samples)
    else
      match Varint(data, i)
      case Malformed => Fail
      case Ok(key, start) =>
        var num := key / 8;
        if num == 0 then Fail
        else if num == 3 || num == 4 then Leave
        else if (num == 1 || num == 2) && key % 8 != WIRE_BYTES then Fail
        else
          match Content(data, start, key % 8)
          case Malformed => Fail
          case Ok(payload, next) =>
            if num == 1 then
              match DecodeLabel(payload.data)
              case None => Fail
              case Some(l) =>
                match FastLabel(labels, l)
                case Rejected => Fail
                case Unordered => Leave
                case Accepted => FastSeries(data, next, labels + [l], samples)
            else if num == 2 then
              match DecodeSample(payload.data)
              case None => Fail
              case Some(s) => FastSeries(data, next, labels, samples + [s])
            else FastSeries(data, next, labels, samples)
  }

  datatype Outcome = Built(batch: Batch) | Fallback | Failed

  function AddParsed(cfg: Config, batch: Batch, p: Parsed): Outcome {
    match p
    case Fail => Failed
    case Leave => Fallback
    case Parsed(labels, samples) =>
      match AddSeries(cfg, batch, TimeSeries(labels, samples, false))
      case None => Failed
      case Some(more) => Built(more)
  }

  /** buildRemoteWriteBatchFromProto from position i on: it stops at the first error or at
      the first thing it leaves to the ordinary path. */
  function Fast(cfg: Config, data: seq<Byte>, i: nat, batch: Batch): Outcome
    requires i <= |data|
    decreases |data| - i
  {
    if i == |data| then Built(batch)
    else
      match Varint(data, i)
      case Malformed => Failed
      case Ok(key, start) =>
        var num := key / 8;
        if num == 0 then Failed
        else if num == 3 then Fallback
        else if num == 1 && key % 8 != WIRE_BYTES then Failed
        else
          match Content(data, start, key % 8)
          case Malformed => Failed
          case Ok(payload, next) =>
            if num == 1 then
              var after := AddParsed(cfg, batch, FastSeries(payload.data, 0, [], []));
              if after.Built? then Fast(cfg, data, next, after.batch) else after
            else Fast(cfg, data, next, batch)
  }

  lemma {:induction false} FastSeriesDecodes(data: seq<Byte>, i: nat, labels: seq<Label>, samples: seq<Sample>)
    requires i <= |data| && FastSeries(data, i, labels, samples).Parsed?
    ensures var p := FastSeries(data, i, labels, samples);
      Decode(SeriesStep, TimeSeries(labels, samples, false), data, i) == Some(TimeSeries(p.labels, p.samples, false))
    decreases |data| - i
  {
    hide Varint, Content, DecodeLabel, DecodeSample, Decode, Less;
    var acc := TimeSeries(labels, samples, false);
    if i == |data| {
      DecodeEnd(SeriesStep, acc, data);
    } else {
      DecodeOneField(SeriesStep, acc, data, i);
      var key := Varint(data, i);
      var content := Content(data, key.next, key.value % 8);
      var num := key.value / 8;
      if num == 1 {
        FastSeriesDecodes(data, content.next, labels + [DecodeLabel(content.value.data).value], samples);
      } else if num == 2 {
        FastSeriesDecodes(data, content.next, labels, samples + [DecodeSample(content.value.data).value]);
      } else {
        FastSeriesDecodes(data, content.next, labels, samples);
      }
    }
  }

  lemma {:induction false} FastFromDecodes(cfg: Config, data: seq<Byte>, i: nat, request: Request, batch: Batch)
    requires i <= |data| && Fast(cfg, data, i, batch).Built?
    requires SamplesOnly(request) && Build(cfg, request.series) == Some(batch)
    ensures var decoded := Decode(RequestStep, request, data, i);
      decoded.Some? && SamplesOnly(decoded.value)
      && Build(cfg, decoded.value.series) == Some(Fast(cfg, data, i, batch).batch)
    decreases |data| - i
  {
    hide Varint, Content, DecodeSeries, Decode, AddSeries, FastSeries;
    if i == |data| {
      DecodeEnd(RequestStep, request, data);
    } else {
      DecodeOneField(RequestStep, request, data, i);
      var key := Varint(data, i);
      var content := Content(data, key.next, key.value % 8);
      if key.value / 8 == 1 {
        var message := content.value.data;
        var parsed := FastSeries(message, 0, [], []);
        FastSeriesDecodes(message, 0, [], []);
        assert DecodeSeries(message) == Some(TimeSeries(parsed.labels, parsed.samples, false)) by {
          DecodeSeriesIs(message);
        }
        var ts := TimeSeries(parsed.labels, parsed.samples, false);
        assert (request.series + [ts])[..|request.series|] == request.series;
        FastFromDecodes(cfg, data, content.next, request.(series := request.series + [ts]),
            AddParsed(cfg, batch, parsed).batch);
      } else {
        FastFromDecodes(cfg, data, content.next, request, batch);
      }
    }
  }

  lemma DecodeSeriesIs(data: seq<Byte>)
    ensures DecodeSeries(data) == Decode(SeriesStep, NO_SERIES, data, 0)
  {
  }

  /** Main result: whenever the fast builder accepts a request without error, the request
      decodes, carries samples only, and the ordinary builder makes the same rows and the same
      records of it. */
  lemma FastIsOrdinary(cfg: Config, data: seq<Byte>)
    requires Fast(cfg, data, 0, EMPTY).Built?
    ensures DecodeRequest(data).Some? && SamplesOnly(DecodeRequest(data).value)
    ensures Build(cfg, DecodeRequest(data).value.series) == Some(Fast(cfg, data, 0, EMPTY).batch)
  {
    FastFromDecodes(cfg, data, 0, Request([], false), EMPTY);
  }

  // ---------------------------------------------------------------- the fast builder, as it runs

  /** The sample columns, appended in step. */
  datatype Columns = Columns(teams: seq<nat>, metrics: seq<seq<Byte>>, times: seq<int>, ids: seq<nat>,
                             values: seq<nat>) {
    predicate Even() { |teams| == |metrics| == |times| == |ids| == |values| }
    function Count(): nat { |ids| }
    function Rows(): (r: seq<Row>)
      requires Even()
      ensures |r| == Count()
    {
      seq(Count(), k requires 0 <= k < Count() => Row(teams[k], metrics[k], times[k], ids[k], values[k]))
    }
  }

  class Builder {
    const cfg: Config
    var columns: Columns
    var records: seq<Record>
    const identity: Streaming
    const index: SeriesIndex.Index

    ghost predicate Valid()
      reads this, identity, index, index.keys, index.values
    {
      columns.Even() && identity.Valid() && index.Valid() && IndexOf(records, index.contents)
    }

    ghost function Current(): Batch
      requires columns.Even()
      reads this
    {
      Batch(columns.Rows(), records)
    }

    constructor (cfg: Config, capHint: nat)
      ensures Valid() && Current() == EMPTY && this.cfg == cfg
      ensures fresh(identity) && fresh(index) && fresh(index.keys) && fresh(index.values)
    {
      this.cfg := cfg;
      columns := Columns([], [], [], [], []);
      records := [];
      identity := new Streaming();
      index := new SeriesIndex.Index(capHint);
      new;
      NoRecords();
    }

    /** One sample of the final loop of parseFastTimeSeries. */
    method AppendSampleColumns(id: nat, metric: seq<Byte>, s: Sample, bucket: int)
      requires columns.Even() && bucket == Bucket(s.t, cfg.step)
      modifies this`columns
      ensures columns.Even() && columns.Rows() == AddSample(cfg, old(columns.Rows()), id, metric, s)
    {
      hide Bucket;
      var count := columns.Count();
      if count > 0 && columns.ids[count - 1] == id && columns.times[count - 1] == bucket {
        ghost var rows := columns.Rows();
        columns := columns.(values := columns.values[count - 1 := s.bits]);
        assert columns.Rows() == rows[count - 1 := rows[count - 1].(bits := s.bits)];
      } else {
        ghost var rows := columns.Rows();
        columns := Columns(columns.teams + [cfg.team], columns.metrics + [metric], columns.times + [bucket],
                           columns.ids + [id], columns.values + [s.bits]);
        assert columns.Rows() == rows + [Row(cfg.team, metric, bucket, id, s.bits)];
      }
    }

    /** addFastSeriesRecord */
    method AddFastRecord(id: Uint64, metric: seq<Byte>, minT: int, maxT: int)
      requires Valid()
      modifies this`records, index, index.keys, index.values
      ensures Valid() && records == AddRecord(old(records), Record(cfg.team, id, metric, minT, maxT))
      ensures (index.keys == old(index.keys) && index.values == old(index.values))
              || (fresh(index.keys) && fresh(index.values))
    {
      hide Find, IndexOf;
      ghost var row := Record(cfg.team, id, metric, minT, maxT);
      IndexAfterAdd(records, index.contents, row);
      IndexIsFind(records, index.contents, id);
      var k, ok := index.Get(id);
      if ok {
        var existing := records[k];
        if minT < existing.minT {
          existing := existing.(minT := minT);
        }
        if maxT > existing.maxT {
          existing := existing.(maxT := maxT);
        }
        records := records[k := existing];
      } else {
        index.Set(id, |records|);
        records := records + [Record(cfg.team, id, metric, minT, maxT)];
      }
    }

    /** The field loop of parseFastTimeSeries: labels go to the streaming identity, samples
        that are not dropped to the scratch list. */
    method ParseFields(data: seq<Byte>) returns (r: Added, sawSample: bool, samples: seq<Sample>)
      requires identity.Valid()
      modifies identity
      ensures identity.Valid()
      ensures match FastSeries(data, 0, [], [])
              case Fail => r.Rejected?
              case Leave => r.Unordered?
              case Parsed(l, all) =>
                r.Accepted? && identity.labels == l && samples == Kept(cfg, all) && sawSample == (all != [])
    {
      hide Varint, Content, DecodeLabel, DecodeSample, Less, Streaming.Valid, LengthDelimited;
      samples, sawSample := [], false;
      ghost var all := [];
      identity.Reset();
      var i := 0;
      while i < |data|
        invariant i <= |data| && identity.Valid()
        invariant FastSeries(data, 0, [], []) == FastSeries(data, i, identity.labels, all)
        invariant samples == Kept(cfg, all) && sawSample == (all != [])
        decreases |data| - i
      {
        var key := ReadVarint(data, i);
        if key.Malformed? || key.value / 8 == 0 {
          return Rejected, sawSample, samples;
        }
        var num, wire := key.value / 8, key.value % 8;
        if num == 3 || num == 4 {
          return Unordered, sawSample, samples;
        }
        if num == 1 || num == 2 {
          if wire != WIRE_BYTES {
            return Rejected, sawSample, samples;
          }
          var message := ReadBytes(data, key.next);
          BytesContent(data, key.next);
          if message.Malformed? {
            return Rejected, sawSample, samples;
          }
          if num == 1 {
            var l := ParseLabel(message.value);
            if l.None? {
              return Rejected, sawSample, samples;
            }
            r := identity.Add(l.value);
            if !r.Accepted? {
              return;
            }
          } else {
            var s := ParseSample(message.value);
            if s.None? {
              return Rejected, sawSample, samples;
            }
            sawSample := true;
            KeptOneMore(cfg, all, s.value);
            all := all + [s.value];
            if !cfg.droppable(s.value.bits) {
              samples := samples + [s.value];
            }
          }
          i := message.next;
        } else {
          var skip := SkipField(data, key.next, wire);
          if skip.Malformed? {
            return Rejected, sawSample, samples;
          }
          i := skip.next;
        }
      }
      r := Accepted;
    }

    /** parseFastTimeSeries: one series read, identified, and added. */
    method ParseSeries(data: seq<Byte>) returns (r: Added)
      requires Valid()
      modifies this`columns, this`records, identity, index, index.keys, index.values
      ensures (index.keys == old(index.keys) && index.values == old(index.values))
              || (fresh(index.keys) && fresh(index.values))
      ensures match AddParsed(cfg, old(Current()), FastSeries(data, 0, [], []))
              case Failed => r.Rejected?
              case Fallback => r.Unordered?
              case Built(batch) => r.Accepted? && Valid() && Current() == batch
    {
      hide FastSeries, SeriesIdentity, AddSamples, AddSample, AddRecord, MinBucket, MaxBucket, Bucket, IndexOf, Kept;
      var sawSample, samples;
      r, sawSample, samples := ParseFields(data);
      if !r.Accepted? || !sawSample {
        return;
      }
      var identified := identity.Finish(cfg.hash);
      if identified.Invalid? {
        return Rejected;
      }
      if |samples| == 0 {
        return Accepted;
      }
      var id, metric := identified.id, identified.metric;
      var minT, maxT := AppendAll(id, metric, samples);
      AddFastRecord(id, metric, minT, maxT);
      return Accepted;
    }

    /** The final loop of parseFastTimeSeries. */
    method AppendAll(id: nat, metric: seq<Byte>, samples: seq<Sample>) returns (minT: int, maxT: int)
      requires columns.Even() && samples != []
      modifies this`columns
      ensures columns.Even() && columns.Rows() == AddSamples(cfg, old(columns.Rows()), id, metric, samples)
      ensures minT == MinBucket(cfg, samples) && maxT == MaxBucket(cfg, samples)
    {
      hide AddSample, AddSamples, MinBucket, MaxBucket, Bucket, Columns.Rows;
      minT, maxT := 0, 0;
      ghost var before := columns.Rows();
      NoSamples(cfg, samples[..0]);
      for i := 0 to |samples|
        invariant columns.Even() && columns.Rows() == AddSamples(cfg, before, id, metric, samples[..i])
        invariant i > 0 ==> minT == MinBucket(cfg, samples[..i]) && maxT == MaxBucket(cfg, samples[..i])
      {
        OneMoreSample(cfg, before, id, metric, samples[..i], samples[i]);
        assert samples[..i + 1] == samples[..i] + [samples[i]];
        var bucket := Bucket(samples[i].t, cfg.step);
        if i == 0 {
          minT, maxT := bucket, bucket;
        } else {
          minT := if bucket < minT then bucket else minT;
          maxT := if bucket > maxT then bucket else maxT;
        }
        AppendSampleColumns(id, metric, samples[i], bucket);
      }
      assert samples[..|samples|] == samples;
    }
  }

  lemma IndexIsFind(records: seq<Record>, index: map<nat, int>, id: nat)
    requires IndexOf(records, index)
    ensures id in index <==> Find(records, id) < |records|
    ensures id in index ==> index[id] == Find(records, id)
  {
  }

  lemma BytesContent(data: seq<Byte>, i: nat)
    requires i <= |data|
    ensures Content(data, i, WIRE_BYTES) ==
      match LengthDelimited(data, i) case Malformed => Malformed case Ok(b, next) => Ok(Bytes(b), next)
  {
  }

  lemma KeptOneMore(cfg: Config, samples: seq<Sample>, s: Sample)
    ensures Kept(cfg, samples + [s]) == Kept(cfg, samples) + if cfg.droppable(s.bits) then [] else [s]
  {
    assert (samples + [s])[..|samples|] == samples;
  }

  /** buildRemoteWriteBatchFromProto */
  method BuildFast(cfg: Config, data: seq<Byte>) returns (r: Outcome)
    ensures r == Fast(cfg, data, 0, EMPTY)
  {
    hide Varint, Content, AddParsed, FastSeries, IndexOf;
    var capHint := |data| / 256;
    if capHint < 1 {
      capHint := 1;
    }
    var builder := new Builder(cfg, capHint);
    var i := 0;
    while i < |data|
      invariant i <= |data| && builder.Valid() && builder.cfg == cfg
      invariant fresh(builder) && fresh(builder.identity) && fresh(builder.index)
      invariant fresh(builder.index.keys) && fresh(builder.index.values)
      invariant Fast(cfg, data, 0, EMPTY) == Fast(cfg, data, i, builder.Current())
      decreases |data| - i
    {
      var key := ReadVarint(data, i);
      if key.Malformed? || key.value / 8 == 0 {
        return Failed;
      }
      var num, wire := key.value / 8, key.value % 8;
      if num == 3 {
        return Fallback;
      }
      if num == 1 {
        if wire != WIRE_BYTES {
          return Failed;
        }
        var message := ReadBytes(data, key.next);
        BytesContent(data, key.next);
        if message.Malformed? {
          return Failed;
        }
        var ok := builder.ParseSeries(message.value);
        if ok.Rejected? {
          return Failed;
        }
        if ok.Unordered? {
          return Fallback;
        }
        i := message.next;
      } else {
        var skip := SkipField(data, key.next, wire);
        if skip.Malformed? {
          return Failed;
        }
        i := skip.next;
      }
    }
    return Built(Batch(builder.columns.Rows(), builder.records));
  }
}
