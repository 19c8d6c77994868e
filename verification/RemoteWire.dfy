/** Remote-write requests as a client puts them on the wire, field by field, and that decoding
    them gives back every label, value and timestamp. */
module RemoteWire {
  import opened Options
  import opened Arithmetic
  import opened Bits
  import opened ProtoWire
  import opened Identity
  import opened RemoteBatch

  // ---------------------------------------------------------------- eight little-endian bytes

  /** Byte k of a fixed-width integer is its k-th base 256 digit. */
  lemma {:induction false} FixedByte(n: nat, bytes: nat, k: nat)
    requires k < bytes
    ensures Fixed(n, bytes)[k] == (n / Pow256(k)) % 256
  {
    if k > 0 {
      FixedByte(n / 256, bytes - 1, k - 1);
      DivideTwice(n, 256, Pow256(k - 1));
    }
  }

  lemma DivideTwice(n: nat, a: nat, b: nat)
    requires a > 0 && b > 0
    ensures a * b > 0 && n / a / b == n / (a * b)
  {
    var q := n / a / b;
    var r := n / a % b;
    assert n / a == q * b + r;
    assert n == (q * b + r) * a + n % a;
    assert (q * b + r) * a == q * (a * b) + r * a;
    assert r * a <= (b - 1) * a;
    assert (b - 1) * a == a * b - a;
    RemainderIs(n, a * b, q, r * a + n % a);
  }

  lemma {:induction false} LittleEndianOfFixed(n: nat, bytes: nat)
    requires n < Pow256(bytes)
    ensures LittleEndian(Fixed(n, bytes)) == n
  {
    if bytes > 0 {
      LittleEndianOfFixed(n / 256, bytes - 1);
      assert Fixed(n, bytes)[1..] == Fixed(n / 256, bytes - 1);
    }
  }

  // ---------------------------------------------------------------- writing

  /** A length-delimited field. */
  function BytesField(num: nat, data: seq<Byte>): (r: seq<Byte>)
    requires num < 16
    ensures |r| > |data|
  {
    [8 * num + 2] + Uvarint(|data|) + data
  }

  function WriteLabel(l: Label): seq<Byte> {
    BytesField(1, l.name) + BytesField(2, l.value)
  }

  /** Go's uint64(int64). */
  function ToUint64(t: int): nat { t % TWO64 }

  function WriteSample(s: Sample): seq<Byte> {
    [0x09] + Fixed(s.bits, 8) + [0x10] + Uvarint(ToUint64(s.t))
  }

  function WriteLabels(labels: seq<Label>): seq<Byte> {
    if labels == [] then [] else BytesField(1, WriteLabel(labels[0])) + WriteLabels(labels[1..])
  }

  function WriteSamples(samples: seq<Sample>): seq<Byte> {
    if samples == [] then [] else BytesField(2, WriteSample(samples[0])) + WriteSamples(samples[1..])
  }

  function WriteSeries(s: TimeSeries): seq<Byte> {
    WriteLabels(s.labels) + WriteSamples(s.samples)
  }

  function WriteRequest(series: seq<TimeSeries>): seq<Byte> {
    if series == [] then [] else BytesField(1, WriteSeries(series[0])) + WriteRequest(series[1..])
  }

  /** Values of 64 bits, timestamps of int64 and messages whose length a varint can hold. */
  ghost predicate Writable(s: TimeSeries) {
    !s.aux && |WriteSeries(s)| < TWO64
    && (forall l :: l in s.labels ==> |l.name| < TWO64 && |l.value| < TWO64 && |WriteLabel(l)| < TWO64)
    && (forall x :: x in s.samples ==> x.bits < TWO64 && Int64(x.t))
  }

  // ---------------------------------------------------------------- reading one field

  lemma BytesFieldIsRead(before: seq<Byte>, num: nat, payload: seq<Byte>, after: seq<Byte>)
    requires num < 16 && |payload| < TWO64
    ensures NextField(before + BytesField(num, payload) + after, |before|) ==
            Ok(Field(num, Bytes(payload)), |before| + |BytesField(num, payload)|)
  {
    hide Groups, Uvarint;
    var data := before + BytesField(num, payload) + after;
    var n := Uvarint(|payload|);
    OneByteKey(data, |before|);
    assert (8 * num + 2) / 8 == num && (8 * num + 2) % 8 == 2;
    assert data == (before + [8 * num + 2]) + n + (payload + after);
    UvarintRoundTrip(before + [8 * num + 2], |payload|, payload + after);
    var start := |before| + 1 + |n|;
    assert data[start..start + |payload|] == payload;
  }

  /** Four fixed bytes under any number are passed over. */
  lemma FourBytesAreSkipped(before: seq<Byte>, num: nat, four: seq<Byte>, after: seq<Byte>)
    requires num < 16 && |four| == 4
    ensures NextField(before + [8 * num + 5] + four + after, |before|) == Ok(Field(num, Skipped32), |before| + 5)
  {
    OneByteKey(before + [8 * num + 5] + four + after, |before|);
  }

  /** Decoding past one field: the step it makes, then the rest. */
  lemma PastBytesField<A>(step: (A, Field) -> Option<A>, acc: A, next: A, data: seq<Byte>, before: seq<Byte>,
                          num: nat, payload: seq<Byte>, after: seq<Byte>)
    requires num < 16 && |payload| < TWO64 && data == before + BytesField(num, payload) + after
    requires step(acc, Field(num, Bytes(payload))) == Some(next)
    ensures Decode(step, acc, data, |before|) == Decode(step, next, data, |before + BytesField(num, payload)|)
  {
    hide NextField, BytesField;
    BytesFieldIsRead(before, num, payload, after);
    DecodeOneField(step, acc, data, |before|);
  }

  lemma DecodeEnd<A>(step: (A, Field) -> Option<A>, acc: A, data: seq<Byte>)
    ensures Decode(step, acc, data, |data|) == Some(acc)
  {
  }

  // ---------------------------------------------------------------- round trips

  /** A label is read back, whatever its name and value. */
  lemma LabelRoundTrip(l: Label)
    requires |l.name| < TWO64 && |l.value| < TWO64
    ensures DecodeLabel(WriteLabel(l)) == Some(l)
  {
    hide BytesField, Decode;
    var data := WriteLabel(l);
    var (a, b) := (BytesField(1, l.name), BytesField(2, l.value));
    assert data == [] + a + b && data == a + b + [];
    PastBytesField(LabelStep, NO_LABEL, Label(l.name, []), data, [], 1, l.name, b);
    assert [] + a == a;
    PastBytesField(LabelStep, Label(l.name, []), l, data, a, 2, l.value, []);
    DecodeEnd(LabelStep, l, data);
  }

  lemma Int64RoundTrip(t: int)
    requires Int64(t)
    ensures ToUint64(t) < TWO64 && ToInt64(ToUint64(t)) == t
  {
    RemainderIs(t, TWO64, if t < 0 then -1 else 0, if t < 0 then t + TWO64 else t);
  }

  /** A sample is read back: all 64 bits of its value and every int64 timestamp. */
  lemma SampleRoundTrip(s: Sample)
    requires s.bits < TWO64 && Int64(s.t)
    ensures DecodeSample(WriteSample(s)) == Some(s)
  {
    hide Groups, Uvarint, LittleEndian, Fixed, ToInt64, ToUint64, Decode, Pow256;
    var data, t := WriteSample(s), ToUint64(s.t);
    Int64RoundTrip(s.t);
    Pow256Of8();
    LittleEndianOfFixed(s.bits, 8);
    assert data[1..9] == Fixed(s.bits, 8);
    OneByteKey(data, 0);
    DecodeOneField(SampleStep, NO_SAMPLE, data, 0);
    var acc := Sample(0, s.bits);
    assert data[9] == 0x10;
    OneByteKey(data, 9);
    var head := [0x09] + Fixed(s.bits, 8) + [0x10];
    assert data == head + Uvarint(t) + [];
    UvarintRoundTrip(head, t, []);
    DecodeOneField(SampleStep, acc, data, 9);
    DecodeEnd(SampleStep, s, data);
  }

  lemma {:induction false} LabelsAreRead(acc: TimeSeries, labels: seq<Label>, data: seq<Byte>, before: seq<Byte>,
                                         after: seq<Byte>)
    requires forall l :: l in labels ==> |l.name| < TWO64 && |l.value| < TWO64 && |WriteLabel(l)| < TWO64
    requires data == before + WriteLabels(labels) + after
    ensures Decode(SeriesStep, acc, data, |before|) ==
            Decode(SeriesStep, acc.(labels := acc.labels + labels), data, |before + WriteLabels(labels)|)
    decreases |labels|
  {
    hide BytesField, Decode, WriteLabel, DecodeLabel, DecodeSample;
    if labels == [] {
      assert acc.labels + labels == acc.labels;
    } else {
      var (first, rest) := (BytesField(1, WriteLabel(labels[0])), WriteLabels(labels[1..]));
      LabelRoundTrip(labels[0]);
      var next := acc.(labels := acc.labels + [labels[0]]);
      assert data == before + first + (rest + after);
      PastBytesField(SeriesStep, acc, next, data, before, 1, WriteLabel(labels[0]), rest + after);
      assert data == (before + first) + rest + after;
      LabelsAreRead(next, labels[1..], data, before + first, after);
      assert acc.labels + [labels[0]] + labels[1..] == acc.labels + labels;
    }
  }

  lemma {:induction false} SamplesAreRead(acc: TimeSeries, samples: seq<Sample>, data: seq<Byte>, before: seq<Byte>,
                                          after: seq<Byte>)
    requires forall x :: x in samples ==> x.bits < TWO64 && Int64(x.t)
    requires data == before + WriteSamples(samples) + after
    ensures Decode(SeriesStep, acc, data, |before|) ==
            Decode(SeriesStep, acc.(samples := acc.samples + samples), data, |before + WriteSamples(samples)|)
    decreases |samples|
  {
    hide BytesField, Decode, WriteSample, DecodeLabel, DecodeSample;
    if samples == [] {
      assert acc.samples + samples == acc.samples;
    } else {
      var (first, rest) := (BytesField(2, WriteSample(samples[0])), WriteSamples(samples[1..]));
      SampleRoundTrip(samples[0]);
      SampleIsShort(samples[0]);
      var next := acc.(samples := acc.samples + [samples[0]]);
      assert data == before + first + (rest + after);
      PastBytesField(SeriesStep, acc, next, data, before, 2, WriteSample(samples[0]), rest + after);
      assert data == (before + first) + rest + after;
      SamplesAreRead(next, samples[1..], data, before + first, after);
      assert acc.samples + [samples[0]] + samples[1..] == acc.samples + samples;
    }
  }

  lemma {:induction false} UvarintIsShort(x: nat, k: nat)
    requires x < Pow2(7 * k) && k > 0
    ensures |Uvarint(x)| <= k
  {
    if x >= 128 {
      Pow2Of7();
      assert k > 1;
      Pow2Adds(7, 7 * (k - 1));
      UvarintIsShort(x / 128, k - 1);
    }
  }

  lemma SampleIsShort(s: Sample)
    ensures |WriteSample(s)| <= 20
  {
    hide Pow2, Uvarint;
    assert ToUint64(s.t) < Pow2(70) by {
      Pow2Is64();
      Pow2Adds(64, 6);
    }
    UvarintIsShort(ToUint64(s.t), 10);
  }

  /** A series is read back: its labels and samples, in order. */
  lemma SeriesRoundTrip(s: TimeSeries)
    requires Writable(s)
    ensures DecodeSeries(WriteSeries(s)) == Some(s)
  {
    hide Decode, WriteLabels, WriteSamples, WriteLabel;
    var data := WriteSeries(s);
    var (a, b) := (WriteLabels(s.labels), WriteSamples(s.samples));
    assert data == [] + a + b && [] + a == a && data == a + b + [];
    LabelsAreRead(NO_SERIES, s.labels, data, [], b);
    SamplesAreRead(TimeSeries([] + s.labels, [], false), s.samples, data, a, []);
    assert [] + s.labels == s.labels && [] + s.samples == s.samples;
    DecodeEnd(SeriesStep, s, data);
  }

  lemma {:induction false} SeriesAreRead(acc: Request, series: seq<TimeSeries>, data: seq<Byte>, before: seq<Byte>)
    requires forall s :: s in series ==> Writable(s)
    requires data == before + WriteRequest(series)
    ensures Decode(RequestStep, acc, data, |before|) == Some(acc.(series := acc.series + series))
    decreases |series|
  {
    hide BytesField, Decode, WriteSeries, DecodeSeries;
    if series == [] {
      assert acc.series + series == acc.series && before + [] == before;
      DecodeEnd(RequestStep, acc, data);
    } else {
      var (first, rest) := (BytesField(1, WriteSeries(series[0])), WriteRequest(series[1..]));
      SeriesRoundTrip(series[0]);
      var next := acc.(series := acc.series + [series[0]]);
      assert data == before + first + rest;
      assert |WriteSeries(series[0])| < TWO64;
      PastBytesField(RequestStep, acc, next, data, before, 1, WriteSeries(series[0]), rest);
      SeriesAreRead(next, series[1..], data, before + first);
      assert acc.series + [series[0]] + series[1..] == acc.series + series;
    }
  }

  /** Decoding a written request gives back its series: every label, every bit of every value
      and every timestamp, in order. */
  lemma RequestRoundTrip(series: seq<TimeSeries>)
    requires forall s :: s in series ==> Writable(s)
    ensures DecodeRequest(WriteRequest(series)) == Some(Request(series, false))
  {
    var data := WriteRequest(series);
    assert data == [] + data && [] + series == series;
    SeriesAreRead(Request([], false), series, data, []);
  }
}
