/** When a remote-write request fails: what an error of the fast builder says about the decoded
    request, and exactly which requests the ordinary builder rejects. */
module RemoteFailures {
  import opened Options
  import opened Bits
  import opened ProtoWire
  import opened Identity
  import opened RemoteBatch

  // ---------------------------------------------------------------- the ordinary builder

  /** The ordinary builder looks at the identity of a series only when the series carries
      something. */
  ghost predicate Rejects(cfg: Config, ts: TimeSeries) {
    (ts.samples != [] || ts.aux) && SeriesIdentity(cfg.hash, ts.labels).Invalid?
  }

  /** It rejects a request exactly when some series that carries something has no identity. */
  lemma {:induction false} BuildRejectsIff(cfg: Config, series: seq<TimeSeries>)
    ensures Build(cfg, series) == None <==> exists k :: 0 <= k < |series| && Rejects(cfg, series[k])
  {
    hide SeriesIdentity, AddSamples, AddRecord, Kept, MinBucket, MaxBucket;
    if series != [] {
      var n := |series| - 1;
      BuildRejectsIff(cfg, series[..n]);
      if k :| 0 <= k < n && Rejects(cfg, series[..n][k]) {
        assert Rejects(cfg, series[k]);
      }
      if k :| 0 <= k < |series| && Rejects(cfg, series[k]) {
        assert k < n ==> Rejects(cfg, series[..n][k]);
      }
    }
  }

  // ---------------------------------------------------------------- the fast builder

  /** A label the fast reader rejects leaves the series without an identity, whatever follows. */
  lemma RejectedLabel(hash: seq<Byte> -> Uint64, labels: seq<Label>, l: Label, all: seq<Label>)
    requires FastLabel(labels, l).Rejected? && labels + [l] <= all
    ensures SeriesIdentity(hash, all).Invalid?
  {
    hide SeriesIdentity, Less;
    var n := |labels|;
    IdentifiedIff(hash, all);
    assert all[n] == (labels + [l])[n] == l;
    if l.name != [] {
      assert all[n - 1] == (labels + [l])[n - 1] == labels[n - 1];
    }
  }

  lemma ContentBytes(data: seq<Byte>, i: nat, wire: nat)
    requires i <= |data| && Content(data, i, wire).Ok? && Content(data, i, wire).value.Bytes?
    ensures wire == WIRE_BYTES
  {
  }

  /** An error inside a series that decodes means that the series has no identity. */
  lemma {:induction false} FailedSeries(hash: seq<Byte> -> Uint64, data: seq<Byte>, i: nat, acc: TimeSeries,
                                        samples: seq<Sample>)
    requires i <= |data| && FastSeries(data, i, acc.labels, samples).Fail? && Decode(SeriesStep, acc, data, i).Some?
    ensures SeriesIdentity(hash, Decode(SeriesStep, acc, data, i).value.labels).Invalid?
    decreases |data| - i
  {
    hide Varint, Content, DecodeLabel, DecodeSample, Decode, Less, SeriesIdentity, FastLabel;
    DecodeOneField(SeriesStep, acc, data, i);
    var key := Varint(data, i);
    var content := Content(data, key.next, key.value % 8);
    var num := key.value / 8;
    if content.value.Bytes? {
      ContentBytes(data, key.next, key.value % 8);
    }
    if num == 1 {
      var l := DecodeLabel(content.value.data).value;
      var more := acc.(labels := acc.labels + [l]);
      if FastLabel(acc.labels, l).Rejected? {
        DecodeKeepsLabels(more, data, content.next);
        RejectedLabel(hash, acc.labels, l, Decode(SeriesStep, acc, data, i).value.labels);
      } else {
        FailedSeries(hash, data, content.next, more, samples);
      }
    } else if num == 2 {
      var s := DecodeSample(content.value.data).value;
      FailedSeries(hash, data, content.next, acc.(samples := acc.samples + [s]), samples + [s]);
    } else {
      FailedSeries(hash, data, content.next, acc, samples);
    }
  }

  lemma FailedMessage(cfg: Config, batch: Batch, message: seq<Byte>)
    requires AddParsed(cfg, batch, FastSeries(message, 0, [], [])).Failed? && DecodeSeries(message).Some?
    ensures SeriesIdentity(cfg.hash, DecodeSeries(message).value.labels).Invalid?
  {
    hide Decode, SeriesIdentity, FastSeries;
    DecodeSeriesIs(message);
    if FastSeries(message, 0, [], []).Fail? {
      FailedSeries(cfg.hash, message, 0, NO_SERIES, []);
    } else {
      FastSeriesDecodes(message, 0, [], []);
    }
  }

  lemma {:induction false} FailedRequest(cfg: Config, data: seq<Byte>, i: nat, batch: Batch, acc: Request)
    returns (k: nat)
    requires i <= |data| && Fast(cfg, data, i, batch).Failed? && Decode(RequestStep, acc, data, i).Some?
    ensures var series := Decode(RequestStep, acc, data, i).value.series;
            k < |series| && SeriesIdentity(cfg.hash, series[k].labels).Invalid?
    decreases |data| - i
  {
    hide Varint, Content, DecodeSeries, Decode, AddParsed, FastSeries, SeriesIdentity;
    DecodeOneField(RequestStep, acc, data, i);
    var key := Varint(data, i);
    var content := Content(data, key.next, key.value % 8);
    if content.value.Bytes? {
      ContentBytes(data, key.next, key.value % 8);
    }
    if key.value / 8 == 1 {
      var ts := DecodeSeries(content.value.data).value;
      var more := acc.(series := acc.series + [ts]);
      var after := AddParsed(cfg, batch, FastSeries(content.value.data, 0, [], []));
      if after.Built? {
        k := FailedRequest(cfg, data, content.next, after.batch, more);
      } else {
        FailedMessage(cfg, batch, content.value.data);
        DecodeKeepsSeries(more, data, content.next);
        k := |acc.series|;
        assert more.series[k] == ts;
      }
    } else {
      k := FailedRequest(cfg, data, content.next, batch, acc);
    }
  }

  /** Main result on errors: when the fast builder fails on a request that decodes, some series
      has no identity; the ordinary builder rejects the request as well exactly when such a
      series carries something. */
  lemma FastFailsIff(cfg: Config, data: seq<Byte>)
    requires Fast(cfg, data, 0, EMPTY).Failed? && DecodeRequest(data).Some?
    ensures var series := DecodeRequest(data).value.series;
            (exists k :: 0 <= k < |series| && SeriesIdentity(cfg.hash, series[k].labels).Invalid?)
            && (Build(cfg, series) == None <==> exists k :: 0 <= k < |series| && Rejects(cfg, series[k]))
            && ((forall k :: 0 <= k < |series| ==> series[k].samples != []) ==> Build(cfg, series) == None)
  {
    hide Decode, Fast, SeriesIdentity, Build;
    var k := FailedRequest(cfg, data, 0, EMPTY, Request([], false));
    BuildRejectsIff(cfg, DecodeRequest(data).value.series);
    if forall k :: 0 <= k < |DecodeRequest(data).value.series| ==> DecodeRequest(data).value.series[k].samples != [] {
      assert Rejects(cfg, DecodeRequest(data).value.series[k]);
    }
  }

  /** An error of the fast path need not be one of the ordinary path: it looks at the labels
      of a series without samples, here one unnamed label, which the ordinary path skips. */
  lemma FastRejectsIdleSeries(cfg: Config)
    ensures var data: seq<Byte> := [0x0a, 0x02, 0x0a, 0x00];
      Fast(cfg, data, 0, EMPTY) == Failed
      && DecodeRequest(data) == Some(Request([TimeSeries([NO_LABEL], [], false)], false))
      && Build(cfg, [TimeSeries([NO_LABEL], [], false)]) == Some(EMPTY)
  {
    hide Groups, AddSeries, Build;
    var data: seq<Byte> := [0x0a, 0x02, 0x0a, 0x00];
    var message: seq<Byte> := [0x0a, 0x00];
    SmallVarint(data, 0);
    SmallVarint(data, 1);
    assert Content(data, 1, 2) == Ok(Bytes(message), 4) by { assert data[2..4] == message; }
    SmallVarint(message, 0);
    SmallVarint(message, 1);
    var none: seq<Byte> := [];
    assert Content(message, 1, 2) == Ok(Bytes(none), 2) by { assert message[2..2] == none; }
    assert DecodeLabel(none) == Some(NO_LABEL) by { DecodeEnd(LabelStep, NO_LABEL, none); }
    assert FastSeries(message, 0, [], []) == Fail;
    DecodeOneField(SeriesStep, NO_SERIES, message, 0);
    var ts := TimeSeries([NO_LABEL], [], false);
    assert NO_SERIES.labels + [NO_LABEL] == [NO_LABEL];
    assert SeriesStep(NO_SERIES, Field(1, Bytes(none))) == Some(ts);
    DecodeEnd(SeriesStep, ts, message);
    assert DecodeSeries(message) == Some(ts);
    var nothing: seq<TimeSeries> := [];
    assert nothing + [ts] == [ts];
    DecodeOneField(RequestStep, Request([], false), data, 0);
    DecodeEnd(RequestStep, Request([ts], false), data);
    BuildOneIdle(cfg, ts);
  }

  lemma BuildOneIdle(cfg: Config, ts: TimeSeries)
    requires ts.samples == [] && !ts.aux
    ensures Build(cfg, [ts]) == Some(EMPTY)
  {
    assert [ts][..0] == [];
    assert Build(cfg, []) == Some(EMPTY);
  }
}
