/** Joining stored series with the virtual series of histograms: series with the same labels
    become one, in which stored samples win. */
module HistogramMerge {
  import opened Options
  import opened HistogramBuilder
  import opened DeltaAccumulation

  type Sample = DeltaAccumulation.Sample

  datatype Result = Joined(series: seq<Finished>) | Refused

  function Find(series: seq<Finished>, labels: Labels): (r: Option<nat>)
    ensures r.Some? ==> r.value < |series| && series[r.value].labels == labels
    ensures r.None? ==> forall k :: 0 <= k < |series| ==> series[k].labels != labels
  {
    if series == [] then None
    else if series[|series| - 1].labels == labels then Some(|series| - 1)
    else Find(series[..|series| - 1], labels)
  }

  ghost predicate DistinctLabels(series: seq<Finished>) {
    forall i, j :: 0 <= i < j < |series| ==> series[i].labels != series[j].labels
  }

  predicate Stores(stored: seq<Finished>, labels: Labels) { Find(stored, labels).Some? }

  /** A stored series that is not joined with a virtual one: none has its labels, or that one
      is a delta series. */
  predicate StandsAlone(virtual: seq<Finished>, r: Finished) {
    Find(virtual, r.labels).None? || virtual[Find(virtual, r.labels).value].delta
  }

  /** A delta series that shares its labels with a stored one is dropped. */
  predicate Dropped(stored: seq<Finished>, v: Finished) { v.delta && Stores(stored, v.labels) }

  function Alone(virtual: seq<Finished>, stored: seq<Finished>): seq<Finished> {
    if stored == [] then []
    else
      var n := |stored| - 1;
      Alone(virtual, stored[..n]) + if StandsAlone(virtual, stored[n]) then [stored[n]] else []
  }

  /** The samples of a virtual series after the stored series with its labels are merged into
      it, one after the other. */
  ghost predicate Absorbed(stored: seq<Finished>, labels: Labels, start: seq<Sample>, result: seq<Sample>) {
    if stored == [] then result == start
    else
      var n := |stored| - 1;
      if stored[n].labels != labels then Absorbed(stored[..n], labels, start, result)
      else exists middle :: Absorbed(stored[..n], labels, start, middle)
                            && PrefersFirst(stored[n].samples, middle, result)
  }

  /** The virtual series of the result: those not dropped, in order, with what they absorbed. */
  ghost predicate AreKept(stored: seq<Finished>, virtual: seq<Finished>, out: seq<Finished>) {
    if virtual == [] then out == []
    else
      var n := |virtual| - 1;
      var v := virtual[n];
      if Dropped(stored, v) then AreKept(stored, virtual[..n], out)
      else
        out != []
        && var last := out[|out| - 1];
           AreKept(stored, virtual[..n], out[..|out| - 1])
           && last.labels == v.labels && last.delta == v.delta
           && Absorbed(stored, v.labels, v.samples, last.samples)
  }

  /** The targets while stored series are merged into them. */
  ghost predicate Targets(stored: seq<Finished>, virtual: seq<Finished>, targets: seq<Finished>,
                          byLabels: map<Labels, nat>)
  {
    |targets| == |virtual|
    && (forall l :: l in byLabels ==> byLabels[l] < |virtual| && virtual[byLabels[l]].labels == l)
    && forall k :: 0 <= k < |virtual| ==>
         targets[k].labels == virtual[k].labels && targets[k].delta == virtual[k].delta
         && (virtual[k].labels in byLabels <==> !Dropped(stored, virtual[k]))
         && (virtual[k].labels in byLabels ==>
               byLabels[virtual[k].labels] == k
               && Absorbed(stored, virtual[k].labels, virtual[k].samples, targets[k].samples))
  }

  lemma StoresMore(stored: seq<Finished>, r: Finished, labels: Labels)
    ensures Stores(stored + [r], labels) <==> Stores(stored, labels) || r.labels == labels
  {
    assert (stored + [r])[..|stored|] == stored;
  }

  lemma AbsorbedOther(stored: seq<Finished>, r: Finished, labels: Labels, start: seq<Sample>, result: seq<Sample>)
    requires Absorbed(stored, labels, start, result) && r.labels != labels
    ensures Absorbed(stored + [r], labels, start, result)
  {
    assert (stored + [r])[..|stored|] == stored;
  }

  lemma AbsorbedOne(stored: seq<Finished>, r: Finished, labels: Labels, start: seq<Sample>, middle: seq<Sample>,
                    result: seq<Sample>)
    requires Absorbed(stored, labels, start, middle) && r.labels == labels && PrefersFirst(r.samples, middle, result)
    ensures Absorbed(stored + [r], labels, start, result)
  {
    hide PrefersFirst;
    assert (stored + [r])[..|stored|] == stored;
  }

  lemma FindsIt(virtual: seq<Finished>, k: nat)
    requires DistinctLabels(virtual) && k < |virtual|
    ensures Find(virtual, virtual[k].labels) == Some(k)
  {
    var r := Find(virtual, virtual[k].labels);
    assert r.Some?;
  }

  method IndexLabels(virtual: seq<Finished>) returns (byLabels: map<Labels, nat>)
    requires DistinctLabels(virtual)
    ensures forall l :: l in byLabels ==> byLabels[l] < |virtual| && virtual[byLabels[l]].labels == l
    ensures forall k :: 0 <= k < |virtual| ==> virtual[k].labels in byLabels && byLabels[virtual[k].labels] == k
  {
    byLabels := map[];
    for i := 0 to |virtual|
      invariant forall l :: l in byLabels ==> byLabels[l] < i && virtual[byLabels[l]].labels == l
      invariant forall k :: 0 <= k < i ==> virtual[k].labels in byLabels && byLabels[virtual[k].labels] == k
    {
      byLabels := byLabels[virtual[i].labels := i];
    }
  }

  lemma NothingMerged(virtual: seq<Finished>, byLabels: map<Labels, nat>)
    requires forall l :: l in byLabels ==> byLabels[l] < |virtual| && virtual[byLabels[l]].labels == l
    requires forall k :: 0 <= k < |virtual| ==> virtual[k].labels in byLabels && byLabels[virtual[k].labels] == k
    ensures Targets([], virtual, virtual, byLabels) && Alone(virtual, []) == []
    ensures forall v :: !Dropped([], v)
  {
  }

  lemma OneMoreAlone(virtual: seq<Finished>, stored: seq<Finished>, r: Finished)
    ensures Alone(virtual, stored + [r]) == Alone(virtual, stored) + if StandsAlone(virtual, r) then [r] else []
  {
    assert (stored + [r])[..|stored|] == stored;
  }

  /** A stored series finds its target exactly when it does not stand alone, unless the target
      is a delta series. */
  lemma TargetOf(stored: seq<Finished>, virtual: seq<Finished>, targets: seq<Finished>, byLabels: map<Labels, nat>,
                 r: Finished)
    requires Targets(stored, virtual, targets, byLabels) && DistinctLabels(virtual)
    ensures r.labels in byLabels ==>
      var k := byLabels[r.labels];
      k < |targets| == |virtual| && (StandsAlone(virtual, r) <==> targets[k].delta)
    ensures r.labels !in byLabels ==> StandsAlone(virtual, r)
  {
    hide Absorbed;
    if r.labels in byLabels {
      FindsIt(virtual, byLabels[r.labels]);
    }
  }

  lemma SkipOne(stored: seq<Finished>, virtual: seq<Finished>, targets: seq<Finished>, byLabels: map<Labels, nat>,
                r: Finished)
    requires Targets(stored, virtual, targets, byLabels) && r.labels !in byLabels
    ensures Targets(stored + [r], virtual, targets, byLabels)
    ensures forall k :: 0 <= k < |virtual| ==> (Dropped(stored + [r], virtual[k]) <==> Dropped(stored, virtual[k]))
  {
    hide Absorbed, Stores;
    forall k | 0 <= k < |virtual|
      ensures Dropped(stored + [r], virtual[k]) <==> Dropped(stored, virtual[k])
      ensures virtual[k].labels in byLabels ==>
        Absorbed(stored + [r], virtual[k].labels, virtual[k].samples, targets[k].samples)
    {
      StoresMore(stored, r, virtual[k].labels);
      if virtual[k].labels in byLabels {
        AbsorbedOther(stored, r, virtual[k].labels, virtual[k].samples, targets[k].samples);
      }
    }
  }

  lemma DropOne(stored: seq<Finished>, virtual: seq<Finished>, targets: seq<Finished>, byLabels: map<Labels, nat>,
                r: Finished)
    requires Targets(stored, virtual, targets, byLabels) && DistinctLabels(virtual)
    requires r.labels in byLabels && targets[byLabels[r.labels]].delta
    ensures Targets(stored + [r], virtual, targets, byLabels - {r.labels})
    ensures Dropped(stored + [r], virtual[byLabels[r.labels]])
  {
    hide Absorbed, Stores;
    forall k | 0 <= k < |virtual|
      ensures Dropped(stored + [r], virtual[k]) <==> Dropped(stored, virtual[k]) || k == byLabels[r.labels]
      ensures virtual[k].labels in byLabels - {r.labels} ==>
        Absorbed(stored + [r], virtual[k].labels, virtual[k].samples, targets[k].samples)
    {
      StoresMore(stored, r, virtual[k].labels);
      if virtual[k].labels in byLabels - {r.labels} {
        AbsorbedOther(stored, r, virtual[k].labels, virtual[k].samples, targets[k].samples);
      }
    }
  }

  lemma AbsorbOne(stored: seq<Finished>, virtual: seq<Finished>, targets: seq<Finished>, byLabels: map<Labels, nat>,
                  r: Finished, samples: seq<Sample>)
    requires Targets(stored, virtual, targets, byLabels) && DistinctLabels(virtual)
    requires r.labels in byLabels && !targets[byLabels[r.labels]].delta
    requires PrefersFirst(r.samples, targets[byLabels[r.labels]].samples, samples)
    ensures var k := byLabels[r.labels];
      Targets(stored + [r], virtual, targets[k := targets[k].(samples := samples)], byLabels)
    ensures forall k :: 0 <= k < |virtual| ==> (Dropped(stored + [r], virtual[k]) <==> Dropped(stored, virtual[k]))
  {
    hide Absorbed, Stores, PrefersFirst;
    var at := byLabels[r.labels];
    var more := targets[at := targets[at].(samples := samples)];
    forall k | 0 <= k < |virtual|
      ensures Dropped(stored + [r], virtual[k]) <==> Dropped(stored, virtual[k])
      ensures virtual[k].labels in byLabels ==>
        Absorbed(stored + [r], virtual[k].labels, virtual[k].samples, more[k].samples)
    {
      StoresMore(stored, r, virtual[k].labels);
      if k == at {
        AbsorbedOne(stored, r, virtual[k].labels, virtual[k].samples, targets[k].samples, samples);
      } else if virtual[k].labels in byLabels {
        AbsorbedOther(stored, r, virtual[k].labels, virtual[k].samples, targets[k].samples);
      }
    }
  }

  lemma {:induction false} DroppedStays(stored: seq<Finished>, i: nat, v: Finished)
    requires i <= |stored| && Dropped(stored[..i], v)
    ensures Dropped(stored, v)
    decreases |stored|
  {
    if i == |stored| {
      assert stored[..i] == stored;
    } else {
      assert stored[..|stored| - 1][..i] == stored[..i];
      DroppedStays(stored[..|stored| - 1], i, v);
    }
  }

  lemma NoneKept(stored: seq<Finished>)
    ensures AreKept(stored, [], [])
  {
  }

  lemma TargetsLength(stored: seq<Finished>, virtual: seq<Finished>, targets: seq<Finished>,
                      byLabels: map<Labels, nat>)
    requires Targets(stored, virtual, targets, byLabels)
    ensures |targets| == |virtual|
  {
    hide Absorbed, Dropped;
  }

  lemma KeepOne(stored: seq<Finished>, virtual: seq<Finished>, targets: seq<Finished>, byLabels: map<Labels, nat>,
                i: nat, kept: seq<Finished>)
    requires Targets(stored, virtual, targets, byLabels) && i < |virtual| == |targets|
    requires AreKept(stored, virtual[..i], kept)
    ensures AreKept(stored, virtual[..i + 1],
                    if virtual[i].labels in byLabels then kept + [targets[i]] else kept)
  {
    hide Absorbed, Dropped;
    assert virtual[..i + 1][..i] == virtual[..i];
    assert (kept + [targets[i]])[..|kept|] == kept;
  }

  method KeepTargets(ghost stored: seq<Finished>, virtual: seq<Finished>, targets: seq<Finished>,
                     byLabels: map<Labels, nat>)
    returns (kept: seq<Finished>)
    requires Targets(stored, virtual, targets, byLabels)
    ensures AreKept(stored, virtual, kept)
  {
    hide Absorbed, Dropped, AreKept, Targets;
    NoneKept(stored);
    TargetsLength(stored, virtual, targets, byLabels);
    kept := [];
    for i := 0 to |virtual|
      invariant AreKept(stored, virtual[..i], kept)
    {
      KeepOne(stored, virtual, targets, byLabels, i, kept);
      if virtual[i].labels in byLabels {
        kept := kept + [targets[i]];
      }
    }
    assert virtual[..|virtual|] == virtual;
  }

  lemma {:induction false} NoVirtual(stored: seq<Finished>)
    ensures Alone([], stored) == stored && AreKept(stored, [], [])
  {
    if stored != [] {
      NoVirtual(stored[..|stored| - 1]);
    }
  }

  lemma {:induction false} NothingStored(virtual: seq<Finished>)
    ensures AreKept([], virtual, virtual) && Alone(virtual, []) == []
  {
    if virtual != [] {
      NothingStored(virtual[..|virtual| - 1]);
    }
  }

  /** mergePostHogHistogramSeries. The builder never returns two series with the same labels. */
  method MergeSeries(stored: seq<Finished>, virtual: seq<Finished>, strict: bool) returns (r: Result)
    requires DistinctLabels(virtual)
    ensures r.Refused? <==> strict && exists k :: 0 <= k < |virtual| && Dropped(stored, virtual[k])
    ensures r.Joined? ==>
      var alone := Alone(virtual, stored);
      alone <= r.series && AreKept(stored, virtual, r.series[|alone|..])
  {
    hide Find, Absorbed, AreKept, PrefersFirst, Alone, Stores, Dropped, StandsAlone, DistinctLabels, Targets;
    if |stored| == 0 {
      assert stored == [];
      NothingStored(virtual);
      NothingMerged([], map[]);
      assert virtual[0..] == virtual;
      return Joined(virtual);
    }
    if |virtual| == 0 {
      assert virtual == [];
      NoVirtual(stored);
      assert stored + [] == stored;
      return Joined(stored);
    }
    var byLabels := IndexLabels(virtual);
    var targets, merged := virtual, [];
    NothingMerged(virtual, byLabels);
    for i := 0 to |stored|
      invariant merged == Alone(virtual, stored[..i])
      invariant Targets(stored[..i], virtual, targets, byLabels)
      invariant strict ==> forall k :: 0 <= k < |virtual| ==> !Dropped(stored[..i], virtual[k])
    {
      var meta := stored[i];
      assert stored[..i + 1] == stored[..i] + [meta];
      OneMoreAlone(virtual, stored[..i], meta);
      TargetOf(stored[..i], virtual, targets, byLabels, meta);
      if meta.labels !in byLabels {
        SkipOne(stored[..i], virtual, targets, byLabels, meta);
        merged := merged + [meta];
        continue;
      }
      var k := byLabels[meta.labels];
      if targets[k].delta {
        DropOne(stored[..i], virtual, targets, byLabels, meta);
        if strict {
          DroppedStays(stored, i + 1, virtual[k]);
          return Refused;
        }
        byLabels := byLabels - {meta.labels};
        merged := merged + [meta];
        continue;
      }
      var samples, first, second := MergePreferFirst(meta.samples, targets[k].samples);
      AbsorbOne(stored[..i], virtual, targets, byLabels, meta, samples);
      targets := targets[k := targets[k].(samples := samples)];
    }
    assert stored[..|stored|] == stored;
    ghost var alone := merged;
    var kept := KeepTargets(stored, virtual, targets, byLabels);
    r := Joined(merged + kept);
    assert (merged + kept)[|alone|..] == kept;
  }

  /** A virtual series no stored series shares labels with stays as it is. */
  lemma {:induction false} UntouchedSeries(stored: seq<Finished>, labels: Labels, start: seq<Sample>,
                                           result: seq<Sample>)
    requires Absorbed(stored, labels, start, result)
    requires forall k :: 0 <= k < |stored| ==> stored[k].labels != labels
    ensures result == start
  {
    if stored != [] {
      UntouchedSeries(stored[..|stored| - 1], labels, start, result);
    }
  }

  /** With one stored series of its labels, a virtual series becomes their merge: where both
      have a sample at one time, the stored one is kept. */
  lemma {:induction false} StoredSamplesWin(stored: seq<Finished>, j: nat, labels: Labels, start: seq<Sample>,
                                            result: seq<Sample>)
    requires Absorbed(stored, labels, start, result) && j < |stored|
    requires forall k :: 0 <= k < |stored| ==> (stored[k].labels == labels <==> k == j)
    ensures PrefersFirst(stored[j].samples, start, result)
  {
    hide PrefersFirst;
    var n := |stored| - 1;
    if n == j {
      var middle :| Absorbed(stored[..n], labels, start, middle) && PrefersFirst(stored[n].samples, middle, result);
      UntouchedSeries(stored[..n], labels, start, middle);
    } else {
      StoredSamplesWin(stored[..n], j, labels, start, result);
    }
  }
}
