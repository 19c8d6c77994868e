# Verified model of Snuffle's fast forms

Snuffle answers PromQL and LogQL from ClickHouse. Most of its difficult code is a fast form that
must agree with a simple form kept in the same repository. This project models both forms and
proves the agreement, for all inputs, or states exactly when it holds.

| module | models |
|---|---|
| Options, Arithmetic, Bits, Counts | optional values; division, rounding and multiples; bitwise operations and 64-bit numbers; running sums of counts |
| Samples, Counter | the reference MetricsQL counter functions and their interval estimate |
| StepJoin | joining samples to evaluation steps by ranges |
| NativeRollup | the native SQL plan: per-step arrays, and neighbour contributions with an exact path for long gaps |
| PostHogRollup | the PostHog SQL plan: one contribution row per sample and step |
| DefaultRollup | the default rollup pushdowns and the two-index loop over offset subqueries |
| CompactEvaluator | the streaming evaluator of compact histograms with trimmed histories |
| SeriesIndex | the open-addressing series index |
| ProtoWire | varints, fields and payload framing |
| Identity | series identities: label sort, encoding, streaming hash with a spill buffer |
| RemoteBatch | the remote-write batch builders, fast and ordinary |
| RemoteWire | requests as clients write them, and that they are read back |
| RemoteFailures | what an error of either builder says about the request |
| LabelPass | the second pass of the fast path, for the labels of new series |
| SeriesInsert | the double-checked insertion of new series, as interleaved steps |
| Fanout | the LogQL bucket-and-fan-out plan against direct evaluation, and range alignment |
| RowFanout | the row-level fan-out of quantile, first and last |
| LogQLParser | the recursive LogQL expression parser |
| LogQLRoundTrip | printed expressions, and exactly which of them the parser reads back |
| LogQLPrecedence | the levels of the operators as the texts show them |
| LogQLModifiers | operators written with vector matching and the bool modifier |
| LogQLPrimary | selectors and calls of named functions |
| HistogramBuilder | the builder of virtual histogram series |
| HistogramMerge | joining them with stored series of the same labels |
| DeltaAccumulation | the in-place running total of delta points, and the merge of sample lists |
| UnionOr | nested, flattened and in-place PromQL `or` |
| Patterns | the meaning of the regular expressions the code recognises |
| Selectors | selectors as label equalities, and the patterns dropped from them |
| MatcherMask | union selection by bitmask |
| Replay, ReplayBatches | the replay tool as a protocol of reader, workers and channels, and how it cuts the file |

Values are exact reals and times unbounded integers unless a width matters, in which case the
width is written out (64-bit counts, masks, varints and nanoseconds). SQL stages are functions on
sequences of rows; the order in which ClickHouse returns groups is arbitrary. Hash functions, the
square root, number parsing and formatting, droppable sample values and regular expressions beyond
literals, dots, stars, groups and alternatives are parameters. Code that updates fields, arrays or
loop variables is modelled by classes and methods with the same updates, each proved against a
function that says what it computes.

## Findings

Where the code is weaker than the simple form, the code is modelled as it is:

- The PostHog plan takes any previous sample inside the matrix for increase and delta, the
  reference only one within the estimate or nearer than the lookback to the first sample of the
  window; for rate, irate and idelta the plan judges it by an estimate for the whole series, the
  reference by one for the step. `PostHogRollup.PlanIsReferenceIff` is the exact condition;
  `LongGapExample` and `LateBurstExample` are series on which they differ. A bare selector is judged
  by the same estimate (`DefaultRollup.PostHogAutomaticIff`). The comment at
  internal/snuffle/fastpath_range.go:361-363 describes the plan's own rule, not the reference of
  the repository.
- The fast remote-write builder checks the labels of series without samples, which the ordinary
  builder skips (`RemoteFailures.FastRejectsIdleSeries`; `FastFailsIff` and `BuildRejectsIff` say
  exactly when both fail), and such a series can stop the second pass
  (`LabelPass.IdleSeriesStopsPass`; `PassAfterFastIff` is the exact condition).
- Selectors drop match-all patterns after trimming spaces, although the spaces take part in the
  match (`Selectors.PaddedPatternIsDropped`; `SameSeriesIff` is the exact condition). Patterns are
  anchored and `.` matches any character.
- The bucket expression of the LogQL plan rounds times before the epoch the wrong way
  (`Fanout.BucketRoundsUpIff`), the fan-out needs an aligned start
  (`Fanout.UnalignedStartMissesRow`), and a sum_over_time of rows without any unwrapped value is 0
  when evaluated directly and absent from the SQL result (`Fanout.PlanIsDirectIff`,
  `SumOfNothingExample`).
- The LogQL parser rejects unparenthesised chains of operators of one precedence, of any length
  and operands (`LogQLRoundTrip.EqualChainIsRejected`), and comparisons with a bare number on their
  right where no function precedes them (`TrailingComparisonIsRejected`). `AcceptedIff` and
  `ParseAfterPrintIff` are the exact conditions.

## Model

| member | source | states |
|---|---|---|
| Counter.RiseTelescopes | internal/snuffle/metricsql_compat.go:653-667 | Last value minus base plus the reset corrections equals the sum of the counter steps, through full and partial resets. |
| Counter.RiseIsNonNegative | internal/snuffle/metricsql_compat.go:654-667 | A counter that never goes negative never has a negative increase. |
| Counter.AddDrops | internal/snuffle/metricsql_compat.go:653-667 | The in-place reset pass computes that sum of steps. |
| Counter.CounterValue | internal/snuffle/metricsql_compat.go:619-676 | The one-pass reference program returns, for increase, delta, rate, irate and idelta, the declared meaning: previous-sample rule, birth at zero, sum of steps or last pair, and no value in the empty and zero-time cases. |
| Counter.TotalIsSumOfDifferences | internal/snuffle/metricsql_compat.go:653-667 | A first difference followed by neighbour differences adds up to the total of the window. |
| Counter.SortIntsSorts | internal/snuffle/metricsql_compat.go:593 | The sort of the gaps is ascending and keeps exactly the same gaps. |
| Counter.EstimateInterval | internal/snuffle/metricsql_compat.go:584-617 | The loop over the fixed buffer, the interpolation and the margin table, statement by statement, return the declared estimate: the 0.6 quantile of the last 20 gaps with its margin, or the fallback. |
| Counter.InterpolateIs | internal/snuffle/metricsql_compat.go:594-599 | Between ascending neighbours the truncated step of the interpolation is the floor of the exact point. |
| Counter.MarginLaw | internal/snuffle/metricsql_compat.go:603-616 | In each band of the table the margin is interval * 8000 / (end of the band), 8000 at the end of the band itself; above the last band it is an eighth of the interval. |
| Counter.UnevenRateExample | internal/snuffle/metricsql_compat.go:584-617 | Gaps of 10 and 20 seconds are estimated as 16 and margined to 24 seconds, so the rate over a window of 5 seconds at 30 s takes the sample at 10 s and is 0.1. |
| Counter.SampleIntervalOfSuffix | internal/snuffle/metricsql_compat.go:588-592 | Any suffix that still holds the newest 21 points gives the same estimate. |
| Counter.SampleIntervalReadsTimes | internal/snuffle/metricsql_compat.go:584-617 | The estimate depends on timestamps only. |
| Counter.Rollup | internal/snuffle/metricsql_compat.go:489-539 | The counter branch resolves the window from the estimate, or from the step in an instant query, cuts the points after its start and returns the counter value of that window. |
| Samples.FirstAfterSplits | internal/snuffle/metricsql_compat.go:541-548 | The binary search splits a series into points at or before the bound and points after it. |
| Samples.LeftOpenMembers | internal/snuffle/metricsql_compat.go:541-548 | A point is in the left-open window exactly when start < t <= end. |
| StepJoin.NativeRangeCovers | internal/snuffle/fastpath_range_native.go:283 | The native ARRAY JOIN range gives a sample exactly the steps with ts <= eval < ts + span. |
| StepJoin.PostHogRangeCovers | internal/snuffle/fastpath_range.go:337-348 | The PostHog range, numbered from 1 with its clamped bounds, gives a sample exactly the same steps. |
| StepJoin.RangesAreBounded | internal/snuffle/fastpath_range.go:215-222 | Neither range is ever longer than expansion(). |
| StepJoin.GroupIsInterval | internal/snuffle/fastpath_range_native.go:284 | Grouping joined rows by step returns each sample of the window once, in time order. |
| StepJoin.FetchedKeepsWindows | internal/snuffle/fastpath_range_native.go:252 | Reading only samples between start - offset - matrix and end - offset, where the end need not be a step, loses nothing any step can see. |
| StepJoin.MarginSqlIsMargin | internal/snuffle/fastpath_range.go:439-446 | The margin table written in SQL for both range plans is the table of the reference. |
| NativeRollup.MaxPrevIsReference | internal/snuffle/fastpath_range_native.go:294-304 | The SQL gap array, its clamped interpolation and its margin equal the reference interval estimate. |
| NativeRollup.TailValueIsTotal | internal/snuffle/fastpath_range_native.go:324-328 | arraySum over the shifted tail adds the same corrections as the reference loop. |
| NativeRollup.ArrayValueIsReference | internal/snuffle/fastpath_range_native.go:308-332 | The array program of one step equals the reference counter value for every function. |
| NativeRollup.RollupValuesIsReference | internal/snuffle/fastpath_range_native.go:288-333 | With its own estimate and window the array program equals the reference rollup of the same points. |
| NativeRollup.JoinIsWindow | internal/snuffle/fastpath_range_native.go:281-286 | The samples joined to a step are those of its left-open window, in order. |
| NativeRollup.WindowRollupIsReference | internal/snuffle/fastpath_range_native.go:281-286 | The exact path equals the reference for every function, series and step. |
| NativeRollup.ContributionsTelescope | internal/snuffle/fastpath_range_native.go:343-348 | Neighbour contributions of a window add up to its total from the base of its first sample. |
| NativeRollup.NoLongGapMeansClose | internal/snuffle/fastpath_range_native.go:335-340 | Without a lookback-sized gap, a previous sample inside the matrix is always one the reference accepts. |
| NativeRollup.FastPathIsReference | internal/snuffle/fastpath_range_native.go:343-353 | Without a long gap the summed contributions equal the reference value of the matrix cut out of the series. |
| NativeRollup.TotalRollupIsReference | internal/snuffle/fastpath_range_native.go:335-357 | On either side of the long-gap split, increase and delta equal the reference at every step and are absent exactly where it is. |
| NativeRollup.SumContributionsIsReference | internal/snuffle/fastpath_range_native.go:350-356 | Summing unsummed contributions and exact values of a whole group equals the sum of the reference values, with a row exactly when some series has a point. |
| PostHogRollup.JoinIsWindow | internal/snuffle/fastpath_range.go:337-348 | The samples joined to a step are those of its left-open window, in order. |
| PostHogRollup.RateRows | internal/snuffle/fastpath_range.go:369-375 | For rate, contributions add up to the rise from the begin sample and gaps to the time since it. |
| PostHogRollup.InstantRowsAreReference | internal/snuffle/fastpath_range.go:422-431 | Given the same estimate, rate, irate and idelta equal the reference on every series. |
| PostHogRollup.TotalRows | internal/snuffle/fastpath_range.go:355-375 | The sum of the rows is the total from the plan's own begin sample and base. |
| PostHogRollup.TotalRowsAreReferenceIff | internal/snuffle/fastpath_range.go:355-375 | increase and delta equal the reference if and only if the previous sample in the matrix is one the reference accepts, or taking it does not change the first contribution. |
| PostHogRollup.SeriesValueIsReference | internal/snuffle/fastpath_range.go:303-406 | For any estimate put into both: rate, irate and idelta agree on every series, increase and delta on every series whose neighbouring gaps are below the lookback. |
| PostHogRollup.EstimatesAgree | internal/snuffle/fastpath_range.go:322-330 | On a series of at most 21 sorted points the estimate of the plan, the floor of the interpolated quantile of all gaps, is that of the reference. |
| PostHogRollup.PlanIsReferenceIff | internal/snuffle/fastpath_range.go:295-406 | For every function, series and step the plan, with its one estimate per series, gives the reference value, with its estimate per step, if and only if the window is empty, or both rules take the sample before the window or neither does, or that sample makes no difference to the value. |
| PostHogRollup.TotalsAreReference | internal/snuffle/fastpath_range.go:361-368 | increase and delta are the reference outright, at every step, on every series without a gap as long as the lookback, however irregular its samples. |
| PostHogRollup.DirectSumIsSumOfValues | internal/snuffle/fastpath_range.go:305-306 | Adding the contributions of a whole group at once, skipping the value per series, is adding the values of its series, with a row exactly when some series has one. |
| PostHogRollup.DirectSumIsReference | internal/snuffle/fastpath_range.go:382-392 | Without lookback-sized gaps that sum is the sum of the reference values. |
| PostHogRollup.RegularSeriesIsReference | internal/snuffle/fastpath_range.go:322-330 | A corollary: on regularly scraped series the two estimates coincide where they matter, so all five functions are the reference outright. |
| PostHogRollup.LongGapExample | internal/snuffle/fastpath_range.go:361-368 | A concrete series with a gap as long as the lookback: both sides estimate 5, the reference of increase is 0 and the plan gives 1. |
| PostHogRollup.LateBurstExample | internal/snuffle/fastpath_range.go:322-330 | A concrete series on which rate, irate and idelta differ: samples after a step change the one estimate of the plan, which then leaves out the sample before the window. |
| CompactEvaluator.TrimSuffices | internal/snuffle/posthog_histogram_compact.go:192-207 | Trimming leaves the whole range or a suffix of at least 21 of its points, enough for this and all later steps. |
| CompactEvaluator.KeptPointsGiveReference | internal/snuffle/posthog_histogram_compact.go:208-223 | The value computed from the kept history is the reference value of all points of the source. |
| CompactEvaluator.LaterPointIsUnseen | internal/snuffle/posthog_histogram_compact.go:182-191 | A point after a step cannot change the value of the step, so evaluating early is safe. |
| CompactEvaluator.RollupOfSuffix | internal/snuffle/posthog_histogram_compact.go:24-27 | irate and idelta read the last two points and 21 timestamps, so a suffix of 21 points gives the same rollup. |
| CompactEvaluator.Trim | internal/snuffle/posthog_histogram_compact.go:192-207 | The trim of one step cuts the same prefix off every history, leaving the whole range or at least 21 of its newest points. |
| CompactEvaluator.EvaluateStep | internal/snuffle/posthog_histogram_compact.go:192-224 | One step adds the reference value of every bucket of the current source to its column, and nothing else. |
| CompactEvaluator.CheckCounts | internal/snuffle/posthog_histogram_compact.go:288-304 | The count loop accepts exactly counts without 64-bit overflow, with finite increasing bounds and, for a duplicate, equal running sums, and returns those sums. |
| CompactEvaluator.OpenColumns | internal/snuffle/posthog_histogram_compact.go:260-275 | Columns of a new source are created while the cell budget lasts; it fails exactly when the steps of all columns together would be more cells than the sample limit. |
| CompactEvaluator.AppendPoints | internal/snuffle/posthog_histogram_compact.go:308-310 | Each history gets one point with the cumulative count of its bucket. |
| CompactEvaluator.Evaluator.constructor | internal/snuffle/posthog_histogram_compact.go:178-180 | A new evaluator has read no source and holds no column. |
| CompactEvaluator.Evaluator.Advance | internal/snuffle/posthog_histogram_compact.go:182-227 | Evaluates exactly the steps before `until`, or all that are left, and keeps the books right. |
| CompactEvaluator.Evaluator.CloseSource | internal/snuffle/posthog_histogram_compact.go:233-238 | A change of source first evaluates the remaining steps of the previous one. |
| CompactEvaluator.Evaluator.OpenSource | internal/snuffle/posthog_histogram_compact.go:249-276 | A new source starts with empty histories, or is refused by the series limit or the cell budget. |
| CompactEvaluator.Evaluator.Settle | internal/snuffle/posthog_histogram_compact.go:233-276 | The head of add: a change of source closes the old one; a sample is refused by the declared limits, or becomes one of the current or of a freshly opened source. |
| CompactEvaluator.Evaluator.Add | internal/snuffle/posthog_histogram_compact.go:229-312 | The answer is the declared verdict on the sample; an accepted sample extends the current source by one cumulative point per bucket, keeps every column the sum of reference values, and keeps the two limits counting exactly the points and the buckets of all sources. |
| CompactEvaluator.Evaluator.Result | internal/snuffle/posthog_histogram_compact.go:314-317 | At the end every bound of every source has a column, and every cell of every column is the sum over all sources of the reference values at that step. |
| DefaultRollup.LastPointDecides | internal/snuffle/metricsql_compat.go:520-525 | In time order the last point alone decides the window of a default rollup. |
| DefaultRollup.NewestDecides | internal/snuffle/metricsql_compat.go:520-525 | The newest reading at or before the end is answered exactly when it is inside the window and not stale. |
| DefaultRollup.AtMostOneRow | internal/snuffle/fastpath_range.go:337-348 | The spans least(matrix, next - ts) are disjoint: a step is joined to the newest reading at or before it, when inside the matrix, and to no other. |
| DefaultRollup.PostHogDefaultIsReference | internal/snuffle/fastpath_range.go:432-435 | Given one window for both, the pushdown value equals the reference default rollup, at every step. |
| DefaultRollup.PostHogAutomaticIff | internal/snuffle/fastpath_range.go:317-330 | For a bare selector, with the window of the plan from its one estimate and that of the reference from the matrix of the step, the values are equal if and only if there is no reading, the newest is stale, or both windows hold it or neither does. |
| DefaultRollup.NativeDefaultIsReference | internal/snuffle/fastpath_range_native.go:294-307 | With an explicit or the automatic window the native form equals the reference default rollup of the same matrix. |
| DefaultRollup.NewestTest | internal/snuffle/fastpath_range.go:200-206 | The test on the newest point of the two-index window is the reference default rollup with window 0. |
| DefaultRollup.Slide | internal/snuffle/fastpath_range.go:183-192 | Moving both indices forward leaves exactly the points in (end - matrix, end]. |
| DefaultRollup.RollupGroup | internal/snuffle/fastpath_range.go:179-207 | One group's output is the reference default rollup at every shifted step. |
| DefaultRollup.RollupGroups | internal/snuffle/fastpath_range.go:172-213 | All groups are rolled up, and groups without a point are dropped. |
| DefaultRollup.GridStartIsFirstMultiple | internal/snuffle/fastpath_range.go:108-115 | The subquery grid starts at the first multiple of the step after the earliest matrix begins, on either side of the epoch. |
| Bits.MaskIsRemainder | internal/snuffle/remote_fast.go:50-59 | Masking with a power of two minus one is the remainder, so key & mask is the home slot. |
| Bits.OrBits | internal/snuffle/fastpath.go:1697-1704 | A bit of an OR is set exactly when it is set in an operand. |
| Bits.SameBits | internal/snuffle/fastpath.go:1704 | Numbers with the same bits are equal, so comparing masks compares sets of matchers. |
| SeriesIndex.FreeSlot | internal/snuffle/remote_fast.go:72-90 | Below the load limit a free slot remains, so every probe loop ends. |
| SeriesIndex.ProbeMeetsFreeSlot | internal/snuffle/remote_fast.go:50-60 | A probe that meets a free slot has shown the key absent. |
| SeriesIndex.InsertKeepsTable | internal/snuffle/remote_fast.go:75-82 | Filling the free slot a probe ended in adds the entry and never separates a stored key from its home slot. |
| SeriesIndex.LoadedIsContents | internal/snuffle/remote_fast.go:109-113 | Entering every used slot again restores the same finite map. |
| SeriesIndex.Index.constructor | internal/snuffle/remote_fast.go:34-44 | The table starts empty, with a power-of-two size of at least 16 and twice the hint. |
| SeriesIndex.Index.Get | internal/snuffle/remote_fast.go:46-61 | Looks up exactly the finite map the index stands for, key 0 included. |
| SeriesIndex.Index.Set | internal/snuffle/remote_fast.go:63-90 | Updates that finite map at one key, growing when needed, and keeps a free slot. |
| SeriesIndex.Index.Grow | internal/snuffle/remote_fast.go:92-114 | Doubles the table and leaves the finite map unchanged. |
| ProtoWire.OrNextGroup | internal/snuffle/remote_fast.go:538-551 | ORing in the next seven-bit group, shifted and cut to 64 bits, adds its value modulo 2^64. |
| ProtoWire.ReadVarint | internal/snuffle/remote_fast.go:526-551 | Reads a base 128 varint of at most ten bytes, or fails exactly on a truncated or overlong one ("Base 128 Varints" in the Protocol Buffers encoding documentation). |
| ProtoWire.ReadBytes | internal/snuffle/remote_fast.go:513-524 | Reads a length-delimited field, or fails exactly when its length does not fit the input. |
| ProtoWire.SkipField | internal/snuffle/remote_fast.go:553-576 | Skips exactly the content of a field of any known wire type ("Message Structure"). |
| ProtoWire.UvarintRoundTrip | cmd/snuffle-tsbs-replay/main.go:151-152 | Every 64-bit length written is read back, whatever surrounds it. |
| ProtoWire.PayloadRoundTrip | internal/snuffle/remote_fast.go:241-275 | The outer loop splits a payload into exactly the messages framed into it, in order. |
| Identity.SortInPlace | internal/snuffle/remote.go:524-533 | The insertion sort in place leaves exactly the specified stable order. |
| Identity.SortLabelsSorts | internal/snuffle/remote.go:524-533 | That order is by name and holds the same labels. |
| Identity.InNameOrder | internal/snuffle/remote.go:515-522 | Recognises exactly lists whose names never decrease. |
| Identity.EncodeIsInjective | internal/snuffle/remote.go:504-511 | Different label lists are hashed over different bytes. |
| Identity.DigestBytes | internal/snuffle/remote.go:500-513 | The digest is fed exactly the length-prefixed encoding of the list. |
| Identity.OrdinaryIdentity | internal/snuffle/remote.go:451-498 | Whether or not the 512-byte buffer fills, the id is the hash of the full encoding of the sorted list; an empty list, an empty or repeated name or a missing metric name is an error. |
| Identity.Streaming.Reset | internal/snuffle/remote_fast.go:127-134 | Starts with no label read. |
| Identity.Streaming.Add | internal/snuffle/remote_fast.go:165-202 | Extends the encoding by one label, spilling the buffer when it is full; an empty or repeated name is an error, a name out of order ends the fast path. |
| Identity.Streaming.Finish | internal/snuffle/remote_fast.go:204-215 | Returns the identity the ordinary path computes for the same labels. |
| Identity.IdentifiedIff | internal/snuffle/remote.go:451-498 | A label list has an identity if and only if no name is empty, no name occurs twice and some label names the metric with a value. |
| Identity.IdentityIgnoresOrder | internal/snuffle/remote.go:451-498 | A series keeps its id, or its rejection, however a client orders its labels. |
| RemoteBatch.ParseLabel | internal/snuffle/remote_fast.go:407-460 | The shortcut and the general loop both decode a label message. |
| RemoteBatch.ParseSample | internal/snuffle/remote_fast.go:462-511 | The shortcut and the general loop both decode a sample message. |
| RemoteBatch.BucketIsFloor | internal/snuffle/remote.go:581-590 | Buckets start at multiples of the step, on either side of zero. |
| RemoteBatch.RowsAreRuns | internal/snuffle/remote_fast.go:355-405 | The samples of a series add one row per run of equal buckets, with the last value of the run; only the first run may instead go on in the last row before it. |
| RemoteBatch.OrdinarySamples | internal/snuffle/remote.go:303-325 | The ordinary sample loop drops, buckets and coalesces samples and tracks their first and last time as specified. |
| RemoteBatch.AddOrdinaryRecord | internal/snuffle/remote.go:385-398 | A record is added once per id and its times widened. |
| RemoteBatch.BuildOrdinary | internal/snuffle/remote.go:233-383 | The ordinary builder computes the specified batch of a decoded request. |
| RemoteBatch.Builder.constructor | internal/snuffle/remote_fast.go:217-240 | The fast builder starts with an empty batch and an empty index. |
| RemoteBatch.Builder.ParseFields | internal/snuffle/remote_fast.go:290-350 | The field loop feeds labels to the streaming identity and keeps the samples that are not dropped. |
| RemoteBatch.Builder.ParseSeries | internal/snuffle/remote_fast.go:282-376 | One series message adds the rows and the record the specification gives it, or leaves the fast path, or fails. |
| RemoteBatch.Builder.AddFastRecord | internal/snuffle/remote_fast.go:378-397 | Through the index, a record is added once per id and its times widened. |
| RemoteBatch.BuildFast | internal/snuffle/remote_fast.go:217-280 | The fast builder over the index and the streaming identity computes the specified fast result. |
| RemoteBatch.FastIsOrdinary | internal/snuffle/remote_fast.go:217-405 | Whenever the fast builder reports ok without error, the request decodes and the ordinary builder makes the same sample rows (order, coalesced buckets, last values) and the same records (ids, order, first and last times) of it. |
| RemoteFailures.BuildRejectsIff | internal/snuffle/remote.go:268-276 | The ordinary builder rejects a request if and only if some series that carries something has no identity. |
| RemoteFailures.FastFailsIff | internal/snuffle/remote_fast.go:217-376 | When the fast builder fails on a request that decodes, some series has no identity, and the ordinary builder rejects the request too if and only if such a series carries something. |
| RemoteFailures.FastRejectsIdleSeries | internal/snuffle/remote_fast.go:290-350 | A concrete request, one series without samples and with an unnamed label, that the fast builder rejects and the ordinary builder accepts. |
| LabelPass.ReadLabelFields | internal/snuffle/remote_fast.go:627-664 | The field loop of the second pass reads the labels of one series message, passing over samples and stopping at exemplars and histograms. |
| LabelPass.Populate | internal/snuffle/remote_fast.go:585-625 | The second pass over the bytes fills in labels until none is needed, and fails as specified. |
| LabelPass.PassIsSecondPass | internal/snuffle/remote_fast.go:601-664 | On a request the fast builder accepts, the pass over the bytes is the pass over its decoded series. |
| LabelPass.SecondPassIff | internal/snuffle/remote_fast.go:601-624 | The pass over decoded series succeeds if and only if some prefix of them has every needed id and no series without an identity. |
| LabelPass.PassAfterFastIff | internal/snuffle/remote_fast.go:585-682 | After the fast builder, the pass over the bytes succeeds under exactly that condition. |
| LabelPass.PassSucceeds | internal/snuffle/remote_fast.go:585-682 | So it finds labels for any of the new series when every series carries a sample. |
| LabelPass.PassIsRight | internal/snuffle/remote_fast.go:667-680 | The labels filled in for an id are labels of that id. |
| LabelPass.IdleSeriesStopsPass | internal/snuffle/remote_fast.go:667-670 | A concrete request of 29 bytes: the fast builder accepts it with one record, and the second pass fails because an idle series without a metric name comes first. |
| RemoteWire.FixedByte | internal/snuffle/remote_fast.go:469-475 | Byte k of a written 64-bit value is its k-th base 256 digit. |
| RemoteWire.LabelRoundTrip | internal/snuffle/remote_fast.go:407-460 | Every label written as a message is read back. |
| RemoteWire.SampleRoundTrip | internal/snuffle/remote_fast.go:462-511 | A written sample is read back: all 64 bits of the value and every int64 timestamp. |
| RemoteWire.SeriesRoundTrip | internal/snuffle/remote_fast.go:290-350 | A written series is read back: its labels and samples, in order. |
| RemoteWire.RequestRoundTrip | internal/snuffle/remote_fast.go:217-405 | Decoding a written request gives back its series: every label, every bit of every value and every timestamp, in order. |
| RemoteWire.FourBytesAreSkipped | internal/snuffle/remote_fast.go:553-576 | A field of four fixed bytes is passed over, whatever its number. |
| SeriesInsert.FilterInPlace | internal/snuffle/remote.go:766-779 | Filtering into rows[:0] keeps exactly the unknown rows, in order. |
| SeriesInsert.NotKnownIs | internal/snuffle/remote.go:766-771 | The early answers by counting agree with filtering row by row, because the rows of a batch are distinct. |
| SeriesInsert.StepKeepsInv | internal/snuffle/remote.go:654-695 | Every step of every request keeps the invariant of cache, table and lock. |
| SeriesInsert.EveryRunIsSafe | internal/snuffle/remote.go:654-695 | In every interleaving the cache is a subset of the table, no (team, id) is inserted twice when the lock is there, and a request that succeeds has all its series in the table. |
| SeriesInsert.SomeoneCanMove | internal/snuffle/remote.go:665-668 | No interleaving deadlocks. |
| SeriesInsert.MovesGoForward | internal/snuffle/remote.go:654-695 | Every move brings its request nearer to the end, so every run ends. |
| SeriesInsert.FailsIff | internal/snuffle/remote.go:654-695 | In every run a request fails if and only if one of its own calls does; when it is done and none did, it has succeeded. |
| SeriesInsert.SuccessIsCached | internal/snuffle/remote.go:754-811 | With the cache, all series of a request that succeeded are cached, and a later request for such series succeeds at its first step without a query. |
| SeriesInsert.NothingInvented | internal/snuffle/remote.go:654-695 | No run inserts a series nobody asked for. |
| Fanout.BucketRoundsUpIff | internal/snuffle/logql_sql.go:1143 | The bucket of a row is its time rounded up to the step if and only if the time is after -step or one past a multiple; otherwise it is exactly one step late. |
| Fanout.FanOutDelivers | internal/snuffle/logql_sql.go:1183-1203 | The capped repeat list delivers a bucket to exactly the evaluation points whose window contains it: the cap drops nothing. |
| Fanout.GridIsPoints | internal/snuffle/logql.go:2084-2087 | The points of the fan-out are those direct evaluation loops over. |
| Fanout.RowIsDelivered | internal/snuffle/logql_sql.go:1183-1203 | With an aligned start a row reaches exactly the points whose window (eval - window, eval] contains it. |
| Fanout.UnalignedStartMissesRow | internal/snuffle/logql_sql.go:1183-1189 | Without an aligned start, a row exactly at an evaluation point is never delivered to it. |
| Fanout.UnroundableRowIsMissed | internal/snuffle/logql_sql.go:1143 | A row that cannot be rounded is missed at the point of its rounded-up time, which is an evaluation point when the start is aligned and the time is in the range. |
| Fanout.SummaryOfUnion | internal/snuffle/logql_sql.go:1138-1181 | Merging the aggregates of two disjoint selections is aggregating their union, in any row order. |
| Fanout.CollectSpread | internal/snuffle/logql_sql.go:1198-1202 | A bucket is delivered at most once to each evaluation point. |
| Fanout.CollectIsWindow | internal/snuffle/logql_sql.go:1138-1181 | Two-stage aggregation over the fan-out equals aggregating the rows of each window. |
| Fanout.VarianceFromSums | internal/snuffle/logql_sql.go:778-797 | Mean of squares less squared mean is the population variance and is never negative, so greatest(0, ...) changes nothing. |
| Fanout.SqlValueIsMeaning | internal/snuffle/logql_sql.go:778-797 | The SQL expression over merged columns is the aggregation over the rows, for all ten functions. |
| Fanout.RangeAggregationValue | internal/snuffle/logql.go:2183-2295 | The loops of direct evaluation compute the declared count, bytes, sum, mean, extremes, variance and deviation of the unwrapped values. |
| Fanout.GroupWindow | internal/snuffle/logql.go:2146-2167 | Direct evaluation groups exactly the rows of (eval - window, eval] by key. |
| Fanout.PlanIsDirectIff | internal/snuffle/logql_sql.go:675-724 | For every series and evaluation point the bucket plan answers what direct evaluation answers, if and only if the query is not a sum_over_time of rows without a single unwrapped value. |
| Fanout.SumOfNothingExample | internal/snuffle/logql_sql.go:675-724 | A concrete row without a value: direct evaluation answers 0 and the plan nothing. |
| RowFanout.SeenOnce | internal/snuffle/logql_sql.go:628-648 | Row by row, a row is repeated at most once for each evaluation point. |
| RowFanout.SeenIsWindow | internal/snuffle/logql_sql.go:628-648 | For quantile, first and last, with an aligned start every evaluation point aggregates exactly the rows with a value in its window, each once and in scan order. |
| Fanout.CeilUnixNano | internal/snuffle/loki_api.go:532-548 | Returns the least multiple of the step at or after the time, or an error exactly when the time or that multiple leaves int64. |
| Fanout.AlignRange | internal/snuffle/loki_api.go:517-530 | Both ends are rounded up to the step, one minute when none is given, so the start is aligned. |
| LogQLParser.FindMatchingIsFirst | internal/snuffle/logql.go:3079-3115 | The index found is the first closing parenthesis outside string literals after which no parenthesis is open; -1 if and only if there is none. |
| LogQLParser.FindMatchingParenthesis | internal/snuffle/logql.go:3079-3115 | The loop, with its quotation mark, escape flag and depth, returns that index. |
| LogQLParser.TrimOuterParensForBinary | internal/snuffle/logql.go:2789-2802 | The loop drops all outer parentheses, resetting the least precedence inside them. |
| LogQLParser.IsUnaryOperator | internal/snuffle/logql.go:2911-2919 | Looks back to the nearest visible character to tell a sign from a binary operator. |
| LogQLParser.FindTopIsLastLowest | internal/snuffle/logql.go:2804-2857 | In text that does not start with a brace, the operator found is acceptable, outside string literals and brackets, no such operator binds less and none after it binds equally, and one is found if and only if there is one. |
| LogQLParser.FindTopLevelBinaryOp | internal/snuffle/logql.go:2804-2857 | The loop, with its quotation mark, escape flag and depth, returns that operator. |
| LogQLParser.ReadBinaryOpAt | internal/snuffle/logql.go:2859-2877 | The symbols in their order, then the words between word boundaries in either case, with a sign left to its operand, read exactly the specified operator. |
| LogQLParser.ReadIdentifierOf | internal/snuffle/logql.go:3321-3335 | The loop reads the identifier at the start of the trimmed text and returns the trimmed rest. |
| LogQLParser.ParseBinaryModifiers | internal/snuffle/logql.go:2945-2991 | The loop over modifiers computes the specified matching, bool flag and rest, or the specified error. |
| LogQLRoundTrip.MatchOfWrapped | internal/snuffle/logql.go:3079-3115 | The first parenthesis of a parenthesised operand matches its last. |
| LogQLRoundTrip.BareIsNotWrapped | internal/snuffle/logql.go:2789-2802 | Text without outer parentheses, such as (1) + (2), is never taken to have them. |
| LogQLRoundTrip.OpIsRead | internal/snuffle/logql.go:2859-2877 | A printed operator is read where it starts, and none is read inside it or at the spaces around it. |
| LogQLRoundTrip.TopOverOperand | internal/snuffle/logql.go:2812-2856 | Scanning an operand that binds tighter neither replaces the chosen operator nor prevents it. |
| LogQLRoundTrip.TopOfNode | internal/snuffle/logql.go:2804-2857 | The operator at which printed text is split is its own. |
| LogQLRoundTrip.ParseAfterPrint | internal/snuffle/logql.go:289-316 | Parsing printed text rebuilds the tree exactly, for the fifteen operators and digit scalars in the float64 range, with every operand in parentheses or with tighter operands left bare. |
| LogQLRoundTrip.ScanTree | internal/snuffle/logql.go:2812-2856 | Whatever the scanner chooses in printed text is an operator outside parentheses, where the tree re-cut at it prints it, and a candidate. |
| LogQLRoundTrip.RecutIsSameText | internal/snuffle/logql.go:297-316 | Re-cutting a tree at another operator keeps its text and moves leaves across the split. |
| LogQLRoundTrip.ReadsPrintable | internal/snuffle/logql.go:289-316 | Whatever is parsed from printed text is the meaning of a tree that prints the same text with all parentheses its operators need. |
| LogQLRoundTrip.ParseAfterPrintIff | internal/snuffle/logql.go:289-316 | For every tree with digit leaves, parsing its printed text rebuilds it if and only if every operand without parentheses binds tighter, none is a number to the right of a comparison, and no leaf is beyond the float64 range. |
| LogQLRoundTrip.AcceptedIff | internal/snuffle/logql.go:289-316 | Printed text is accepted if and only if some tree of that form prints it. |
| LogQLRoundTrip.TrailingComparisonIsRejected | internal/snuffle/logql.go:2849-2851 | Text that ends in a comparison with a bare number, everything before binding tighter, is rejected. |
| LogQLRoundTrip.EqualChainIsRejected | internal/snuffle/logql.go:297-316 | Any text whose lowest precedence outside parentheses occurs twice is rejected, whatever its operands and its length. |
| LogQLPrecedence.LooserIsRoot | internal/snuffle/logql.go:2879-2896 | With the levels or; and, unless; the comparisons; + -; * / %; ^ written out: of two operators between three numbers, the one of the looser level is the root, whichever comes first. |
| LogQLPrecedence.SameLevelIsRejected | internal/snuffle/logql.go:297-316 | Two operators of one level between three numbers are rejected: none associates. |
| LogQLPrecedence.OneOperator | internal/snuffle/logql.go:2849-2851 | Every operator takes two numbers; exactly the six comparisons reject a bare one on their right. |
| LogQLPrecedence.EveryOperatorHasALevel | internal/snuffle/logql.go:2879-2896 | Each of the fifteen operators is on one of those levels. |
| LogQLModifiers.ModifiersAreRead | internal/snuffle/logql.go:2945-2991 | Any list of on, ignoring, group_left, group_right and bool before an operand is read as it says, later ones of a kind replacing earlier ones; bool is an error where it is not allowed. |
| LogQLModifiers.WrittenIsRead | internal/snuffle/logql.go:297-316 | An operator between two operands, with any list of modifiers, is parsed as that operator with the matching and the bool flag the list says; only a comparison may say bool, and with it a bare number may follow. |
| LogQLModifiers.BoolExample | internal/snuffle/logql.go:2945-2991 | 1 > bool on (a) 2 is the comparison of 1 and 2 with the bool flag, matching on a. |
| LogQLPrimary.SelectorIsHandedOver | internal/snuffle/logql.go:318-326 | Text that starts with a brace goes to the selector parser whole, whatever operators it holds. |
| LogQLPrimary.CallIsHandedOver | internal/snuffle/logql.go:330-366 | A call of any of the 26 known functions, with arguments free of quotes and brackets, goes to its parser whole. |
| LogQLPrimary.WordIsReadIff | internal/snuffle/logql.go:2868-2876 | or, and and unless are operators exactly where they stand, in any case, next to no letter, digit, underscore or dot. |
| LogQLPrimary.NumberIsRead | internal/snuffle/logql.go:2770-2773 | The decimal numeral of any natural number is read as that number below 2^1024 - 2^970, and rejected from there on. |
| LogQLPrimary.FloatLimitIs | internal/snuffle/logql.go:2770-2773 | The limit is 2^1024 - 2^970, the least number that rounds to infinity in 64 bits. |
| HistogramBuilder.KeysAreApart | internal/snuffle/posthog_histogram.go:500-512 | Different keys of one source are different virtual series. |
| HistogramBuilder.VirtualLabelsAre | internal/snuffle/posthog_histogram.go:500-512 | The name of a virtual series is the metric name with _bucket, _count or _sum, le is the bound of a bucket, and every other label is the source's. |
| HistogramBuilder.SameSeriesSameTag | internal/snuffle/posthog_histogram.go:557-575 | Two sources that write to one virtual series are compared under one tag. |
| HistogramBuilder.SameTagIff | internal/snuffle/posthog_histogram.go:557-575 | Two sources have one tag of a kind if and only if, for every key of that kind, their virtual series have the same non-empty labels. |
| HistogramBuilder.FitsIff | internal/snuffle/posthog_histogram.go:513-575 | What is on file under tags leaves a sample unfit if and only if it has no temporality, not that of its source, or another source whose points of the kind go to the same series has the other one. |
| HistogramBuilder.SomeConfigIsValid | internal/snuffle/posthog_histogram.go:402-409 | What is asked of the formatter can be met: it need only tell the float64 values apart. |
| HistogramBuilder.SampleBuckets | internal/snuffle/posthog_histogram.go:411-436 | Accepts exactly well-formed samples, without 64-bit overflow, and returns the cumulative counts per bound. |
| HistogramBuilder.BucketsAreCumulative | internal/snuffle/posthog_histogram.go:411-436 | Bucket points of a sample are nondecreasing in the bound and +Inf equals the observation count. |
| HistogramBuilder.Builder.constructor | internal/snuffle/posthog_histogram.go:402-409 | A new builder has no series and satisfies the invariant. |
| HistogramBuilder.Builder.EverySeriesHasOneTemporality | internal/snuffle/posthog_histogram.go:500-575 | In every reachable state all points of a virtual series come from sources of one temporality, and its delta flag names it. |
| HistogramBuilder.Builder.CheckTemporality | internal/snuffle/posthog_histogram.go:513-575 | Refuses a sample exactly when it has no temporality, not that of its source, or another source that already wrote points of the kind to the same series has the other one. |
| HistogramBuilder.Builder.Bind | internal/snuffle/posthog_histogram.go:532-548 | Gives a source the series of its labels, shared with every source of the same labels, without touching any point; it fails only when the series limit is reached. |
| HistogramBuilder.Builder.AppendSample | internal/snuffle/posthog_histogram.go:630-637 | Appends one point to one series; it fails only when the series together hold as many points as the limit allows. |
| HistogramBuilder.Builder.AddPoint | internal/snuffle/posthog_histogram.go:500-555 | Appends exactly one point to the series of the key and changes no other; nothing changes when the matchers reject it, and only a temporality that does not suit is invalid. |
| HistogramBuilder.Builder.AddBuckets | internal/snuffle/posthog_histogram.go:462-486 | Each selected bucket gets one point with its cumulative count, each bucket the source had and lacks now gets exactly one stale marker, and no other series changes. |
| HistogramBuilder.Builder.AddStaleMarkers | internal/snuffle/posthog_histogram.go:477-485 | Marks each vanished bucket once. |
| HistogramBuilder.Builder.AddSample | internal/snuffle/posthog_histogram.go:451-498 | When nothing fails, every selected count, sum and bucket series of the sample ends with the point the sample gives it and every bucket that vanished with a stale marker; whatever happens, series only grow by points of this sample, and only malformed buckets or an unsuitable temporality are invalid. |
| HistogramBuilder.Builder.Add | internal/snuffle/posthog_histogram.go:438-449 | Only a limit that is reached, or an invalid sample under an exact selector, fails; a broad selector skips an invalid sample and remembers its source; every sample whose buckets are well formed and whose temporality clashes with no source of its series is fully recorded, also when its source was skipped before. |
| HistogramBuilder.Builder.Finish | internal/snuffle/posthog_histogram.go:583-594 | The series returned have different labels and hold their points in time order, or, for a delta series, one sample per time with the total so far; where no point is finite, a NaN or infinity of that time or a stale marker. |
| HistogramMerge.MergeSeries | internal/snuffle/posthog_histogram.go:126-161 | Fails exactly when an exact selector meets a delta series with the labels of a stored one; otherwise returns the stored series that stand alone, then the virtual series that are not dropped, each with the stored series of its labels merged in. |
| HistogramMerge.StoredSamplesWin | internal/snuffle/posthog_histogram.go:126-161 | With one stored series of its labels, a virtual series becomes their merge, in which the stored sample is kept at a shared time. |
| DeltaAccumulation.ReadRun | internal/snuffle/posthog_histogram.go:606-620 | The inner loop reads one run of samples with the same time: its finite sum and its last NaN or infinity. |
| DeltaAccumulation.Accumulate | internal/snuffle/posthog_histogram.go:602-628 | The in-place rewrite equals the accumulation of the original samples: no sample is overwritten before it is read. |
| DeltaAccumulation.AccumulationIsRunningTotal | internal/snuffle/posthog_histogram.go:596-628 | Output times are the input times, once each and strictly increasing; a value with a finite input at its time is the sum of all finite inputs up to it, any other is the last NaN or infinity there or a stale marker. |
| DeltaAccumulation.IncreaseRecoversDeltas | internal/snuffle/metricsql_compat.go:619-667 | For non-negative deltas the reference increase with a previous point is exactly the sum of the deltas after that point. |
| DeltaAccumulation.SortSamples | internal/snuffle/storage.go:1286-1291 | The sort puts samples in time order and keeps exactly the same samples; the order of equal times is not promised. |
| DeltaAccumulation.TotalIsOrderless | internal/snuffle/posthog_histogram.go:602-628 | The running total does not depend on the order in which the points were added. |
| DeltaAccumulation.FinishSamples | internal/snuffle/posthog_histogram.go:586-593 | A series is sorted; a delta series becomes its running total. |
| DeltaAccumulation.MergePreferFirst | internal/snuffle/posthog_histogram.go:165-191 | Sorts both lists and merges them, a list that stands alone being returned as it is: keeps every sample of the first and those of the other at times the first lacks, and nothing else; with one sample per time in each list exactly their union. |
| DeltaAccumulation.MergeSorted | internal/snuffle/posthog_histogram.go:175-190 | The two-index loop computes the specified merge. |
| DeltaAccumulation.MergeIsUnion | internal/snuffle/posthog_histogram.go:163-191 | With one sample per time in each list, the merge is their union in time order, the first list winning at a shared time. |
| DeltaAccumulation.MergedInOrder | internal/snuffle/posthog_histogram.go:163-191 | For any two sorted lists the merge is in time order and invents nothing. |
| DeltaAccumulation.MergedKeeps | internal/snuffle/posthog_histogram.go:163-191 | For any two lists the merge keeps every sample of the first and every sample of the other whose time the first lacks. |
| UnionOr.OrIsAssociative | internal/snuffle/fastpath_range_native.go:183-216 | `or` is associative, row by row and in order. |
| UnionOr.NestedIsFirstWins | internal/snuffle/fastpath_range_native.go:183-216 | Nested `or` in any parenthesisation lets the first branch with a (name-free labels, step) win. |
| UnionOr.KeptIff | internal/snuffle/fastpath_range_native.go:183-216 | Nested `or` keeps a row if and only if it is in some branch and no branch before that one has a row with the same labels, names aside, at the same time. |
| UnionOr.RepeatsAddNothing | internal/snuffle/fastpath_range_native.go:197-200 | Dropping repeated branches changes nothing. |
| UnionOr.Flattener.constructor | internal/snuffle/fastpath_range_native.go:187-188 | The collector starts with no branch. |
| UnionOr.Flattener.Collect | internal/snuffle/fastpath_range_native.go:189-211 | Collects the distinct branches in order of first occurrence, and succeeds exactly for plain unions of supported branches within the limit. |
| UnionOr.LeastPriorityIsFirstWins | internal/snuffle/fastpath_range_native.go:215 | Keeping the rows of least priority per partition is letting the first branch win. |
| UnionOr.FlattenedIsNested | internal/snuffle/fastpath_range_native.go:183-216 | For any parenthesisation of any branches, repeats included, the flattened union keeps the rows nested `or` keeps, in the same order. |
| UnionOr.CompactUnion.constructor | internal/snuffle/posthog_histogram_compact.go:608-612 | The union starts empty. |
| UnionOr.CompactUnion.Emit | internal/snuffle/posthog_histogram_compact.go:634-640 | A point is appended to the series of its labels, which is created when new; no other series changes. |
| UnionOr.CompactUnion.AddSeries | internal/snuffle/posthog_histogram_compact.go:623-642 | Points at keys an earlier branch has are skipped, the others are marked, and emitted unless NaN. |
| UnionOr.CompactUnion.MarkAll | internal/snuffle/posthog_histogram_compact.go:643-648 | Exactly the kept keys are marked present. |
| UnionOr.CompactUnion.Add | internal/snuffle/posthog_histogram_compact.go:614-649 | Adding a branch is one `or`: its unmatched rows are kept, NaN rows hiding later branches without being emitted. |
| UnionOr.UnionOf | internal/snuffle/posthog_histogram_compact.go:605-649 | Feeding all branches in order leaves, for every series, exactly the non-NaN points nested `or` keeps. |
| Selectors.DroppedMatchesAllIff | internal/snuffle/fastpath.go:1439-1449 | A pattern recognised as matching everything does so if and only if no spaces stand at the alternative that could match everything. |
| Selectors.PaddedMeaning | internal/snuffle/fastpath.go:1439-1449 | By the meaning of regular expressions, each of the nine recognised patterns, with any spaces around it, matches exactly the declared values. |
| Patterns.PlainPattern | internal/snuffle/fastpath.go:1444 | As read and matched character by character, an alternative that matches everything between literal characters matches exactly the strings that start and end with them. |
| Selectors.ExactMatcherSet | internal/snuffle/fastpath.go:1609-1645 | Accepts exactly selectors of non-empty equalities, one per label, on one metric with 1 to 64 labels, and the equalities returned select what the matchers that are not dropped select. |
| Selectors.SameSeriesIff | internal/snuffle/fastpath.go:1609-1645 | The equalities returned select the same series as the selector if and only if every dropped pattern matches everything or matches the value an equality asks of its label. |
| Selectors.PaddedPatternIsDropped | internal/snuffle/fastpath.go:1439-1449 | On {__name__="m",a="b",c=~" .*"} the equalities select a series the selector does not. |
| MatcherMask.FullMaskBitsIff | internal/snuffle/fastpath.go:1708-1711 | The 64-bit full mask has one bit per matcher if and only if there are at most 64, where the shift wraps. |
| MatcherMask.BuildRows | internal/snuffle/fastpath.go:1654-1688 | Builds one matcher row per branch and position, and lists that name every value the rows use. |
| MatcherMask.BitIsPresence | internal/snuffle/fastpath.go:1689-1705 | Each bit of groupBitOr says whether the equality of its matcher is present, whatever duplicates the index holds. |
| MatcherMask.BranchKeepsIff | internal/snuffle/fastpath.go:1697-1705 | A branch keeps a series if and only if it is active and every label equality of the branch is present for its metric. |
| MatcherMask.UnionSelectsMatching | internal/snuffle/fastpath.go:1576-1603 | Over a faithful index the one-pass union selects exactly the active series that the kept matchers of some selector select, and the series some selector selects when every dropped pattern is harmless. |
| MatcherMask.SingleExactLabel | internal/snuffle/fastpath.go:1713-1736 | Recognises exactly unions of one label on one metric, and collects their values without repeats. |
| MatcherMask.SingleIsUnion | internal/snuffle/fastpath.go:1713-1749 | The single-label form selects the same series as the one-pass union without the activity filter. |
| Replay.StepConserves | cmd/snuffle-tsbs-replay/main.go:83-182 | Every step of reader and workers keeps each message read in exactly one place, and the row counter in step with the posted batches. |
| Replay.RunKeepsInv | cmd/snuffle-tsbs-replay/main.go:83-182 | The invariant holds in every state of every interleaving. |
| Replay.EveryNilRunIsComplete | cmd/snuffle-tsbs-replay/main.go:114-124 | In every interleaving, nil is returned only if the file ended cleanly, every message was posted exactly once and the row counter is their number. |
| Replay.NilIff | cmd/snuffle-tsbs-replay/main.go:83-140 | A replay that returns gives nil if and only if the file ends cleanly and no post of the run failed; the error it returns otherwise is the read error of the file or that of a failed post of the run. |
| ReplayBatches.NilPostsThePieces | cmd/snuffle-tsbs-replay/main.go:142-170 | When nil is returned the accepted batches are exactly the file cut every batchSize messages, in file order inside each, and one last smaller piece. |
| ReplayBatches.StopsSoon | cmd/snuffle-tsbs-replay/main.go:127-140 | Once an error waits, the reader reads no message but the one it is at. |
| ReplayBatches.QueueIsBounded | cmd/snuffle-tsbs-replay/main.go:90 | At most twice as many batches as there are workers ever wait in the channel. |
| Replay.SomeStepIsPossible | cmd/snuffle-tsbs-replay/main.go:90-124 | Until a result is returned some step is possible, even when every worker has failed. |
| Replay.StepsUseWork | cmd/snuffle-tsbs-replay/main.go:83-182 | Every step uses up work, so every run ends. |
| Replay.FillPayload | cmd/snuffle-tsbs-replay/main.go:150-158 | The payload of a batch is its messages, each framed as field 1. |
| Replay.ReceiverGetsMessages | internal/snuffle/remote_fast.go:241-275 | The receiver takes every accepted payload apart into the messages of its batch, in order. |

## Left out

- IEEE rounding and the compensated sums of the compact evaluator: values are exact reals. Signed
  zero and the text of formatted floats are not modelled; formatting is assumed to tell bounds apart.
- NaN and stale markers appear only where the code treats them specially: default rollups, `or`,
  histogram series and delta accumulation. Counter functions are modelled on numbers.
- 64-bit overflow of millisecond arithmetic and of row counts is not modelled.
- The order in which ClickHouse returns samples of equal time inside one array is not modelled:
  series have at most one sample per time where a proof depends on it.
- ClickHouse, SQL text, HTTP, gzip, TLS, snappy, logging, configuration and metrics.
- The Prometheus engine, the MetricsQL parser and the query rewriting before the plans; native
  histograms, exemplars and metadata rows of remote write.
- Counter.Rollup: the default rollup of the same function is in DefaultRollup for range queries;
  its instant window and the native-histogram branch are not modelled.
- RemoteBatch.FastIsOrdinary: the library decoder the ordinary path uses is modelled from the
  Protocol Buffers encoding documentation, on the fields the fast path reads; what a library does
  with field number 0 inside a label or a sample, with groups or with over-wide field numbers is not
  modelled.
- RemoteBatch.BuildOrdinary: rows of exemplars, histograms and metadata are not modelled, so the
  method is for series that carry samples only.
- LabelPass.Populate: the JSON text of the labels is not modelled; the labels themselves are returned.
- CompactEvaluator.Evaluator.Result: the histogram quantile over the columns and the series
  functions around it are not modelled; history slices are values, so the capacity they reuse is not.
- SeriesInsert.EveryRunIsSafe: one process and one team; other processes writing to the same table
  are not modelled.
- Fanout.PlanIsDirectIff: offsets, comparisons, topk and outer aggregates are not modelled.
- RowFanout.SeenIsWindow: says which rows are aggregated; the interpolation of quantiles and the
  order of rows with equal times are not modelled.
- LogQLRoundTrip.ParseAfterPrintIff: its trees carry no modifiers (LogQLModifiers adds them to the
  outermost operator), and leaves are digits, read as exact decimals; selectors, range aggregations
  and other named expressions are parameters of the parser; text is ASCII, so Unicode spaces and
  letters are not modelled.
- HistogramBuilder.Builder.Finish: the finished series are returned, not written back in place.
- UnionOr.UnionOf: the final sort of series and points is not modelled.
- Minute-rollup statistics, LogQL instant queries on unaligned times and matcher pushdown through
  regular expression prefixes.
