# Index-stats collector of the Elasticsearch exporter, modelled in Dafny

This project models the indices collector of the Prometheus Elasticsearch exporter
(`collector/indices.go`) as a small sequential state machine. Each collection cycle
fetches the `_all/_stats` document, emits one sample per (index, index metric) pair,
and always ends by emitting three health series: `up`, `total_scrapes` and
`json_parse_failures`. A background receive loop keeps the last cluster info it was
pushed. The collector reads that value to fill the `cluster` label.

Modules:

- `Wrappers` (`wrappers.dfy`): `Option` stands for a nil-able pointer, `Result` for a Go `(value, error)` pair.
- `ClusterInfo` (`cluster_info.dfy`): the cluster-info response, the initial `unknown_cluster` value, and the receive loop as a left fold over the updates delivered so far.
- `Labels` (`labels.dfy`): the index label names `["index", "cluster"]` and the `values` closure with its nil fallback.
- `Rounding` (`rounding.dfy`): the bytes-to-GiB division and the `%.2f` rounding, done on exact reals.
- `Prometheus` (`prometheus.dfy`): descriptors, value types, samples, and `MustNewConstMetric`. Its label-arity panic is a precondition.
- `Stats` (`stats.dfy`): the stats document, the HTTP exchange as an input, `queryURL` and `fetchAndDecodeIndexStats`. The JSON decoder is a function parameter.
- `IndicesCollector` (`indices.dfy`): the collector state, `NewIndices`, `Describe`, `Collect` and the receive loop applied to the state.
- `IndicesProperties` (`indices_properties.dfy`): lemmas that relate `Collect` to `Describe`, the labels, the fetch outcome and the receive loop. It also defines `Run`, which interleaves pushes and collection cycles in one sequence.

Go's map iteration order is unspecified. A successful cycle is therefore handed the
order in which it visits the indices. That order must list every index name exactly
once (`Enumerates`). The contracts say which samples are emitted and how many, not
in which order.

In Go the parse-failure counter is incremented inside `fetchAndDecodeIndexStats`. In
the model, `Collect` receives the abstract outcome and increments the counter on
`DecodeFailed`. The counter is touched nowhere else, so the net effect per cycle is
the same.

The receive loop skips only nil updates. An update whose cluster name is the empty
string is not nil, so it is stored like any other.

## Model

| member | source | states |
|---|---|---|
| ClusterInfo.Receive | collector/indices.go:122-125 | one iteration: a nil update leaves the stored value, a non-nil one replaces it |
| ClusterInfo.ReceiveAll | collector/indices.go:119-128 | the loop never stores nil over a non-nil value; its result is the starting value or one of the non-nil updates |
| ClusterInfo.ReceiveAllAppend | collector/indices.go:121-126 | draining two batches in sequence equals draining their concatenation |
| ClusterInfo.LastWriterWins | collector/indices.go:121-126 | the stored value is the last non-nil update, or the starting value when every update was nil |
| ClusterInfo.NilUpdateIgnored | collector/indices.go:122-125 | a nil update anywhere in the stream changes nothing |
| ClusterInfo.RepeatedUpdateIdempotent | collector/indices.go:121-126 | pushing the same update twice in a row has the effect of pushing it once |
| Labels.Values | collector/indices.go:70-77 | the given values are kept as a prefix, with exactly one value appended: the cluster label, which is the stored cluster name, or `unknown_cluster` when nothing is stored |
| Labels.IndexLabelArity | collector/indices.go:66-77 | one index name yields `[index, cluster]`, as many values as there are label names |
| Labels.InitialLabelIsUnknown | collector/indices.go:74-87 | the initial stored value and the nil fallback both give the label `unknown_cluster` |
| Labels.ClusterLabelAfterUpdates | collector/indices.go:121-124 | after a stream of updates, the cluster label is the name in the last non-nil update; with none, it is unchanged |
| Rounding.GiB | collector/indices.go:229 | the result times 1024³ is the byte count, so the division is exact; it is never negative for a non-negative count |
| Rounding.RoundHalfEven | collector/indices.go:229 | the result is within one half of the input, and a tie goes to the even integer |
| Rounding.TwoDecimals | collector/indices.go:229 | the printed value is a whole number of hundredths, within 0.005 of the input; a value exactly half-way between two hundredths goes to the even one |
| Rounding.TiesGoToEven | collector/indices.go:229 | 0.125 prints as 0.12 and 0.375 prints as 0.38 |
| Stats.QueryURL | collector/indices.go:174-201 | the body is returned exactly when a 200 response was read; a failed GET is a get error; any other status is a status error carrying the code, whatever the body; a 200 whose body cannot be read is a read error |
| Stats.FetchAndDecode | collector/indices.go:153-172 | a fetch error is passed through; a body the decoder rejects is a decode error; otherwise the outcome is the decoded document |
| Stats.NonOkStatusIsFetchError | collector/indices.go:191-193 | any non-200 status fails the fetch, whatever the body and the decoder |
| IndicesCollector.NewIndices | collector/indices.go:64-116 | a new collector is valid, with up and both counters at 0 and `unknown_cluster` stored (not nil); its catalogue is exactly one gauge, the primary-shards size read from the primary store size in bytes |
| IndicesCollector.MetricDescs | collector/indices.go:145-147 | one descriptor per catalogue entry, in declaration order |
| IndicesCollector.Describe | collector/indices.go:144-151 | M + 3 descriptors: each catalogue descriptor in order, then those of up, total_scrapes and json_parse_failures |
| IndicesCollector.HealthMetrics | collector/indices.go:206-210 | the triad is up (a gauge), total_scrapes and json_parse_failures (counters), in that order, unlabelled, carrying the state's values |
| IndicesCollector.IndexSample | collector/indices.go:229-235 | a pair's sample has the entry's descriptor and kind, the labels `[index, cluster]`, and for the primary-shards size the byte count in GiB printed with two decimals |
| IndicesCollector.MetricSamples | collector/indices.go:228-237 | for one index, the j-th sample is the j-th catalogue entry's sample |
| IndicesCollector.IndexSamples | collector/indices.go:226-239 | N × M samples for N visited indices, and each one is the sample of some (index, catalogue entry) pair |
| IndicesCollector.MetricSamplesArePairSamples | collector/indices.go:228-237 | each sample emitted for an index of the document is a pair sample |
| IndicesCollector.EnumerationLength | collector/indices.go:226 | a visiting order that names every key once has as many entries as the map has keys |
| IndicesCollector.IndexSamplesCoverPairs | collector/indices.go:226-239 | the sample of every visited index and catalogue entry is emitted |
| IndicesCollector.WithIndexMetricSamples | collector/indices.go:228-237 | the inner loop's samples for an index are all labelled with that index and with no other |
| IndicesCollector.WithIndexIndexSamples | collector/indices.go:226-239 | when each index is visited once, the samples labelled with an index are exactly that index's inner-loop samples, in catalogue order; an unvisited index has none |
| IndicesCollector.SuccessfulSamplesCover | collector/indices.go:226-239 | a successful cycle's outer loop emits N × M samples, among them the sample of every (index, entry) pair |
| IndicesCollector.SuccessfulSamplesPerIndex | collector/indices.go:226-239 | in a successful cycle's outer loop, the samples labelled with each index of the document are that index's inner-loop samples |
| IndicesCollector.Collect | collector/indices.go:204-240 | total_scrapes goes up by exactly 1 on every outcome; json_parse_failures goes up by 1 on a decode failure only; up is 1 only on success; the health triad is always last; a failed cycle emits only the triad; a success emits exactly N × M samples first, covering every (index, entry) pair and nothing else, and the samples labelled with each index are that index's samples, once per catalogue entry, in catalogue order |
| IndicesCollector.ReceiveClusterInfo | collector/indices.go:119-128 | only the stored cluster info changes; it stays non-nil; it becomes the last non-nil update, and is unchanged when every update is nil |
| IndicesProperties.PairSampleShape | collector/indices.go:229-235 | a pair sample has a catalogue descriptor and the label values `[index, cluster]` |
| IndicesProperties.CollectEmitted | collector/indices.go:206-239 | a cycle emits the outer loop's samples on success and nothing on failure, followed by the triad |
| IndicesProperties.DescribedSeries | collector/indices.go:144-151 | catalogue samples followed by the up/total_scrapes/json_parse_failures triad only carry descriptors `Describe` announces |
| IndicesProperties.LabelledSeries | collector/indices.go:229-235 | catalogue samples followed by the unlabelled triad carry one label value per label name |
| IndicesProperties.CollectedDescsAreDescribed | collector/indices.go:144-151 | every series a cycle emits has a descriptor that `Describe` announces |
| IndicesProperties.CollectedLabelArity | collector/indices.go:230-235 | every emitted series has one label value per label name, so `MustNewConstMetric` never panics |
| IndicesProperties.CollectedIndexLabels | collector/indices.go:230-235 | each index sample of a successful cycle is labelled with an index of the document and the stored cluster name |
| IndicesProperties.NonOkStatusCycle | collector/indices.go:191-222 | a non-200 response sets up to 0 and emits only the triad, and the parse-failure counter does not move |
| IndicesProperties.MalformedBodyCycle | collector/indices.go:166-169 | a 200 body that does not decode adds one parse failure, sets up to 0 and emits only the triad |
| IndicesProperties.UnknownClusterBeforeAnyPush | collector/indices.go:85-87 | before any non-nil push, every index sample carries the cluster label `unknown_cluster` |
| IndicesProperties.RepeatedPushSameCycle | collector/indices.go:121-126 | pushing the same cluster info twice gives the same next cycle as pushing it once |
| IndicesProperties.ThreeGiBScenario | collector/indices.go:229-235 | a 3 GiB index on `prod-cluster` yields a single sample of value 3.00 labelled `["idx1", "prod-cluster"]` |
| IndicesProperties.RunCounts | collector/indices.go:119-209 | for any interleaving of pushes and cycles, total_scrapes counts the cycles and json_parse_failures counts the decode failures; the stored cluster info is the receive loop run over the pushes alone |
| IndicesProperties.Run | collector/indices.go:119-240 | any interleaving of pushes and cycles keeps the collector valid and leaves the catalogue unchanged |
| IndicesProperties.CountsFromNew | collector/indices.go:89-100 | from zero counters, as a new collector has them, total_scrapes equals the number of cycles and json_parse_failures the number of decode failures |
| IndicesProperties.ClusterLabelFromNew | collector/indices.go:80-128 | from a new collector, the cluster label is the name in the last non-nil push, or `unknown_cluster` if there was none |

## Left out

- HTTP transport: the GET request, reading and closing the body, and the error messages are not modelled. The `Exchange` input records what the GET produced. The body-close warning is logging.
- JSON decoding: `json.Unmarshal` is the `unmarshal` parameter, which returns None for a malformed body. The int64 range of the decoded fields belongs to the decoder.
- URL construction: the `path.Join` and the fixed query string are thin wrappers over Go's URL and path libraries.
- Floating point: sample values are the exact real that the `%.2f` string denotes. The float64 result of `ParseFloat` and the rounding of byte counts above 2^53 are not modelled. The counters are unbounded naturals, not float64 values.
- Concurrency: the goroutine, the channel and the unsynchronised write to `lastClusterInfo` are not modelled. `Run` interleaves pushes and cycles in one sequential order; it does not model thread interleavings inside a cycle.
- Map iteration order: this order is the `order` parameter. Contracts state which samples a cycle emits and how many, not their order.
- Logging, the Prometheus registry, the internals of `MustNewConstMetric` apart from its label-arity check, the unused `shardMetric` type, `String()`, and `ClusterLabelUpdates` (which only hands out the channel).
- The `namespace` constant is defined in a file that is not part of this model. It is taken to be `elasticsearch`. `BuildFQName` joins three non-empty parts; its handling of empty parts is library behaviour and is not modelled.
