/**
 The indices collector: its state, its construction, `Describe`, the collection cycle
 `Collect`, and the cluster-info receive loop applied to its state.

 Go's map iteration order is unspecified; a successful cycle is given the order in which
 it visits the indices as `order`, which must list every index name exactly once.
 */
module IndicesCollector {
  import opened Wrappers
  import opened ClusterInfo
  import opened Labels
  import opened Rounding
  import opened Prometheus
  import opened Stats

  /** The exporter's metric namespace. */
  const Namespace: string := "elasticsearch"

  /** The statistic an index metric reads. */
  datatype Extractor = PrimariesStoreSizeInBytes

  /** The raw value an extractor reads from one index's statistics. */
  function Extract(e: Extractor, stats: IndexStatsIndex): int
  {
    match e
    case PrimariesStoreSizeInBytes => stats.primaries.store.sizeInBytes
  }

  /** One entry of the index metric catalogue; all of them use the index label producer. */
  datatype IndexMetric = IndexMetric(valueType: ValueType, desc: Desc, value: Extractor)

  /** The collector state: last cluster info, the three health values and the catalogue. */
  datatype Indices = Indices(
    lastClusterInfo: Option<Response>,
    up: nat,
    totalScrapes: nat,
    jsonParseFailures: nat,
    indexMetrics: seq<IndexMetric>)

  /** The state after one collection cycle, and what the cycle sent to the channel. */
  datatype Cycle = Cycle(next: Indices, emitted: seq<Metric>)

  const UpDesc: Desc := Desc(
    BuildFQName(Namespace, "index_stats", "up"),
    "Was the last scrape of the Elasticsearch index endpoint successful.", [])

  const TotalScrapesDesc: Desc := Desc(
    BuildFQName(Namespace, "index_stats", "total_scrapes"),
    "Current total Elasticsearch index scrapes.", [])

  const JsonParseFailuresDesc: Desc := Desc(
    BuildFQName(Namespace, "index_stats", "json_parse_failures"),
    "Number of errors while parsing JSON.", [])

  const PrimarySharesSizeDesc: Desc := Desc(
    BuildFQName(Namespace, "indices", "primary_shares_size_gbytes"),
    "Current total size of stored index data in gbytes with only primary shards on all nodes",
    IndexLabelKeys)

  /** The descriptors of the three health series, in emission order. */
  const HealthDescs: seq<Desc> := [UpDesc, TotalScrapesDesc, JsonParseFailuresDesc]

  /** `up` is a 0/1 gauge and every catalogue entry declares the index label names. */
  predicate Valid(s: Indices)
  {
    && s.up <= 1
    && forall m :: m in s.indexMetrics ==> m.desc.variableLabels == IndexLabelKeys
  }

  /** `NewIndices`: counters at zero, the unknown cluster stored, one index metric. */
  function NewIndices(): (s: Indices)
    ensures Valid(s)
    ensures s.up == 0 && s.totalScrapes == 0 && s.jsonParseFailures == 0
    ensures s.lastClusterInfo.Some? && ClusterLabel(s.lastClusterInfo) == UnknownCluster
    // the catalogue is the one gauge on the primary shards' store size
    ensures s.indexMetrics == [IndexMetric(GaugeValue, PrimarySharesSizeDesc, PrimariesStoreSizeInBytes)]
  {
    Indices(InitialInfo, 0, 0, 0, [IndexMetric(GaugeValue, PrimarySharesSizeDesc, PrimariesStoreSizeInBytes)])
  }

  /** The descriptors of a catalogue, in declaration order. */
  function MetricDescs(metrics: seq<IndexMetric>): (r: seq<Desc>)
    ensures |r| == |metrics|
    ensures forall j :: 0 <= j < |metrics| ==> r[j] == metrics[j].desc
    decreases |metrics|
  {
    if metrics == [] then [] else [metrics[0].desc] + MetricDescs(metrics[1..])
  }

  /** `Describe`: every catalogue descriptor in order, then those of up, totalScrapes and jsonParseFailures. */
  function Describe(s: Indices): (r: seq<Desc>)
    ensures |r| == |s.indexMetrics| + 3
    ensures forall j :: 0 <= j < |s.indexMetrics| ==> r[j] == s.indexMetrics[j].desc
    ensures r[|s.indexMetrics|..] == HealthDescs
  {
    MetricDescs(s.indexMetrics) + HealthDescs
  }

  /** The three health series as they stand in `s`. */
  function HealthMetrics(s: Indices): (r: seq<Metric>)
    ensures |r| == 3
    // up, totalScrapes and jsonParseFailures, in that order, none of them labelled
    ensures forall i :: 0 <= i < 3 ==> r[i].desc == HealthDescs[i] && r[i].labelValues == []
    ensures r[0].valueType == GaugeValue && r[0].value == s.up as real
    ensures r[1].valueType == CounterValue && r[1].value == s.totalScrapes as real
    ensures r[2].valueType == CounterValue && r[2].value == s.jsonParseFailures as real
  {
    [ Metric(UpDesc, GaugeValue, s.up as real, []),
      Metric(TotalScrapesDesc, CounterValue, s.totalScrapes as real, []),
      Metric(JsonParseFailuresDesc, CounterValue, s.jsonParseFailures as real, []) ]
  }

  /** `emitted` ends with up, totalScrapes and jsonParseFailures, in that order, carrying the values of `s`. */
  predicate EndsWithHealth(emitted: seq<Metric>, s: Indices)
  {
    && |emitted| >= 3
    && emitted[|emitted| - 3] == HealthMetrics(s)[0]
    && emitted[|emitted| - 2] == HealthMetrics(s)[1]
    && emitted[|emitted| - 1] == HealthMetrics(s)[2]
  }

  /** The sample one catalogue entry produces for one index. */
  function IndexSample(metric: IndexMetric, indexName: string, stats: IndexStatsIndex, info: Option<Response>): (r: Metric)
    requires metric.desc.variableLabels == IndexLabelKeys
    ensures r.desc == metric.desc && r.valueType == metric.valueType
    // the labels are the index name and the stored cluster, one per label name
    ensures r.labelValues == [indexName, ClusterLabel(info)]
    // the primary-shards size is reported in GiB, printed with two decimals
    ensures metric.value == PrimariesStoreSizeInBytes ==> r.value == TwoDecimals(GiB(stats.primaries.store.sizeInBytes))
  {
    MustNewConstMetric(metric.desc, metric.valueType,
      TwoDecimals(GiB(Extract(metric.value, stats))), Values(info, [indexName]))
  }

  /** The inner loop: one sample per catalogue entry, in declaration order, for one index. */
  function MetricSamples(metrics: seq<IndexMetric>, indexName: string, stats: IndexStatsIndex, info: Option<Response>): (r: seq<Metric>)
    requires forall m :: m in metrics ==> m.desc.variableLabels == IndexLabelKeys
    ensures |r| == |metrics|
    ensures forall j :: 0 <= j < |metrics| ==> r[j] == IndexSample(metrics[j], indexName, stats, info)
    decreases |metrics|
  {
    if metrics == [] then []
    else [IndexSample(metrics[0], indexName, stats, info)] + MetricSamples(metrics[1..], indexName, stats, info)
  }

  /** `x` is the sample of some (index, catalogue entry) pair. */
  ghost predicate IsPairSample(x: Metric, indices: map<string, IndexStatsIndex>, metrics: seq<IndexMetric>, info: Option<Response>)
    requires forall m :: m in metrics ==> m.desc.variableLabels == IndexLabelKeys
  {
    exists k, j :: k in indices && 0 <= j < |metrics| && x == IndexSample(metrics[j], k, indices[k], info)
  }

  /** Every sample of the inner loop for an index of the map is a pair sample. */
  lemma MetricSamplesArePairSamples(metrics: seq<IndexMetric>, indexName: string, indices: map<string, IndexStatsIndex>, info: Option<Response>)
    requires indexName in indices
    requires forall m :: m in metrics ==> m.desc.variableLabels == IndexLabelKeys
    ensures forall x :: x in MetricSamples(metrics, indexName, indices[indexName], info) ==> IsPairSample(x, indices, metrics, info)
  {
  }

  /** The outer loop over the indices, visited in `order`. */
  function IndexSamples(order: seq<string>, indices: map<string, IndexStatsIndex>, metrics: seq<IndexMetric>, info: Option<Response>): (r: seq<Metric>)
    requires forall k :: k in order ==> k in indices
    requires forall m :: m in metrics ==> m.desc.variableLabels == IndexLabelKeys
    ensures |r| == |order| * |metrics|
    ensures forall x :: x in r ==> IsPairSample(x, indices, metrics, info)
    decreases |order|
  {
    if order == [] then []
    else
      var head := MetricSamples(metrics, order[0], indices[order[0]], info);
      var tail := IndexSamples(order[1..], indices, metrics, info);
      MetricSamplesArePairSamples(metrics, order[0], indices, info);
      assert |head + tail| == |metrics| + (|order| - 1) * |metrics|;
      head + tail
  }

  /** `order` lists every key of the map exactly once. */
  predicate Enumerates(order: seq<string>, keys: set<string>)
  {
    && (forall i, j :: 0 <= i < j < |order| ==> order[i] != order[j])
    && (forall k :: k in order ==> k in keys)
    && (forall k :: k in keys ==> k in order)
  }

  /** An enumeration is as long as the set it enumerates. */
  lemma {:induction false} EnumerationLength(order: seq<string>, keys: set<string>)
    requires Enumerates(order, keys)
    ensures |order| == |keys|
    decreases |order|
  {
    if order == [] {
      assert keys == {};
    } else {
      var rest := keys - {order[0]};
      assert Enumerates(order[1..], rest) by {
        forall k ensures k in order[1..] <==> k in rest {
          if k in order[1..] {
            var i :| 1 <= i < |order| && order[i] == k;
            assert order[0] != order[i];
          }
          if k in rest {
            assert k in order;
            var i :| 0 <= i < |order| && order[i] == k;
            assert i != 0;
            assert order[1..][i - 1] == k;
          }
        }
      }
      EnumerationLength(order[1..], rest);
    }
  }

  /** Every pair's sample occurs among the samples of the outer loop. */
  lemma {:induction false} IndexSamplesCoverPairs(order: seq<string>, indices: map<string, IndexStatsIndex>, metrics: seq<IndexMetric>, info: Option<Response>, k: string, j: int)
    requires forall k :: k in order ==> k in indices
    requires forall m :: m in metrics ==> m.desc.variableLabels == IndexLabelKeys
    requires k in order && 0 <= j < |metrics|
    ensures IndexSample(metrics[j], k, indices[k], info) in IndexSamples(order, indices, metrics, info)
    decreases |order|
  {
    var head := MetricSamples(metrics, order[0], indices[order[0]], info);
    var tail := IndexSamples(order[1..], indices, metrics, info);
    assert IndexSamples(order, indices, metrics, info) == head + tail;
    if order[0] == k {
      assert head[j] == IndexSample(metrics[j], k, indices[k], info);
    } else {
      IndexSamplesCoverPairs(order[1..], indices, metrics, info, k, j);
    }
  }

  /** The samples labelled with index `k`, in emission order. */
  function WithIndex(samples: seq<Metric>, k: string): seq<Metric>
    decreases |samples|
  {
    if samples == [] then []
    else
      (if |samples[0].labelValues| > 0 && samples[0].labelValues[0] == k then [samples[0]] else [])
      + WithIndex(samples[1..], k)
  }

  /** Filtering by index distributes over concatenation. */
  lemma {:induction false} WithIndexAppend(a: seq<Metric>, b: seq<Metric>, k: string)
    ensures WithIndex(a + b, k) == WithIndex(a, k) + WithIndex(b, k)
    decreases |a|
  {
    if a == [] {
      assert a + b == b;
    } else {
      assert (a + b)[1..] == a[1..] + b;
      WithIndexAppend(a[1..], b, k);
    }
  }

  /** Unlabelled series carry no index. */
  lemma {:induction false} WithIndexUnlabelled(samples: seq<Metric>, k: string)
    requires forall i :: 0 <= i < |samples| ==> samples[i].labelValues == []
    ensures WithIndex(samples, k) == []
    decreases |samples|
  {
    if samples != [] {
      WithIndexUnlabelled(samples[1..], k);
    }
  }

  /** The inner loop's samples for `indexName` are all labelled with it, and with no other index. */
  lemma {:induction false} WithIndexMetricSamples(metrics: seq<IndexMetric>, indexName: string, stats: IndexStatsIndex, info: Option<Response>, k: string)
    requires forall m :: m in metrics ==> m.desc.variableLabels == IndexLabelKeys
    ensures WithIndex(MetricSamples(metrics, indexName, stats, info), k)
         == (if indexName == k then MetricSamples(metrics, indexName, stats, info) else [])
    decreases |metrics|
  {
    if metrics != [] {
      var r := MetricSamples(metrics, indexName, stats, info);
      var rest := MetricSamples(metrics[1..], indexName, stats, info);
      assert r == [IndexSample(metrics[0], indexName, stats, info)] + rest;
      assert r[1..] == rest;
      WithIndexMetricSamples(metrics[1..], indexName, stats, info, k);
    }
  }

  /** Dropping the first entry of a repetition-free order leaves one without repetitions and without that entry. */
  lemma DistinctTail(order: seq<string>)
    requires order != []
    requires forall i, j :: 0 <= i < j < |order| ==> order[i] != order[j]
    ensures forall i, j :: 0 <= i < j < |order[1..]| ==> order[1..][i] != order[1..][j]
    ensures order[0] !in order[1..]
  {
  }

  /** In an order that visits each index once, the samples labelled `k` are exactly the inner loop's samples for `k`. */
  lemma {:induction false} WithIndexIndexSamples(order: seq<string>, indices: map<string, IndexStatsIndex>, metrics: seq<IndexMetric>, info: Option<Response>, k: string)
    requires forall k :: k in order ==> k in indices
    requires forall m :: m in metrics ==> m.desc.variableLabels == IndexLabelKeys
    requires forall i, j :: 0 <= i < j < |order| ==> order[i] != order[j]
    ensures k in order ==> WithIndex(IndexSamples(order, indices, metrics, info), k) == MetricSamples(metrics, k, indices[k], info)
    ensures k !in order ==> WithIndex(IndexSamples(order, indices, metrics, info), k) == []
    decreases |order|
  {
    if order != [] {
      var head := MetricSamples(metrics, order[0], indices[order[0]], info);
      var tail := IndexSamples(order[1..], indices, metrics, info);
      assert IndexSamples(order, indices, metrics, info) == head + tail;
      WithIndexAppend(head, tail, k);
      WithIndexMetricSamples(metrics, order[0], indices[order[0]], info, k);
      DistinctTail(order);
      WithIndexIndexSamples(order[1..], indices, metrics, info, k);
    }
  }

  /** The outer loop of a successful cycle emits N × M samples and the sample of every (index, entry) pair among them. */
  lemma SuccessfulSamplesCover(order: seq<string>, indices: map<string, IndexStatsIndex>, metrics: seq<IndexMetric>, info: Option<Response>)
    requires Enumerates(order, indices.Keys)
    requires forall m :: m in metrics ==> m.desc.variableLabels == IndexLabelKeys
    ensures |IndexSamples(order, indices, metrics, info)| == |indices| * |metrics|
    ensures forall k, j :: k in indices && 0 <= j < |metrics| ==>
              IndexSample(metrics[j], k, indices[k], info) in IndexSamples(order, indices, metrics, info)
  {
    EnumerationLength(order, indices.Keys);
    forall k, j | k in indices && 0 <= j < |metrics|
      ensures IndexSample(metrics[j], k, indices[k], info) in IndexSamples(order, indices, metrics, info)
    {
      IndexSamplesCoverPairs(order, indices, metrics, info, k, j);
    }
  }

  /** In the outer loop of a successful cycle, the samples labelled with an index are that index's inner-loop samples. */
  lemma SuccessfulSamplesPerIndex(order: seq<string>, indices: map<string, IndexStatsIndex>, metrics: seq<IndexMetric>, info: Option<Response>)
    requires Enumerates(order, indices.Keys)
    requires forall m :: m in metrics ==> m.desc.variableLabels == IndexLabelKeys
    ensures forall k :: k in indices ==>
              WithIndex(IndexSamples(order, indices, metrics, info), k) == MetricSamples(metrics, k, indices[k], info)
  {
    forall k | k in indices
      ensures WithIndex(IndexSamples(order, indices, metrics, info), k) == MetricSamples(metrics, k, indices[k], info)
    {
      WithIndexIndexSamples(order, indices, metrics, info, k);
    }
  }

  /** `Collect`: one collection cycle on the abstract fetch outcome. */
  function Collect(s: Indices, outcome: Outcome, order: seq<string>): (r: Cycle)
    requires Valid(s)
    requires outcome.Decoded? ==> Enumerates(order, outcome.response.indices.Keys)
    ensures Valid(r.next)
    // every cycle counts itself, whatever the outcome
    ensures r.next.totalScrapes == s.totalScrapes + 1
    // only a decode failure counts as a parse failure
    ensures outcome.DecodeFailed? ==> r.next.jsonParseFailures == s.jsonParseFailures + 1
    ensures !outcome.DecodeFailed? ==> r.next.jsonParseFailures == s.jsonParseFailures
    ensures r.next.up == (if outcome.Decoded? then 1 else 0)
    ensures r.next.lastClusterInfo == s.lastClusterInfo && r.next.indexMetrics == s.indexMetrics
    // on every path the health triad is emitted last
    ensures EndsWithHealth(r.emitted, r.next)
    // a failed cycle emits the health triad only
    ensures !outcome.Decoded? ==> |r.emitted| == 3
    // a successful cycle emits one sample per (index, catalogue entry) pair before the triad
    ensures outcome.Decoded? ==> |r.emitted| == |outcome.response.indices| * |s.indexMetrics| + 3
    ensures outcome.Decoded? ==> forall k, j :: k in outcome.response.indices && 0 <= j < |s.indexMetrics| ==>
              IndexSample(s.indexMetrics[j], k, outcome.response.indices[k], s.lastClusterInfo) in r.emitted[..|r.emitted| - 3]
    ensures outcome.Decoded? ==> forall x :: x in r.emitted[..|r.emitted| - 3] ==>
              IsPairSample(x, outcome.response.indices, s.indexMetrics, s.lastClusterInfo)
    // the samples labelled with an index are that index's samples, once each, in catalogue order
    ensures outcome.Decoded? ==> forall k :: k in outcome.response.indices ==>
              WithIndex(r.emitted, k) == MetricSamples(s.indexMetrics, k, outcome.response.indices[k], s.lastClusterInfo)
  {
    var scraped := s.(totalScrapes := s.totalScrapes + 1);
    match outcome
    case FetchFailed(_) =>
      var next := scraped.(up := 0);
      Cycle(next, HealthMetrics(next))
    case DecodeFailed =>
      var next := scraped.(up := 0, jsonParseFailures := s.jsonParseFailures + 1);
      Cycle(next, HealthMetrics(next))
    case Decoded(response) =>
      var next := scraped.(up := 1);
      var samples := IndexSamples(order, response.indices, s.indexMetrics, s.lastClusterInfo);
      var health := HealthMetrics(next);
      SuccessfulSamplesCover(order, response.indices, s.indexMetrics, s.lastClusterInfo);
      SuccessfulSamplesPerIndex(order, response.indices, s.indexMetrics, s.lastClusterInfo);
      assert (samples + health)[..|samples + health| - 3] == samples;
      assert forall k :: WithIndex(samples + health, k) == WithIndex(samples, k) by {
        forall k ensures WithIndex(samples + health, k) == WithIndex(samples, k) {
          WithIndexAppend(samples, health, k);
          WithIndexUnlabelled(health, k);
        }
      }
      Cycle(next, samples + health)
  }

  /** The receive loop applied to the collector: only the stored cluster info changes. */
  function ReceiveClusterInfo(s: Indices, updates: seq<Option<Response>>): (r: Indices)
    ensures r.(lastClusterInfo := s.lastClusterInfo) == s
    ensures Valid(s) ==> Valid(r)
    ensures s.lastClusterInfo.Some? ==> r.lastClusterInfo.Some?
    ensures r.lastClusterInfo == s.lastClusterInfo || (r.lastClusterInfo.Some? && r.lastClusterInfo in updates)
    // the last non-nil push wins; with none, the stored value stays
    ensures LastWritten(updates).Some? ==> r.lastClusterInfo == LastWritten(updates)
    ensures LastWritten(updates).None? ==> r.lastClusterInfo == s.lastClusterInfo
  {
    LastWriterWins(s.lastClusterInfo, updates);
    s.(lastClusterInfo := ReceiveAll(s.lastClusterInfo, updates))
  }
}
