/**
 Properties that relate the collection cycle to `Describe`, the label producer, the fetch
 outcome and the cluster-info receive loop, and a sequential interleaving of the receive
 loop with collection cycles.
 */
module IndicesProperties {
  import opened Wrappers
  import opened ClusterInfo
  import opened Labels
  import opened Prometheus
  import opened Stats
  import opened IndicesCollector

  /** What a pair sample looks like: a catalogue descriptor, and the values [index, cluster]. */
  lemma PairSampleShape(x: Metric, indices: map<string, IndexStatsIndex>, metrics: seq<IndexMetric>, info: Option<Response>)
    requires forall m :: m in metrics ==> m.desc.variableLabels == IndexLabelKeys
    requires IsPairSample(x, indices, metrics, info)
    ensures x.desc in MetricDescs(metrics)
    ensures x.desc.variableLabels == IndexLabelKeys
    ensures |x.labelValues| == 2 && x.labelValues[0] in indices && x.labelValues[1] == ClusterLabel(info)
  {
  }

  /** What a cycle sends to the channel: the outer loop's samples on success, nothing on failure, then the triad. */
  lemma CollectEmitted(s: Indices, outcome: Outcome, order: seq<string>)
    requires Valid(s)
    requires outcome.Decoded? ==> Enumerates(order, outcome.response.indices.Keys)
    ensures outcome.Decoded? ==>
              Collect(s, outcome, order).emitted
              == IndexSamples(order, outcome.response.indices, s.indexMetrics, s.lastClusterInfo) + HealthMetrics(Collect(s, outcome, order).next)
    ensures !outcome.Decoded? ==> Collect(s, outcome, order).emitted == HealthMetrics(Collect(s, outcome, order).next)
  {
  }

  /** Catalogue samples followed by the triad only carry descriptors `Describe` announces. */
  lemma DescribedSeries(s: Indices, indices: map<string, IndexStatsIndex>, samples: seq<Metric>, health: seq<Metric>)
    requires Valid(s)
    requires forall x :: x in samples ==> IsPairSample(x, indices, s.indexMetrics, s.lastClusterInfo)
    requires |health| == 3 && forall i :: 0 <= i < 3 ==> health[i].desc == HealthDescs[i]
    ensures forall x :: x in samples + health ==> x.desc in Describe(s)
  {
    var d := Describe(s);
    forall x | x in samples + health
      ensures x.desc in d
    {
      if x in samples {
        PairSampleShape(x, indices, s.indexMetrics, s.lastClusterInfo);
      } else {
        var i :| 0 <= i < 3 && health[i] == x;
        assert x.desc == d[|s.indexMetrics| + i];
      }
    }
  }

  /** Catalogue samples followed by the unlabelled triad carry one label value per label name. */
  lemma LabelledSeries(s: Indices, indices: map<string, IndexStatsIndex>, samples: seq<Metric>, health: seq<Metric>)
    requires Valid(s)
    requires forall x :: x in samples ==> IsPairSample(x, indices, s.indexMetrics, s.lastClusterInfo)
    requires |health| == 3 && forall i :: 0 <= i < 3 ==> health[i].desc == HealthDescs[i] && health[i].labelValues == []
    ensures forall x :: x in samples + health ==> |x.labelValues| == |x.desc.variableLabels|
  {
    forall x | x in samples + health
      ensures |x.labelValues| == |x.desc.variableLabels|
    {
      if x in samples {
        PairSampleShape(x, indices, s.indexMetrics, s.lastClusterInfo);
      } else {
        var i :| 0 <= i < 3 && health[i] == x;
        assert x.desc == HealthDescs[i];
      }
    }
  }

  /** Every series a cycle emits is one `Describe` announced for the same catalogue. */
  lemma CollectedDescsAreDescribed(s: Indices, outcome: Outcome, order: seq<string>)
    requires Valid(s)
    requires outcome.Decoded? ==> Enumerates(order, outcome.response.indices.Keys)
    ensures forall x :: x in Collect(s, outcome, order).emitted ==> x.desc in Describe(s)
  {
    var r := Collect(s, outcome, order);
    CollectEmitted(s, outcome, order);
    if outcome.Decoded? {
      DescribedSeries(s, outcome.response.indices,
        IndexSamples(order, outcome.response.indices, s.indexMetrics, s.lastClusterInfo), HealthMetrics(r.next));
    } else {
      DescribedSeries(s, map[], [], HealthMetrics(r.next));
      assert r.emitted == [] + HealthMetrics(r.next);
    }
  }

  /** Every emitted series carries one label value per label name, so no sample makes the library panic. */
  lemma CollectedLabelArity(s: Indices, outcome: Outcome, order: seq<string>)
    requires Valid(s)
    requires outcome.Decoded? ==> Enumerates(order, outcome.response.indices.Keys)
    ensures forall x :: x in Collect(s, outcome, order).emitted ==> |x.labelValues| == |x.desc.variableLabels|
  {
    var r := Collect(s, outcome, order);
    CollectEmitted(s, outcome, order);
    if outcome.Decoded? {
      LabelledSeries(s, outcome.response.indices,
        IndexSamples(order, outcome.response.indices, s.indexMetrics, s.lastClusterInfo), HealthMetrics(r.next));
    } else {
      LabelledSeries(s, map[], [], HealthMetrics(r.next));
      assert r.emitted == [] + HealthMetrics(r.next);
    }
  }

  /** The index samples of a successful cycle carry the values [index, cluster] for an index of the document and the stored cluster. */
  lemma CollectedIndexLabels(s: Indices, outcome: Outcome, order: seq<string>)
    requires Valid(s)
    requires outcome.Decoded?
    requires Enumerates(order, outcome.response.indices.Keys)
    ensures var r := Collect(s, outcome, order);
            forall x :: x in r.emitted[..|r.emitted| - 3] ==>
              && x.desc.variableLabels == IndexLabelKeys
              && |x.labelValues| == 2
              && x.labelValues[0] in outcome.response.indices
              && x.labelValues[1] == ClusterLabel(s.lastClusterInfo)
  {
    var r := Collect(s, outcome, order);
    forall x | x in r.emitted[..|r.emitted| - 3]
      ensures && x.desc.variableLabels == IndexLabelKeys
              && |x.labelValues| == 2
              && x.labelValues[0] in outcome.response.indices
              && x.labelValues[1] == ClusterLabel(s.lastClusterInfo)
    {
      PairSampleShape(x, outcome.response.indices, s.indexMetrics, s.lastClusterInfo);
    }
  }

  /** A response with a status other than 200 fails the cycle: up is 0, only the triad is emitted, no parse failure is counted. */
  lemma NonOkStatusCycle(s: Indices, code: int, body: Body, unmarshal: seq<bv8> -> Option<IndexStatsResponse>, order: seq<string>)
    requires Valid(s)
    requires code != 200
    ensures Collect(s, FetchAndDecode(Responded(code, body), unmarshal), order).next.up == 0
    ensures Collect(s, FetchAndDecode(Responded(code, body), unmarshal), order).emitted
         == HealthMetrics(s.(up := 0, totalScrapes := s.totalScrapes + 1))
  {
    NonOkStatusIsFetchError(code, body, unmarshal);
  }

  /** A 200 response whose body does not decode counts one parse failure and fails the cycle. */
  lemma MalformedBodyCycle(s: Indices, bytes: seq<bv8>, unmarshal: seq<bv8> -> Option<IndexStatsResponse>, order: seq<string>)
    requires Valid(s)
    requires unmarshal(bytes).None?
    ensures Collect(s, FetchAndDecode(Responded(200, Read(bytes)), unmarshal), order).next
         == s.(up := 0, totalScrapes := s.totalScrapes + 1, jsonParseFailures := s.jsonParseFailures + 1)
    ensures |Collect(s, FetchAndDecode(Responded(200, Read(bytes)), unmarshal), order).emitted| == 3
  {
  }

  /** Before any non-nil push, every index sample names the unknown cluster. */
  lemma UnknownClusterBeforeAnyPush(updates: seq<Option<Response>>, outcome: Outcome, order: seq<string>)
    requires forall i :: 0 <= i < |updates| ==> updates[i].None?
    requires outcome.Decoded? ==> Enumerates(order, outcome.response.indices.Keys)
    ensures Valid(ReceiveClusterInfo(NewIndices(), updates))
    ensures var r := Collect(ReceiveClusterInfo(NewIndices(), updates), outcome, order);
            forall x :: x in r.emitted[..|r.emitted| - 3] ==> x.labelValues[1] == UnknownCluster
  {
    var s := ReceiveClusterInfo(NewIndices(), updates);
    assert s.lastClusterInfo == InitialInfo;
    if outcome.Decoded? {
      CollectedIndexLabels(s, outcome, order);
    }
  }

  /** Pushing the same cluster info twice in a row yields the same next cycle as pushing it once. */
  lemma RepeatedPushSameCycle(s: Indices, before: seq<Option<Response>>, u: Option<Response>, outcome: Outcome, order: seq<string>)
    requires Valid(s)
    requires outcome.Decoded? ==> Enumerates(order, outcome.response.indices.Keys)
    ensures Collect(ReceiveClusterInfo(s, before + [u, u]), outcome, order)
         == Collect(ReceiveClusterInfo(s, before + [u]), outcome, order)
  {
    RepeatedUpdateIdempotent(s.lastClusterInfo, before, u, []);
    assert before + [u, u] + [] == before + [u, u];
    assert before + [u] + [] == before + [u];
  }

  /** A 3 GiB index on cluster "prod-cluster" yields one sample of value 3.00 labelled ["idx1", "prod-cluster"]. */
  lemma ThreeGiBScenario()
    ensures var s := ReceiveClusterInfo(NewIndices(), [Some(Response("prod-cluster"))]);
            var doc := IndexStatsResponse(map["idx1" := IndexStatsIndex(PrimaryStats(StoreStats(3221225472)))]);
            var r := Collect(s, Decoded(doc), ["idx1"]);
            && r.next.up == 1
            && r.emitted[..|r.emitted| - 3] == [Metric(PrimarySharesSizeDesc, GaugeValue, 3.0, ["idx1", "prod-cluster"])]
  {
  }

  /** One event seen by the collector: a cluster-info push or a collection cycle. */
  datatype Step = Push(update: Option<Response>) | Scrape(outcome: Outcome, order: seq<string>)

  /** A cycle step on a decoded document visits every index exactly once. */
  predicate Ready(st: Step)
  {
    st.Scrape? && st.outcome.Decoded? ==> Enumerates(st.order, st.outcome.response.indices.Keys)
  }

  /** The collector's state after the receive loop and the collection cycles ran in the order of `steps`. */
  function Run(s: Indices, steps: seq<Step>): (r: Indices)
    requires Valid(s)
    requires forall i :: 0 <= i < |steps| ==> Ready(steps[i])
    ensures Valid(r)
    ensures r.indexMetrics == s.indexMetrics
    decreases |steps|
  {
    if steps == [] then s
    else
      var st := steps[0];
      assert Ready(st);
      ReadyTail(steps);
      var s' := match st
        case Push(u) => ReceiveClusterInfo(s, [u])
        case Scrape(outcome, order) => Collect(s, outcome, order).next;
      Run(s', steps[1..])
  }

  /** Readiness of every step carries over to the steps after the first. */
  lemma ReadyTail(steps: seq<Step>)
    requires steps != []
    requires forall i :: 0 <= i < |steps| ==> Ready(steps[i])
    ensures forall i :: 0 <= i < |steps[1..]| ==> Ready(steps[1..][i])
  {
  }

  /** The number of collection cycles among `steps`. */
  function Scrapes(steps: seq<Step>): nat
    decreases |steps|
  {
    if steps == [] then 0 else (if steps[0].Scrape? then 1 else 0) + Scrapes(steps[1..])
  }

  /** The number of collection cycles whose body did not decode. */
  function DecodeFailures(steps: seq<Step>): nat
    decreases |steps|
  {
    if steps == [] then 0
    else (if steps[0].Scrape? && steps[0].outcome.DecodeFailed? then 1 else 0) + DecodeFailures(steps[1..])
  }

  /** The cluster-info pushes among `steps`, in order. */
  function Pushes(steps: seq<Step>): seq<Option<Response>>
    decreases |steps|
  {
    if steps == [] then [] else (if steps[0].Push? then [steps[0].update] else []) + Pushes(steps[1..])
  }

  /** Whatever the interleaving, totalScrapes counts the cycles, jsonParseFailures counts the decode failures, and the stored cluster info is the receive loop over the pushes alone. */
  lemma {:induction false} RunCounts(s: Indices, steps: seq<Step>)
    requires Valid(s)
    requires forall i :: 0 <= i < |steps| ==> Ready(steps[i])
    ensures Run(s, steps).totalScrapes == s.totalScrapes + Scrapes(steps)
    ensures Run(s, steps).jsonParseFailures == s.jsonParseFailures + DecodeFailures(steps)
    ensures Run(s, steps).lastClusterInfo == ReceiveAll(s.lastClusterInfo, Pushes(steps))
    decreases |steps|
  {
    if steps != [] {
      var st := steps[0];
      var s' := match st
        case Push(u) => ReceiveClusterInfo(s, [u])
        case Scrape(outcome, order) => Collect(s, outcome, order).next;
      assert Ready(st);
      ReadyTail(steps);
      RunCounts(s', steps[1..]);
      if st.Push? {
        assert Pushes(steps) == [st.update] + Pushes(steps[1..]);
        ReceiveAllAppend(s.lastClusterInfo, [st.update], Pushes(steps[1..]));
      } else {
        assert Pushes(steps) == Pushes(steps[1..]);
      }
    }
  }

  /** From a collector with zero counters, as `NewIndices` builds it, totalScrapes is the number of cycles so far and jsonParseFailures the number of decode failures. */
  lemma CountsFromNew(s: Indices, steps: seq<Step>)
    requires Valid(s) && s.totalScrapes == 0 && s.jsonParseFailures == 0
    requires forall i :: 0 <= i < |steps| ==> Ready(steps[i])
    ensures Run(s, steps).totalScrapes == Scrapes(steps)
    ensures Run(s, steps).jsonParseFailures == DecodeFailures(steps)
  {
    RunCounts(s, steps);
  }

  /** From construction on, the cluster label names the last non-nil push, or the unknown cluster if there was none. */
  lemma ClusterLabelFromNew(steps: seq<Step>)
    requires forall i :: 0 <= i < |steps| ==> Ready(steps[i])
    ensures Valid(NewIndices())
    ensures LastWritten(Pushes(steps)).Some? ==>
              ClusterLabel(Run(NewIndices(), steps).lastClusterInfo) == LastWritten(Pushes(steps)).value.clusterName
    ensures LastWritten(Pushes(steps)).None? ==>
              ClusterLabel(Run(NewIndices(), steps).lastClusterInfo) == UnknownCluster
  {
    var s0 := NewIndices();
    RunCounts(s0, steps);
    ClusterLabelAfterUpdates(s0.lastClusterInfo, Pushes(steps));
  }
}
