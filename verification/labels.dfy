/**
 The label producer shared by every index metric: the label names are fixed, the label
 values are the index name followed by the stored cluster name.
 */
module Labels {
  import opened Wrappers
  import opened ClusterInfo

  /** The label names of every index metric, in order. */
  const IndexLabelKeys: seq<string> := ["index", "cluster"]

  /** The cluster name the producer reads from the stored cluster info, with the nil fallback. */
  function ClusterLabel(info: Option<Response>): string
  {
    if info.Some? then info.value.clusterName else UnknownCluster
  }

  /** The `values` closure of the index labels: the given values with the cluster label appended. */
  function Values(info: Option<Response>, s: seq<string>): (r: seq<string>)
    ensures |r| == |s| + 1
    ensures r[..|s|] == s
    ensures r[|s|] == ClusterLabel(info)
  {
    s + [ClusterLabel(info)]
  }

  /** Called with one index name, the producer yields exactly one value per label name. */
  lemma IndexLabelArity(info: Option<Response>, indexName: string)
    ensures |Values(info, [indexName])| == |IndexLabelKeys|
    ensures Values(info, [indexName])[0] == indexName
    ensures info.None? ==> Values(info, [indexName]) == [indexName, UnknownCluster]
    ensures info.Some? ==> Values(info, [indexName]) == [indexName, info.value.clusterName]
  {
  }

  /** The initial stored value and the nil fallback name the same cluster. */
  lemma InitialLabelIsUnknown()
    ensures ClusterLabel(InitialInfo) == ClusterLabel(None) == UnknownCluster
  {
  }

  /** After a stream of updates, the cluster label is the name carried by the last non-nil one. */
  lemma {:induction false} ClusterLabelAfterUpdates(stored: Option<Response>, updates: seq<Option<Response>>)
    ensures LastWritten(updates).Some? ==> ClusterLabel(ReceiveAll(stored, updates)) == LastWritten(updates).value.clusterName
    ensures LastWritten(updates).None? ==> ClusterLabel(ReceiveAll(stored, updates)) == ClusterLabel(stored)
  {
    LastWriterWins(stored, updates);
  }
}
