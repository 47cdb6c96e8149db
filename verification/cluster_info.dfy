/**
 The cluster identity the cluster-info retriever pushes into the indices collector,
 and the receive loop that keeps the most recent one.

 The loop in `NewIndices` drains a channel of `*clusterinfo.Response`; here the traffic
 it has seen so far is a finite sequence of optional responses, and the loop is a
 left fold over it.
 */
module ClusterInfo {
  import opened Wrappers

  /** The part of a cluster-info response the indices collector reads. */
  datatype Response = Response(clusterName: string)

  /** The cluster name used before any real cluster info is known. */
  const UnknownCluster: string := "unknown_cluster"

  /** The value `lastClusterInfo` holds when the collector is constructed. */
  const InitialInfo: Option<Response> := Some(Response(UnknownCluster))

  /** One iteration of the receive loop: a nil update is skipped, any other one replaces the stored value. */
  function Receive(stored: Option<Response>, update: Option<Response>): (r: Option<Response>)
    ensures update.None? ==> r == stored
    ensures update.Some? ==> r == update
  {
    if update.Some? then update else stored
  }

  /** The receive loop run over `updates`, in channel delivery order. */
  function ReceiveAll(stored: Option<Response>, updates: seq<Option<Response>>): (r: Option<Response>)
    // the loop never stores nil, so a non-nil value stays non-nil
    ensures stored.Some? ==> r.Some?
    // the result is either the starting value or one of the non-nil updates
    ensures r == stored || (r.Some? && r in updates)
    decreases |updates|
  {
    if updates == [] then stored else ReceiveAll(Receive(stored, updates[0]), updates[1..])
  }

  /** Reference definition: the last non-nil update in `updates`, or None if there is none. */
  function LastWritten(updates: seq<Option<Response>>): Option<Response>
    decreases |updates|
  {
    if updates == [] then None
    else if updates[|updates| - 1].Some? then updates[|updates| - 1]
    else LastWritten(updates[..|updates| - 1])
  }

  /** Draining two batches one after the other is draining their concatenation. */
  lemma {:induction false} ReceiveAllAppend(stored: Option<Response>, a: seq<Option<Response>>, b: seq<Option<Response>>)
    ensures ReceiveAll(stored, a + b) == ReceiveAll(ReceiveAll(stored, a), b)
    decreases |a|
  {
    if a == [] {
      assert a + b == b;
    } else {
      assert (a + b)[1..] == a[1..] + b;
      ReceiveAllAppend(Receive(stored, a[0]), a[1..], b);
    }
  }

  /** Last writer wins: the loop ends holding the last non-nil update, or the starting value if every update was nil. */
  lemma {:induction false} LastWriterWins(stored: Option<Response>, updates: seq<Option<Response>>)
    ensures ReceiveAll(stored, updates) == (if LastWritten(updates).Some? then LastWritten(updates) else stored)
    decreases |updates|
  {
    if updates != [] {
      var init := updates[..|updates| - 1];
      var u := updates[|updates| - 1];
      assert updates == init + [u];
      ReceiveAllAppend(stored, init, [u]);
      LastWriterWins(stored, init);
    }
  }

  /** A nil update anywhere in the stream has no effect. */
  lemma NilUpdateIgnored(stored: Option<Response>, a: seq<Option<Response>>, b: seq<Option<Response>>)
    ensures ReceiveAll(stored, a + [None] + b) == ReceiveAll(stored, a + b)
  {
    ReceiveAllAppend(stored, a + [None], b);
    ReceiveAllAppend(stored, a, [None]);
    ReceiveAllAppend(stored, a, b);
  }

  /** Pushing the same update twice in a row has the same effect as pushing it once. */
  lemma RepeatedUpdateIdempotent(stored: Option<Response>, a: seq<Option<Response>>, u: Option<Response>, b: seq<Option<Response>>)
    ensures ReceiveAll(stored, a + [u, u] + b) == ReceiveAll(stored, a + [u] + b)
  {
    ReceiveAllAppend(stored, a + [u, u], b);
    ReceiveAllAppend(stored, a + [u], b);
    ReceiveAllAppend(stored, a, [u, u]);
    ReceiveAllAppend(stored, a, [u]);
    assert [u, u] == [u] + [u];
    ReceiveAllAppend(ReceiveAll(stored, a), [u], [u]);
  }
}
