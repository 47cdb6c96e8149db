/**
 Fetching and decoding the index stats document. The HTTP exchange and the JSON decoder
 are inputs: the exchange records what the GET produced, and `unmarshal` stands for
 `json.Unmarshal`, yielding None on a malformed body.
 */
module Stats {
  import opened Wrappers

  /** Storage statistics of a set of shards. */
  datatype StoreStats = StoreStats(sizeInBytes: int)

  /** Statistics over the primary shards of an index. */
  datatype PrimaryStats = PrimaryStats(store: StoreStats)

  /** The statistics of one index (only the fields a metric reads). */
  datatype IndexStatsIndex = IndexStatsIndex(primaries: PrimaryStats)

  /** The decoded `_all/_stats` document: index name to index statistics. */
  datatype IndexStatsResponse = IndexStatsResponse(indices: map<string, IndexStatsIndex>)

  /** What reading a response body produced. */
  datatype Body = Read(bytes: seq<bv8>) | ReadFailed

  /** What one GET of the stats endpoint produced. */
  datatype Exchange =
    | GetFailed                                // the client could not obtain a response
    | Responded(statusCode: int, body: Body)   // a response arrived with this status

  /** Why the fetch failed. */
  datatype FetchError = GetError | StatusError(code: int) | ReadError

  /** The outcome of fetching and decoding, as the collection cycle sees it. */
  datatype Outcome = FetchFailed(error: FetchError) | DecodeFailed | Decoded(response: IndexStatsResponse)

  /** `queryURL`: the body of a 200 response, or the reason there is none. */
  function QueryURL(x: Exchange): (r: Result<seq<bv8>, FetchError>)
    ensures r.Success? <==> x.Responded? && x.statusCode == 200 && x.body.Read?
    ensures r.Success? ==> r.value == x.body.bytes
    ensures x.GetFailed? ==> r == Failure(GetError)
    // the status is checked before the body is read
    ensures x.Responded? && x.statusCode != 200 ==> r == Failure(StatusError(x.statusCode))
    ensures x.Responded? && x.statusCode == 200 && x.body.ReadFailed? ==> r == Failure(ReadError)
  {
    match x
    case GetFailed => Failure(GetError)
    case Responded(code, body) =>
      if code != 200 then Failure(StatusError(code))
      else if body.ReadFailed? then Failure(ReadError)
      else Success(body.bytes)
  }

  /** `fetchAndDecodeIndexStats`: a fetch error, a decode error, or the decoded document. */
  function FetchAndDecode(x: Exchange, unmarshal: seq<bv8> -> Option<IndexStatsResponse>): (r: Outcome)
    ensures r.FetchFailed? <==> QueryURL(x).Failure?
    ensures r.FetchFailed? ==> r.error == QueryURL(x).error
    ensures r.DecodeFailed? <==> QueryURL(x).Success? && unmarshal(QueryURL(x).value).None?
    ensures r.Decoded? ==> QueryURL(x).Success? && unmarshal(QueryURL(x).value) == Some(r.response)
  {
    match QueryURL(x)
    case Failure(e) => FetchFailed(e)
    case Success(bytes) =>
      match unmarshal(bytes)
      case None => DecodeFailed
      case Some(doc) => Decoded(doc)
  }

  /** Any non-200 status fails the fetch, whatever the body and the decoder. */
  lemma NonOkStatusIsFetchError(code: int, body: Body, unmarshal: seq<bv8> -> Option<IndexStatsResponse>)
    requires code != 200
    ensures FetchAndDecode(Responded(code, body), unmarshal) == FetchFailed(StatusError(code))
  {
  }
}
