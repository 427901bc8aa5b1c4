/** DocumentServiceResponse, the transport-agnostic response: the state its
    constructors derive from the headers, the body guards of GetResource and
    GetInternalResource, the item count of GetQueryResponse and Dispose. */
module DocumentServiceResponses {
  import opened Wrappers
  import opened NumberParsing

  /** WFConstants.BackendHeaders.SubStatus and HttpConstants.HttpHeaders.ItemCount. */
  const SubStatusHeader: string := "x-ms-substatus"
  const ItemCountHeader: string := "x-ms-item-count"

  /** SubStatusCodes.Unknown. */
  const SubStatusUnknown: int := 0

  /** The response headers; a name that is absent reads as null. */
  type Headers = map<string, string>

  function Header(headers: Headers, name: string): (v: Option<string>)
    ensures name in headers <==> v.Some?
    ensures v.Some? ==> v.value == headers[name]
  {
    if name in headers then Some(headers[name]) else None
  }

  /** GetSubStatusCodes: the sub-status header read as a uint and cast to the
      int-based SubStatusCodes enum, or Unknown when it is missing or does
      not parse. */
  function SubStatusFromHeaders(headers: Headers): (code: int)
    ensures Int32Min <= code < Int32Limit
    ensures ParseUInt32(Header(headers, SubStatusHeader)).None? ==> code == SubStatusUnknown
    ensures ParseUInt32(Header(headers, SubStatusHeader)).Some? ==>
      (code - ParseUInt32(Header(headers, SubStatusHeader)).value) % UInt32Limit == 0
  {
    match ParseUInt32(Header(headers, SubStatusHeader))
    case Some(subStatus) => WrapToInt32(subStatus)
    case None => SubStatusUnknown
  }

  /** A sub-status written into the headers in decimal is read back as written. */
  lemma SubStatusRoundTrip(headers: Headers, code: nat)
    requires code < Int32Limit
    ensures SubStatusFromHeaders(headers[SubStatusHeader := Decimal(code)]) == code
  {
    ParseUInt32Decimal(code);
    assert Header(headers[SubStatusHeader := Decimal(code)], SubStatusHeader) == Some(Decimal(code));
  }

  /** The item count GetQueryResponse reports: the header read as an int, or
      0 when it is missing or does not parse. */
  function ItemCountFromHeaders(headers: Headers): (count: int)
    ensures Int32Min <= count < Int32Limit
    ensures ParseInt32(Header(headers, ItemCountHeader)).None? ==> count == 0
    ensures ParseInt32(Header(headers, ItemCountHeader)).Some? ==>
      count == ParseInteger(Header(headers, ItemCountHeader)).value
  {
    match ParseInt32(Header(headers, ItemCountHeader))
    case Some(count) => count
    case None => 0
  }

  /** An item count written into the headers in decimal is read back as written. */
  lemma ItemCountRoundTrip(headers: Headers, count: nat)
    requires count < Int32Limit
    ensures ItemCountFromHeaders(headers[ItemCountHeader := Decimal(count)]) == count
  {
    ParseInt32Decimal(count);
    assert Header(headers[ItemCountHeader := Decimal(count)], ItemCountHeader) == Some(Decimal(count));
  }

  /** A response body stream: whether it can seek, its bytes, and whether it
      has been disposed. Its length is only asked for when it can seek. */
  class Stream {
    const canSeek: bool
    const content: seq<bv8>
    var isDisposed: bool

    constructor (canSeek: bool, content: seq<bv8>)
      ensures this.canSeek == canSeek && this.content == content && !isDisposed
    {
      this.canSeek := canSeek;
      this.content := content;
      isDisposed := false;
    }

    function Length(): nat
      requires canSeek
    {
      |content|
    }

    method Dispose()
      modifies this
      ensures isDisposed
    {
      isDisposed := true;
    }
  }

  /** The guard of GetResource: a body that is present and not a seekable
      stream of length 0. */
  predicate HasResourceBody(body: Stream?)
    reads body
  {
    body != null && !(body.canSeek && body.Length() == 0)
  }

  /** The guard of GetInternalResource: a body that is present and either
      not seekable or of positive length. */
  predicate HasInternalResourceBody(body: Stream?)
    reads body
  {
    body != null && (!body.canSeek || body.Length() > 0)
  }

  /** The two guards accept exactly the same bodies: only a missing body and
      a seekable empty one are turned away. */
  lemma GuardsAgree(body: Stream?)
    ensures HasResourceBody(body) <==> HasInternalResourceBody(body)
    ensures !HasResourceBody(body) <==> body == null || (body.canSeek && |body.content| == 0)
  {
  }

  /** The elements of a query page: none without a body; otherwise what
      scanning the body's JSON yields (the scan is a parameter). */
  function QueryElements<T>(body: Stream?, scan: seq<bv8> -> seq<T>): (elements: seq<T>)
    reads body
    ensures body == null ==> elements == []
  {
    if body == null then [] else scan(body.content)
  }

  datatype QueryError = ArgumentOutOfRange

  class DocumentServiceResponse {
    var responseBody: Stream?
    var headers: Headers
    var statusCode: int
    var requestStats: Option<string>
    /** Computed once by each constructor; there is no other writer. */
    var subStatusCode: int
    var isDisposed: bool

    /** The constructor without request statistics. */
    constructor (body: Stream?, headers: Headers, statusCode: int)
      ensures responseBody == body && this.headers == headers && this.statusCode == statusCode
      ensures requestStats == None && !isDisposed
      ensures subStatusCode == SubStatusFromHeaders(headers)
    {
      responseBody := body;
      this.headers := headers;
      this.statusCode := statusCode;
      requestStats := None;
      isDisposed := false;
      subStatusCode := SubStatusFromHeaders(headers);
    }

    /** The constructor that also records client-side request statistics. */
    constructor WithStatistics(body: Stream?, headers: Headers, statusCode: int, statistics: string)
      ensures responseBody == body && this.headers == headers && this.statusCode == statusCode
      ensures requestStats == Some(statistics) && !isDisposed
      ensures subStatusCode == SubStatusFromHeaders(headers)
    {
      responseBody := body;
      this.headers := headers;
      this.statusCode := statusCode;
      requestStats := Some(statistics);
      isDisposed := false;
      subStatusCode := SubStatusFromHeaders(headers);
    }

    /** The Headers setter: the sub-status taken at construction stays. */
    method SetHeaders(newHeaders: Headers)
      modifies this
      ensures headers == newHeaders
      ensures subStatusCode == old(subStatusCode) && requestStats == old(requestStats)
      ensures responseBody == old(responseBody) && statusCode == old(statusCode) && isDisposed == old(isDisposed)
    {
      headers := newHeaders;
    }

    /** GetResource: without a usable body the default (None). Otherwise a
        non-seekable body is first copied into a fresh seekable stream, which
        replaces it, and the original is disposed; the resource is loaded from
        the body's bytes (the deserialiser is a parameter). */
    method GetResource<R>(load: seq<bv8> -> R) returns (r: Option<R>)
      modifies this, responseBody
      ensures old(responseBody) == null || (old(responseBody.canSeek) && |old(responseBody.content)| == 0) ==>
        r == None && unchanged(this) && (old(responseBody) != null ==> unchanged(old(responseBody)))
      ensures old(responseBody) != null && old(responseBody.canSeek) && |old(responseBody.content)| > 0 ==>
        r == Some(load(old(responseBody.content))) && unchanged(this) && unchanged(old(responseBody))
      ensures old(responseBody) != null && !old(responseBody.canSeek) ==>
        && r == Some(load(old(responseBody.content)))
        && old(responseBody).isDisposed
        && responseBody != null && fresh(responseBody)
        && responseBody.canSeek && responseBody.content == old(responseBody.content) && !responseBody.isDisposed
      ensures headers == old(headers) && subStatusCode == old(subStatusCode) && isDisposed == old(isDisposed)
      ensures statusCode == old(statusCode) && requestStats == old(requestStats)
    {
      if HasResourceBody(responseBody) {
        if !responseBody.canSeek {
          var copy := new Stream(true, responseBody.content);
          responseBody.Dispose();
          responseBody := copy;
        }
        r := Some(load(responseBody.content));
      } else {
        r := None;
      }
    }

    /** GetInternalResource: the default without a usable body, otherwise the
        resource loaded from the body's bytes. */
    method GetInternalResource<R>(load: seq<bv8> -> R) returns (r: Option<R>)
      ensures r.Some? <==> responseBody != null && (!responseBody.canSeek || |responseBody.content| > 0)
      ensures r.Some? ==> r.value == load(responseBody.content)
    {
      if HasInternalResourceBody(responseBody) {
        r := Some(load(responseBody.content));
      } else {
        r := None;
      }
    }

    /** Dispose: the first call disposes the body, if any, drops it and marks
        the response disposed; every later call changes nothing. */
    method Dispose()
      modifies this, responseBody
      ensures old(isDisposed) ==> unchanged(this) && (old(responseBody) != null ==> unchanged(old(responseBody)))
      ensures !old(isDisposed) ==>
        && isDisposed && responseBody == null
        && (old(responseBody) != null ==> old(responseBody).isDisposed)
      ensures headers == old(headers) && statusCode == old(statusCode) && subStatusCode == old(subStatusCode)
      ensures requestStats == old(requestStats)
    {
      if isDisposed {
        return;
      }
      if responseBody != null {
        responseBody.Dispose();
        responseBody := null;
      }
      isDisposed := true;
    }

    /** GetQueryResponse: the item count from the headers and the page's
        elements. The eager form sizes a list by the item count, which fails
        for a negative count. */
    method GetQueryResponse<T>(lazy: bool, scan: seq<bv8> -> seq<T>)
      returns (r: Result<seq<T>, QueryError>, itemCount: int)
      ensures itemCount == ItemCountFromHeaders(headers)
      ensures !lazy && itemCount < 0 ==> r == Failure(ArgumentOutOfRange)
      ensures lazy || itemCount >= 0 ==> r == Success(QueryElements(responseBody, scan))
    {
      itemCount := ItemCountFromHeaders(headers);
      if !lazy && itemCount < 0 {
        return Failure(ArgumentOutOfRange), itemCount;
      }
      r := Success(QueryElements(responseBody, scan));
    }
  }
}
