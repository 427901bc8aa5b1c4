/** FeedRangeRequestMessagePopulatorVisitor: projecting a feed range onto an
    outgoing RequestMessage. The double dispatch of Accept/Visit becomes one
    match over the variant. */
module FeedRangeVisitor {
  import opened Wrappers
  import opened FeedRanges

  /** HandlerConstants.StartEpkString and HandlerConstants.EndEpkString, the
      request-property keys that carry an effective-range's bounds. */
  const StartEpkKey: string := "x-ms-start-epk"
  const EndEpkKey: string := "x-ms-end-epk"

  /** The routing-relevant state of a request, as a value. */
  datatype RequestFields = RequestFields(
    properties: map<string, string>,
    partitionKeyHeader: Option<string>,
    partitionKeyRangeId: Option<string>,
    isPartitionKeyRangeHandlerRequired: bool)

  /** The state of a freshly constructed request. */
  const FreshRequest: RequestFields := RequestFields(map[], None, None, true)

  /** The routing fields of RequestMessage, updated in place by the visitor. */
  class RequestMessage {
    var properties: map<string, string>
    var partitionKeyHeader: Option<string>
    var partitionKeyRangeId: Option<string>
    var isPartitionKeyRangeHandlerRequired: bool

    constructor ()
      ensures Fields() == FreshRequest
    {
      properties := map[];
      partitionKeyHeader := None;
      partitionKeyRangeId := None;
      isPartitionKeyRangeHandlerRequired := true;
    }

    function Fields(): RequestFields
      reads this
    {
      RequestFields(properties, partitionKeyHeader, partitionKeyRangeId, isPartitionKeyRangeHandlerRequired)
    }
  }

  /** What Accept leaves in a request whose routing state was `before`. */
  function Populated(feedRange: FeedRange, before: RequestFields): RequestFields
  {
    match feedRange
    case Epk(range) =>
      before.(properties := before.properties[StartEpkKey := range.min][EndEpkKey := range.max])
    case PkRangeId(id) =>
      before.(partitionKeyRangeId := Some(id), isPartitionKeyRangeHandlerRequired := false)
    case LogicalKey(partitionKey) =>
      before.(partitionKeyHeader := Some(partitionKey.json), isPartitionKeyRangeHandlerRequired := false)
  }

  /** feedRange.Accept(new FeedRangeRequestMessagePopulatorVisitor(request)). */
  method Accept(feedRange: FeedRange, request: RequestMessage)
    modifies request
    ensures request.Fields() == Populated(feedRange, old(request.Fields()))
    ensures feedRange.Epk? ==>
      && request.properties == old(request.properties)[StartEpkKey := feedRange.range.min][EndEpkKey := feedRange.range.max]
      && request.partitionKeyHeader == old(request.partitionKeyHeader)
      && request.partitionKeyRangeId == old(request.partitionKeyRangeId)
      && request.isPartitionKeyRangeHandlerRequired == old(request.isPartitionKeyRangeHandlerRequired)
    ensures feedRange.PkRangeId? ==>
      && request.partitionKeyRangeId == Some(feedRange.partitionKeyRangeId)
      && !request.isPartitionKeyRangeHandlerRequired
      && request.properties == old(request.properties)
      && request.partitionKeyHeader == old(request.partitionKeyHeader)
    ensures feedRange.LogicalKey? ==>
      && request.partitionKeyHeader == Some(feedRange.partitionKey.json)
      && !request.isPartitionKeyRangeHandlerRequired
      && request.properties == old(request.properties)
      && request.partitionKeyRangeId == old(request.partitionKeyRangeId)
  {
    match feedRange
    case Epk(range) =>
      request.properties := request.properties[StartEpkKey := range.min][EndEpkKey := range.max];
    case PkRangeId(id) =>
      request.partitionKeyRangeId := Some(id);
      request.isPartitionKeyRangeHandlerRequired := false;
    case LogicalKey(partitionKey) =>
      request.partitionKeyHeader := Some(partitionKey.json);
      request.isPartitionKeyRangeHandlerRequired := false;
  }

  /** Projecting the same feed range twice leaves the request as projecting
      it once did. */
  lemma PopulatedIdempotent(feedRange: FeedRange, before: RequestFields)
    ensures Populated(feedRange, Populated(feedRange, before)) == Populated(feedRange, before)
  {
    if feedRange.Epk? {
      var once := Populated(feedRange, before).properties;
      var twice := Populated(feedRange, Populated(feedRange, before)).properties;
      assert once.Keys == twice.Keys;
      assert forall k :: k in once ==> once[k] == twice[k];
    }
  }

  /** On a fresh request, the effective-range variant leaves exactly two
      properties, start = min and end = max, and leaves the handler flag set. */
  lemma EpkOnFreshRequest(range: EpkRange)
    ensures var after := Populated(Epk(range), FreshRequest);
      && |after.properties| == 2
      && StartEpkKey in after.properties && after.properties[StartEpkKey] == range.min
      && EndEpkKey in after.properties && after.properties[EndEpkKey] == range.max
      && after.isPartitionKeyRangeHandlerRequired
      && after.partitionKeyHeader.None? && after.partitionKeyRangeId.None?
  {
    var props := Populated(Epk(range), FreshRequest).properties;
    assert props.Keys == {StartEpkKey, EndEpkKey};
  }
}
