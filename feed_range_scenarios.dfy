/** The feed-range behaviours exercised one by one against fresh providers and
    requests: each method sets up the collaborators as a caller would, runs
    one operation and states what must come out. */
module FeedRangeScenarios {
  import opened Wrappers
  import opened FeedRanges
  import opened RoutingMapProvider
  import opened FeedRangeResolution
  import opened FeedRangeVisitor
  import opened FeedRangeCodec

  /** Each variant hands back the payload it was built from. */
  lemma VariantPayloads(range: EpkRange, partitionKey: PartitionKey, id: string)
    ensures Epk(range).range == range
    ensures LogicalKey(partitionKey).partitionKey == partitionKey
    ensures PkRangeId(id).partitionKeyRangeId == id
  {
  }

  /** The effective-range variant resolves to its own range, with a provider
      that has nothing configured and is never called. */
  method EpkEffectiveRanges(range: EpkRange, containerRid: string, hash: EffectivePartitionKeyHash)
    returns (r: Result<seq<EpkRange>, Error>, lookups: nat)
    ensures r == Success([range]) && lookups == 0
  {
    var provider := new Provider([], map[]);
    r := GetEffectiveRanges(Epk(range), provider, containerRid, None, hash);
    lookups := |provider.byIdCalls| + |provider.overlapCalls|;
  }

  /** The logical-key variant resolves to the point range of its hashed key. */
  method LogicalKeyEffectiveRanges(
    partitionKey: PartitionKey, definition: PartitionKeyDefinition, containerRid: string, hash: EffectivePartitionKeyHash)
    returns (r: Result<seq<EpkRange>, Error>, lookups: nat)
    ensures r == Success([EpkRange(hash(partitionKey, definition), hash(partitionKey, definition), true, true)])
    ensures lookups == 0
  {
    var provider := new Provider([], map[]);
    r := GetEffectiveRanges(LogicalKey(partitionKey), provider, containerRid, Some(definition), hash);
    lookups := |provider.byIdCalls| + |provider.overlapCalls|;
  }

  /** The range-id variant whose first lookup finds the range: one range
      [min, max) and exactly one lookup, without a refresh. */
  method RangeIdFoundFirst(pkRange: PartitionKeyRange, containerRid: string, hash: EffectivePartitionKeyHash)
    returns (r: Result<seq<EpkRange>, Error>, calls: seq<ByIdCall>)
    ensures r.Success? && |r.value| == 1
    ensures r.value[0].min == pkRange.minInclusive && r.value[0].max == pkRange.maxExclusive
    ensures calls == [ByIdCall(containerRid, pkRange.id, false)]
  {
    var provider := new Provider([Some(pkRange), Some(pkRange)], map[]);
    r := GetEffectiveRanges(PkRangeId(pkRange.id), provider, containerRid, None, hash);
    calls := provider.byIdCalls;
  }

  /** The range-id variant whose first lookup misses and whose refreshed
      lookup finds the range: the same single range after exactly two lookups. */
  method RangeIdFoundOnRefresh(pkRange: PartitionKeyRange, containerRid: string, hash: EffectivePartitionKeyHash)
    returns (r: Result<seq<EpkRange>, Error>, calls: seq<ByIdCall>)
    ensures r.Success? && |r.value| == 1
    ensures r.value[0].min == pkRange.minInclusive && r.value[0].max == pkRange.maxExclusive
    ensures calls == [ByIdCall(containerRid, pkRange.id, false), ByIdCall(containerRid, pkRange.id, true)]
  {
    var provider := new Provider([None, Some(pkRange)], map[]);
    r := GetEffectiveRanges(PkRangeId(pkRange.id), provider, containerRid, None, hash);
    calls := provider.byIdCalls;
  }

  /** The range-id variant whose two lookups both miss: Gone with sub-status
      PartitionKeyRangeGone, after exactly two lookups. */
  method RangeIdGone(id: string, containerRid: string, hash: EffectivePartitionKeyHash)
    returns (r: Result<seq<EpkRange>, Error>, calls: nat)
    ensures r.Failure? && r.error.CosmosException?
    ensures r.error.statusCode == 410 && r.error.subStatusCode == 1002
    ensures calls == 2
  {
    var provider := new Provider([None, None], map[]);
    r := GetEffectiveRanges(PkRangeId(id), provider, containerRid, None, hash);
    calls := |provider.byIdCalls|;
  }

  /** The effective-range variant lists the id of the one range the overlap
      lookup reports for it. */
  method EpkPartitionKeyRanges(range: EpkRange, pkRange: PartitionKeyRange, containerRid: string, hash: EffectivePartitionKeyHash)
    returns (r: Result<seq<string>, Error>)
    ensures r == Success([pkRange.id])
  {
    var provider := new Provider([], map[range := [pkRange]]);
    r := GetPartitionKeyRanges(Epk(range), provider, containerRid, None, hash);
    assert Ids([pkRange]) == [pkRange.id];
  }

  /** The logical-key variant lists the id of the one range the overlap
      lookup reports for its point range. */
  method LogicalKeyPartitionKeyRanges(
    partitionKey: PartitionKey, definition: PartitionKeyDefinition, pkRange: PartitionKeyRange,
    containerRid: string, hash: EffectivePartitionKeyHash)
    returns (r: Result<seq<string>, Error>)
    ensures r == Success([pkRange.id])
  {
    var point := PointRange(hash(partitionKey, definition));
    var provider := new Provider([], map[point := [pkRange]]);
    r := GetPartitionKeyRanges(LogicalKey(partitionKey), provider, containerRid, Some(definition), hash);
    assert Ids([pkRange]) == [pkRange.id];
  }

  /** The range-id variant lists its own id without any lookup. */
  method RangeIdPartitionKeyRanges(id: string, containerRid: string, hash: EffectivePartitionKeyHash)
    returns (r: Result<seq<string>, Error>, lookups: nat)
    ensures r == Success([id]) && lookups == 0
  {
    var provider := new Provider([], map[]);
    r := GetPartitionKeyRanges(PkRangeId(id), provider, containerRid, None, hash);
    lookups := |provider.byIdCalls| + |provider.overlapCalls|;
  }

  /** Visiting a fresh request with the effective-range variant leaves exactly
      the two bound properties. */
  method EpkOnRequest(range: EpkRange) returns (properties: map<string, string>)
    ensures |properties| == 2
    ensures StartEpkKey in properties && properties[StartEpkKey] == range.min
    ensures EndEpkKey in properties && properties[EndEpkKey] == range.max
  {
    var request := new RequestMessage();
    Accept(Epk(range), request);
    EpkOnFreshRequest(range);
    properties := request.properties;
  }

  /** Visiting a fresh request with the range-id variant sets the range id and
      clears the handler flag. */
  method RangeIdOnRequest(id: string) returns (rangeId: Option<string>, handlerRequired: bool)
    ensures rangeId == Some(id) && !handlerRequired
  {
    var request := new RequestMessage();
    Accept(PkRangeId(id), request);
    rangeId, handlerRequired := request.partitionKeyRangeId, request.isPartitionKeyRangeHandlerRequired;
  }

  /** Visiting a fresh request with the logical-key variant sets the
      partition-key header to the key's JSON and clears the handler flag. */
  method LogicalKeyOnRequest(partitionKey: PartitionKey) returns (header: Option<string>, handlerRequired: bool)
    ensures header == Some(partitionKey.json) && !handlerRequired
  {
    var request := new RequestMessage();
    Accept(LogicalKey(partitionKey), request);
    header, handlerRequired := request.partitionKeyHeader, request.isPartitionKeyRangeHandlerRequired;
  }

  /** Deserialising a serialised feed range gives the same variant back. */
  method SerializationRoundTrip(feedRange: FeedRange) returns (r: Result<FeedRange, Error>)
    ensures r.Success? && r.value == feedRange
  {
    var representation := ToJson(feedRange);
    RoundTrip(feedRange);
    r := FromJson(representation);
  }
}
