/** The feed-range value types: effective-partition-key ranges, partition-key
    ranges as the routing map hands them out, and the three feed-range variants
    (FeedRangeEpk, FeedRangePartitionKey, FeedRangePartitionKeyRange). */
module FeedRanges {

  /** Documents.Routing.Range<string>: an interval of the effective-partition-key
      space with a flag per bound. Equality is structural, as in the SDK. */
  datatype EpkRange = EpkRange(min: string, max: string, isMinInclusive: bool, isMaxInclusive: bool)

  /** Range<string>.GetPointRange: the closed interval [key, key]. */
  function PointRange(key: string): (r: EpkRange)
    ensures r.min == key && r.max == key
    ensures r.isMinInclusive && r.isMaxInclusive
  {
    EpkRange(key, key, true, true)
  }

  /** Documents.PartitionKeyRange, owned by the routing map: its span is
      always the half-open interval [minInclusive, maxExclusive). */
  datatype PartitionKeyRange = PartitionKeyRange(id: string, minInclusive: string, maxExclusive: string) {
    /** PartitionKeyRange.ToRange(). */
    function ToRange(): (r: EpkRange)
      ensures r.min == minInclusive && r.max == maxExclusive
      ensures r.isMinInclusive && !r.isMaxInclusive
    {
      EpkRange(minInclusive, maxExclusive, true, false)
    }
  }

  /** A logical partition key, identified by its canonical JSON text
      (PartitionKey.InternalKey.ToJsonString()); two keys are the same key
      exactly when that text is the same. */
  datatype PartitionKey = PartitionKey(json: string)

  /** Documents.PartitionKeyDefinition: the container's key paths. */
  datatype PartitionKeyDefinition = PartitionKeyDefinition(paths: seq<string>)

  /** PartitionKeyInternal.GetEffectivePartitionKeyString, the hash of a key
      into the effective-partition-key space under a key definition. Its
      algorithm is not part of this model, so every operation that needs it
      takes it as a parameter and holds for any choice of it. */
  type EffectivePartitionKeyHash = (PartitionKey, PartitionKeyDefinition) -> string

  /** The closed set of feed-range variants. */
  datatype FeedRange =
    | Epk(range: EpkRange)                  // FeedRangeEpk
    | LogicalKey(partitionKey: PartitionKey) // FeedRangePartitionKey
    | PkRangeId(partitionKeyRangeId: string) // FeedRangePartitionKeyRange

  /** The failures the feed-range operations surface. */
  datatype Error =
    | CosmosException(statusCode: int, subStatusCode: int)
    | PartitionKeyDefinitionMissing
    | MalformedFeedRange

  /** HttpStatusCode.Gone and SubStatusCodes.PartitionKeyRangeGone. */
  const StatusGone: int := 410
  const SubStatusPartitionKeyRangeGone: int := 1002

  /** The error raised when a partition-key-range id no longer resolves. */
  const PartitionKeyRangeGone: Error := CosmosException(StatusGone, SubStatusPartitionKeyRangeGone)

  /** `ranges.Select(range => range.Id)`: the ids of the ranges, in order. */
  function Ids(ranges: seq<PartitionKeyRange>): (ids: seq<string>)
    ensures |ids| == |ranges|
    ensures forall i :: 0 <= i < |ids| ==> ids[i] == ranges[i].id
  {
    if ranges == [] then [] else [ranges[0].id] + Ids(ranges[1..])
  }
}
