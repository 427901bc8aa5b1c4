/** Resolution of a feed range against the routing map: GetEffectiveRangesAsync
    and GetPartitionKeyRangesAsync of the three variants. The variants' virtual
    overrides become one match per operation. */
module FeedRangeResolution {
  import opened Wrappers
  import opened FeedRanges
  import opened RoutingMapProvider

  /** GetEffectiveRangesAsync. The effective-range variant answers its own
      range and the logical-key variant the point range of its hashed key,
      neither consulting the provider. The range-id variant looks its id up
      without a refresh, looks it up once more with a forced refresh when the
      first lookup finds nothing, and fails with Gone /
      PartitionKeyRangeGone when the second finds nothing either. */
  method GetEffectiveRanges(
    feedRange: FeedRange,
    provider: Provider,
    containerRid: string,
    definition: Option<PartitionKeyDefinition>,
    hash: EffectivePartitionKeyHash)
    returns (r: Result<seq<EpkRange>, Error>)
    modifies provider
    ensures provider.overlapCalls == old(provider.overlapCalls)
    ensures feedRange.Epk? ==>
      r == Success([feedRange.range]) && unchanged(provider)
    ensures feedRange.LogicalKey? && definition.Some? ==>
      r == Success([PointRange(hash(feedRange.partitionKey, definition.value))]) && unchanged(provider)
    ensures feedRange.LogicalKey? && definition.None? ==>
      r == Failure(PartitionKeyDefinitionMissing) && unchanged(provider)
    // the first lookup finds the range: one call, without a refresh
    ensures feedRange.PkRangeId? && Answer(old(provider.byIdScript), 0).Some? ==>
      && r == Success([Answer(old(provider.byIdScript), 0).value.ToRange()])
      && provider.byIdCalls == old(provider.byIdCalls) + [ByIdCall(containerRid, feedRange.partitionKeyRangeId, false)]
      && provider.byIdScript == Advance(old(provider.byIdScript))
    // the first lookup misses: exactly one more call, with a forced refresh
    ensures feedRange.PkRangeId? && Answer(old(provider.byIdScript), 0).None? ==>
      && provider.byIdCalls == old(provider.byIdCalls) + [
           ByIdCall(containerRid, feedRange.partitionKeyRangeId, false),
           ByIdCall(containerRid, feedRange.partitionKeyRangeId, true)]
      && provider.byIdScript == Advance(Advance(old(provider.byIdScript)))
      && r == match Answer(old(provider.byIdScript), 1)
              case Some(pkRange) => Success([pkRange.ToRange()])
              case None => Failure(PartitionKeyRangeGone)
  {
    match feedRange
    case Epk(range) =>
      r := Success([range]);
    case LogicalKey(partitionKey) =>
      if definition.None? {
        r := Failure(PartitionKeyDefinitionMissing);
      } else {
        r := Success([PointRange(hash(partitionKey, definition.value))]);
      }
    case PkRangeId(id) =>
      ghost var script := provider.byIdScript;
      var pkRange := provider.TryGetPartitionKeyRangeById(containerRid, id, false);
      if pkRange.None? {
        // the cached routing map may be stale: try once more with a refresh
        pkRange := provider.TryGetPartitionKeyRangeById(containerRid, id, true);
        assert pkRange == Answer(script, 1);
      }
      if pkRange.None? {
        r := Failure(PartitionKeyRangeGone);
      } else {
        r := Success([pkRange.value.ToRange()]);
      }
  }

  /** GetPartitionKeyRangesAsync. The range-id variant answers its own id
      without any lookup. The other two variants make one overlap lookup,
      without a refresh, for their effective range and answer the ids of the
      ranges it reports, in order. */
  method GetPartitionKeyRanges(
    feedRange: FeedRange,
    provider: Provider,
    containerRid: string,
    definition: Option<PartitionKeyDefinition>,
    hash: EffectivePartitionKeyHash)
    returns (r: Result<seq<string>, Error>)
    modifies provider
    ensures provider.byIdScript == old(provider.byIdScript) && provider.byIdCalls == old(provider.byIdCalls)
    ensures feedRange.PkRangeId? ==>
      r == Success([feedRange.partitionKeyRangeId]) && unchanged(provider)
    ensures feedRange.LogicalKey? && definition.None? ==>
      r == Failure(PartitionKeyDefinitionMissing) && unchanged(provider)
    ensures feedRange.Epk? || (feedRange.LogicalKey? && definition.Some?) ==>
      var range := if feedRange.Epk? then feedRange.range
                   else PointRange(hash(feedRange.partitionKey, definition.value));
      && provider.overlapCalls == old(provider.overlapCalls) + [OverlapCall(containerRid, range, false)]
      && r == Success(Ids(Overlapping(provider.overlapTable, range)))
  {
    match feedRange
    case PkRangeId(id) =>
      r := Success([id]);
    case Epk(range) =>
      var overlapping := provider.TryGetOverlappingRanges(containerRid, range, false);
      r := Success(Ids(overlapping));
    case LogicalKey(partitionKey) =>
      if definition.None? {
        r := Failure(PartitionKeyDefinitionMissing);
      } else {
        var range := PointRange(hash(partitionKey, definition.value));
        var overlapping := provider.TryGetOverlappingRanges(containerRid, range, false);
        r := Success(Ids(overlapping));
      }
  }
}
