/** IRoutingMapProvider as the feed-range operations consume it: a lookup of a
    partition-key range by id and a lookup of the ranges overlapping an
    effective range. Each lookup is scripted, and every call is logged with
    its arguments, so that the number and order of calls can be stated. */
module RoutingMapProvider {
  import opened Wrappers
  import opened FeedRanges

  /** One call of TryGetPartitionKeyRangeByIdAsync. */
  datatype ByIdCall = ByIdCall(containerRid: string, partitionKeyRangeId: string, forceRefresh: bool)

  /** One call of TryGetOverlappingRangesAsync. */
  datatype OverlapCall = OverlapCall(containerRid: string, range: EpkRange, forceRefresh: bool)

  /** The k-th answer of a response script; once the script is used up every
      further call answers null, as a mocked sequence does. */
  function Answer(script: seq<Option<PartitionKeyRange>>, k: nat): (r: Option<PartitionKeyRange>)
    ensures k >= |script| ==> r == None
    ensures k < |script| ==> r == script[k]
  {
    if k < |script| then script[k] else None
  }

  /** The script left after one call has consumed its first answer. */
  function Advance(script: seq<Option<PartitionKeyRange>>): (rest: seq<Option<PartitionKeyRange>>)
    ensures forall k: nat :: Answer(rest, k) == Answer(script, k + 1)
  {
    if script == [] then [] else script[1..]
  }

  /** The ranges the overlap lookup reports for a range; a range the provider
      knows nothing about overlaps no partition-key range. */
  function Overlapping(table: map<EpkRange, seq<PartitionKeyRange>>, range: EpkRange): (r: seq<PartitionKeyRange>)
    ensures range in table ==> r == table[range]
    ensures range !in table ==> r == []
  {
    if range in table then table[range] else []
  }

  class Provider {
    /** Answers still to be given by the by-id lookup, in order. */
    var byIdScript: seq<Option<PartitionKeyRange>>
    /** What the overlap lookup answers for each range. */
    const overlapTable: map<EpkRange, seq<PartitionKeyRange>>
    /** Every by-id call made so far, oldest first. */
    var byIdCalls: seq<ByIdCall>
    /** Every overlap call made so far, oldest first. */
    var overlapCalls: seq<OverlapCall>

    constructor (byIdScript: seq<Option<PartitionKeyRange>>, overlapTable: map<EpkRange, seq<PartitionKeyRange>>)
      ensures this.byIdScript == byIdScript && this.overlapTable == overlapTable
      ensures byIdCalls == [] && overlapCalls == []
    {
      this.byIdScript := byIdScript;
      this.overlapTable := overlapTable;
      byIdCalls := [];
      overlapCalls := [];
    }

    /** TryGetPartitionKeyRangeByIdAsync: answers the next scripted response
        and records the call. */
    method TryGetPartitionKeyRangeById(containerRid: string, partitionKeyRangeId: string, forceRefresh: bool)
      returns (r: Option<PartitionKeyRange>)
      modifies this
      ensures r == Answer(old(byIdScript), 0)
      ensures byIdScript == Advance(old(byIdScript))
      ensures byIdCalls == old(byIdCalls) + [ByIdCall(containerRid, partitionKeyRangeId, forceRefresh)]
      ensures overlapCalls == old(overlapCalls)
    {
      r := Answer(byIdScript, 0);
      byIdScript := Advance(byIdScript);
      byIdCalls := byIdCalls + [ByIdCall(containerRid, partitionKeyRangeId, forceRefresh)];
    }

    /** TryGetOverlappingRangesAsync: answers from the table and records the call. */
    method TryGetOverlappingRanges(containerRid: string, range: EpkRange, forceRefresh: bool)
      returns (r: seq<PartitionKeyRange>)
      modifies this
      ensures r == Overlapping(overlapTable, range)
      ensures overlapCalls == old(overlapCalls) + [OverlapCall(containerRid, range, forceRefresh)]
      ensures byIdScript == old(byIdScript) && byIdCalls == old(byIdCalls)
    {
      r := Overlapping(overlapTable, range);
      overlapCalls := overlapCalls + [OverlapCall(containerRid, range, forceRefresh)];
    }
  }
}
