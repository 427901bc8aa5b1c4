# Feed-range routing and response state, modelled in Dafny

This project models four parts of the Azure Cosmos DB .NET SDK.

- **Feed ranges.** A feed range is one of three things: an effective-partition-key (EPK) range, a logical partition key, or a partition-key-range id. The model covers how each variant resolves to effective ranges (`GetEffectiveRangesAsync`, with the stale-cache retry of the by-id lookup) and to partition-key-range ids (`GetPartitionKeyRangesAsync`). It covers how `FeedRangeRequestMessagePopulatorVisitor` writes routing fields into a `RequestMessage`, and the `ToJsonString` / `FromJsonString` round trip.
- **`TraceJoiner` and its `TraceForest`.** This is a root trace with an append-only list of children, a last-write-wins data dictionary and a growing set of contacted regions.
- **`DocumentServiceResponse`.** The model covers the sub-status and item-count headers, the body guards, the item-count parse of `GetQueryResponse` and the idempotent `Dispose`.
- **`DiagnosticsFilterHelper.IsAllowed`.** This is a three-way threshold test.

The SDK classes that implement feed ranges (`FeedRangeEpk`, `FeedRangePartitionKey`, `FeedRangePartitionKeyRange`, the visitor, `FeedRange.FromJsonString`) are not part of this model. Their behaviour is taken from the assertions of `FeedRangeTests.cs`. `feed_range_scenarios.dfy` restates those tests. The three constructor tests become one lemma, `VariantPayloads`, and the three ToJson/FromJson tests become one method, `SerializationRoundTrip`. Every other test becomes its own method: it builds a fresh provider or request, runs the modelled operation and states the outcome the test asserts.

Layout:

- `wrappers.dfy`: `Option` and `Result`.
- `feed_range.dfy`: the value types.
- `routing_map_provider.dfy`: the routing-map provider. It is a class whose by-id lookup replays a scripted response sequence, whose overlap lookup answers from a table, and which logs every call.
- `feed_range_resolution.dfy`: the two resolution operations, as methods over that provider.
- `feed_range_visitor.dfy`: `RequestMessage` as a class, and `Accept`.
- `feed_range_codec.dfy`: the tagged encoding.
- `trace_joiner.dfy`: the trace forest.
- `number_parsing.dfy`: the .NET `TryParse` rules the response depends on.
- `document_service_response.dfy`: the response.
- `diagnostics_filter.dfy`: the filter.

Details the model takes from the code rather than from its comments or naming:

- `Range<string>.GetPointRange` builds `[key, key]` with both bounds inclusive.
- `DiagnosticsFilterHelper`'s doc comment says "not more than 100 ms", but the code allows only latencies strictly above 100 ms. The model follows the code.
- The cast `(SubStatusCodes)subStatus` converts a `uint` to an int-based enum without overflow checking. Values from 2^31 up therefore become negative, and the model writes that wrap-around out.

## Model

| member | source | states |
|---|---|---|
| FeedRanges.PointRange | Microsoft.Azure.Cosmos/tests/Microsoft.Azure.Cosmos.Tests/FeedRange/FeedRangeTests.cs:61 | the point range of an effective key is [key, key], both bounds inclusive |
| FeedRanges.PartitionKeyRange.ToRange | Microsoft.Azure.Cosmos/tests/Microsoft.Azure.Cosmos.Tests/FeedRange/FeedRangeTests.cs:78-79 | a partition-key range spans [MinInclusive, MaxExclusive): min inclusive, max exclusive |
| FeedRanges.Ids | Microsoft.Azure.Cosmos/tests/Microsoft.Azure.Cosmos.Tests/FeedRange/FeedRangeTests.cs:129-131 | the listed ids are the ranges' ids, one per range, in order |
| FeedRangeScenarios.VariantPayloads | Microsoft.Azure.Cosmos/tests/Microsoft.Azure.Cosmos.Tests/FeedRange/FeedRangeTests.cs:21-42 | each variant gives back the range, partition key or range id it was built from |
| RoutingMapProvider.Provider.TryGetPartitionKeyRangeById | Microsoft.Azure.Cosmos/tests/Microsoft.Azure.Cosmos.Tests/FeedRange/FeedRangeTests.cs:90-93 | a by-id lookup answers the next scripted response (null once the script is used up) and is recorded with its arguments |
| RoutingMapProvider.Provider.TryGetOverlappingRanges | Microsoft.Azure.Cosmos/tests/Microsoft.Azure.Cosmos.Tests/FeedRange/FeedRangeTests.cs:124-126 | an overlap lookup answers the ranges configured for that range (none otherwise) and is recorded |
| FeedRangeResolution.GetEffectiveRanges | Microsoft.Azure.Cosmos/tests/Microsoft.Azure.Cosmos.Tests/FeedRange/FeedRangeTests.cs:45-115 | effective range: [range], no lookup; logical key: [point range of its hash], no lookup; range id: one lookup without refresh if it finds the range, else exactly one more with refresh, then [min,max) or Gone/PartitionKeyRangeGone; never a third lookup |
| FeedRangeResolution.GetPartitionKeyRanges | Microsoft.Azure.Cosmos/tests/Microsoft.Azure.Cosmos.Tests/FeedRange/FeedRangeTests.cs:118-161 | range id: [its id] with no lookup; the other variants: one non-refresh overlap lookup for their effective range and the ids it reports, in order |
| FeedRangeVisitor.Accept | Microsoft.Azure.Cosmos/tests/Microsoft.Azure.Cosmos.Tests/FeedRange/FeedRangeTests.cs:164-198 | effective range writes StartEpk = min and EndEpk = max and nothing else; range id sets PartitionKeyRangeId and clears the handler flag; logical key sets the partition-key header to the key's JSON and clears the flag; all other fields are kept |
| FeedRangeVisitor.PopulatedIdempotent | Microsoft.Azure.Cosmos/tests/Microsoft.Azure.Cosmos.Tests/FeedRange/FeedRangeTests.cs:170 | visiting the same request twice with the same feed range leaves it as visiting once did |
| FeedRangeVisitor.EpkOnFreshRequest | Microsoft.Azure.Cosmos/tests/Microsoft.Azure.Cosmos.Tests/FeedRange/FeedRangeTests.cs:171-173 | on a new request the effective-range variant leaves exactly two properties, holding min and max |
| FeedRangeCodec.ToJson | Microsoft.Azure.Cosmos/tests/Microsoft.Azure.Cosmos.Tests/FeedRange/FeedRangeTests.cs:205 | every encoding is an object whose only member is its variant's tag: Range, PK or PKRangeId |
| FeedRangeCodec.FromJson | Microsoft.Azure.Cosmos/tests/Microsoft.Azure.Cosmos.Tests/FeedRange/FeedRangeTests.cs:206 | decoding rejects non-objects and untagged objects with MalformedFeedRange; under the Range tag it succeeds exactly when the range payload decodes, giving that range; a decoded key or id is the string under its tag |
| FeedRangeCodec.DecodeRange | Microsoft.Azure.Cosmos/tests/Microsoft.Azure.Cosmos.Tests/FeedRange/FeedRangeTests.cs:206-209 | a range payload decodes exactly when min and max are strings and both flags are booleans, and the result carries those four values; anything else is MalformedFeedRange |
| FeedRangeCodec.RoundTrip | Microsoft.Azure.Cosmos/tests/Microsoft.Azure.Cosmos.Tests/FeedRange/FeedRangeTests.cs:201-232 | FromJson(ToJson(f)) gives back f: same variant, same bounds and flags, key JSON or id |
| FeedRangeCodec.EncodingInjective | Microsoft.Azure.Cosmos/tests/Microsoft.Azure.Cosmos.Tests/FeedRange/FeedRangeTests.cs:201-232 | two feed ranges with the same encoding are equal |
| FeedRangeScenarios.EpkEffectiveRanges | Microsoft.Azure.Cosmos/tests/Microsoft.Azure.Cosmos.Tests/FeedRange/FeedRangeTests.cs:45-52 | with an unconfigured provider the effective-range variant resolves to exactly [range] and no lookup is made |
| FeedRangeScenarios.LogicalKeyEffectiveRanges | Microsoft.Azure.Cosmos/tests/Microsoft.Azure.Cosmos.Tests/FeedRange/FeedRangeTests.cs:55-65 | the logical-key variant resolves to the single point range of its effective key under the definition, with no lookup |
| FeedRangeScenarios.RangeIdFoundFirst | Microsoft.Azure.Cosmos/tests/Microsoft.Azure.Cosmos.Tests/FeedRange/FeedRangeTests.cs:68-82 | the range id found at once gives one range with the partition-key range's min and max, after exactly one non-refresh lookup |
| FeedRangeScenarios.RangeIdFoundOnRefresh | Microsoft.Azure.Cosmos/tests/Microsoft.Azure.Cosmos.Tests/FeedRange/FeedRangeTests.cs:85-100 | null then the range gives the same single range after exactly two lookups, the second with refresh |
| FeedRangeScenarios.RangeIdGone | Microsoft.Azure.Cosmos/tests/Microsoft.Azure.Cosmos.Tests/FeedRange/FeedRangeTests.cs:103-115 | null twice fails with status 410 (Gone) and sub-status 1002 (PartitionKeyRangeGone) after exactly two lookups |
| FeedRangeScenarios.EpkPartitionKeyRanges | Microsoft.Azure.Cosmos/tests/Microsoft.Azure.Cosmos.Tests/FeedRange/FeedRangeTests.cs:118-132 | the effective-range variant lists the one id the overlap lookup reports |
| FeedRangeScenarios.LogicalKeyPartitionKeyRanges | Microsoft.Azure.Cosmos/tests/Microsoft.Azure.Cosmos.Tests/FeedRange/FeedRangeTests.cs:135-151 | the logical-key variant lists the one id the overlap lookup reports for its point range |
| FeedRangeScenarios.RangeIdPartitionKeyRanges | Microsoft.Azure.Cosmos/tests/Microsoft.Azure.Cosmos.Tests/FeedRange/FeedRangeTests.cs:154-161 | the range-id variant lists [its id] with no lookup |
| FeedRangeScenarios.EpkOnRequest | Microsoft.Azure.Cosmos/tests/Microsoft.Azure.Cosmos.Tests/FeedRange/FeedRangeTests.cs:164-174 | a visited new request has exactly two properties, StartEpk = min and EndEpk = max |
| FeedRangeScenarios.RangeIdOnRequest | Microsoft.Azure.Cosmos/tests/Microsoft.Azure.Cosmos.Tests/FeedRange/FeedRangeTests.cs:177-186 | a visited new request carries the range id and no longer requires the handler |
| FeedRangeScenarios.LogicalKeyOnRequest | Microsoft.Azure.Cosmos/tests/Microsoft.Azure.Cosmos.Tests/FeedRange/FeedRangeTests.cs:189-198 | a visited new request carries the key's JSON as partition-key header and no longer requires the handler |
| FeedRangeScenarios.SerializationRoundTrip | Microsoft.Azure.Cosmos/tests/Microsoft.Azure.Cosmos.Tests/FeedRange/FeedRangeTests.cs:201-232 | serialising then deserialising yields the same feed range |
| TraceJoiner.JoinedMembers | Microsoft.Azure.Cosmos/src/Tracing/TraceJoiner.cs:50-54 | a region is in the union of the children's sets exactly when some child reports it |
| TraceJoiner.JoinedAppend | Microsoft.Azure.Cosmos/src/Tracing/TraceJoiner.cs:108-115 | appending a child adds exactly its regions to the union |
| TraceJoiner.JoinedCoversEach | Microsoft.Azure.Cosmos/src/Tracing/TraceJoiner.cs:51-54 | every child's regions are contained in the union |
| TraceJoiner.CollectRegions | Microsoft.Azure.Cosmos/src/Tracing/TraceJoiner.cs:50-54 | the loop builds the union of all children's region sets (empty for no children) |
| TraceJoiner.TraceForest.constructor | Microsoft.Azure.Cosmos/src/Tracing/TraceJoiner.cs:45-57 | children are a copy of the input in order, data is empty, regions are the union of the children's sets |
| TraceJoiner.TraceForest.UpdateRegionContacted | Microsoft.Azure.Cosmos/src/Tracing/TraceJoiner.cs:129-145 | regions grow by exactly the new set; children and data unchanged; nothing else is touched since there is no parent |
| TraceJoiner.TraceForest.UpdateRegionContactedFromDatum | Microsoft.Azure.Cosmos/src/Tracing/TraceJoiner.cs:117-127 | only request statistics with a non-null, non-empty set add regions; any other datum changes nothing |
| TraceJoiner.TraceForest.AddChild | Microsoft.Azure.Cosmos/src/Tracing/TraceJoiner.cs:108-115 | the trace is appended at the end; its regions are unioned in only when its set is non-null; data unchanged |
| TraceJoiner.TraceForest.AddDatum | Microsoft.Azure.Cosmos/src/Tracing/TraceJoiner.cs:81-85 | data[key] becomes the datum, overwriting; regions grow by the datum's regions |
| TraceJoiner.TraceForest.AddObjectDatum | Microsoft.Azure.Cosmos/src/Tracing/TraceJoiner.cs:87-90 | data[key] becomes the value, overwriting; regions and children unchanged |
| TraceJoiner.DatumRegions | Microsoft.Azure.Cosmos/src/Tracing/TraceJoiner.cs:119-126 | a datum other than request statistics contributes no region |
| TraceJoiner.JoinTraces | Microsoft.Azure.Cosmos/src/Tracing/TraceJoiner.cs:26-35 | null list: ArgumentNullException; a child with a null region set: ArgumentNullException from the union; otherwise always a fresh forest over the list in order, with empty data and the union of the regions |
| TraceJoiner.JoinTracesParams | Microsoft.Azure.Cosmos/src/Tracing/TraceJoiner.cs:16-24 | null array: ArgumentNullException; otherwise as the list overload on the array's elements, so a forest whenever every element has a region set |
| NumberParsing.ParseUInt32 | Microsoft.Azure.Cosmos/src/direct/DocumentServiceResponse.cs:212 | accepted exactly when the text denotes an integer in [0, 2^32), and then that integer |
| NumberParsing.ParseInt32 | Microsoft.Azure.Cosmos/src/direct/DocumentServiceResponse.cs:160 | accepted exactly when the text denotes an integer in [-2^31, 2^31), and then that integer |
| NumberParsing.ParseUInt32Decimal | Microsoft.Azure.Cosmos/src/direct/DocumentServiceResponse.cs:212 | the decimal text of every 32-bit unsigned value parses back to it |
| NumberParsing.ParseUInt32Overflow | Microsoft.Azure.Cosmos/src/direct/DocumentServiceResponse.cs:212 | the decimal text of any value from 2^32 up is rejected |
| NumberParsing.ParseInt32Decimal | Microsoft.Azure.Cosmos/src/direct/DocumentServiceResponse.cs:160 | the decimal text of every non-negative 32-bit value parses back to it |
| NumberParsing.AcceptsPaddedDigits | Microsoft.Azure.Cosmos/src/direct/DocumentServiceResponse.cs:212 | " 007 " parses as 7: surrounding white space and leading zeros are admitted |
| NumberParsing.AcceptsPlusSign | Microsoft.Azure.Cosmos/src/direct/DocumentServiceResponse.cs:212 | "+5" parses as 5 |
| NumberParsing.AcceptsNegativeZero | Microsoft.Azure.Cosmos/src/direct/DocumentServiceResponse.cs:212 | "-0" parses as the unsigned 0 |
| NumberParsing.NegativeValues | Microsoft.Azure.Cosmos/src/direct/DocumentServiceResponse.cs:160 | "-5" is the int -5 but no uint |
| NumberParsing.RejectsMalformed | Microsoft.Azure.Cosmos/src/direct/DocumentServiceResponse.cs:160 | a sign followed by white space, the empty text and a missing header are rejected |
| NumberParsing.WrapToInt32 | Microsoft.Azure.Cosmos/src/direct/DocumentServiceResponse.cs:214 | the cast to the int-based enum keeps the value modulo 2^32 within the int range, unchanged below 2^31 |
| DocumentServiceResponses.Header | Microsoft.Azure.Cosmos/src/direct/DocumentServiceResponse.cs:210 | a header is found exactly when present; a missing one reads as null |
| DocumentServiceResponses.SubStatusFromHeaders | Microsoft.Azure.Cosmos/src/direct/DocumentServiceResponse.cs:208-218 | missing or unparseable sub-status gives Unknown (0); a parsed one is its value modulo 2^32, as an int |
| DocumentServiceResponses.SubStatusRoundTrip | Microsoft.Azure.Cosmos/src/direct/DocumentServiceResponse.cs:208-218 | a decimal sub-status below 2^31 in the headers is read back exactly |
| DocumentServiceResponses.ItemCountFromHeaders | Microsoft.Azure.Cosmos/src/direct/DocumentServiceResponse.cs:160-163 | a missing or unparseable item count gives 0; otherwise the parsed int |
| DocumentServiceResponses.ItemCountRoundTrip | Microsoft.Azure.Cosmos/src/direct/DocumentServiceResponse.cs:160-163 | a decimal item count below 2^31 in the headers is read back exactly |
| DocumentServiceResponses.GuardsAgree | Microsoft.Azure.Cosmos/src/direct/DocumentServiceResponse.cs:124 | the guards of GetResource and GetInternalResource agree, and refuse exactly a null body and a seekable empty one |
| DocumentServiceResponses.QueryElements | Microsoft.Azure.Cosmos/src/direct/DocumentServiceResponse.cs:238-241 | a null body yields no elements |
| DocumentServiceResponses.DocumentServiceResponse.constructor | Microsoft.Azure.Cosmos/src/direct/DocumentServiceResponse.cs:26-37 | body, headers and status stored; sub-status computed from the headers; not disposed |
| DocumentServiceResponses.DocumentServiceResponse.WithStatistics | Microsoft.Azure.Cosmos/src/direct/DocumentServiceResponse.cs:39-52 | as the other constructor, also recording the statistics |
| DocumentServiceResponses.DocumentServiceResponse.SetHeaders | Microsoft.Azure.Cosmos/src/direct/DocumentServiceResponse.cs:77 | replacing the headers leaves the sub-status computed at construction and the request statistics |
| DocumentServiceResponses.DocumentServiceResponse.GetResource | Microsoft.Azure.Cosmos/src/direct/DocumentServiceResponse.cs:79-120 | default for a null or seekable empty body; a non-seekable body is replaced by a fresh seekable copy and disposed; otherwise the resource loaded from the body's bytes |
| DocumentServiceResponses.DocumentServiceResponse.GetInternalResource | Microsoft.Azure.Cosmos/src/direct/DocumentServiceResponse.cs:122-132 | a resource exactly when the body is non-null and not seekable-and-empty, loaded from its bytes |
| DocumentServiceResponses.DocumentServiceResponse.Dispose | Microsoft.Azure.Cosmos/src/direct/DocumentServiceResponse.cs:134-148 | the first call disposes the body, drops it and sets the flag; any later call changes nothing; headers, status, sub-status and request statistics are kept |
| DocumentServiceResponses.DocumentServiceResponse.GetQueryResponse | Microsoft.Azure.Cosmos/src/direct/DocumentServiceResponse.cs:158-206 | the item count comes from the header (0 fallback); the eager form fails for a negative count; otherwise the page elements |
| DiagnosticsFilter.IsAllowed | Microsoft.Azure.Cosmos/src/Telemetry/Diagnostics/Filters/DiagnosticsFilterHelper.cs:23-31 | allowed when latency > 100 ms, or charge > 100 RU, or the status is not a success; refused exactly when all three fail |
| DiagnosticsFilter.BoundaryIsFiltered | Microsoft.Azure.Cosmos/src/Telemetry/Diagnostics/Filters/DiagnosticsFilterHelper.cs:28-29 | a successful operation at exactly 100 ms and 100 RU is refused: both comparisons are strict |

## Left out

- The feed-range implementation classes are not part of this model. Their behaviour is modelled from the unit tests.
- The logical-key variant without a partition-key definition has no test. What the SDK does there is not part of this model. The model fails it with a `PartitionKeyDefinitionMissing` error.
- `GetEffectivePartitionKeyString` and the partition key's JSON encoding are foreign algorithms. The hash is a function parameter, and every property holds for any hash. A partition key is represented by its canonical JSON text.
- The textual JSON of a serialised feed range is not modelled. The codec maps to and from a tagged JSON value, not to characters.
- `async`/`Task`, `CancellationToken`, the `ITrace` argument and Moq mechanics are not modelled. The provider is a scripted, call-logging object. An overlap lookup that returns null, which `Select` would reject, is not modelled.
- `HandlerConstants` is not part of this model. The start and end property keys are the SDK's `x-ms-start-epk` and `x-ms-end-epk`, and the proofs rely only on the two being different.
- `FeedRangeVisitor.Accept`: `IsPartitionKeyRangeHandlerRequired` is modelled as a stored flag that defaults to true and is cleared by the visitor. It is not derived from other request fields.
- `TraceForest.StartChild` is not modelled, because it calls `Trace.GetRootTrace`, which is not part of this model. The no-op `Dispose` and the constant `CallerInfo`, `StartTime` and `Duration` are left out. `Name`, `Id` (`Guid.Empty` as 0), `Level`, `Component` and `Parent` are constants of the class.
- Child traces are values that carry their region set at the moment the forest reads it. Later changes inside a child object are not modelled. A null element of the child list, which would throw `NullReferenceException`, is not modelled.
- `TraceJoiner.TraceForest.UpdateRegionContacted`: takes a non-null set. Calling it directly with null throws in the source and is not modelled.
- Region URIs are opaque text.
- Null headers are not modelled. The response constructors read the sub-status header, which throws `NullReferenceException` for a null header collection; the model's headers are a non-null map.
- A null data key is not modelled. Both `TraceForest.AddDatum` overloads throw `ArgumentNullException` from the dictionary for one; the model's key is a non-null string.
- `INameValueCollection` is modelled as an exact-match map from name to value. Its case-insensitive names and comma-joined repeated values are not modelled.
- `NumberParsing.ParseInt32`: parses with the invariant culture's signs and ASCII digits, while `int.TryParse` in `GetQueryResponse` uses the current culture. The tolerance of .NET parsing for trailing NUL characters is not modelled.
- These parts of the response are foreign-library I/O and are not modelled:
  - the JSON token scan of `GetEnumerable` (a `scan` parameter stands in for it);
  - `Resource.LoadFrom` (a `load` parameter);
  - `AltLink` and `PathsHelper`;
  - type resolvers;
  - serializer settings;
  - `JsonReaderFactory`;
  - stream positions and `Seek`.
- The deferred evaluation of the lazy enumerable is not modelled.
- `DocumentServiceResponses.DocumentServiceResponse.GetResource`: does not model reading a body stream that someone else has already disposed, which throws `ObjectDisposedException`.
- `IsSuccess()` is not part of this model. It is a predicate parameter of `IsAllowed`.
- Latency is an integer number of `TimeSpan` ticks. The request charge is an exact real, so NaN and infinities are not modelled.
- `TelemetryHandler.cs`, the authorization benchmark, the concurrent-histogram test, `IChannel.cs` and `IAddressEnumerator.cs` are outside the core. They are I/O plumbing, a foreign crypto benchmark, concurrency, and interfaces without behaviour.
