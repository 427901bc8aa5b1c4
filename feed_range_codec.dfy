/** ToJsonString / FeedRange.FromJsonString as an abstract tagged encoding: a
    feed range becomes a JSON object whose single member names the variant
    ("Range", "PK" or "PKRangeId") and carries its payload. Rendering that
    value as text is not part of this model. */
module FeedRangeCodec {
  import opened Wrappers
  import opened FeedRanges

  datatype Json =
    | JString(str: string)
    | JBool(b: bool)
    | JObject(members: map<string, Json>)

  const RangeTag: string := "Range"
  const PartitionKeyTag: string := "PK"
  const RangeIdTag: string := "PKRangeId"

  function EncodeRange(range: EpkRange): Json
  {
    JObject(map[
      "min" := JString(range.min),
      "max" := JString(range.max),
      "isMinInclusive" := JBool(range.isMinInclusive),
      "isMaxInclusive" := JBool(range.isMaxInclusive)])
  }

  /** ToJsonString, one tagged member per variant. */
  function ToJson(feedRange: FeedRange): (j: Json)
    ensures j.JObject? && |j.members.Keys| == 1
    ensures feedRange.Epk? ==> j.members.Keys == {RangeTag}
    ensures feedRange.LogicalKey? ==> j.members.Keys == {PartitionKeyTag}
    ensures feedRange.PkRangeId? ==> j.members.Keys == {RangeIdTag}
  {
    match feedRange
    case Epk(range) => JObject(map[RangeTag := EncodeRange(range)])
    case LogicalKey(partitionKey) => JObject(map[PartitionKeyTag := JString(partitionKey.json)])
    case PkRangeId(id) => JObject(map[RangeIdTag := JString(id)])
  }

  function StringMember(members: map<string, Json>, name: string): Option<string>
  {
    if name in members && members[name].JString? then Some(members[name].str) else None
  }

  function BoolMember(members: map<string, Json>, name: string): Option<bool>
  {
    if name in members && members[name].JBool? then Some(members[name].b) else None
  }

  /** A range payload: an object with string bounds "min" and "max" and
      boolean flags "isMinInclusive" and "isMaxInclusive". */
  function DecodeRange(j: Json): (r: Result<EpkRange, Error>)
    ensures r.Success? <==>
      && j.JObject?
      && "min" in j.members && j.members["min"].JString?
      && "max" in j.members && j.members["max"].JString?
      && "isMinInclusive" in j.members && j.members["isMinInclusive"].JBool?
      && "isMaxInclusive" in j.members && j.members["isMaxInclusive"].JBool?
    ensures r.Success? ==> r.value == EpkRange(
      j.members["min"].str, j.members["max"].str,
      j.members["isMinInclusive"].b, j.members["isMaxInclusive"].b)
    ensures r.Failure? ==> r.error == MalformedFeedRange
  {
    if !j.JObject? then Failure(MalformedFeedRange)
    else
      var min := StringMember(j.members, "min");
      var max := StringMember(j.members, "max");
      var minInclusive := BoolMember(j.members, "isMinInclusive");
      var maxInclusive := BoolMember(j.members, "isMaxInclusive");
      if min.None? || max.None? || minInclusive.None? || maxInclusive.None? then Failure(MalformedFeedRange)
      else Success(EpkRange(min.value, max.value, minInclusive.value, maxInclusive.value))
  }

  /** FeedRange.FromJsonString: the variant is chosen by the tag present, and
      input with no recognised tag or an ill-formed payload is rejected. */
  function FromJson(j: Json): (r: Result<FeedRange, Error>)
    ensures r.Failure? ==> r.error == MalformedFeedRange
    ensures !j.JObject? ==> r.Failure?
    ensures j.JObject? && RangeTag !in j.members && PartitionKeyTag !in j.members && RangeIdTag !in j.members
      ==> r.Failure?
    ensures j.JObject? && RangeTag in j.members ==>
      (r.Success? <==> DecodeRange(j.members[RangeTag]).Success?)
      && (r.Success? ==> r == Success(Epk(DecodeRange(j.members[RangeTag]).value)))
    ensures r.Success? && r.value.Epk? ==> j.JObject? && RangeTag in j.members
    ensures r.Success? && r.value.LogicalKey? ==> j.JObject? && PartitionKeyTag in j.members && j.members[PartitionKeyTag] == JString(r.value.partitionKey.json)
    ensures r.Success? && r.value.PkRangeId? ==> j.JObject? && RangeIdTag in j.members && j.members[RangeIdTag] == JString(r.value.partitionKeyRangeId)
  {
    if !j.JObject? then Failure(MalformedFeedRange)
    else if RangeTag in j.members then
      match DecodeRange(j.members[RangeTag])
      case Success(range) => Success(Epk(range))
      case Failure(e) => Failure(e)
    else if PartitionKeyTag in j.members then
      match StringMember(j.members, PartitionKeyTag)
      case Some(json) => Success(LogicalKey(PartitionKey(json)))
      case None => Failure(MalformedFeedRange)
    else if RangeIdTag in j.members then
      match StringMember(j.members, RangeIdTag)
      case Some(id) => Success(PkRangeId(id))
      case None => Failure(MalformedFeedRange)
    else Failure(MalformedFeedRange)
  }

  /** Decoding an encoded feed range gives back the same variant with the same
      bounds and flags, the same key JSON or the same id. */
  lemma RoundTrip(feedRange: FeedRange)
    ensures FromJson(ToJson(feedRange)) == Success(feedRange)
  {
    match feedRange
    case Epk(range) =>
      assert DecodeRange(EncodeRange(range)) == Success(range);
    case LogicalKey(_) =>
    case PkRangeId(_) =>
  }

  /** Distinct feed ranges never share an encoding. */
  lemma EncodingInjective(f: FeedRange, g: FeedRange)
    requires ToJson(f) == ToJson(g)
    ensures f == g
  {
    RoundTrip(f);
    RoundTrip(g);
  }
}
