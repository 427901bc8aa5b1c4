/** TraceJoiner and its TraceForest: a synthetic root trace that gathers
    several traces as children, a data dictionary and the set of regions
    those traces contacted. */
module TraceJoiner {
  import opened Wrappers

  /** A contacted region, the (name, endpoint) pair of the source; the
      endpoint URI is kept as opaque text. */
  datatype Region = Region(name: string, endpoint: string)

  /** A child trace as the forest sees it: the reference it stores and the
      region set it reports (null when the trace tracks none). */
  datatype Trace = Trace(name: string, regionsContacted: Option<set<Region>>)

  /** TraceDatum: only client-side request statistics carry regions. */
  datatype TraceDatum =
    | ClientSideRequestStatistics(statisticsRegions: Option<set<Region>>)
    | OtherDatum(description: string)

  /** A value of the data dictionary: a TraceDatum or any other object. */
  datatype DataValue = DatumValue(datum: TraceDatum) | ObjectValue(payload: string)

  datatype TraceLevel = Off | Error | Warning | Info | Verbose
  datatype TraceComponent = Unknown | Named(component: string)

  datatype JoinError = ArgumentNull(paramName: string)

  /** A trace's regions, with a null set read as empty. */
  function RegionsOf(t: Trace): set<Region>
  {
    if t.regionsContacted.Some? then t.regionsContacted.value else {}
  }

  /** The union of the region sets of a list of traces. */
  function Joined(traces: seq<Trace>): set<Region>
  {
    if traces == [] then {} else Joined(traces[..|traces| - 1]) + RegionsOf(traces[|traces| - 1])
  }

  /** A region is in the union exactly when some trace of the list reports it. */
  lemma {:induction false} JoinedMembers(traces: seq<Trace>, region: Region)
    ensures region in Joined(traces) <==> exists i :: 0 <= i < |traces| && region in RegionsOf(traces[i])
  {
    if traces != [] {
      var init := traces[..|traces| - 1];
      JoinedMembers(init, region);
      if region in Joined(init) {
        var i :| 0 <= i < |init| && region in RegionsOf(init[i]);
        assert traces[i] == init[i];
      }
      if exists i :: 0 <= i < |traces| && region in RegionsOf(traces[i]) {
        var i :| 0 <= i < |traces| && region in RegionsOf(traces[i]);
        if i < |init| {
          assert init[i] == traces[i];
        }
      }
    }
  }

  /** Appending a child adds exactly that child's regions to the union. */
  lemma JoinedAppend(traces: seq<Trace>, t: Trace)
    ensures Joined(traces + [t]) == Joined(traces) + RegionsOf(t)
  {
    assert (traces + [t])[..|traces|] == traces;
  }

  /** Every child's regions are in the union. */
  lemma {:induction false} JoinedCoversEach(traces: seq<Trace>, i: nat)
    requires i < |traces|
    ensures RegionsOf(traces[i]) <= Joined(traces)
  {
    forall region | region in RegionsOf(traces[i])
      ensures region in Joined(traces)
    {
      JoinedMembers(traces, region);
    }
  }

  /** The union of the children's region sets, as the forest's constructor
      builds it: starting from an empty set and unioning each child's set in
      turn. HashSet.UnionWith rejects a null set, so every child must report one. */
  method CollectRegions(children: seq<Trace>) returns (regions: set<Region>)
    requires forall i :: 0 <= i < |children| ==> children[i].regionsContacted.Some?
    ensures regions == Joined(children)
    ensures forall i :: 0 <= i < |children| ==> children[i].regionsContacted.value <= regions
  {
    regions := {};
    var k := 0;
    while k < |children|
      invariant 0 <= k <= |children|
      invariant regions == Joined(children[..k])
    {
      regions := regions + children[k].regionsContacted.value;
      assert children[..k + 1] == children[..k] + [children[k]];
      JoinedAppend(children[..k], children[k]);
      k := k + 1;
    }
    assert children[..k] == children;
    forall i | 0 <= i < |children|
      ensures children[i].regionsContacted.value <= regions
    {
      JoinedCoversEach(children, i);
    }
  }

  class TraceForest {
    const Name: string := "Trace Forest"
    /** Guid.Empty. */
    const Id: nat := 0
    const Level: TraceLevel := Info
    const Component: TraceComponent := Unknown
    /** A forest is always a root: it has no parent to propagate regions to. */
    const Parent: Option<Trace> := None

    var children: seq<Trace>
    var data: map<string, DataValue>
    var regionsContacted: set<Region>

    /** Every region a child reported is among the forest's regions. */
    ghost predicate Valid()
      reads this
    {
      Joined(children) <= regionsContacted
    }

    /** new TraceForest(children): copies the list, starts with no data, and
        sets the regions to the union of the children's. */
    constructor (children: seq<Trace>)
      requires forall i :: 0 <= i < |children| ==> children[i].regionsContacted.Some?
      ensures Valid()
      ensures this.children == children && data == map[]
      ensures regionsContacted == Joined(children)
    {
      this.children := children;
      this.data := map[];
      var regions := CollectRegions(children);
      this.regionsContacted := regions;
    }

    /** UpdateRegionContacted(HashSet): unions the new regions into the
        forest's own set and nothing else. */
    method UpdateRegionContacted(newRegions: set<Region>)
      requires Valid()
      modifies this
      ensures Valid()
      ensures regionsContacted == old(regionsContacted) + newRegions
      ensures children == old(children) && data == old(data)
    {
      regionsContacted := regionsContacted + newRegions;
    }

    /** UpdateRegionContacted(TraceDatum): only request statistics with a
        non-null, non-empty region set add regions. */
    method UpdateRegionContactedFromDatum(datum: TraceDatum)
      requires Valid()
      modifies this
      ensures Valid()
      ensures regionsContacted == old(regionsContacted) + DatumRegions(datum)
      ensures children == old(children) && data == old(data)
    {
      if datum.ClientSideRequestStatistics? {
        if datum.statisticsRegions.None? || |datum.statisticsRegions.value| == 0 {
          return;
        }
        UpdateRegionContacted(datum.statisticsRegions.value);
      }
    }

    /** AddChild: appends the trace and, when it reports a region set,
        unions that set in. */
    method AddChild(t: Trace)
      requires Valid()
      modifies this
      ensures Valid()
      ensures children == old(children) + [t]
      ensures regionsContacted == old(regionsContacted) + RegionsOf(t)
      ensures data == old(data)
    {
      children := children + [t];
      JoinedAppend(old(children), t);
      if t.regionsContacted.Some? {
        regionsContacted := regionsContacted + t.regionsContacted.value;
      }
    }

    /** AddDatum(string, TraceDatum): stores the datum under the key,
        replacing any earlier value, then takes its regions into account. */
    method AddDatum(key: string, datum: TraceDatum)
      requires Valid()
      modifies this
      ensures Valid()
      ensures data == old(data)[key := DatumValue(datum)]
      ensures regionsContacted == old(regionsContacted) + DatumRegions(datum)
      ensures children == old(children)
    {
      data := data[key := DatumValue(datum)];
      UpdateRegionContactedFromDatum(datum);
    }

    /** AddDatum(string, object): stores the value under the key, replacing
        any earlier value; the regions are untouched. */
    method AddObjectDatum(key: string, value: string)
      requires Valid()
      modifies this
      ensures Valid()
      ensures data == old(data)[key := ObjectValue(value)]
      ensures regionsContacted == old(regionsContacted) && children == old(children)
    {
      data := data[key := ObjectValue(value)];
    }
  }

  /** The regions a datum contributes: those of request statistics, and none
      from any other datum or from statistics without regions. */
  function DatumRegions(datum: TraceDatum): (r: set<Region>)
    ensures !datum.ClientSideRequestStatistics? ==> r == {}
    ensures datum.ClientSideRequestStatistics? && datum.statisticsRegions.Some? ==> r == datum.statisticsRegions.value
  {
    if datum.ClientSideRequestStatistics? && datum.statisticsRegions.Some? then datum.statisticsRegions.value else {}
  }

  /** JoinTraces(IReadOnlyList<ITrace>): a null list is rejected; otherwise a
      forest over a copy of the list. Building it unions every child's region
      set, which fails on a child whose set is null. */
  method JoinTraces(traces: Option<seq<Trace>>) returns (r: Result<TraceForest, JoinError>)
    ensures traces.None? ==> r == Failure(ArgumentNull("traces"))
    ensures traces.Some? && (exists i :: 0 <= i < |traces.value| && traces.value[i].regionsContacted.None?) ==>
      r == Failure(ArgumentNull("other"))
    ensures traces.Some? && (forall i :: 0 <= i < |traces.value| ==> traces.value[i].regionsContacted.Some?) ==>
      r.Success?
    ensures r.Success? ==>
      && traces.Some? && fresh(r.value) && r.value.Valid()
      && r.value.children == traces.value && r.value.data == map[]
      && r.value.regionsContacted == Joined(traces.value)
  {
    if traces.None? {
      return Failure(ArgumentNull("traces"));
    }
    if exists i :: 0 <= i < |traces.value| && traces.value[i].regionsContacted.None? {
      return Failure(ArgumentNull("other"));
    }
    var forest := new TraceForest(traces.value);
    r := Success(forest);
  }

  /** JoinTraces(params ITrace[]): rejects a null array, else joins a list
      copy of its elements. */
  method JoinTracesParams(traces: Option<array<Trace>>) returns (r: Result<TraceForest, JoinError>)
    ensures traces.None? ==> r == Failure(ArgumentNull("traces"))
    ensures traces.Some? && (exists i :: 0 <= i < traces.value.Length && traces.value[i].regionsContacted.None?) ==>
      r == Failure(ArgumentNull("other"))
    ensures traces.Some? && (forall i :: 0 <= i < traces.value.Length ==> traces.value[i].regionsContacted.Some?) ==>
      r.Success?
    ensures r.Success? ==>
      && traces.Some? && fresh(r.value) && r.value.Valid()
      && r.value.children == traces.value[..] && r.value.data == map[]
      && r.value.regionsContacted == Joined(traces.value[..])
  {
    if traces.None? {
      return Failure(ArgumentNull("traces"));
    }
    r := JoinTraces(Some(traces.value[..]));
  }
}
