/**
 * group05a_script.py's start-up: the sensor catalog, the table of sensor
 * types, resolving each catalog entry to an argument list for
 * `create_sensor`, and handing out the sensor ids.
 */
module Group05a {
  import opened Results
  import opened SensorParams
  import opened Trigger

  /** `sensor[0]`: the name, which has to be a `str`. */
  datatype Name = Text(s: string) | NotText

  /** `sensor[1]`: a sensor type, an explicit parameter list, or anything else. */
  datatype Spec = TypeName(t: string) | Explicit(p: Params) | Unusable

  /** One `(name, type/params)` pair of the catalog. */
  datatype Entry = Entry(name: Name, spec: Spec)

  datatype ResolveError = NameNotString | UnavailableType(t: string) | InvalidSpec

  /** The arguments a generator thread is started with. */
  datatype Launch = Launch(name: string, params: Params)

  /** A catalog entry after start-up: its id and what it resolved to. */
  datatype Channel = Channel(id: nat, launch: Result<Launch, ResolveError>)

  /** The sensor types the script ships with. */
  const SensorTypes: map<string, Params> := map[
    "co2" := Params(400, 1000, 30, 0.7, 0),
    "smoke" := Params(1, 1, 0, 1.0, 0),
    "pressure" := Params(90, 120, 30, 0.9, 2),
    "occupancy" := Params(1, 1, 0, 1.0, 0),
    "counting" := Params(0, 1000, 3600, 1.0, 0),
    "level" := Params(0, 20, 60, 0.9, 1),
    "capacity" := Params(0, 3000, 3600, 0.6, 1)
  ]

  /** The catalog the script ships with. */
  const Sensors: seq<Entry> := [
    Entry(Text("co201"), TypeName("co2")),
    Entry(Text("smo01"), TypeName("smoke")),
    Entry(Text("pres01"), TypeName("pressure")),
    Entry(Text("occ01"), TypeName("occupancy")),
    Entry(Text("cou01"), TypeName("counting")),
    Entry(Text("lev01"), TypeName("level")),
    Entry(Text("cap01"), TypeName("capacity")),
    Entry(Text("co202"), Explicit(Params(700, 2000, 30, 0.7, 0))),
    Entry(Text("pres02"), TypeName("pressure")),
    Entry(Text("lev02"), Explicit(Params(0, 10, 60, 0.9, 1)))
  ]

  /** Build the argument list of one catalog entry: the name is checked first, then the spec. */
  function Resolve(e: Entry, types: map<string, Params>): (r: Result<Launch, ResolveError>)
    ensures r.Success? <==>
      e.name.Text? && (e.spec.Explicit? || (e.spec.TypeName? && e.spec.t in types))
    ensures r.Success? ==> r.value.name == e.name.s
    ensures r.Success? && e.spec.TypeName? ==> r.value.params == types[e.spec.t]
    ensures r.Success? && e.spec.Explicit? ==> r.value.params == e.spec.p
    ensures r == Failure(NameNotString) <==> e.name.NotText?
    ensures r.Failure? && r.error.UnavailableType? ==>
      e.name.Text? && e.spec == TypeName(r.error.t) && r.error.t !in types
    ensures e.name.Text? && e.spec.TypeName? && e.spec.t !in types ==>
      r == Failure(UnavailableType(e.spec.t))
    ensures e.name.Text? && e.spec.Unusable? ==> r == Failure(InvalidSpec)
  {
    match e.name
    case NotText => Failure(NameNotString)
    case Text(n) =>
      match e.spec
      case TypeName(t) =>
        if t !in types then Failure(UnavailableType(t)) else Success(Launch(n, types[t]))
      case Explicit(p) => Success(Launch(n, p))
      case Unusable => Failure(InvalidSpec)
  }

  /**
   * The start-up loop: `seed` is bumped for every entry before anything is checked,
   * so entry `i` gets id `i` whether or not it resolves.
   */
  method InitSensors(catalog: seq<Entry>, types: map<string, Params>) returns (channels: seq<Channel>)
    ensures |channels| == |catalog|
    ensures forall i :: 0 <= i < |catalog| ==>
      channels[i].id == i && channels[i].launch == Resolve(catalog[i], types)
  {
    var seed := -1;
    channels := [];
    for k := 0 to |catalog|
      invariant seed == k - 1
      invariant |channels| == k
      invariant forall i :: 0 <= i < k ==>
        channels[i].id == i && channels[i].launch == Resolve(catalog[i], types)
    {
      seed := seed + 1;
      channels := channels + [Channel(seed, Resolve(catalog[k], types))];
    }
  }

  /** A channel whose generator reads `trigger`: its entry resolved, its parameters
      passed `create_sensor`'s checks, and its interval is 0. */
  predicate Triggered(c: Channel)
  {
    c.launch.Success? && Validate(c.launch.value.params).Success? && !Periodic(c.launch.value.params)
  }

  /** The ids of the channels from index `from` on that `keep` selects, in catalog order. */
  function IdsFrom(channels: seq<Channel>, keep: Channel -> bool, from: nat): seq<nat>
    requires from <= |channels|
    decreases |channels| - from
  {
    if from == |channels| then []
    else (if keep(channels[from]) then [channels[from].id] else []) + IdsFrom(channels, keep, from + 1)
  }

  /** The ids of the triggered channels, in catalog order. */
  function TriggeredIds(channels: seq<Channel>): seq<nat>
  {
    IdsFrom(channels, Triggered, 0)
  }

  /** When ids are positions, every selected id names a selected channel at or after `from`. */
  lemma {:induction false} IdsFromSound(channels: seq<Channel>, keep: Channel -> bool, from: nat)
    requires from <= |channels|
    requires forall i :: 0 <= i < |channels| ==> channels[i].id == i
    ensures forall id :: id in IdsFrom(channels, keep, from) ==>
      from <= id < |channels| && keep(channels[id])
    decreases |channels| - from
  {
    if from < |channels| {
      IdsFromSound(channels, keep, from + 1);
      if keep(channels[from]) {
        assert IdsFrom(channels, keep, from) == [from] + IdsFrom(channels, keep, from + 1);
      } else {
        assert IdsFrom(channels, keep, from) == IdsFrom(channels, keep, from + 1);
      }
    }
  }

  /** When ids are positions, the selected ids are strictly increasing. */
  lemma {:induction false} IdsFromIncreasing(channels: seq<Channel>, keep: Channel -> bool, from: nat)
    requires from <= |channels|
    requires forall i :: 0 <= i < |channels| ==> channels[i].id == i
    ensures forall k, m :: 0 <= k < m < |IdsFrom(channels, keep, from)| ==>
      IdsFrom(channels, keep, from)[k] < IdsFrom(channels, keep, from)[m]
    decreases |channels| - from
  {
    if from < |channels| {
      IdsFromIncreasing(channels, keep, from + 1);
      var tail := IdsFrom(channels, keep, from + 1);
      if keep(channels[from]) {
        IdsFromSound(channels, keep, from + 1);
        assert IdsFrom(channels, keep, from) == [from] + tail;
        assert forall m :: 0 <= m < |tail| ==> tail[m] in tail;
      } else {
        assert IdsFrom(channels, keep, from) == tail;
      }
    }
  }

  /** When ids are positions, the id of every selected channel at or after `from` is listed. */
  lemma {:induction false} IdsFromComplete(channels: seq<Channel>, keep: Channel -> bool, from: nat)
    requires from <= |channels|
    requires forall i :: 0 <= i < |channels| ==> channels[i].id == i
    ensures forall i :: from <= i < |channels| && keep(channels[i]) ==> i in IdsFrom(channels, keep, from)
    decreases |channels| - from
  {
    if from < |channels| {
      IdsFromComplete(channels, keep, from + 1);
      if keep(channels[from]) {
        assert IdsFrom(channels, keep, from) == [from] + IdsFrom(channels, keep, from + 1);
      } else {
        assert IdsFrom(channels, keep, from) == IdsFrom(channels, keep, from + 1);
      }
    }
  }

  /**
   * After start-up, a code the operator enters is picked up, while the triggered
   * sensors poll, by the sensor with that id if it is a running triggered sensor,
   * and by no other; otherwise nobody picks it up and it stays in the slot.
   */
  lemma TriggerReachesOnlyOwner(channels: seq<Channel>, code: int)
    requires forall i :: 0 <= i < |channels| ==> channels[i].id == i
    ensures var ids := TriggeredIds(channels);
      forall k :: 0 <= k < |ids| ==> (PollRound(code, ids).0[k] <==> ids[k] == code)
    ensures var owner := 0 <= code < |channels| && Triggered(channels[code]);
      CountTrue(PollRound(code, TriggeredIds(channels)).0) == (if owner then 1 else 0)
      && PollRound(code, TriggeredIds(channels)).1 == (if owner then NoTrigger else code)
  {
    var ids := TriggeredIds(channels);
    IdsFromSound(channels, Triggered, 0);
    IdsFromIncreasing(channels, Triggered, 0);
    IdsFromComplete(channels, Triggered, 0);
    PollRoundMatchesOwner(code, ids);
    assert code in ids <==> 0 <= code < |channels| && Triggered(channels[code]);
  }

  /** Every shipped catalog entry resolves, and its parameters pass `create_sensor`'s checks. */
  lemma ShippedCatalogStarts()
    ensures forall i :: 0 <= i < |Sensors| ==>
      Resolve(Sensors[i], SensorTypes).Success? && WellFormed(Resolve(Sensors[i], SensorTypes).value.params)
  {
    assert forall t :: t in SensorTypes ==> WellFormed(SensorTypes[t]);
  }

  /** In the shipped catalog exactly the smoke sensor (id 1) and the occupancy sensor (id 3) are triggered. */
  lemma ShippedTriggeredIds(channels: seq<Channel>)
    requires |channels| == |Sensors|
    requires forall i :: 0 <= i < |channels| ==> channels[i] == Channel(i, Resolve(Sensors[i], SensorTypes))
    ensures forall id :: id in TriggeredIds(channels) <==> id == 1 || id == 3
  {
    IdsFromSound(channels, Triggered, 0);
    IdsFromComplete(channels, Triggered, 0);
    forall i | 0 <= i < |channels|
      ensures Triggered(channels[i]) <==> i == 1 || i == 3
    {
      assert Sensors[i].name.Text? && Sensors[i].spec != Unusable;
      assert Sensors[i].spec.TypeName? ==> Sensors[i].spec.t in SensorTypes;
    }
  }
}
