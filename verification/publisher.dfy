/**
 * publisher.py's start-up: its catalog holds the `create_sensor` arguments
 * themselves, passed through unchecked, and every entry gets the next id.
 */
module Publisher {
  import opened SensorParams

  /** `(name, low, high, interval, fraction, decimal)`. */
  datatype Entry = Entry(name: string, params: Params)

  /** A catalog entry after start-up, with its id. */
  datatype Channel = Channel(id: nat, entry: Entry)

  /** The catalog the script ships with. */
  const Sensors: seq<Entry> := [
    Entry("temp01", Params(20, 40, 0, 0.8, 2)),
    Entry("hum01", Params(20, 100, 4, 0.9, 0)),
    Entry("gas01", Params(10, 30, 0, 0.8, 3)),
    Entry("smo01", Params(50, 150, 2, 0.8, 3)),
    Entry("sec01", Params(10, 30, 0, 0.8, 3)),
    Entry("mot01", Params(10, 30, 0, 0.8, 3)),
    Entry("pow01", Params(10, 30, 0, 0.8, 3)),
    Entry("temp02", Params(10, 30, 2, 0.8, 3)),
    Entry("hum02", Params(10, 30, 2, 0.8, 3)),
    Entry("temp03", Params(10, 30, 2, 0.8, 3))
  ]

  /** The start-up loop: `seed` is bumped once per entry, so entry `i` gets id `i`. */
  method InitSensors(catalog: seq<Entry>) returns (channels: seq<Channel>)
    ensures |channels| == |catalog|
    ensures forall i :: 0 <= i < |catalog| ==> channels[i] == Channel(i, catalog[i])
  {
    var seed := -1;
    channels := [];
    for k := 0 to |catalog|
      invariant seed == k - 1
      invariant |channels| == k
      invariant forall i :: 0 <= i < k ==> channels[i] == Channel(i, catalog[i])
    {
      seed := seed + 1;
      channels := channels + [Channel(seed, catalog[k])];
    }
  }

  /** Every shipped sensor passes validation and has a non-empty draw range, so none stops on its first pass. */
  lemma ShippedSensorsRun()
    ensures forall i :: 0 <= i < |Sensors| ==>
      WellFormed(Sensors[i].params) && Sensors[i].params.low < Sensors[i].params.high
  {
  }
}
