/**
 * One virtual sensor: `create_sensor`'s start-up and the body of its endless
 * generation loop, one pass per random draw.
 */
module Generator {
  import opened Results
  import opened SensorParams
  import opened Rounding
  import opened Trigger

  /** Base MQTT topic; a sensor publishes on `Topic + "/" + name`. */
  const Topic: string := "/group05a"

  /** The two scripts differ in one place: whether a sensor with `low == high` has a draw. */
  datatype Variant = Group05aScript | PublisherScript

  /** Starting value: the middle of the output limits. */
  function Midpoint(p: Params): (m: real)
    requires p.low <= p.high
    ensures p.low as real <= m <= p.high as real
    ensures m - p.low as real == p.high as real - m
  {
    (p.low + p.high) as real / 2.0
  }

  /** Decimal places as given to `round`: 0 becomes "none", i.e. round to a whole number. */
  function Places(decimal: int): Option<int>
  {
    if decimal == 0 then None else Some(decimal)
  }

  /** Replacing 0 places by `None` changes the type Python's `round` returns, not the value. */
  lemma PlacesKeepsValue(x: real, decimal: int)
    ensures RoundTo(x, Places(decimal)) == RoundTo(x, Some(decimal))
  {
    if decimal == 0 {
      assert Scale(0) == 1.0;
      assert Shift(x, 0) == x;
      assert Unshift(RoundHalfEven(x) as real, 0) == RoundHalfEven(x) as real;
    }
  }

  /** The unrounded update: `fraction` of the previous value, the rest from the draw. */
  function Blend(fraction: real, previous: real, draw: real): real
  {
    fraction * previous + (1.0 - fraction) * draw
  }

  /** In publisher.py every pass asks numpy for an integer in `[low, high)`, which
      raises when the range is empty; the exception ends that sensor's generator. */
  predicate DrawRaises(variant: Variant, p: Params)
  {
    variant == PublisherScript && p.low == p.high
  }

  /** The draws numpy can return for these parameters (any, when no draw is made). */
  predicate InDrawRange(p: Params, draw: int)
  {
    p.low < p.high ==> p.low <= draw < p.high
  }

  /** The number blended in: the random draw, or `low` itself for a constant sensor. */
  function DrawUsed(p: Params, draw: int): int
  {
    if p.low != p.high then draw else p.low
  }

  /** The value after one pass of the generation loop. */
  function NextValue(p: Params, previous: real, draw: int): (r: real)
    ensures HasPlaces(r, Places(p.decimal))
    ensures var b := Blend(p.fraction, previous, DrawUsed(p, draw) as real);
      if p.decimal == 0 then b - 0.5 <= r <= b + 0.5
      else b - 0.5 / Scale(p.decimal) <= r <= b + 0.5 / Scale(p.decimal)
  {
    RoundTo(Blend(p.fraction, previous, DrawUsed(p, draw) as real), Places(p.decimal))
  }

  /** The values computed by successive passes from `start`, one per draw. */
  function Trajectory(p: Params, start: real, draws: seq<int>): (vs: seq<real>)
    ensures |vs| == |draws|
    decreases |draws|
  {
    if draws == [] then []
    else
      var next := NextValue(p, start, draws[0]);
      [next] + Trajectory(p, next, draws[1..])
  }

  /** Every computed value has `decimal` places: whole numbers for `decimal == 0`. */
  lemma {:induction false} TrajectoryHasPlaces(p: Params, start: real, draws: seq<int>)
    ensures forall i :: 0 <= i < |draws| ==> HasPlaces(Trajectory(p, start, draws)[i], Places(p.decimal))
    decreases |draws|
  {
    if draws != [] {
      var next := NextValue(p, start, draws[0]);
      TrajectoryHasPlaces(p, next, draws[1..]);
      assert Trajectory(p, start, draws) == [next] + Trajectory(p, next, draws[1..]);
    }
  }

  /** The current value after the values `vs` were computed from `start`. */
  function Last(start: real, vs: seq<real>): real
  {
    if vs == [] then start else vs[|vs| - 1]
  }

  /** The messages for values `vs` on one subtopic. */
  function Tagged(subtopic: string, vs: seq<real>): seq<(string, real)>
  {
    seq(|vs|, i requires 0 <= i < |vs| => (subtopic, vs[i]))
  }

  /** A convex combination of two points of an interval lies in the interval. */
  lemma BlendBetween(f: real, v: real, d: real, lo: real, hi: real)
    requires 0.0 <= f <= 1.0
    requires lo <= v <= hi && lo <= d <= hi
    ensures lo <= Blend(f, v, d) <= hi
  {
    var g := 1.0 - f;
    LowerHalf(f, g, v, d, lo);
    LowerHalf(f, g, -v, -d, -hi);
    assert f * -v + g * -d == -(f * v + g * d);
  }

  /** Weights summing to one keep a combination above a common lower bound. */
  lemma LowerHalf(f: real, g: real, v: real, d: real, lo: real)
    requires 0.0 <= f && 0.0 <= g && f + g == 1.0
    requires lo <= v && lo <= d
    ensures lo <= f * v + g * d
  {
    assert f * v + g * d - lo == f * (v - lo) + g * (d - lo);
    assert f * (v - lo) >= 0.0;
    assert g * (d - lo) >= 0.0;
  }

  /** With `0 <= fraction <= 1` and a non-negative number of places, a pass keeps the
      value within the documented output limits. */
  lemma NextValueInRange(p: Params, v: real, draw: int)
    requires WellFormed(p) && 0.0 <= p.fraction && p.decimal >= 0
    requires p.low as real <= v <= p.high as real
    requires InDrawRange(p, draw)
    ensures p.low as real <= NextValue(p, v, draw) <= p.high as real
  {
    var r := DrawUsed(p, draw);
    BlendBetween(p.fraction, v, r as real, p.low as real, p.high as real);
    RoundToBetweenIntegers(Blend(p.fraction, v, r as real), Places(p.decimal), p.low, p.high);
  }

  /** Every value a sensor computes stays within `[low, high]`. */
  lemma {:induction false} TrajectoryInRange(p: Params, start: real, draws: seq<int>)
    requires WellFormed(p) && 0.0 <= p.fraction && p.decimal >= 0
    requires p.low as real <= start <= p.high as real
    requires forall i :: 0 <= i < |draws| ==> InDrawRange(p, draws[i])
    ensures forall i :: 0 <= i < |draws| ==>
      p.low as real <= Trajectory(p, start, draws)[i] <= p.high as real
    decreases |draws|
  {
    if draws != [] {
      var next := NextValue(p, start, draws[0]);
      NextValueInRange(p, start, draws[0]);
      TrajectoryInRange(p, next, draws[1..]);
      assert forall i :: 1 <= i < |draws| ==>
        Trajectory(p, start, draws)[i] == Trajectory(p, next, draws[1..])[i - 1];
    }
  }

  /** A sensor with `low == high` starts at `low` and stays there, whatever the fraction. */
  lemma {:induction false} ConstantSensor(p: Params, draws: seq<int>)
    requires p.low == p.high && p.decimal >= 0
    ensures Midpoint(p) == p.low as real
    ensures forall i :: 0 <= i < |draws| ==> Trajectory(p, Midpoint(p), draws)[i] == p.low as real
    decreases |draws|
  {
    if draws != [] {
      var l := p.low as real;
      assert Blend(p.fraction, l, l) == l;
      RoundToOfInt(p.low, Places(p.decimal));
      assert NextValue(p, l, draws[0]) == l;
      ConstantSensor(p, draws[1..]);
    }
  }

  /** Computing one more value extends the trajectory by that value. */
  lemma {:induction false} TrajectorySnoc(p: Params, start: real, draws: seq<int>, d: int)
    ensures Trajectory(p, start, draws + [d]) ==
      Trajectory(p, start, draws) + [NextValue(p, Last(start, Trajectory(p, start, draws)), d)]
    decreases |draws|
  {
    if draws == [] {
      assert draws + [d] == [d];
    } else {
      var next := NextValue(p, start, draws[0]);
      assert (draws + [d])[1..] == draws[1..] + [d];
      TrajectorySnoc(p, next, draws[1..], d);
    }
  }

  /** A negative fraction passes validation, and the first pass already leaves `[low, high]`. */
  lemma NegativeFractionLeavesLimits()
    ensures var p := Params(0, 10, 30, -1.0, 0);
      Validate(p).Success? && NextValue(p, Midpoint(p), 0) == -5.0
  {
    RoundHalfEvenOfInt(-5);
  }

  /** A negative number of places passes validation and can round the value out of `[low, high]`. */
  lemma NegativeDecimalLeavesLimits()
    ensures var p := Params(1, 4, 30, 0.5, -1);
      Validate(p).Success? && NextValue(p, Midpoint(p), 3) == 0.0
  {
    var p := Params(1, 4, 30, 0.5, -1);
    assert Blend(0.5, 2.5, 3.0) == 2.75;
    assert Shift(2.75, -1) == 0.275;
    assert RoundHalfEven(0.275) == 0;
  }

  /** The carbon-dioxide sensor type: one pass from 700 with draw 900 gives 760. */
  lemma Co2Step()
    ensures NextValue(Params(400, 1000, 30, 0.7, 0), 700.0, 900) == 760.0
  {
    RoundHalfEvenOfInt(760);
  }

  class Sensor {
    const variant: Variant
    const id: nat
    const name: string
    const params: Params
    const places: Option<int>
    const subtopic: string
    /** The running value, replaced on every pass. */
    var value: real
    /** False once the generator has stopped on an exception. */
    var alive: bool
    /** Every `client.publish` this sensor has made, in order. */
    ghost var published: seq<(string, real)>

    ghost predicate Valid()
      reads this
    {
      WellFormed(params) && places == Places(params.decimal) && subtopic == Topic + "/" + name
    }

    /** Start-up of a sensor whose parameters passed validation. */
    constructor (variant: Variant, id: nat, name: string, p: Params)
      requires WellFormed(p)
      ensures Valid() && alive && published == []
      ensures this.variant == variant && this.id == id && this.name == name && params == p
      ensures value == Midpoint(p)
    {
      this.variant := variant;
      this.id := id;
      this.name := name;
      params := p;
      places := Places(p.decimal);
      subtopic := Topic + "/" + name;
      value := (p.low + p.high) as real / 2.0;
      alive := true;
      published := [];
    }

    /**
     * One pass of the generation loop with random draw `draw`: update the value,
     * then publish it (periodic mode) or publish it and clear the slot only when
     * the slot holds this sensor's id (triggered mode).
     */
    method Tick(draw: int, slot: TriggerSlot)
      requires Valid() && alive
      requires InDrawRange(params, draw)
      modifies this, slot
      ensures Valid()
      ensures alive <==> !DrawRaises(variant, params)
      ensures !alive ==> value == old(value) && published == old(published) && slot.code == old(slot.code)
      ensures alive ==> value == NextValue(params, old(value), draw)
      ensures alive && Periodic(params) ==>
        published == old(published) + [(subtopic, value)] && slot.code == old(slot.code)
      ensures alive && !Periodic(params) && old(slot.code) == id ==>
        published == old(published) + [(subtopic, value)] && slot.code == NoTrigger
      ensures alive && !Periodic(params) && old(slot.code) != id ==>
        published == old(published) && slot.code == old(slot.code)
    {
      if DrawRaises(variant, params) {
        alive := false;
        return;
      }
      var r := if params.low != params.high then draw else params.low;
      value := RoundTo(Blend(params.fraction, value, r as real), places);
      if params.interval != 0 {
        published := published + [(subtopic, value)];
      } else {
        var matched := slot.TryConsume(id);
        if matched {
          published := published + [(subtopic, value)];
        }
      }
    }

    /**
     * The generation loop over the draws `draws`, with no operator input in between:
     * a periodic sensor publishes every value in order; a triggered one publishes
     * at most the first, when its code was pending.
     */
    method Run(draws: seq<int>, slot: TriggerSlot)
      requires Valid() && alive
      requires forall i :: 0 <= i < |draws| ==> InDrawRange(params, draws[i])
      modifies this, slot
      ensures Valid()
      ensures alive <==> !(DrawRaises(variant, params) && |draws| > 0)
      ensures !alive ==> value == old(value) && published == old(published) && slot.code == old(slot.code)
      ensures alive ==> value == Last(old(value), Trajectory(params, old(value), draws))
      ensures alive && Periodic(params) ==>
        published == old(published) + Tagged(subtopic, Trajectory(params, old(value), draws))
        && slot.code == old(slot.code)
      ensures alive && !Periodic(params) && old(slot.code) == id && |draws| > 0 ==>
        published == old(published) + [(subtopic, Trajectory(params, old(value), draws)[0])]
        && slot.code == NoTrigger
      ensures alive && !Periodic(params) && (old(slot.code) != id || |draws| == 0) ==>
        published == old(published) && slot.code == old(slot.code)
    {
      ghost var v0, p0, c0 := value, published, slot.code;
      var i := 0;
      while i < |draws| && alive
        invariant 0 <= i <= |draws|
        invariant Valid()
        invariant alive <==> !(DrawRaises(variant, params) && i > 0)
        invariant !alive ==> value == v0 && published == p0 && slot.code == c0
        invariant alive ==> value == Last(v0, Trajectory(params, v0, draws[..i]))
        invariant alive && Periodic(params) ==>
          published == p0 + Tagged(subtopic, Trajectory(params, v0, draws[..i])) && slot.code == c0
        invariant alive && !Periodic(params) && c0 == id && i > 0 ==>
          published == p0 + [(subtopic, Trajectory(params, v0, draws[..i])[0])] && slot.code == NoTrigger
        invariant alive && !Periodic(params) && (c0 != id || i == 0) ==>
          published == p0 && slot.code == c0
      {
        TrajectorySnoc(params, v0, draws[..i], draws[i]);
        assert draws[..i + 1] == draws[..i] + [draws[i]];
        Tick(draws[i], slot);
        i := i + 1;
      }
      if alive {
        assert draws[..i] == draws;
      }
    }
  }

  /** `create_sensor`: validate, then start the generator at the midpoint. */
  method CreateSensor(variant: Variant, id: nat, name: string, p: Params) returns (r: Result<Sensor, ParamError>)
    ensures r.Success? <==> Validate(p).Success?
    ensures r.Failure? ==> Validate(p) == Failure(r.error)
    ensures r.Success? ==> fresh(r.value) && r.value.Valid() && r.value.alive && r.value.published == []
    ensures r.Success? ==> r.value.variant == variant && r.value.id == id && r.value.name == name
    ensures r.Success? ==> r.value.params == p && r.value.value == Midpoint(p)
  {
    match Validate(p)
    case Failure(e) =>
      r := Failure(e);
    case Success(q) =>
      var s := new Sensor(variant, id, name, q);
      r := Success(s);
  }

  /**
   * The operator enters 3 while two triggered sensors with ids 1 and 3 poll the
   * slot: sensor 1 leaves it alone, sensor 3 publishes and empties it.
   */
  method TriggeredScenario() returns (afterSmoke: int, afterOccupancy: int, published: real)
    ensures afterSmoke == 3 && afterOccupancy == NoTrigger && published == 1.0
  {
    var slot := new TriggerSlot();
    var p := Params(1, 1, 0, 1.0, 0);
    var occupancy := new Sensor(Group05aScript, 3, "occ01", p);
    var smoke := new Sensor(Group05aScript, 1, "smo01", p);
    var exit := slot.Command(Code(3));
    assert !exit && slot.code == 3;
    smoke.Tick(0, slot);
    assert smoke.published == [] && slot.code == 3;
    afterSmoke := slot.code;
    RoundToOfInt(1, None);
    assert NextValue(p, 1.0, 0) == 1.0;
    occupancy.Tick(0, slot);
    assert occupancy.subtopic == "/group05a/occ01";
    assert occupancy.published == [("/group05a/occ01", 1.0)] && slot.code == NoTrigger;
    afterOccupancy := slot.code;
    published := occupancy.value;
  }
}
