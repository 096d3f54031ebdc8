/**
 * The global `trigger` slot shared by the operator's command loop and the
 * generators of triggered sensors, and the command loop itself.
 */
module Trigger {

  /** Slot value meaning "no pending trigger"; the same number is the exit command. */
  const NoTrigger: int := -1

  /** One line typed by the operator: an integer, or text `int()` rejects. */
  datatype Input = Code(n: int) | Malformed

  /** Effect of one operator input on the slot: integers other than the exit
      code overwrite it; the exit code and malformed input leave it alone. */
  function Apply(slot: int, input: Input): (r: int)
    ensures input.Code? && input.n != NoTrigger ==> r == input.n
    ensures !(input.Code? && input.n != NoTrigger) ==> r == slot
  {
    match input
    case Code(n) => if n == NoTrigger then slot else n
    case Malformed => slot
  }

  /** The slot after the operator's inputs `inputs`, in order. */
  function SlotAfter(slot: int, inputs: seq<Input>): (r: int)
    ensures r == slot || (r != NoTrigger && Code(r) in inputs)
    decreases |inputs|
  {
    if inputs == [] then slot else SlotAfter(Apply(slot, inputs[0]), inputs[1..])
  }

  /** Index of the first exit command, if any. */
  function ExitAt(inputs: seq<Input>): (r: int)
    ensures -1 <= r < |inputs|
    ensures r >= 0 ==> inputs[r] == Code(NoTrigger)
    ensures forall j :: 0 <= j < |inputs| && (r == -1 || j < r) ==> inputs[j] != Code(NoTrigger)
    decreases |inputs|
  {
    if inputs == [] then -1
    else if inputs[0] == Code(NoTrigger) then 0
    else
      var k := ExitAt(inputs[1..]);
      if k == -1 then -1 else k + 1
  }

  /** Replaying inputs in two parts is replaying them at once. */
  lemma {:induction false} SlotAfterAppend(slot: int, xs: seq<Input>, ys: seq<Input>)
    ensures SlotAfter(slot, xs + ys) == SlotAfter(SlotAfter(slot, xs), ys)
    decreases |xs|
  {
    if xs == [] {
      assert xs + ys == ys;
    } else {
      assert (xs + ys)[1..] == xs[1..] + ys;
      SlotAfterAppend(Apply(slot, xs[0]), xs[1..], ys);
    }
  }

  /** Last write wins: after a non-exit integer the slot holds exactly that integer. */
  lemma LastWriteWins(slot: int, xs: seq<Input>, n: int)
    requires n != NoTrigger
    ensures SlotAfter(slot, xs + [Code(n)]) == n
  {
    SlotAfterAppend(slot, xs, [Code(n)]);
  }

  /** Malformed input and the exit command do not touch the slot. */
  lemma IgnoredInputs(slot: int, xs: seq<Input>)
    ensures SlotAfter(slot, xs + [Malformed]) == SlotAfter(slot, xs)
    ensures SlotAfter(slot, xs + [Code(NoTrigger)]) == SlotAfter(slot, xs)
  {
    SlotAfterAppend(slot, xs, [Malformed]);
    SlotAfterAppend(slot, xs, [Code(NoTrigger)]);
  }

  /** Inputs that hold no integer other than the exit code leave the slot as it was. */
  lemma {:induction false} NoWritesNoChange(slot: int, xs: seq<Input>)
    requires forall i :: 0 <= i < |xs| ==> xs[i] == Malformed || xs[i] == Code(NoTrigger)
    ensures SlotAfter(slot, xs) == slot
    decreases |xs|
  {
    if xs != [] {
      NoWritesNoChange(slot, xs[1..]);
    }
  }

  /**
   * Generators of triggered sensors with ids `ids` each look at the slot once, in
   * this order, and clear it when it holds their own id. Returns which of them
   * matched and the slot afterwards.
   */
  function PollRound(slot: int, ids: seq<int>): (r: (seq<bool>, int))
    ensures |r.0| == |ids|
    decreases |ids|
  {
    if ids == [] then ([], slot)
    else
      var matched := slot == ids[0];
      var rest := PollRound(if matched then NoTrigger else slot, ids[1..]);
      ([matched] + rest.0, rest.1)
  }

  function CountTrue(bs: seq<bool>): nat
    decreases |bs|
  {
    if bs == [] then 0 else (if bs[0] then 1 else 0) + CountTrue(bs[1..])
  }

  /**
   * With the check and the clear done as one step, a pending code is picked up by
   * exactly the generator whose id it is and by no other, and the slot is then
   * empty; a code that is no sensor's id stays pending and nobody publishes.
   */
  lemma {:induction false} PollRoundMatchesOwner(slot: int, ids: seq<int>)
    requires forall i :: 0 <= i < |ids| ==> ids[i] != NoTrigger
    requires forall i, j :: 0 <= i < j < |ids| ==> ids[i] != ids[j]
    ensures forall i :: 0 <= i < |ids| ==> (PollRound(slot, ids).0[i] <==> ids[i] == slot)
    ensures CountTrue(PollRound(slot, ids).0) == if slot in ids then 1 else 0
    ensures PollRound(slot, ids).1 == if slot in ids then NoTrigger else slot
    decreases |ids|
  {
    if ids != [] {
      var matched := slot == ids[0];
      var next := if matched then NoTrigger else slot;
      PollRoundMatchesOwner(next, ids[1..]);
      var r := PollRound(slot, ids);
      assert r.0 == [matched] + PollRound(next, ids[1..]).0;
      assert r.0[1..] == PollRound(next, ids[1..]).0;
      if matched {
        assert NoTrigger !in ids[1..];
        assert forall i :: 1 <= i < |ids| ==> ids[i] != slot;
      } else {
        assert slot in ids <==> slot in ids[1..];
      }
      assert forall i :: 1 <= i < |ids| ==> ids[i] == ids[1..][i - 1];
    }
  }

  class TriggerSlot {
    var code: int

    constructor ()
      ensures code == NoTrigger
    {
      code := NoTrigger;
    }

    /** Overwrite the slot; an earlier pending code is lost. */
    method SetPending(c: int)
      modifies this
      ensures code == c
    {
      code := c;
    }

    /** Check-then-clear on behalf of the sensor with id `id`. */
    method TryConsume(id: int) returns (matched: bool)
      modifies this
      ensures matched <==> old(code) == id
      ensures code == if matched then NoTrigger else old(code)
    {
      matched := code == id;
      if matched {
        code := NoTrigger;
      }
    }

    /** One pass of the operator loop; `exit` is true for the exit command. */
    method Command(input: Input) returns (exit: bool)
      modifies this
      ensures exit <==> input == Code(NoTrigger)
      ensures code == Apply(old(code), input)
    {
      match input
      case Code(n) =>
        if n == NoTrigger {
          exit := true;
        } else {
          exit := false;
          SetPending(n);
        }
      case Malformed =>
        exit := false;
    }

    /**
     * The operator loop over the inputs typed so far: stops after the exit command,
     * or when the inputs run out. `consumed` inputs were read.
     */
    method ControlLoop(inputs: seq<Input>) returns (consumed: nat, exit: bool)
      modifies this
      ensures exit <==> Code(NoTrigger) in inputs
      ensures consumed == if exit then ExitAt(inputs) + 1 else |inputs|
      ensures code == SlotAfter(old(code), inputs[..consumed])
    {
      consumed, exit := 0, false;
      while consumed < |inputs| && !exit
        invariant 0 <= consumed <= |inputs|
        invariant forall j :: 0 <= j < consumed ==> (inputs[j] == Code(NoTrigger) <==> exit && j == consumed - 1)
        invariant exit ==> consumed >= 1 && inputs[consumed - 1] == Code(NoTrigger)
        invariant code == SlotAfter(old(code), inputs[..consumed])
        decreases |inputs| - consumed, !exit
      {
        SlotAfterAppend(old(code), inputs[..consumed], [inputs[consumed]]);
        assert inputs[..consumed + 1] == inputs[..consumed] + [inputs[consumed]];
        exit := Command(inputs[consumed]);
        consumed := consumed + 1;
      }
      if exit {
        var e := ExitAt(inputs);
        assert e >= 0 ==> inputs[e] == Code(NoTrigger);
      } else {
        assert inputs[..consumed] == inputs;
      }
    }
  }
}
