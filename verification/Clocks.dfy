/** The wall clock: readings never go back, whatever the system clock does. */
module Clocks {
  import opened Types

  class WallClock {
    var floor: nat
    var forwardJumps: nat
    const threshold: Option<nat>

    /** Every reading handed out so far, in the order of the atomic updates. */
    ghost var readings: seq<nat>

    ghost predicate Valid()
      reads this
    {
      && (forall i, k :: 0 <= i < k < |readings| ==> readings[i] <= readings[k])
      && (forall i :: 0 <= i < |readings| ==> readings[i] <= floor)
    }

    constructor (threshold: Option<nat>)
      ensures Valid() && readings == [] && floor == 0 && forwardJumps == 0 && this.threshold == threshold
    {
      floor, forwardJumps, readings := 0, 0, [];
      this.threshold := threshold;
    }

    /** A jump is counted when a later reading exceeds a real earlier one by more than the threshold. */
    method ObserveForwardJump(prev: nat, raw: nat)
      modifies this`forwardJumps
      ensures forwardJumps == old(forwardJumps) +
              (if threshold.Some? && prev != 0 && raw > prev + threshold.value then 1 else 0)
    {
      if threshold.None? {
        return;
      }
      if prev == 0 || raw <= prev {
        return;
      }
      if raw - prev > threshold.value {
        forwardJumps := forwardJumps + 1;
      }
    }

    /** `raw` is the system clock, which may go either way. */
    method Now(raw: nat) returns (now: nat)
      requires Valid()
      modifies this
      ensures Valid() && readings == old(readings) + [now]
      ensures now >= raw && (now == raw || now == old(floor)) && floor == now
    {
      var prev := floor;
      floor := if raw > prev then raw else prev;
      ObserveForwardJump(prev, raw);
      now := if raw > prev then raw else prev;
      readings := readings + [now];
    }
  }
}
