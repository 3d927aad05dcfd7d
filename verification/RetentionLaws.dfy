/**
 Retention: what a prune keeps, and that the backends' two-pass prunes (first the
 age bound, then the count bound) keep exactly that.
 */
module RetentionLaws {
  import opened Types
  import opened Lists
  import opened Contract

  // ------------------------------------------------------------ age cutoffs

  /** The in-memory broker's cutoff: a `Duration` subtraction, floored at zero. */
  function FlooredCutoff(now: nat, age: nat): nat {
    if age > now then 0 else now - age
  }

  /** The shared cutoff of the durable backends: an `i64` subtraction that may go negative. */
  function SignedCutoff(now: nat, age: nat): int {
    now - Nanos(age)
  }

  /** Both cutoffs drop the same records, at every representable clock reading. */
  lemma CutoffsAgree(ret: Retention, d: DeadRec, now: nat)
    requires ret.maxAge.Some? && now <= I64_MAX
    ensures d.deadAt < FlooredCutoff(now, ret.maxAge.value) <==> !Young(ret, d, now)
    ensures d.deadAt < SignedCutoff(now, ret.maxAge.value) <==> !Young(ret, d, now)
  {
  }

  // ------------------------------------------------------------- two passes

  /** Pass one: the lane's records outside the age bound are dropped. */
  function AgeFlags(ret: Retention, dead: seq<DeadRec>, lane: Lane, now: nat): seq<bool> {
    seq(|dead|, k requires 0 <= k < |dead| => dead[k].env.lane == lane ==> Young(ret, dead[k], now))
  }

  function AgePass(ret: Retention, dead: seq<DeadRec>, lane: Lane, now: nat): seq<DeadRec> {
    Pick(dead, AgeFlags(ret, dead, lane, now))
  }

  /** How many records of `lane` sit at or after position `k`. */
  function LaneFrom(dead: seq<DeadRec>, lane: Lane, k: nat): nat
    requires k <= |dead|
    decreases |dead| - k
  {
    if k == |dead| then 0
    else LaneFrom(dead, lane, k + 1) + (if dead[k].env.lane == lane then 1 else 0)
  }

  /** Pass two: of the lane's records, the newest `max` stay. */
  function CountFlags(max: nat, dead: seq<DeadRec>, lane: Lane): seq<bool> {
    seq(|dead|, k requires 0 <= k < |dead| => dead[k].env.lane == lane ==> LaneFrom(dead, lane, k) <= max)
  }

  function CountPass(ret: Retention, dead: seq<DeadRec>, lane: Lane): seq<DeadRec> {
    if ret.maxCount.None? then dead else Pick(dead, CountFlags(ret.maxCount.value, dead, lane))
  }

  lemma {:induction false} LaneFromTail(dead: seq<DeadRec>, lane: Lane, k: nat)
    requires 0 < k <= |dead|
    ensures LaneFrom(dead, lane, k) == LaneFrom(dead[1..], lane, k - 1)
    decreases |dead| - k
  {
    if k < |dead| {
      LaneFromTail(dead, lane, k + 1);
    }
  }

  lemma {:induction false} YoungFromTail(ret: Retention, dead: seq<DeadRec>, lane: Lane, now: nat, k: nat)
    requires 0 < k <= |dead|
    ensures YoungFrom(ret, dead, lane, now, k) == YoungFrom(ret, dead[1..], lane, now, k - 1)
    decreases |dead| - k
  {
    if k < |dead| {
      YoungFromTail(ret, dead, lane, now, k + 1);
    }
  }

  lemma AgeFront(ret: Retention, dead: seq<DeadRec>, lane: Lane, now: nat)
    requires dead != []
    ensures AgePass(ret, dead, lane, now) ==
            (if dead[0].env.lane == lane ==> Young(ret, dead[0], now) then [dead[0]] else [])
            + AgePass(ret, dead[1..], lane, now)
  {
    PickFront(dead, AgeFlags(ret, dead, lane, now));
    assert AgeFlags(ret, dead, lane, now)[1..] == AgeFlags(ret, dead[1..], lane, now);
  }

  lemma CountFront(max: nat, dead: seq<DeadRec>, lane: Lane)
    requires dead != []
    ensures Pick(dead, CountFlags(max, dead, lane)) ==
            (if dead[0].env.lane == lane ==> LaneFrom(dead, lane, 0) <= max then [dead[0]] else [])
            + Pick(dead[1..], CountFlags(max, dead[1..], lane))
  {
    PickFront(dead, CountFlags(max, dead, lane));
    forall k | 0 < k < |dead| ensures LaneFrom(dead, lane, k) == LaneFrom(dead[1..], lane, k - 1) {
      LaneFromTail(dead, lane, k);
    }
    assert CountFlags(max, dead, lane)[1..] == CountFlags(max, dead[1..], lane);
  }

  lemma PruneFront(ret: Retention, dead: seq<DeadRec>, lane: Lane, now: nat)
    requires dead != []
    ensures Prune(ret, dead, lane, now) ==
            (if Survives(ret, dead, lane, now, 0) then [dead[0]] else []) + Prune(ret, dead[1..], lane, now)
  {
    PickFront(dead, Kept(ret, dead, lane, now));
    forall k | 0 < k < |dead|
      ensures YoungFrom(ret, dead, lane, now, k) == YoungFrom(ret, dead[1..], lane, now, k - 1)
    {
      YoungFromTail(ret, dead, lane, now, k);
    }
    assert Kept(ret, dead, lane, now)[1..] == Kept(ret, dead[1..], lane, now);
  }

  lemma {:induction false} AgedCount(ret: Retention, dead: seq<DeadRec>, lane: Lane, now: nat)
    ensures LaneFrom(AgePass(ret, dead, lane, now), lane, 0) == YoungFrom(ret, dead, lane, now, 0)
  {
    if dead != [] {
      var rest := AgePass(ret, dead[1..], lane, now);
      AgedCount(ret, dead[1..], lane, now);
      AgeFront(ret, dead, lane, now);
      YoungFromTail(ret, dead, lane, now, 1);
      var all := AgePass(ret, dead, lane, now);
      if |all| > |rest| {
        assert all[1..] == rest;
        LaneFromTail(all, lane, 1);
      } else {
        assert all == rest;
      }
    }
  }

  /** Age first, then count, is exactly the prune the contract asks for. */
  lemma {:induction false} TwoPassesPrune(ret: Retention, dead: seq<DeadRec>, lane: Lane, now: nat)
    ensures CountPass(ret, AgePass(ret, dead, lane, now), lane) == Prune(ret, dead, lane, now)
  {
    if dead != [] {
      var aged := AgePass(ret, dead, lane, now);
      var rest := AgePass(ret, dead[1..], lane, now);
      TwoPassesPrune(ret, dead[1..], lane, now);
      AgeFront(ret, dead, lane, now);
      PruneFront(ret, dead, lane, now);
      AgedCount(ret, dead, lane, now);
      if |aged| > |rest| {
        assert aged[1..] == rest;
        if ret.maxCount.Some? {
          CountFront(ret.maxCount.value, aged, lane);
        }
      } else {
        assert aged == rest;
      }
    }
  }

  // --------------------------------------------------------- what is kept

  /** The lane's records are in failure order. */
  ghost predicate InFailureOrder(dead: seq<DeadRec>, lane: Lane) {
    forall i, k :: 0 <= i < k < |dead| && dead[i].env.lane == lane && dead[k].env.lane == lane ==>
                     dead[i].deadAt <= dead[k].deadAt
  }
}
