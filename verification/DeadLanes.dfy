/** The dead letters of one lane, as a list of their own. */
module DeadLanes {
  import opened Types
  import opened Lists
  import opened Contract
  import opened RetentionLaws

  /** The records of `lane`, in order. */
  function OfLane(dead: seq<DeadRec>, lane: Lane): seq<DeadRec> {
    if dead == [] then []
    else OfLane(dead[..|dead| - 1], lane)
         + (if dead[|dead| - 1].env.lane == lane then [dead[|dead| - 1]] else [])
  }

  lemma {:induction false} OfLanePick(dead: seq<DeadRec>, lane: Lane)
    ensures OfLane(dead, lane) == Pick(dead, OnLane(dead, lane))
  {
    if dead != [] {
      var n := |dead| - 1;
      OfLanePick(dead[..n], lane);
      assert OnLane(dead, lane)[..n] == OnLane(dead[..n], lane);
    }
  }

  lemma {:induction false} OfLaneJoin(a: seq<DeadRec>, b: seq<DeadRec>, lane: Lane)
    ensures OfLane(a + b, lane) == OfLane(a, lane) + OfLane(b, lane)
  {
    if b == [] {
      assert a + b == a;
    } else {
      var n := |b| - 1;
      assert (a + b)[..|a + b| - 1] == a + b[..n];
      OfLaneJoin(a, b[..n], lane);
    }
  }

  lemma OfLaneOne(d: DeadRec, lane: Lane)
    ensures OfLane([d], lane) == if d.env.lane == lane then [d] else []
  {
  }

  lemma {:induction false} OfLaneMember(dead: seq<DeadRec>, lane: Lane, i: nat) returns (k: nat)
    requires i < |OfLane(dead, lane)|
    ensures k < |dead| && dead[k] == OfLane(dead, lane)[i] && dead[k].env.lane == lane
    ensures i == |OfLane(dead[..k], lane)|
  {
    var n := |dead| - 1;
    if i < |OfLane(dead[..n], lane)| {
      k := OfLaneMember(dead[..n], lane, i);
      assert dead[..n][..k] == dead[..k];
    } else {
      k := n;
    }
  }

  lemma OfLaneAt(dead: seq<DeadRec>, lane: Lane, k: nat)
    requires k < |dead|
    ensures OfLane(dead, lane) ==
            OfLane(dead[..k], lane) + (if dead[k].env.lane == lane then [dead[k]] else []) + OfLane(dead[k + 1..], lane)
  {
    assert dead == dead[..k] + [dead[k]] + dead[k + 1..];
    OfLaneJoin(dead[..k] + [dead[k]], dead[k + 1..], lane);
    OfLaneJoin(dead[..k], [dead[k]], lane);
    OfLaneOne(dead[k], lane);
  }

  /** Cut the list where `r` records of the lane lie before the cut. */
  lemma {:induction false} CutAt(dead: seq<DeadRec>, lane: Lane, r: nat) returns (pos: nat)
    requires r <= |OfLane(dead, lane)|
    ensures pos <= |dead|
    ensures OfLane(dead[..pos], lane) == OfLane(dead, lane)[..r]
    ensures OfLane(dead[pos..], lane) == OfLane(dead, lane)[r..]
  {
    if r == |OfLane(dead, lane)| {
      pos := |dead|;
      assert dead[..pos] == dead && dead[pos..] == [];
    } else {
      pos := OfLaneMember(dead, lane, r);
      assert dead == dead[..pos] + dead[pos..];
      OfLaneJoin(dead[..pos], dead[pos..], lane);
    }
  }

  lemma OfLaneInsert(dead: seq<DeadRec>, pos: nat, d: DeadRec, lane: Lane)
    requires pos <= |dead|
    ensures OfLane(InsertAt(dead, pos, d), lane) ==
            OfLane(dead[..pos], lane) + (if d.env.lane == lane then [d] else []) + OfLane(dead[pos..], lane)
    ensures d.env.lane != lane ==> OfLane(InsertAt(dead, pos, d), lane) == OfLane(dead, lane)
  {
    OfLaneJoin(dead[..pos] + [d], dead[pos..], lane);
    OfLaneJoin(dead[..pos], [d], lane);
    OfLaneOne(d, lane);
    assert dead == dead[..pos] + dead[pos..];
    OfLaneJoin(dead[..pos], dead[pos..], lane);
  }

  lemma OfLaneRemove(dead: seq<DeadRec>, k: nat, lane: Lane)
    requires k < |dead|
    ensures dead[k].env.lane != lane ==> OfLane(RemoveAt(dead, k), lane) == OfLane(dead, lane)
    ensures dead[k].env.lane == lane ==>
              var i := |OfLane(dead[..k], lane)|;
              && i < |OfLane(dead, lane)| && OfLane(dead, lane)[i] == dead[k]
              && OfLane(RemoveAt(dead, k), lane) == RemoveAt(OfLane(dead, lane), i)
  {
    OfLaneAt(dead, lane, k);
    OfLaneJoin(dead[..k], dead[k + 1..], lane);
  }

  // ---------------------------------------------------------------- pruning

  function YoungFlags(ret: Retention, list: seq<DeadRec>, now: nat): seq<bool> {
    seq(|list|, k requires 0 <= k < |list| => Young(ret, list[k], now))
  }

  lemma AgeLast(ret: Retention, dead: seq<DeadRec>, lane: Lane, now: nat, of: Lane)
    requires dead != []
    ensures var d := dead[|dead| - 1];
            OfLane(AgePass(ret, dead, lane, now), of) ==
            OfLane(AgePass(ret, dead[..|dead| - 1], lane, now), of)
            + (if d.env.lane == of && (of == lane ==> Young(ret, d, now)) then [d] else [])
  {
    var n := |dead| - 1;
    var d := dead[n];
    assert AgeFlags(ret, dead, lane, now)[..n] == AgeFlags(ret, dead[..n], lane, now);
    OfLaneJoin(AgePass(ret, dead[..n], lane, now), if d.env.lane == lane ==> Young(ret, d, now) then [d] else [], of);
    OfLaneOne(d, of);
  }

  lemma {:induction false} AgeOtherLane(ret: Retention, dead: seq<DeadRec>, lane: Lane, now: nat, other: Lane)
    requires other != lane
    ensures OfLane(AgePass(ret, dead, lane, now), other) == OfLane(dead, other)
  {
    if dead != [] {
      AgeOtherLane(ret, dead[..|dead| - 1], lane, now, other);
      AgeLast(ret, dead, lane, now, other);
    }
  }

  lemma YoungLast(ret: Retention, list: seq<DeadRec>, d: DeadRec, now: nat)
    ensures Pick(list + [d], YoungFlags(ret, list + [d], now)) ==
            Pick(list, YoungFlags(ret, list, now)) + (if Young(ret, d, now) then [d] else [])
  {
    var all := list + [d];
    assert all[..|list|] == list;
    assert YoungFlags(ret, all, now)[..|list|] == YoungFlags(ret, list, now);
  }

  lemma {:induction false} AgeOwnLane(ret: Retention, dead: seq<DeadRec>, lane: Lane, now: nat)
    ensures OfLane(AgePass(ret, dead, lane, now), lane) ==
            Pick(OfLane(dead, lane), YoungFlags(ret, OfLane(dead, lane), now))
  {
    if dead != [] {
      var front := dead[..|dead| - 1];
      AgeOwnLane(ret, front, lane, now);
      AgeLast(ret, dead, lane, now, lane);
      if dead[|dead| - 1].env.lane == lane {
        YoungLast(ret, OfLane(front, lane), dead[|dead| - 1], now);
      } else {
        assert OfLane(dead, lane) == OfLane(front, lane);
      }
    }
  }

  lemma {:induction false} LaneFromIsLength(dead: seq<DeadRec>, lane: Lane, k: nat)
    requires k <= |dead|
    ensures LaneFrom(dead, lane, k) == |OfLane(dead[k..], lane)|
    decreases |dead| - k
  {
    if k < |dead| {
      LaneFromIsLength(dead, lane, k + 1);
      OfLaneAt(dead[k..], lane, 0);
      assert dead[k..][1..] == dead[k + 1..];
    }
  }

  /** All but the last `max`. */
  function Excess(n: nat, max: nat): nat {
    if n > max then n - max else 0
  }

  lemma {:induction false} CountOfLane(max: nat, dead: seq<DeadRec>, lane: Lane, other: Lane)
    ensures var kept := Pick(dead, CountFlags(max, dead, lane));
            var list := OfLane(dead, lane);
            && (other != lane ==> OfLane(kept, other) == OfLane(dead, other))
            && OfLane(kept, lane) == list[Excess(|list|, max)..]
  {
    if dead != [] {
      var d, rest := dead[0], dead[1..];
      CountOfLane(max, rest, lane, other);
      CountFront(max, dead, lane);
      LaneFromIsLength(dead, lane, 0);
      assert dead[0..] == dead;
      OfLaneAt(dead, lane, 0);
      OfLaneAt(dead, other, 0);
      var first := if d.env.lane == lane ==> LaneFrom(dead, lane, 0) <= max then [d] else [];
      var kept := Pick(rest, CountFlags(max, rest, lane));
      OfLaneJoin(first, kept, lane);
      OfLaneJoin(first, kept, other);
      OfLaneOne(d, lane);
      OfLaneOne(d, other);
    }
  }

  /** Flags that are false up to `n` and true from there on pick the suffix from `n`. */
  lemma {:induction false} PickSuffix<T>(s: seq<T>, keep: seq<bool>, n: nat)
    requires |keep| == |s| && n <= |s|
    requires forall k :: 0 <= k < |s| ==> keep[k] == (n <= k)
    ensures Pick(s, keep) == s[n..]
  {
    if s != [] {
      var m := |s| - 1;
      if n <= m {
        PickSuffix(s[..m], keep[..m], n);
        assert s[n..] == s[..m][n..] + [s[m]];
      } else {
        PickSuffix(s[..m], keep[..m], m);
      }
    }
  }

  /**
   A prune of `lane` leaves the other lanes alone and cuts the lane's own list to a
   suffix: `aged` records go for age, then the excess over the count bound.
   */
  lemma PruneOfLane(ret: Retention, dead: seq<DeadRec>, lane: Lane, now: nat, other: Lane, aged: nat)
    requires aged <= |OfLane(dead, lane)|
    requires forall k :: 0 <= k < |OfLane(dead, lane)| ==> Young(ret, OfLane(dead, lane)[k], now) == (aged <= k)
    ensures other != lane ==> OfLane(Prune(ret, dead, lane, now), other) == OfLane(dead, other)
    ensures var young := OfLane(dead, lane)[aged..];
            OfLane(Prune(ret, dead, lane, now), lane) ==
            if ret.maxCount.Some? then young[Excess(|young|, ret.maxCount.value)..] else young
  {
    var list := OfLane(dead, lane);
    TwoPassesPrune(ret, dead, lane, now);
    AgeOwnLane(ret, dead, lane, now);
    if other != lane {
      AgeOtherLane(ret, dead, lane, now, other);
    }
    PickSuffix(list, YoungFlags(ret, list, now), aged);
    if ret.maxCount.Some? {
      CountOfLane(ret.maxCount.value, AgePass(ret, dead, lane, now), lane, other);
    }
  }

  lemma {:induction false} EmptyOfLane(dead: seq<DeadRec>, lane: Lane, other: Lane)
    ensures var kept := Pick(dead, Negate(OnLane(dead, lane)));
            OfLane(kept, lane) == [] && (other != lane ==> OfLane(kept, other) == OfLane(dead, other))
  {
    if dead != [] {
      var n := |dead| - 1;
      EmptyOfLane(dead[..n], lane, other);
      assert Negate(OnLane(dead, lane))[..n] == Negate(OnLane(dead[..n], lane));
      var kept := Pick(dead[..n], Negate(OnLane(dead[..n], lane)));
      var last := if dead[n].env.lane == lane then [] else [dead[n]];
      OfLaneJoin(kept, last, lane);
      OfLaneJoin(kept, last, other);
      OfLaneOne(dead[n], lane);
      OfLaneOne(dead[n], other);
    }
  }
}
