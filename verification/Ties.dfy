/**
 Where dead records may legitimately differ between backends: records of one lane
 that were dead-lettered at the same instant.

 The in-memory and SQL brokers file them in failure order. Redis orders them by the
 sequence number of the job, which is the order of enqueueing.
 */
module Ties {
  import opened Types
  import opened Lists
  import opened Contract
  import opened RetentionLaws
  import opened DeadLanes

  /** What a prune leaves of a lane depends only on that lane's records. */
  lemma PruneByLane(ret: Retention, a: seq<DeadRec>, b: seq<DeadRec>, lane: Lane, now: nat, other: Lane)
    requires OfLane(a, other) == OfLane(b, other) && OfLane(a, lane) == OfLane(b, lane)
    ensures OfLane(Prune(ret, a, lane, now), other) == OfLane(Prune(ret, b, lane, now), other)
  {
    TwoPassesPrune(ret, a, lane, now);
    TwoPassesPrune(ret, b, lane, now);
    AgeOwnLane(ret, a, lane, now);
    AgeOwnLane(ret, b, lane, now);
    if other != lane {
      AgeOtherLane(ret, a, lane, now, other);
      AgeOtherLane(ret, b, lane, now, other);
    }
    if ret.maxCount.Some? {
      CountOfLane(ret.maxCount.value, AgePass(ret, a, lane, now), lane, other);
      CountOfLane(ret.maxCount.value, AgePass(ret, b, lane, now), lane, other);
    }
  }

  /** A record of the lane carries this very instant, or a later one. */
  ghost predicate Tied(dead: seq<DeadRec>, lane: Lane, now: nat) {
    exists k :: 0 <= k < |dead| && dead[k].env.lane == lane && dead[k].deadAt >= now
  }

  lemma {:induction false} NoneOfLane(dead: seq<DeadRec>, lane: Lane)
    requires forall k :: 0 <= k < |dead| ==> dead[k].env.lane != lane
    ensures OfLane(dead, lane) == []
  {
    if dead != [] {
      NoneOfLane(dead[..|dead| - 1], lane);
    }
  }

  /** Without a tie every allowed position files the record last in its lane. */
  lemma InsertedLast(dead: seq<DeadRec>, rec: DeadRec, now: nat, pos: nat, other: Lane)
    requires TiePosition(dead, rec.env.lane, now, pos) && !Tied(dead, rec.env.lane, now)
    ensures OfLane(InsertAt(dead, pos, rec), other) == OfLane(InsertAt(dead, |dead|, rec), other)
  {
    OfLaneInsert(dead, pos, rec, other);
    OfLaneInsert(dead, |dead|, rec, other);
    if other == rec.env.lane {
      NoneOfLane(dead[pos..], other);
      OfLaneJoin(dead[..pos], dead[pos..], other);
      assert dead == dead[..pos] + dead[pos..] && dead[..|dead|] == dead && dead[|dead|..] == [];
    }
  }

  /** Without a tie, whatever position a backend chooses, every lane keeps the same dead letters in the same order. */
  lemma NoTieSameLetters(cfg: Config, s: Store, i: nat, reason: Reason, now: nat, pos: nat, other: Lane)
    requires i < |s.jobs| && TiePosition(s.dead, s.jobs[i].env.lane, now, pos)
    requires !Tied(s.dead, s.jobs[i].env.lane, now)
    ensures OfLane(Bury(cfg, s, i, reason, now, pos).dead, other) ==
            OfLane(Bury(cfg, s, i, reason, now, |s.dead|).dead, other)
  {
    var lane := s.jobs[i].env.lane;
    var rec := DeadRec(s.jobs[i].env, reason, s.jobs[i].key, now);
    InsertedLast(s.dead, rec, now, pos, other);
    InsertedLast(s.dead, rec, now, pos, lane);
    PruneByLane(cfg.retention, DeadWith(s, i, reason, now, pos), DeadWith(s, i, reason, now, |s.dead|), lane, now,
                other);
  }

  // ------------------------------------------------------------------- ties

  /** The last record of a lane. */
  lemma {:induction false} LastOfLane(dead: seq<DeadRec>, lane: Lane) returns (k: nat)
    requires exists i :: 0 <= i < |dead| && dead[i].env.lane == lane
    ensures k < |dead| && dead[k].env.lane == lane
    ensures forall m :: k < m < |dead| ==> dead[m].env.lane != lane
  {
    var n := |dead| - 1;
    if dead[n].env.lane == lane {
      k := n;
    } else {
      assert exists i :: 0 <= i < n && dead[..n][i].env.lane == lane;
      k := LastOfLane(dead[..n], lane);
      assert forall m :: k < m < n ==> dead[..n][m] == dead[m];
    }
  }

  lemma EndsWith(dead: seq<DeadRec>, lane: Lane, k: nat)
    requires k < |dead| && dead[k].env.lane == lane && forall m :: k < m < |dead| ==> dead[m].env.lane != lane
    ensures OfLane(dead[k..], lane) == [dead[k]]
    ensures OfLane(dead, lane) == OfLane(dead[..k], lane) + [dead[k]]
  {
    OneLeft(dead[k..], lane);
    OfLaneJoin(dead[..k], dead[k..], lane);
    assert dead == dead[..k] + dead[k..];
  }

  lemma OneLeft(dead: seq<DeadRec>, lane: Lane)
    requires dead != [] && dead[0].env.lane == lane && forall m :: 0 < m < |dead| ==> dead[m].env.lane != lane
    ensures OfLane(dead, lane) == [dead[0]]
  {
  }

  ghost predicate SameOrder(cfg: Config, s: Store, i: nat, reason: Reason, now: nat, pos: nat)
    requires i < |s.jobs| && pos <= |s.dead|
  {
    OfLane(Bury(cfg, s, i, reason, now, pos).dead, s.jobs[i].env.lane) ==
    OfLane(Bury(cfg, s, i, reason, now, |s.dead|).dead, s.jobs[i].env.lane)
  }

  ghost predicate AlwaysSameOrder(cfg: Config, s: Store, i: nat, reason: Reason, now: nat)
    requires i < |s.jobs|
  {
    forall pos :: TiePosition(s.dead, s.jobs[i].env.lane, now, pos) ==> SameOrder(cfg, s, i, reason, now, pos)
  }

  /** The last record of the lane outlives a prune, if it is young and anything may. */
  lemma LastSurvives(ret: Retention, dead: seq<DeadRec>, lane: Lane, now: nat, front: seq<DeadRec>, last: DeadRec)
    requires OfLane(dead, lane) == front + [last] && Young(ret, last, now) && ret.maxCount != Some(0)
    ensures var left := OfLane(Prune(ret, dead, lane, now), lane); left != [] && left[|left| - 1] == last
    ensures ret.maxCount == Some(1) ==> OfLane(Prune(ret, dead, lane, now), lane) == [last]
  {
    TwoPassesPrune(ret, dead, lane, now);
    AgeOwnLane(ret, dead, lane, now);
    YoungLast(ret, front, last, now);
    if ret.maxCount.Some? {
      CountOfLane(ret.maxCount.value, AgePass(ret, dead, lane, now), lane, lane);
    }
  }

  lemma NoneSurvives(ret: Retention, dead: seq<DeadRec>, lane: Lane, now: nat)
    requires ret.maxCount == Some(0)
    ensures OfLane(Prune(ret, dead, lane, now), lane) == []
  {
    TwoPassesPrune(ret, dead, lane, now);
    CountOfLane(0, AgePass(ret, dead, lane, now), lane, lane);
  }

  lemma InsertBefore(list: seq<DeadRec>, r: nat, rec: DeadRec)
    requires r < |list|
    ensures var n := |list| - 1; InsertAt(list, r, rec) == InsertAt(list[..n], r, rec) + [list[n]]
  {
  }

  /** A record filed behind all others is the last of its lane. */
  lemma FiledBehind(dead: seq<DeadRec>, rec: DeadRec)
    ensures OfLane(InsertAt(dead, |dead|, rec), rec.env.lane) == OfLane(dead, rec.env.lane) + [rec]
  {
    OfLaneInsert(dead, |dead|, rec, rec.env.lane);
    assert dead[..|dead|] == dead && dead[|dead|..] == [];
  }

  /** The last record a lane keeps. */
  ghost predicate KeptLast(ret: Retention, dead: seq<DeadRec>, lane: Lane, now: nat, last: DeadRec) {
    var left := OfLane(Prune(ret, dead, lane, now), lane);
    left != [] && left[|left| - 1] == last
  }

  lemma AheadLast(ret: Retention, dead: seq<DeadRec>, pos: nat, rec: DeadRec, now: nat, r: nat)
    requires pos <= |dead| && ret.maxCount != Some(0)
    requires var list := OfLane(dead, rec.env.lane);
             && r < |list| && list[|list| - 1].deadAt >= now
             && OfLane(InsertAt(dead, pos, rec), rec.env.lane) == InsertAt(list, r, rec)
    ensures var list := OfLane(dead, rec.env.lane);
            KeptLast(ret, InsertAt(dead, pos, rec), rec.env.lane, now, list[|list| - 1])
  {
    var list := OfLane(dead, rec.env.lane);
    var n := |list| - 1;
    InsertBefore(list, r, rec);
    LastSurvives(ret, InsertAt(dead, pos, rec), rec.env.lane, now, InsertAt(list[..n], r, rec), list[n]);
  }

  lemma BehindLast(ret: Retention, dead: seq<DeadRec>, rec: DeadRec, now: nat)
    requires rec.deadAt == now && ret.maxCount != Some(0)
    ensures KeptLast(ret, InsertAt(dead, |dead|, rec), rec.env.lane, now, rec)
  {
    FiledBehind(dead, rec);
    LastSurvives(ret, InsertAt(dead, |dead|, rec), rec.env.lane, now, OfLane(dead, rec.env.lane), rec);
  }

  /** The new record as the `r`-th of its lane, ahead of a record of this instant or later. */
  lemma AheadDiffers(ret: Retention, dead: seq<DeadRec>, pos: nat, rec: DeadRec, now: nat, r: nat)
    requires pos <= |dead| && rec.deadAt == now && ret.maxCount != Some(0)
    requires var list := OfLane(dead, rec.env.lane);
             && r < |list| && list[|list| - 1].deadAt >= now && list[|list| - 1] != rec
             && OfLane(InsertAt(dead, pos, rec), rec.env.lane) == InsertAt(list, r, rec)
    ensures OfLane(Prune(ret, InsertAt(dead, pos, rec), rec.env.lane, now), rec.env.lane) !=
            OfLane(Prune(ret, InsertAt(dead, |dead|, rec), rec.env.lane, now), rec.env.lane)
  {
    AheadLast(ret, dead, pos, rec, now, r);
    BehindLast(ret, dead, rec, now);
  }

  /**
   Under every retention, the letters a lane keeps do not depend on the backend's choice,
   if and only if no record of the lane shares the instant, or nothing is kept at all.
   */
  lemma OrderIff(cfg: Config, s: Store, i: nat, reason: Reason, now: nat)
    requires i < |s.jobs| && InFailureOrder(s.dead, s.jobs[i].env.lane) && !HasDead(s.dead, s.jobs[i].env.id)
    ensures AlwaysSameOrder(cfg, s, i, reason, now) <==>
            !Tied(s.dead, s.jobs[i].env.lane, now) || cfg.retention.maxCount == Some(0)
  {
    var lane := s.jobs[i].env.lane;
    if cfg.retention.maxCount == Some(0) {
      forall pos | TiePosition(s.dead, lane, now, pos) ensures SameOrder(cfg, s, i, reason, now, pos) {
        NoneSurvives(cfg.retention, DeadWith(s, i, reason, now, pos), lane, now);
        NoneSurvives(cfg.retention, DeadWith(s, i, reason, now, |s.dead|), lane, now);
      }
    } else if Tied(s.dead, lane, now) {
      var k := LastOfLane(s.dead, lane);
      var rec := DeadRec(s.jobs[i].env, reason, s.jobs[i].key, now);
      assert TiePosition(s.dead, lane, now, k);
      EndsWith(s.dead, lane, k);
      OfLaneInsert(s.dead, k, rec, lane);
      assert OfLane(InsertAt(s.dead, k, rec), lane) == InsertAt(OfLane(s.dead, lane), |OfLane(s.dead, lane)| - 1, rec);
      AheadDiffers(cfg.retention, s.dead, k, rec, now, |OfLane(s.dead, lane)| - 1);
      assert !SameOrder(cfg, s, i, reason, now, k);
    } else {
      forall pos | TiePosition(s.dead, lane, now, pos) ensures SameOrder(cfg, s, i, reason, now, pos) {
        NoTieSameLetters(cfg, s, i, reason, now, pos, lane);
      }
    }
  }
}
