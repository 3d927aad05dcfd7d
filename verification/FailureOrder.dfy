/**
 Retention over runs: with a clock that never goes back, every lane's dead letters
 stay in failure order, and a dead-lettering keeps exactly the longest suffix of that
 order within both bounds.
 */
module FailureOrder {
  import opened Types
  import opened Lists
  import opened Contract
  import opened RetentionLaws
  import opened DeadLanes
  import opened Receipts

  // ------------------------------------------------------------ longest suffix

  /** Every record is inside the age bound, and their number inside the count bound. */
  ghost predicate Fits(ret: Retention, list: seq<DeadRec>, now: nat) {
    && (forall k :: 0 <= k < |list| ==> Young(ret, list[k], now))
    && (ret.maxCount.Some? ==> |list| <= ret.maxCount.value)
  }

  /** `list` without its first `c` records fits, and with any more of them it does not. */
  ghost predicate LongestFit(ret: Retention, list: seq<DeadRec>, now: nat, c: nat) {
    && c <= |list| && Fits(ret, list[c..], now)
    && forall b :: 0 <= b < c ==> !Fits(ret, list[b..], now)
  }

  ghost predicate Ascending(list: seq<DeadRec>) {
    forall i, k :: 0 <= i < k < |list| ==> list[i].deadAt <= list[k].deadAt
  }

  lemma LaneAscends(dead: seq<DeadRec>, lane: Lane)
    requires InFailureOrder(dead, lane)
    ensures Ascending(OfLane(dead, lane))
  {
    var list := OfLane(dead, lane);
    forall i, k | 0 <= i < k < |list| ensures list[i].deadAt <= list[k].deadAt {
      var a := OfLaneMember(dead, lane, i);
      var b := OfLaneMember(dead, lane, k);
      PrefixGrows(dead, lane, b, a);
    }
  }

  /** A longer prefix has no fewer records of the lane. */
  lemma PrefixGrows(dead: seq<DeadRec>, lane: Lane, a: nat, b: nat)
    requires a <= |dead| && b <= |dead|
    ensures a <= b ==> |OfLane(dead[..a], lane)| <= |OfLane(dead[..b], lane)|
  {
    if a <= b {
      OfLaneJoin(dead[..a], dead[a..b], lane);
      assert dead[..b] == dead[..a] + dead[a..b];
    }
  }

  /** In an ascending list the aged records come first. */
  lemma {:induction false} AgedFirst(ret: Retention, list: seq<DeadRec>, now: nat) returns (aged: nat)
    requires Ascending(list)
    ensures aged <= |list| && forall k :: 0 <= k < |list| ==> Young(ret, list[k], now) == (aged <= k)
  {
    if list == [] {
      aged := 0;
    } else {
      var n := |list| - 1;
      aged := AgedFirst(ret, list[..n], now);
      assert forall k :: 0 <= k < n ==> list[..n][k] == list[k];
      if !Young(ret, list[n], now) {
        aged := |list|;
      }
    }
  }

  function Cut(ret: Retention, n: nat, aged: nat): nat
    requires aged <= n
  {
    if ret.maxCount.Some? then aged + Excess(n - aged, ret.maxCount.value) else aged
  }

  lemma CutIsLongest(ret: Retention, list: seq<DeadRec>, now: nat, aged: nat)
    requires aged <= |list| && forall k :: 0 <= k < |list| ==> Young(ret, list[k], now) == (aged <= k)
    ensures LongestFit(ret, list, now, Cut(ret, |list|, aged))
  {
    var c := Cut(ret, |list|, aged);
    forall b | 0 <= b < c ensures !Fits(ret, list[b..], now) {
      if b < aged {
        assert !Young(ret, list[b..][0], now);
      }
    }
  }

  /** A prune keeps the longest suffix that fits, and leaves the other lanes alone. */
  lemma PruneIsLongestFit(ret: Retention, dead: seq<DeadRec>, lane: Lane, now: nat) returns (c: nat)
    requires InFailureOrder(dead, lane)
    ensures LongestFit(ret, OfLane(dead, lane), now, c)
    ensures OfLane(Prune(ret, dead, lane, now), lane) == OfLane(dead, lane)[c..]
    ensures forall other :: other != lane ==> OfLane(Prune(ret, dead, lane, now), other) == OfLane(dead, other)
  {
    LaneAscends(dead, lane);
    var list := OfLane(dead, lane);
    var aged := AgedFirst(ret, list, now);
    c := Cut(ret, |list|, aged);
    CutIsLongest(ret, list, now, aged);
    PrunedTo(ret, dead, lane, now, aged);
    forall other | other != lane ensures OfLane(Prune(ret, dead, lane, now), other) == OfLane(dead, other) {
      PruneOfLane(ret, dead, lane, now, other, aged);
    }
  }

  lemma PrunedTo(ret: Retention, dead: seq<DeadRec>, lane: Lane, now: nat, aged: nat)
    requires aged <= |OfLane(dead, lane)|
    requires forall k :: 0 <= k < |OfLane(dead, lane)| ==> Young(ret, OfLane(dead, lane)[k], now) == (aged <= k)
    ensures OfLane(Prune(ret, dead, lane, now), lane) == OfLane(dead, lane)[Cut(ret, |OfLane(dead, lane)|, aged)..]
  {
    PruneOfLane(ret, dead, lane, now, lane, aged);
  }

  // ------------------------------------------------------------------- runs

  /** Every lane is in failure order, and nothing failed after `clock`. */
  ghost predicate Ordered(dead: seq<DeadRec>, clock: nat) {
    && (forall lane :: InFailureOrder(dead, lane))
    && (forall k :: 0 <= k < |dead| ==> dead[k].deadAt <= clock)
  }

  lemma PickOrdered(dead: seq<DeadRec>, keep: seq<bool>, clock: nat)
    requires Ordered(dead, clock) && |keep| == |dead|
    ensures Ordered(Pick(dead, keep), clock)
  {
    var kept := Pick(dead, keep);
    forall k | 0 <= k < |kept| ensures kept[k].deadAt <= clock {
      var a := PickFrom(dead, keep, k);
    }
    forall lane ensures InFailureOrder(kept, lane) {
      assert InFailureOrder(dead, lane);
      forall i, k | 0 <= i < k < |kept| && kept[i].env.lane == lane && kept[k].env.lane == lane
        ensures kept[i].deadAt <= kept[k].deadAt
      {
        var a := PickFrom(dead, keep, i);
        var b := PickFrom(dead, keep, k);
        if b <= a {
          TallySplit(keep, b, a);
        }
      }
    }
  }

  lemma InsertOrdered(dead: seq<DeadRec>, pos: nat, rec: DeadRec, clock: nat)
    requires Ordered(dead, clock) && clock <= rec.deadAt && TiePosition(dead, rec.env.lane, rec.deadAt, pos)
    ensures Ordered(InsertAt(dead, pos, rec), rec.deadAt)
  {
    var all := InsertAt(dead, pos, rec);
    assert forall k :: 0 <= k < |all| ==> all[k] == if k < pos then dead[k] else if k == pos then rec else dead[k - 1];
    forall lane ensures InFailureOrder(all, lane) {
      assert InFailureOrder(dead, lane);
    }
  }

  lemma BuryOrdered(cfg: Config, s: Store, i: nat, reason: Reason, now: nat, pos: nat, clock: nat)
    requires Ordered(s.dead, clock) && clock <= now && i < |s.jobs|
    requires TiePosition(s.dead, s.jobs[i].env.lane, now, pos)
    ensures Ordered(DeadWith(s, i, reason, now, pos), now)
    ensures Ordered(Bury(cfg, s, i, reason, now, pos).dead, now)
  {
    InsertOrdered(s.dead, pos, DeadRec(s.jobs[i].env, reason, s.jobs[i].key, now), clock);
    var dead := DeadWith(s, i, reason, now, pos);
    PickOrdered(dead, Kept(cfg.retention, dead, s.jobs[i].env.lane, now), now);
  }

  /** Dead-letterings in the log happen at `now`. */
  ghost predicate FailsAt(log: seq<Event>, now: nat) {
    forall k :: 0 <= k < |log| && (log[k].Buried? || log[k].Resolved?) ==> log[k].at == now
  }

  lemma EventOrdered(cfg: Config, s: Store, e: Event, now: nat)
    requires Ordered(s.dead, now) && Enabled(cfg, s, e) && FailsAt([e], now)
    ensures Ordered(Fire(cfg, s, e).dead, now)
  {
    assert [e][0] == e;
    match e
    case Buried(_, i, at, pos) => BuryOrdered(cfg, s, i, OverReason(cfg), at, pos, now);
    case Resolved(i, _, how, at, pos) =>
      if how.Fail? {
        BuryOrdered(cfg, s, i, Given(how.text), at, pos, now);
      }
    case Revived(k, _) => RemoveOrdered(s.dead, k, now);
    case Emptied(lane) => PickOrdered(s.dead, Negate(OnLane(s.dead, lane)), now);
    case _ =>
  }

  lemma RemoveOrdered(dead: seq<DeadRec>, i: nat, clock: nat)
    requires Ordered(dead, clock) && i < |dead|
    ensures Ordered(RemoveAt(dead, i), clock)
  {
    var rest := RemoveAt(dead, i);
    assert forall k :: 0 <= k < |rest| ==> rest[k] == dead[if k < i then k else k + 1];
    forall lane ensures InFailureOrder(rest, lane) {
      assert InFailureOrder(dead, lane);
    }
  }

  lemma {:induction false} TraceOrdered(cfg: Config, s: Store, log: seq<Event>, now: nat)
    requires Ordered(s.dead, now) && Trace(cfg, s, log) && FailsAt(log, now)
    ensures Ordered(Reach(cfg, s, log).dead, now)
    decreases |log|
  {
    if log != [] {
      assert [log[0]][0] == log[0];
      EventOrdered(cfg, s, log[0], now);
      assert FailsAt(log[1..], now);
      TraceOrdered(cfg, Fire(cfg, s, log[0]), log[1..], now);
    }
  }

  lemma {:induction false} BatchFailsNothing(s: Store, batch: seq<NewJob>, now: nat)
    ensures FailsAt(InsertAll(s, batch, now).log, now)
  {
    if batch != [] {
      BatchFailsNothing(s, batch[..|batch| - 1], now);
    }
  }

  lemma StepFailsAt(cfg: Config, s: Store, op: Op, now: nat, o: Outcome)
    requires StepAny(cfg, s, op, now, o)
    ensures FailsAt(o.log, now)
  {
    match op
    case EnqueueBatch(jobs) => BatchFailsNothing(s, jobs, now);
    case Reserve(lane, receipt) =>
      var bs, got, swept :|
        && SweepAny(cfg, Lapse(s, now), lane, receipt, now, MAX_DEAD_LETTER_SWEEP, bs, got, swept)
        && o == Outcome(swept.store, swept.reply, [Lapsed(now)] + swept.log);
    case _ =>
  }

  ghost predicate ClockMonotone(calls: seq<Call>) {
    forall i, k :: 0 <= i < k < |calls| ==> calls[i].now <= calls[k].now
  }

  /** At every point of every run under a clock that never goes back, each lane is in failure order. */
  lemma {:induction false} RunOrdered(cfg: Config, calls: seq<Call>, outs: seq<Outcome>, n: nat)
    requires IsRun(cfg, calls, outs) && ClockMonotone(calls) && n <= |calls|
    ensures Ordered(At(outs, n).dead, if n == 0 then 0 else calls[n - 1].now)
  {
    if n > 0 {
      RunOrdered(cfg, calls, outs, n - 1);
      assert CallMade(cfg, calls, outs, n - 1);
      var s, now := At(outs, n - 1), calls[n - 1].now;
      StepFailsAt(cfg, s, calls[n - 1].op, now, outs[n - 1]);
      StepLeads(cfg, s, calls[n - 1].op, now, outs[n - 1]);
      TraceOrdered(cfg, s, outs[n - 1].log, now);
    }
  }

  /**
   Retention: whenever a run dead-letters a job, its lane keeps the longest suffix of
   its failure order that satisfies both bounds, and other lanes keep everything.
   */
  lemma DeadLetteringKeeps(cfg: Config, calls: seq<Call>, outs: seq<Outcome>, n: nat,
                           i: nat, reason: Reason, now: nat, pos: nat)
    returns (c: nat)
    requires IsRun(cfg, calls, outs) && ClockMonotone(calls) && n <= |calls| && i < |At(outs, n).jobs|
    requires n > 0 ==> calls[n - 1].now <= now
    requires TiePosition(At(outs, n).dead, At(outs, n).jobs[i].env.lane, now, pos)
    ensures var s := At(outs, n);
            var lane, before := s.jobs[i].env.lane, DeadWith(s, i, reason, now, pos);
            var after := Bury(cfg, s, i, reason, now, pos).dead;
            && InFailureOrder(before, lane)
            && LongestFit(cfg.retention, OfLane(before, lane), now, c)
            && OfLane(after, lane) == OfLane(before, lane)[c..]
            && forall other :: other != lane ==> OfLane(after, other) == OfLane(s.dead, other)
  {
    var s := At(outs, n);
    var lane, before := s.jobs[i].env.lane, DeadWith(s, i, reason, now, pos);
    RunOrdered(cfg, calls, outs, n);
    BuryOrdered(cfg, s, i, reason, now, pos, if n == 0 then 0 else calls[n - 1].now);
    assert InFailureOrder(before, lane);
    c := PruneIsLongestFit(cfg.retention, before, lane, now);
    forall other | other != lane ensures OfLane(before, other) == OfLane(s.dead, other) {
      OfLaneInsert(s.dead, pos, DeadRec(s.jobs[i].env, reason, s.jobs[i].key, now), other);
    }
  }
}
