/** The in-memory broker, proved against the contract call by call. */
module Memory {
  import opened Types
  import opened Lists
  import opened Contract
  import opened RetentionLaws

  const MAX_ENVELOPE_BYTES: nat := 64 * 1024 * 1024

  /** The highest-priority visible job of the lane, ties broken by visibility time, then position. */
  method PickBest(jobs: seq<Job>, lane: Lane, now: nat) returns (best: Option<nat>)
    ensures best.Some? ==> IsFirst(jobs, lane, now, best.value)
    ensures best.None? ==> !AnyVisible(jobs, lane, now)
  {
    best := None;
    for i := 0 to |jobs|
      invariant best.Some? ==> best.value < i && IsFirst(jobs[..i], lane, now, best.value)
      invariant best.None? ==> !AnyVisible(jobs[..i], lane, now)
    {
      ghost var seen := jobs[..i + 1];
      assert seen[..i] == jobs[..i];
      var job := jobs[i];
      if Visible(job, lane, now) {
        if best.Some? {
          var b := jobs[best.value];
          if job.env.priority > b.env.priority
             || (job.env.priority == b.env.priority && job.availableAt < b.availableAt) {
            FirstExtends(jobs[..i], job, lane, now, best.value);
            best := Some(i);
          } else {
            FirstExtends(jobs[..i], job, lane, now, best.value);
          }
        } else {
          best := Some(i);
        }
      } else if best.Some? {
        FirstExtends(jobs[..i], job, lane, now, best.value);
      }
      assert seen == jobs[..i] + [job];
    }
    assert jobs[..|jobs|] == jobs;
  }

  /** The first of a longer queue is the old first, or the new job when it goes ahead of it. */
  lemma FirstExtends(jobs: seq<Job>, j: Job, lane: Lane, now: nat, b: nat)
    requires IsFirst(jobs, lane, now, b)
    ensures var all := jobs + [j];
            if Visible(j, lane, now) && Ahead(all, |jobs|, b) then IsFirst(all, lane, now, |jobs|)
            else IsFirst(all, lane, now, b)
  {
  }

  /** `retain` by age: the records of `lane` older than the cutoff go. */
  method RetainYoung(ret: Retention, dead: seq<DeadRec>, lane: Lane, now: nat) returns (out: seq<DeadRec>)
    requires ret.maxAge.Some?
    ensures out == AgePass(ret, dead, lane, now)
  {
    var cutoff := FlooredCutoff(now, ret.maxAge.value);
    ghost var flags := AgeFlags(ret, dead, lane, now);
    out := [];
    for i := 0 to |dead|
      invariant out == Pick(dead[..i], flags[..i])
    {
      assert dead[..i + 1][..i] == dead[..i] && flags[..i + 1][..i] == flags[..i];
      if dead[i].env.lane != lane || dead[i].deadAt >= cutoff {
        out := out + [dead[i]];
      }
    }
    assert dead[..|dead|] == dead && flags[..|dead|] == flags;
  }

  lemma {:induction false} LaneFromGrows(dead: seq<DeadRec>, lane: Lane, i: nat, k: nat)
    requires i <= k <= |dead|
    ensures LaneFrom(dead, lane, i) >= LaneFrom(dead, lane, k)
    decreases k - i
  {
    if i < k {
      LaneFromGrows(dead, lane, i + 1, k);
    }
  }

  /** `retain` by count: the oldest records of `lane` beyond `max` go. */
  method RetainNewest(max: nat, dead: seq<DeadRec>, lane: Lane) returns (out: seq<DeadRec>)
    ensures out == Pick(dead, CountFlags(max, dead, lane))
  {
    ghost var flags := CountFlags(max, dead, lane);
    var total := 0;
    for i := |dead| downto 0
      invariant total == LaneFrom(dead, lane, i)
    {
      if dead[i].env.lane == lane {
        total := total + 1;
      }
    }
    if total <= max {
      forall k | 0 <= k < |dead| ensures flags[k] {
        LaneFromGrows(dead, lane, 0, k);
      }
      PickAll(dead, flags);
      return dead;
    }
    var toDrop := total - max;
    out := [];
    for i := 0 to |dead|
      invariant toDrop == if LaneFrom(dead, lane, i) > max then LaneFrom(dead, lane, i) - max else 0
      invariant out == Pick(dead[..i], flags[..i])
    {
      assert dead[..i + 1][..i] == dead[..i] && flags[..i + 1][..i] == flags[..i];
      if dead[i].env.lane == lane && toDrop > 0 {
        toDrop := toDrop - 1;
      } else {
        out := out + [dead[i]];
      }
    }
    assert dead[..|dead|] == dead && flags[..|dead|] == flags;
  }

  lemma UnboundedKeepsAll(ret: Retention, dead: seq<DeadRec>, lane: Lane, now: nat)
    requires ret.maxAge.None?
    ensures AgePass(ret, dead, lane, now) == dead
  {
    PickAll(dead, AgeFlags(ret, dead, lane, now));
  }

  class InMemoryBroker {
    var jobs: seq<Job>
    var dead: seq<DeadRec>
    var unique: map<Key, JobId>
    var schedules: map<ScheduleId, int>
    const settings: Settings
    const cfg: Config := InMemoryConfig(settings)

    ghost function View(): Store
      reads this
    {
      Store(jobs, dead, unique, schedules)
    }

    constructor (settings: Settings)
      ensures View() == EMPTY_STORE && this.settings == settings
    {
      jobs, dead, unique, schedules := [], [], map[], map[];
      this.settings := settings;
    }

    method InsertOne(job: NewJob, now: nat) returns (id: JobId)
      modifies this
      ensures var o := Insert(old(View()), job, now); View() == o.store && Id(id) == o.reply
    {
      var availableAt := AddTime(now, job.delay);
      if HasId(jobs, job.id) {
        return job.id;
      }
      if job.key.Some? && job.key.value in unique {
        return unique[job.key.value];
      }
      id := job.id;
      if job.key.Some? {
        unique := unique[job.key.value := id];
      }
      jobs := jobs + [Job(FreshEnvelope(job), availableAt, None, None, job.key, 0)];
    }

    method PruneDead(lane: Lane, now: nat)
      modifies this`dead
      ensures dead == Prune(cfg.retention, old(dead), lane, now)
    {
      TwoPassesPrune(cfg.retention, dead, lane, now);
      if cfg.retention.maxAge.Some? {
        dead := RetainYoung(cfg.retention, dead, lane, now);
      } else {
        UnboundedKeepsAll(cfg.retention, dead, lane, now);
      }
      if cfg.retention.maxCount.Some? {
        dead := RetainNewest(cfg.retention.maxCount.value, dead, lane);
      }
    }

    method DeadLetterAt(i: nat, reason: Reason, now: nat)
      requires i < |jobs|
      modifies this
      ensures View() == Bury(cfg, old(View()), i, reason, now, |old(dead)|)
    {
      var job := jobs[i];
      jobs := RemoveAt(jobs, i);
      if job.key.Some? {
        unique := unique - {job.key.value};
      }
      dead := dead + [DeadRec(job.env, reason, job.key, now)];
      assert dead == DeadWith(old(View()), i, reason, now, |old(dead)|);
      PruneDead(job.env.lane, now);
    }

    /** Position of the current holder; an expired lease is cleared and the receipt rejected. */
    method FindCurrentReceipt(receipt: Receipt, now: nat) returns (pos: Option<nat>)
      modifies this`jobs
      ensures pos.Some? ==> jobs == old(jobs) && pos == Holder(jobs, receipt) && !Expired(jobs[pos.value], now)
      ensures pos.None? ==>
                forall how :: ResolveStep(cfg, old(View()), receipt, how, now, |dead|).store == View()
                              && ResolveStep(cfg, old(View()), receipt, how, now, |dead|).reply == Stale
    {
      pos := Holder(jobs, receipt);
      if pos.Some? && Expired(jobs[pos.value], now) {
        jobs := jobs[pos.value := Unleased(jobs[pos.value])];
        pos := None;
      }
    }

    /** An over-cap payload is refused before anything changes. */
    method Enqueue(job: NewJob, size: nat, now: nat) returns (id: Option<JobId>)
      modifies this
      ensures size > MAX_ENVELOPE_BYTES ==> id == None && View() == old(View())
      ensures size <= MAX_ENVELOPE_BYTES ==>
                id.Some? && var o := Step(cfg, old(View()), Contract.Enqueue(job), now);
                View() == o.store && Id(id.value) == o.reply
    {
      if size > MAX_ENVELOPE_BYTES {
        return None;
      }
      var i := InsertOne(job, now);
      id := Some(i);
    }

    /** All or nothing: one over-cap payload refuses the whole batch. */
    method EnqueueBatch(batch: seq<NewJob>, sizes: seq<nat>, now: nat) returns (ids: Option<seq<JobId>>)
      requires |sizes| == |batch|
      modifies this
      ensures ids.None? <==> exists k :: 0 <= k < |sizes| && sizes[k] > MAX_ENVELOPE_BYTES
      ensures ids.None? ==> View() == old(View())
      ensures ids.Some? ==>
                var o := Step(cfg, old(View()), Contract.EnqueueBatch(batch), now);
                View() == o.store && Ids(ids.value) == o.reply
    {
      for i := 0 to |sizes|
        invariant forall k :: 0 <= k < i ==> sizes[k] <= MAX_ENVELOPE_BYTES
        invariant View() == old(View())
      {
        if sizes[i] > MAX_ENVELOPE_BYTES {
          return None;
        }
      }
      var out: seq<JobId> := [];
      for i := 0 to |batch|
        invariant var o := InsertAll(old(View()), batch[..i], now); View() == o.store && Ids(out) == o.reply
      {
        assert batch[..i + 1][..i] == batch[..i];
        var id := InsertOne(batch[i], now);
        out := out + [id];
      }
      assert batch[..|batch|] == batch;
      ids := Some(out);
    }

    method ReleaseExpired(now: nat)
      modifies this`jobs
      ensures View() == Lapse(old(View()), now)
    {
      for i := 0 to |jobs|
        invariant |jobs| == |old(jobs)|
        invariant forall k :: 0 <= k < i ==> jobs[k] == ReleaseOne(old(jobs)[k], now)
        invariant forall k :: i <= k < |jobs| ==> jobs[k] == old(jobs)[k]
      {
        if Expired(jobs[i], now) {
          jobs := jobs[i := Unleased(jobs[i])];
        }
      }
      assert jobs == Release(old(jobs), now);
    }

    method Reserve(lane: Lane, receipt: Receipt, now: nat) returns (got: Option<Reservation>)
      modifies this
      ensures var o := Step(cfg, old(View()), Contract.Reserve(lane, receipt), now);
              View() == o.store && Reserved(got) == o.reply
    {
      var leaseUntil := AddTime(now, cfg.lease);
      ReleaseExpired(now);
      ghost var goal := Sweep(cfg, View(), lane, receipt, now, MAX_DEAD_LETTER_SWEEP);
      var swept := 0;
      while true
        invariant swept < MAX_DEAD_LETTER_SWEEP
        invariant var rest := Sweep(cfg, View(), lane, receipt, now, MAX_DEAD_LETTER_SWEEP - swept);
                  rest.store == goal.store && rest.reply == goal.reply
        decreases MAX_DEAD_LETTER_SWEEP - swept
      {
        var best := PickBest(jobs, lane, now);
        if best.Some? {
          FirstUnique(jobs, lane, now, best.value, First(jobs, lane, now).value);
        }
        if best.None? {
          return None;
        }
        var i := best.value;
        if cfg.maxDeliveries.Some? && Bump(jobs[i].deliveries) > cfg.maxDeliveries.value {
          DeadLetterAt(i, OverDelivered(cfg.maxDeliveries.value), now);
          swept := swept + 1;
          if swept >= MAX_DEAD_LETTER_SWEEP {
            return None;
          }
        } else {
          var job := jobs[i];
          jobs := jobs[i := job.(deliveries := Bump(job.deliveries),
                                 leasedUntil := Some(leaseUntil), receipt := Some(receipt))];
          return Some(Reservation(job.env, receipt, cfg.lease));
        }
      }
    }

    method Ack(receipt: Receipt, now: nat) returns (ok: bool)
      modifies this
      ensures Resolves(cfg, old(View()), receipt, How.Ack, now, View(), ok)
    {
      var pos := FindCurrentReceipt(receipt, now);
      ok := pos.Some?;
      if ok {
        var key := jobs[pos.value].key;
        jobs := RemoveAt(jobs, pos.value);
        if key.Some? {
          unique := unique - {key.value};
        }
      }
    }

    method Retry(receipt: Receipt, delay: nat, now: nat) returns (ok: bool)
      modifies this
      ensures Resolves(cfg, old(View()), receipt, How.Retry(delay), now, View(), ok)
    {
      var pos := FindCurrentReceipt(receipt, now);
      ok := pos.Some?;
      if ok {
        var job := jobs[pos.value];
        jobs := jobs[pos.value := job.(env := job.env.(attempts := Bump(job.env.attempts)),
                                       availableAt := AddTime(now, delay),
                                       leasedUntil := None, receipt := None)];
      }
    }

    method Defer(receipt: Receipt, delay: nat, now: nat) returns (ok: bool)
      modifies this
      ensures Resolves(cfg, old(View()), receipt, How.Defer(delay), now, View(), ok)
    {
      var pos := FindCurrentReceipt(receipt, now);
      ok := pos.Some?;
      if ok {
        var job := jobs[pos.value];
        jobs := jobs[pos.value := job.(availableAt := AddTime(now, delay), leasedUntil := None, receipt := None)];
      }
    }

    method Fail(receipt: Receipt, text: int, now: nat) returns (ok: bool)
      modifies this
      ensures Resolves(cfg, old(View()), receipt, How.Fail(text), now, View(), ok)
    {
      var pos := FindCurrentReceipt(receipt, now);
      ok := pos.Some?;
      if ok {
        DeadLetterAt(pos.value, Given(text), now);
      }
    }

    method Extend(receipt: Receipt, now: nat) returns (ok: bool)
      modifies this
      ensures Resolves(cfg, old(View()), receipt, How.Extend, now, View(), ok)
    {
      var leaseUntil := AddTime(now, cfg.lease);
      var pos := FindCurrentReceipt(receipt, now);
      ok := pos.Some?;
      if ok {
        jobs := jobs[pos.value := jobs[pos.value].(leasedUntil := Some(leaseUntil))];
      }
    }

    method Requeue(id: JobId, now: nat) returns (reply: Reply)
      modifies this
      ensures var o := Step(cfg, old(View()), Contract.Requeue(id), now); View() == o.store && reply == o.reply
    {
      var pos := DeadIndex(dead, id);
      if pos.None? {
        return NoDeadRecord;
      }
      if HasId(jobs, id) {
        return LiveIdConflict;
      }
      var entry := dead[pos.value];
      if entry.key.Some? && entry.key.value in unique {
        return KeyHeld;
      }
      dead := RemoveAt(dead, pos.value);
      if entry.key.Some? {
        unique := unique[entry.key.value := id];
      }
      jobs := jobs + [Job(entry.env, now, None, None, entry.key, 0)];
      reply := Done;
    }

    method EnqueueScheduled(schedule: ScheduleId, occurrence: int, job: NewJob, now: nat) returns (won: bool)
      modifies this
      ensures var o := Step(cfg, old(View()), Contract.EnqueueScheduled(schedule, occurrence, job), now);
              View() == o.store && Claimed(won) == o.reply
    {
      won := if schedule in schedules then occurrence > schedules[schedule] else true;
      if won {
        schedules := schedules[schedule := occurrence];
        var _ := InsertOne(job, now);
      }
    }

    method RemoveSchedule(schedule: ScheduleId)
      modifies this`schedules
      ensures View() == Step(cfg, old(View()), Contract.RemoveSchedule(schedule), 0).store
    {
      schedules := schedules - {schedule};
    }

    method PurgeDeadLetters(lane: Lane) returns (count: nat)
      modifies this
      ensures var o := Step(cfg, old(View()), PurgeDead(lane), 0); View() == o.store && Purged(count) == o.reply
    {
      var before := |dead|;
      ghost var flags := Negate(OnLane(dead, lane));
      var kept: seq<DeadRec> := [];
      for i := 0 to |dead|
        invariant dead == old(dead)
        invariant kept == Pick(dead[..i], flags[..i])
        invariant |kept| + Tally(OnLane(dead, lane)[..i]) == i
      {
        assert dead[..i + 1][..i] == dead[..i] && flags[..i + 1][..i] == flags[..i];
        assert OnLane(dead, lane)[..i + 1][..i] == OnLane(dead, lane)[..i];
        if dead[i].env.lane != lane {
          kept := kept + [dead[i]];
        }
      }
      assert dead[..|dead|] == dead && flags[..|dead|] == flags;
      assert OnLane(dead, lane)[..|dead|] == OnLane(dead, lane);
      dead := kept;
      count := before - |dead|;
    }
  }
}
