/**
 One setting, two counters: the in-memory broker counts deliveries in a saturating
 `u32`, the durable backends in a 64-bit column, and these cap the count bound at `i64`.
 Call by call the difference does not show, except at the largest delivery bound.
 */
module Widths {
  import opened Types
  import opened Lists
  import opened Contract
  import opened Receipts

  /** The job as the in-memory broker would count it. */
  function NarrowJob(j: Job): Job {
    j.(deliveries := Capped(j.deliveries))
  }

  function NarrowJobs(jobs: seq<Job>): seq<Job> {
    seq(|jobs|, i requires 0 <= i < |jobs| => NarrowJob(jobs[i]))
  }

  function Narrow(s: Store): Store {
    s.(jobs := NarrowJobs(s.jobs))
  }

  function Narrowed(o: Outcome): Outcome {
    o.(store := Narrow(o.store))
  }

  /** The largest bound has been reached by the wide counter. */
  predicate Full(settings: Settings, j: Job) {
    settings.maxDeliveries == Some(U32_MAX) && j.deliveries >= U32_MAX
  }

  /** The two delivery tests agree exactly unless the counter is full at the largest bound. */
  lemma OverIff(settings: Settings, j: Job)
    requires settings.maxDeliveries.Some? ==> settings.maxDeliveries.value <= U32_MAX
    ensures (Over(InMemoryConfig(settings), NarrowJob(j)) <==> Over(SqlConfig(settings), j)) <==> !Full(settings, j)
  {
  }

  /** `max_deliveries` is a `u32`, no job is full, and one call leaves fewer dead records than an `i64` counts. */
  ghost predicate Roomy(settings: Settings, s: Store, room: nat) {
    && (settings.maxDeliveries.Some? ==> settings.maxDeliveries.value <= U32_MAX)
    && (forall i :: 0 <= i < |s.jobs| ==> !Full(settings, s.jobs[i]))
    && |s.dead| + room <= I64_MAX
  }

  /** Every broker acts on the operator's settings, but for the width of the count bound and Redis's zero. */
  lemma ConfigsAre(settings: Settings)
    ensures InMemoryConfig(settings) == Config(settings.lease, settings.retention, settings.maxDeliveries, false)
    ensures var sql := SqlConfig(settings);
            && sql.lease == settings.lease && sql.maxDeliveries == settings.maxDeliveries && sql.wide
            && sql.retention.maxAge == settings.retention.maxAge
            && (sql.retention.maxCount.Some? <==> settings.retention.maxCount.Some?)
            && (sql.retention.maxCount.Some? ==>
                  var bound := settings.retention.maxCount.value;
                  sql.retention.maxCount.value == if bound <= I64_MAX then bound else I64_MAX)
    ensures settings.retention.maxCount != Some(0) && settings.maxDeliveries != Some(0) ==>
              RedisConfig(settings) == SqlConfig(settings)
    ensures RedisConfig(settings).lease == settings.lease
    ensures RedisConfig(settings).retention.maxAge == settings.retention.maxAge
  {
  }

  // ------------------------------------------------------------------- dead letters

  lemma {:induction false} YoungFromSame(ret: Retention, dead: seq<DeadRec>, lane: Lane, now: nat, k: nat)
    requires k <= |dead|
    ensures YoungFrom(KeepCount(ret), dead, lane, now, k) == YoungFrom(ret, dead, lane, now, k) <= |dead| - k
    decreases |dead| - k
  {
    if k < |dead| {
      YoungFromSame(ret, dead, lane, now, k + 1);
    }
  }

  lemma PruneSame(ret: Retention, dead: seq<DeadRec>, lane: Lane, now: nat)
    requires |dead| <= I64_MAX
    ensures Prune(KeepCount(ret), dead, lane, now) == Prune(ret, dead, lane, now)
  {
    forall k | 0 <= k < |dead|
      ensures Survives(KeepCount(ret), dead, lane, now, k) == Survives(ret, dead, lane, now, k)
    {
      YoungFromSame(ret, dead, lane, now, k);
    }
    assert Kept(KeepCount(ret), dead, lane, now) == Kept(ret, dead, lane, now);
  }

  lemma BurySame(settings: Settings, s: Store, i: nat, reason: Reason, now: nat, pos: nat)
    requires i < |s.jobs| && pos <= |s.dead| < I64_MAX
    ensures Bury(InMemoryConfig(settings), Narrow(s), i, reason, now, pos) ==
            Narrow(Bury(SqlConfig(settings), s, i, reason, now, pos))
  {
    PruneSame(settings.retention, DeadWith(s, i, reason, now, pos), s.jobs[i].env.lane, now);
    assert RemoveAt(NarrowJobs(s.jobs), i) == NarrowJobs(RemoveAt(s.jobs, i));
  }

  lemma {:induction false} PickShrinks<T>(s: seq<T>, keep: seq<bool>)
    requires |keep| == |s|
    ensures |Pick(s, keep)| <= |s|
  {
    if s != [] {
      PickShrinks(s[..|s| - 1], keep[..|s| - 1]);
    }
  }

  /** A burial takes no more room than its record. */
  lemma BuryRoomy(settings: Settings, s: Store, i: nat, reason: Reason, now: nat, room: nat)
    requires Roomy(settings, s, room + 1) && i < |s.jobs|
    ensures Roomy(settings, Bury(SqlConfig(settings), s, i, reason, now, |s.dead|), room)
  {
    var dead := DeadWith(s, i, reason, now, |s.dead|);
    PickShrinks(dead, Kept(SqlConfig(settings).retention, dead, s.jobs[i].env.lane, now));
  }

  // ----------------------------------------------------------------------- reserve

  lemma FirstSame(jobs: seq<Job>, lane: Lane, now: nat)
    ensures First(NarrowJobs(jobs), lane, now) == First(jobs, lane, now)
  {
    var a, b := First(NarrowJobs(jobs), lane, now), First(jobs, lane, now);
    if b.Some? {
      assert Visible(NarrowJobs(jobs)[b.value], lane, now);
      assert a.Some?;
    }
    if a.Some? {
      assert Visible(jobs[a.value], lane, now);
      forall k | 0 <= k < |jobs| && k != a.value && Visible(jobs[k], lane, now) ensures Ahead(jobs, a.value, k) {
        assert Ahead(NarrowJobs(jobs), a.value, k);
      }
      FirstUnique(jobs, lane, now, a.value, b.value);
    }
  }

  lemma LeaseSame(settings: Settings, s: Store, lane: Lane, i: nat, receipt: Receipt, now: nat)
    requires i < |s.jobs|
    ensures LeaseOutcome(InMemoryConfig(settings), Narrow(s), lane, i, receipt, now) ==
            Narrowed(LeaseOutcome(SqlConfig(settings), s, lane, i, receipt, now))
  {
    var c, d := InMemoryConfig(settings), SqlConfig(settings);
    assert NarrowJobs(s.jobs)[i := LeaseJob(c, NarrowJob(s.jobs[i]), receipt, now)] ==
           NarrowJobs(s.jobs[i := LeaseJob(d, s.jobs[i], receipt, now)]);
  }

  lemma {:induction false} SweepSame(settings: Settings, s: Store, lane: Lane, receipt: Receipt, now: nat, room: nat)
    requires room > 0 && Roomy(settings, s, room)
    ensures Sweep(InMemoryConfig(settings), Narrow(s), lane, receipt, now, room) ==
            Narrowed(Sweep(SqlConfig(settings), s, lane, receipt, now, room))
    decreases room
  {
    FirstSame(s.jobs, lane, now);
    var best := First(s.jobs, lane, now);
    if best.Some? {
      OverIff(settings, s.jobs[best.value]);
      if Over(SqlConfig(settings), s.jobs[best.value]) {
        BuriesSame(settings, s, lane, receipt, now, room, best.value);
      } else {
        LeaseSame(settings, s, lane, best.value, receipt, now);
      }
    }
  }

  lemma {:induction false} BuriesSame(settings: Settings, s: Store, lane: Lane, receipt: Receipt, now: nat,
                                      room: nat, i: nat)
    requires room > 0 && Roomy(settings, s, room) && First(s.jobs, lane, now) == Some(i)
    requires First(NarrowJobs(s.jobs), lane, now) == Some(i)
    requires Over(SqlConfig(settings), s.jobs[i]) && Over(InMemoryConfig(settings), NarrowJob(s.jobs[i]))
    ensures Sweep(InMemoryConfig(settings), Narrow(s), lane, receipt, now, room) ==
            Narrowed(Sweep(SqlConfig(settings), s, lane, receipt, now, room))
    decreases room, 0
  {
    var c, d := InMemoryConfig(settings), SqlConfig(settings);
    var next := Bury(d, s, i, OverReason(d), now, |s.dead|);
    BurySame(settings, s, i, OverReason(d), now, |s.dead|);
    var o := Outcome(next, Reserved(None), []);
    if room > 1 {
      BuryRoomy(settings, s, i, OverReason(d), now, room - 1);
      SweepSame(settings, next, lane, receipt, now, room - 1);
      o := Sweep(d, next, lane, receipt, now, room - 1);
    }
    SweepUnfolds(d, s, lane, receipt, now, room, i, o);
    SweepUnfolds(c, Narrow(s), lane, receipt, now, room, i, Narrowed(o));
  }

  // ------------------------------------------------------------------ other calls

  lemma HasIdSame(jobs: seq<Job>, id: JobId)
    ensures HasId(NarrowJobs(jobs), id) <==> HasId(jobs, id)
  {
    if i :| 0 <= i < |jobs| && jobs[i].env.id == id {
      assert NarrowJobs(jobs)[i].env.id == id;
    }
    if i :| 0 <= i < |jobs| && NarrowJobs(jobs)[i].env.id == id {
      assert jobs[i].env.id == id;
    }
  }

  lemma InsertSame(s: Store, job: NewJob, now: nat)
    ensures Insert(Narrow(s), job, now) == Narrowed(Insert(s, job, now))
  {
    HasIdSame(s.jobs, job.id);
    assert NarrowJobs(Place(s, job, now).jobs) == Place(Narrow(s), job, now).jobs;
  }

  lemma {:induction false} InsertAllSame(s: Store, batch: seq<NewJob>, now: nat)
    ensures InsertAll(Narrow(s), batch, now) == Narrowed(InsertAll(s, batch, now))
  {
    if batch != [] {
      var n := |batch| - 1;
      InsertAllSame(s, batch[..n], now);
      InsertSame(InsertAll(s, batch[..n], now).store, batch[n], now);
    }
  }

  lemma HolderSame(jobs: seq<Job>, receipt: Receipt)
    ensures Holder(NarrowJobs(jobs), receipt) == Holder(jobs, receipt)
  {
    var a, b := Holder(NarrowJobs(jobs), receipt), Holder(jobs, receipt);
    assert forall k :: 0 <= k < |jobs| ==> NarrowJobs(jobs)[k].receipt == jobs[k].receipt;
  }

  lemma UseSame(settings: Settings, s: Store, i: nat, how: How, now: nat)
    requires i < |s.jobs| && |s.dead| < I64_MAX
    ensures Use(InMemoryConfig(settings), Narrow(s), i, how, now, |s.dead|) ==
            Narrow(Use(SqlConfig(settings), s, i, how, now, |s.dead|))
  {
    if how.Fail? {
      BurySame(settings, s, i, Given(how.text), now, |s.dead|);
    } else if how.Ack? {
      assert RemoveAt(NarrowJobs(s.jobs), i) == NarrowJobs(RemoveAt(s.jobs, i));
    } else {
      var j := Use(SqlConfig(settings), s, i, how, now, |s.dead|).jobs[i];
      assert NarrowJobs(s.jobs)[i := NarrowJob(j)] == NarrowJobs(s.jobs[i := j]);
    }
  }

  lemma ResolveSame(settings: Settings, s: Store, receipt: Receipt, how: How, now: nat)
    requires |s.dead| < I64_MAX
    ensures ResolveStep(InMemoryConfig(settings), Narrow(s), receipt, how, now, |s.dead|) ==
            Narrowed(ResolveStep(SqlConfig(settings), s, receipt, how, now, |s.dead|))
  {
    HolderSame(s.jobs, receipt);
    var at := Holder(s.jobs, receipt);
    if at.Some? {
      UseSame(settings, s, at.value, how, now);
      assert NarrowJobs(s.jobs)[at.value := Unleased(NarrowJob(s.jobs[at.value]))] ==
             NarrowJobs(s.jobs[at.value := Unleased(s.jobs[at.value])]);
    }
  }

  lemma ReviveSame(s: Store, k: nat, now: nat)
    requires k < |s.dead|
    ensures Revive(Narrow(s), k, now) == Narrow(Revive(s, k, now))
  {
    assert NarrowJobs(Revive(s, k, now).jobs) == Revive(Narrow(s), k, now).jobs;
  }

  /**
   Every call of the in-memory broker answers, and changes the store, as the same call on
   a durable backend's store does, up to the width of the delivery counts.
   */
  lemma WidthsAgree(settings: Settings, s: Store, op: Op, now: nat)
    requires Roomy(settings, s, MAX_DEAD_LETTER_SWEEP)
    ensures Step(InMemoryConfig(settings), Narrow(s), op, now) == Narrowed(Step(SqlConfig(settings), s, op, now))
  {
    match op
    case Enqueue(job) => InsertSame(s, job, now);
    case EnqueueBatch(jobs) => InsertAllSame(s, jobs, now);
    case Reserve(lane, receipt) =>
      assert Release(NarrowJobs(s.jobs), now) == NarrowJobs(Release(s.jobs, now));
      SweepSame(settings, Lapse(s, now), lane, receipt, now, MAX_DEAD_LETTER_SWEEP);
    case Resolve(receipt, how) => ResolveSame(settings, s, receipt, how, now);
    case Requeue(id) =>
      HasIdSame(s.jobs, id);
      if DeadIndex(s.dead, id).Some? {
        ReviveSame(s, DeadIndex(s.dead, id).value, now);
      }
    case EnqueueScheduled(sid, occurrence, job) =>
      InsertSame(s.(schedules := s.schedules[sid := occurrence]), job, now);
    case Classify(id) => HasIdSame(s.jobs, id);
    case PendingCount(lane) => assert JobsOnLane(NarrowJobs(s.jobs), lane) == JobsOnLane(s.jobs, lane);
    case _ =>
  }

  /** `outs` are the outcomes of making `calls` in turn on a new broker that acts as `Step` does. */
  ghost predicate Plays(cfg: Config, calls: seq<Call>, outs: seq<Outcome>) {
    && |outs| == |calls|
    && forall n :: 0 <= n < |calls| ==> PlaysAt(cfg, calls, outs, n)
  }

  ghost predicate PlaysAt(cfg: Config, calls: seq<Call>, outs: seq<Outcome>, n: nat)
    requires n < |calls| == |outs|
  {
    outs[n] == Step(cfg, At(outs, n), calls[n].op, calls[n].now)
  }

  lemma WidthsAgreeAt(settings: Settings, calls: seq<Call>, memory: seq<Outcome>, durable: seq<Outcome>, n: nat)
    requires n < |calls| == |memory| == |durable| && Roomy(settings, At(durable, n), MAX_DEAD_LETTER_SWEEP)
    requires PlaysAt(InMemoryConfig(settings), calls, memory, n) && PlaysAt(SqlConfig(settings), calls, durable, n)
    requires At(memory, n) == Narrow(At(durable, n))
    ensures memory[n] == Narrowed(durable[n])
  {
    WidthsAgree(settings, At(durable, n), calls[n].op, calls[n].now);
  }

  /**
   Over every sequence of calls the in-memory broker and a durable one give the same answers
   and log the same events, as long as no count is full at the largest bound.
   */
  lemma {:induction false} WidthsAgreeOverRuns(settings: Settings, calls: seq<Call>,
                                               memory: seq<Outcome>, durable: seq<Outcome>, n: nat)
    requires Plays(InMemoryConfig(settings), calls, memory) && Plays(SqlConfig(settings), calls, durable)
    requires n <= |calls| && forall k :: 0 <= k < n ==> Roomy(settings, At(durable, k), MAX_DEAD_LETTER_SWEEP)
    ensures At(memory, n) == Narrow(At(durable, n))
    ensures forall k :: 0 <= k < n ==> memory[k].reply == durable[k].reply && memory[k].log == durable[k].log
  {
    if n == 0 {
      assert NarrowJobs([]) == [];
    } else {
      WidthsAgreeOverRuns(settings, calls, memory, durable, n - 1);
      assert PlaysAt(InMemoryConfig(settings), calls, memory, n - 1) &&
        PlaysAt(SqlConfig(settings), calls, durable, n - 1);
      WidthsAgreeAt(settings, calls, memory, durable, n - 1);
    }
  }
}
