/**
 What every allowed call does, field by field and on its own terms: which job a call stores,
 what a used receipt changes, what a reserve hands out, what a read lists.
 */
module Effects {
  import opened Types
  import opened Lists
  import opened Contract
  import opened Invariant
  import opened DeadLanes
  import ReserveLaws

  /** `t` is `a + b`, saturating at the largest duration. */
  predicate Sum(t: nat, a: nat, b: nat) {
    t == if a + b <= DURATION_MAX then a + b else DURATION_MAX
  }

  // ------------------------------------------------------------------ enqueue

  /** `j` is what a worker should find of `job` when it was stored at `now`. */
  predicate IsNew(j: Job, job: NewJob, now: nat) {
    && j.env.id == job.id && j.env.lane == job.lane && j.env.kind == job.kind && j.env.payload == job.payload
    && j.env.attempts == 0 && j.env.maxAttempts == job.maxAttempts && j.env.priority == job.priority
    && Sum(j.availableAt, now, job.delay) && j.key == job.key
    && j.leasedUntil == None && j.receipt == None && j.deliveries == 0
  }

  /** From `s` to `t` exactly `job` was added, behind all others, and holds its key. */
  ghost predicate Added(s: Store, t: Store, job: NewJob, now: nat) {
    && |t.jobs| == |s.jobs| + 1 && t.jobs[..|s.jobs|] == s.jobs && IsNew(t.jobs[|s.jobs|], job, now)
    && t.dead == s.dead && t.schedules == s.schedules
    && t.unique == match job.key case Some(key) => s.unique[key := job.id] case None => s.unique
  }

  ghost predicate LiveId(s: Store, id: JobId) {
    exists i :: 0 <= i < |s.jobs| && s.jobs[i].env.id == id
  }

  /** The store changes as an enqueue of `job` changes it, and `id` is the answer. */
  ghost predicate Enqueues(s: Store, t: Store, job: NewJob, now: nat, id: JobId) {
    if LiveId(s, job.id) then t == s && id == job.id
    else if job.key.Some? && job.key.value in s.unique then t == s && id == s.unique[job.key.value]
    else Added(s, t, job, now) && id == job.id
  }

  lemma EnqueueEffect(cfg: Config, s: Store, job: NewJob, now: nat, o: Outcome)
    requires StepAny(cfg, s, Enqueue(job), now, o)
    ensures o.reply.Id? && Enqueues(s, o.store, job, now, o.reply.id)
  {
  }

  /** A batch of one job is an enqueue; a longer one is its front and then its last job. */
  lemma BatchEffect(cfg: Config, s: Store, jobs: seq<NewJob>, now: nat, o: Outcome)
    requires StepAny(cfg, s, EnqueueBatch(jobs), now, o)
    ensures o.reply.Ids? && |o.reply.ids| == |jobs|
    ensures jobs == [] ==> o.store == s
    ensures jobs != [] ==>
              var n := |jobs| - 1;
              exists front :: && StepAny(cfg, s, EnqueueBatch(jobs[..n]), now, front) && front.reply.Ids?
                              && o.reply.ids == front.reply.ids + [o.reply.ids[n]]
                              && Enqueues(front.store, o.store, jobs[n], now, o.reply.ids[n])
  {
    if jobs != [] {
      var n := |jobs| - 1;
      var front := InsertAll(s, jobs[..n], now);
      assert StepAny(cfg, s, EnqueueBatch(jobs[..n]), now, front);
      var last := Insert(front.store, jobs[n], now);
      EnqueueEffect(cfg, front.store, jobs[n], now, last);
    }
  }

  /**
   A claim is accepted exactly above the watermark, which it then moves; an accepted claim
   stores its job, unless the id is live or the key held; a refused one changes nothing.
   */
  lemma ClaimEffect(cfg: Config, s: Store, sid: ScheduleId, occurrence: int, job: NewJob, now: nat, o: Outcome)
    requires StepAny(cfg, s, EnqueueScheduled(sid, occurrence, job), now, o)
    ensures o.reply.Claimed? && (o.reply.won <==> sid !in s.schedules || s.schedules[sid] < occurrence)
    ensures !o.reply.won ==> o.store == s
    ensures o.reply.won ==>
              var marked := s.(schedules := s.schedules[sid := occurrence]);
              if LiveId(s, job.id) || (job.key.Some? && job.key.value in s.unique) then o.store == marked
              else Added(marked, o.store, job, now)
  {
  }

  // -------------------------------------------------------------- used receipts

  /** Job `i` holds the receipt, and its lease runs at `now`. */
  ghost predicate Holds(s: Store, receipt: Receipt, now: nat, i: nat) {
    && i < |s.jobs| && s.jobs[i].receipt == Some(receipt)
    && (s.jobs[i].leasedUntil.Some? ==> now < s.jobs[i].leasedUntil.value)
  }

  /** A use is accepted exactly when some job holds the receipt under a running lease. */
  lemma UseAccepted(cfg: Config, s: Store, receipt: Receipt, how: How, now: nat, o: Outcome)
    requires Inv(s) && StepAny(cfg, s, Resolve(receipt, how), now, o)
    ensures o.reply == Done || o.reply == Stale
    ensures o.reply == Done <==> exists i: nat :: Holds(s, receipt, now, i)
  {
    HolderHolds(s, receipt, now);
  }

  lemma HolderHolds(s: Store, receipt: Receipt, now: nat)
    requires Inv(s)
    ensures forall i :: 0 <= i < |s.jobs| && s.jobs[i].receipt == Some(receipt) ==> Holder(s.jobs, receipt) == Some(i)
    ensures (exists i: nat :: Holds(s, receipt, now, i)) <==>
            var at := Holder(s.jobs, receipt); at.Some? && !Expired(s.jobs[at.value], now)
  {
    var at := Holder(s.jobs, receipt);
    if at.Some? && !Expired(s.jobs[at.value], now) {
      assert Holds(s, receipt, now, at.value);
    }
  }

  /** Only job `i` changed. */
  ghost predicate OnlyJob(s: Store, t: Store, i: nat) {
    && i < |s.jobs| == |t.jobs| && t == s.(jobs := t.jobs)
    && forall k :: 0 <= k < |s.jobs| && k != i ==> t.jobs[k] == s.jobs[k]
  }

  /** An accepted retry: one attempt more, visible after the delay, no lease, nothing else. */
  lemma RetryEffect(cfg: Config, s: Store, receipt: Receipt, delay: nat, now: nat, o: Outcome, i: nat)
    requires Inv(s) && StepAny(cfg, s, Resolve(receipt, Retry(delay)), now, o) && Holds(s, receipt, now, i)
    ensures o.reply == Done && OnlyJob(s, o.store, i)
    ensures var j, k := s.jobs[i], o.store.jobs[i];
            && k.env.attempts == (if j.env.attempts < U32_MAX then j.env.attempts + 1 else U32_MAX)
            && k.env == j.env.(attempts := k.env.attempts) && Sum(k.availableAt, now, delay)
            && k.leasedUntil == None && k.receipt == None && k.key == j.key && k.deliveries == j.deliveries
  {
    HolderHolds(s, receipt, now);
  }

  /** An accepted defer: as a retry, but the attempts stay. */
  lemma DeferEffect(cfg: Config, s: Store, receipt: Receipt, delay: nat, now: nat, o: Outcome, i: nat)
    requires Inv(s) && StepAny(cfg, s, Resolve(receipt, Defer(delay)), now, o) && Holds(s, receipt, now, i)
    ensures o.reply == Done && OnlyJob(s, o.store, i)
    ensures var j, k := s.jobs[i], o.store.jobs[i];
            && k.env == j.env && Sum(k.availableAt, now, delay)
            && k.leasedUntil == None && k.receipt == None && k.key == j.key && k.deliveries == j.deliveries
  {
    HolderHolds(s, receipt, now);
  }

  /** An accepted extend: the lease ends one lease from now, nothing else. */
  lemma ExtendEffect(cfg: Config, s: Store, receipt: Receipt, now: nat, o: Outcome, i: nat)
    requires Inv(s) && StepAny(cfg, s, Resolve(receipt, Extend), now, o) && Holds(s, receipt, now, i)
    ensures o.reply == Done && OnlyJob(s, o.store, i)
    ensures var j, k := s.jobs[i], o.store.jobs[i];
            && k.leasedUntil.Some? && Sum(k.leasedUntil.value, now, cfg.lease)
            && k.env == j.env && k.availableAt == j.availableAt && k.receipt == j.receipt
            && k.key == j.key && k.deliveries == j.deliveries
  {
    HolderHolds(s, receipt, now);
  }

  /** Job `i` is gone from the queue, its key is free, and the other jobs are untouched. */
  ghost predicate JobGone(s: Store, t: Store, i: nat) {
    && i < |s.jobs| && t.jobs == s.jobs[..i] + s.jobs[i + 1..] && t.schedules == s.schedules
    && t.unique == match s.jobs[i].key case Some(key) => s.unique - {key} case None => s.unique
  }

  /** An accepted ack: the job is gone, and no record of it is kept. */
  lemma AckEffect(cfg: Config, s: Store, receipt: Receipt, now: nat, o: Outcome, i: nat)
    requires Inv(s) && StepAny(cfg, s, Resolve(receipt, Ack), now, o) && Holds(s, receipt, now, i)
    ensures o.reply == Done && JobGone(s, o.store, i) && o.store.dead == s.dead
  {
    HolderHolds(s, receipt, now);
  }

  /** The record a job leaves. */
  predicate RecordOf(d: DeadRec, j: Job, reason: Reason, now: nat) {
    d.env == j.env && d.key == j.key && d.reason == reason && d.deadAt == now
  }

  /**
   An accepted fail: the job is gone, every dead record is an old one or its own, with the
   caller's text and this instant, and without retention bounds all old ones and its own are there.
   */
  lemma FailEffect(cfg: Config, s: Store, receipt: Receipt, text: int, now: nat, o: Outcome, i: nat)
    requires Inv(s) && StepAny(cfg, s, Resolve(receipt, Fail(text)), now, o) && Holds(s, receipt, now, i)
    ensures o.reply == Done && JobGone(s, o.store, i)
    ensures forall d :: d in o.store.dead ==> d in s.dead || RecordOf(d, s.jobs[i], Given(text), now)
    ensures cfg.retention == Retention(None, None) ==>
              exists pos :: 0 <= pos < |o.store.dead| && RecordOf(o.store.dead[pos], s.jobs[i], Given(text), now)
                            && o.store.dead[..pos] + o.store.dead[pos + 1..] == s.dead
  {
    HolderHolds(s, receipt, now);
    var pos :| PlaceAllowed(s, receipt, now, pos) && o == ResolveStep(cfg, s, receipt, Fail(text), now, pos);
    BuriedRecords(cfg, s, i, Given(text), now, pos);
    if cfg.retention == Retention(None, None) {
      UnboundedRecords(cfg, s, i, Given(text), now, pos);
    }
  }

  lemma BuriedRecords(cfg: Config, s: Store, i: nat, reason: Reason, now: nat, pos: nat)
    requires i < |s.jobs| && pos <= |s.dead|
    ensures forall d :: d in Bury(cfg, s, i, reason, now, pos).dead ==>
              d in s.dead || RecordOf(d, s.jobs[i], reason, now)
  {
    var dead := DeadWith(s, i, reason, now, pos);
    var keep := Kept(cfg.retention, dead, s.jobs[i].env.lane, now);
    forall d | d in Pick(dead, keep) ensures d in s.dead || RecordOf(d, s.jobs[i], reason, now) {
      var k :| 0 <= k < |Pick(dead, keep)| && Pick(dead, keep)[k] == d;
      var m := PickFrom(dead, keep, k);
    }
  }

  lemma UnboundedRecords(cfg: Config, s: Store, i: nat, reason: Reason, now: nat, pos: nat)
    requires i < |s.jobs| && pos <= |s.dead| && cfg.retention == Retention(None, None)
    ensures var t := Bury(cfg, s, i, reason, now, pos);
            && pos < |t.dead| && RecordOf(t.dead[pos], s.jobs[i], reason, now)
            && t.dead[..pos] + t.dead[pos + 1..] == s.dead
  {
    var dead := DeadWith(s, i, reason, now, pos);
    PickAll(dead, Kept(cfg.retention, dead, s.jobs[i].env.lane, now));
  }

  // --------------------------------------------------------------- dead letters

  /** Each answer of a requeue has its one cause, and a requeued job keeps all but its deliveries and its wait. */
  lemma RequeueEffect(cfg: Config, s: Store, id: JobId, now: nat, o: Outcome)
    requires StepAny(cfg, s, Requeue(id), now, o)
    ensures o.reply == NoDeadRecord <==> forall k :: 0 <= k < |s.dead| ==> s.dead[k].env.id != id
    ensures o.reply == LiveIdConflict <==> LiveId(s, id) && exists k :: 0 <= k < |s.dead| && s.dead[k].env.id == id
    ensures o.reply in {NoDeadRecord, LiveIdConflict, KeyHeld, Done} && (o.reply != Done ==> o.store == s)
    ensures o.reply in {KeyHeld, Done} ==>
              exists k :: && 0 <= k < |s.dead| && s.dead[k].env.id == id
                          && (forall m :: 0 <= m < k ==> s.dead[m].env.id != id)
                          && (o.reply == KeyHeld <==> s.dead[k].key.Some? && s.dead[k].key.value in s.unique)
                          && (o.reply == Done ==> Requeued(s, o.store, k, now))
  {
    var at := DeadIndex(s.dead, id);
    if at.Some? {
      assert s.dead[at.value].env.id == id;
    }
  }

  /** Record `k` became the last job, visible now, unleased, undelivered, with its envelope and key. */
  ghost predicate Requeued(s: Store, t: Store, k: nat, now: nat) {
    && k < |s.dead| && t.dead == s.dead[..k] + s.dead[k + 1..] && t.schedules == s.schedules
    && t.jobs == s.jobs + [Job(s.dead[k].env, now, None, None, s.dead[k].key, 0)]
    && t.unique == match s.dead[k].key case Some(key) => s.unique[key := s.dead[k].env.id] case None => s.unique
  }

  /** A purge drops the lane's records, counts them, and leaves the other lanes and all jobs. */
  lemma PurgeEffect(cfg: Config, s: Store, lane: Lane, now: nat, o: Outcome, other: Lane)
    requires StepAny(cfg, s, PurgeDead(lane), now, o)
    ensures o.store == s.(dead := o.store.dead) && o.reply == Purged(|OfLane(s.dead, lane)|)
    ensures OfLane(o.store.dead, other) == if other == lane then [] else OfLane(s.dead, other)
  {
    EmptyOfLane(s.dead, lane, other);
    OfLanePick(s.dead, lane);
    PickLength(s.dead, OnLane(s.dead, lane));
  }

  /** A listing is the first `limit` records of the lane, or all if there are no more, as letters. */
  lemma ListEffect(cfg: Config, s: Store, lane: Lane, limit: nat, now: nat, o: Outcome)
    requires StepAny(cfg, s, ReadDead(lane, limit), now, o)
    ensures o.store == s && o.reply.Letters?
    ensures var all, got := OfLane(s.dead, lane), o.reply.letters;
            && |got| == (if limit < |all| then limit else |all|)
            && forall k :: 0 <= k < |got| ==> got[k] == Letter(all[k].env, all[k].reason)
  {
    OfLanePick(s.dead, lane);
  }

  lemma CountEffect(cfg: Config, s: Store, lane: Lane, now: nat, o: Outcome)
    requires StepAny(cfg, s, CountDead(lane), now, o)
    ensures o.store == s && o.reply == Count(|OfLane(s.dead, lane)|)
  {
    OfLanePick(s.dead, lane);
    PickLength(s.dead, OnLane(s.dead, lane));
  }

  // ------------------------------------------------------------------- reserve

  /** A reserve may take the job: on its lane, its wait over, and no lease running. */
  predicate Free(j: Job, lane: Lane, now: nat) {
    j.env.lane == lane && j.availableAt <= now && (j.leasedUntil.Some? ==> j.leasedUntil.value <= now)
  }

  /** One more delivery would exceed the bound, in the width the count has. */
  predicate Spent(cfg: Config, j: Job) {
    cfg.maxDeliveries.Some? &&
    (if cfg.wide || j.deliveries < U32_MAX then j.deliveries + 1 else U32_MAX) > cfg.maxDeliveries.value
  }

  /** `k` is `j`, but for a lease that has run out. */
  predicate Freed(j: Job, k: Job, now: nat) {
    && k.env == j.env && k.availableAt == j.availableAt && k.key == j.key && k.deliveries == j.deliveries
    && (if j.leasedUntil.Some? && j.leasedUntil.value <= now then k.leasedUntil == None && k.receipt == None
        else k.leasedUntil == j.leasedUntil && k.receipt == j.receipt)
  }

  /** `k` is `j` under a new lease and receipt, delivered once more. */
  predicate HandedOver(cfg: Config, j: Job, k: Job, receipt: Receipt, now: nat) {
    && k.env == j.env && k.availableAt == j.availableAt && k.key == j.key && k.receipt == Some(receipt)
    && k.leasedUntil.Some? && Sum(k.leasedUntil.value, now, cfg.lease)
    && k.deliveries == (if cfg.wide || j.deliveries < U32_MAX then j.deliveries + 1 else U32_MAX)
  }

  /** A record a sweep may leave: a visible job over its budget, buried at `now` with the bound named. */
  ghost predicate SweptRecord(cfg: Config, jobs: seq<Job>, lane: Lane, now: nat, d: DeadRec) {
    exists j :: j in jobs && Visible(j, lane, now) && Over(cfg, j) &&
                RecordOf(d, j, OverDelivered(cfg.maxDeliveries.value), now)
  }

  /** From `s` to `t` visible jobs over budget left the queue, and only their records are new. */
  ghost predicate SweptTo(cfg: Config, s: Store, t: Store, lane: Lane, now: nat) {
    && (forall j :: j in t.jobs ==> j in s.jobs)
    && (forall j :: j in s.jobs ==> j in t.jobs || (Visible(j, lane, now) && Over(cfg, j)))
    && (forall d :: d in t.dead ==> d in s.dead || SweptRecord(cfg, s.jobs, lane, now, d))
    && t.schedules == s.schedules
  }

  lemma BurialRemoves(cfg: Config, s: Store, e: Event, lane: Lane, now: nat)
    requires Enabled(cfg, s, e) && e.Buried? && e.lane == lane && e.at == now
    ensures |Fire(cfg, s, e).jobs| + 1 == |s.jobs| && SweptTo(cfg, s, Fire(cfg, s, e), lane, now)
  {
    var i, t := e.index, Fire(cfg, s, e);
    forall j | j in s.jobs ensures j in t.jobs || j == s.jobs[i] {
      var k :| 0 <= k < |s.jobs| && s.jobs[k] == j;
      assert k < i ==> t.jobs[k] == j;
      assert k > i ==> t.jobs[k - 1] == j;
    }
    BuriedRecords(cfg, s, i, OverReason(cfg), now, e.pos);
    forall d | d in t.dead ensures d in s.dead || SweptRecord(cfg, s.jobs, lane, now, d) {
      assert s.jobs[i] in s.jobs;
    }
  }

  lemma SweptJoin(cfg: Config, s: Store, t: Store, u: Store, lane: Lane, now: nat)
    requires SweptTo(cfg, s, t, lane, now) && SweptTo(cfg, t, u, lane, now)
    ensures SweptTo(cfg, s, u, lane, now)
  {
  }

  /** A sweep takes one job away per burial. */
  lemma {:induction false} SweepRemoves(cfg: Config, s: Store, lane: Lane, now: nat, bs: seq<Event>)
    requires Burials(lane, now, bs) && Trace(cfg, s, bs)
    ensures |Reach(cfg, s, bs).jobs| + |bs| == |s.jobs| && SweptTo(cfg, s, Reach(cfg, s, bs), lane, now)
    decreases |bs|
  {
    if bs != [] {
      BurialRemoves(cfg, s, bs[0], lane, now);
      SweepRemoves(cfg, Fire(cfg, s, bs[0]), lane, now, bs[1..]);
      SweptJoin(cfg, s, Fire(cfg, s, bs[0]), Reach(cfg, s, bs), lane, now);
    }
  }

  /** The job at `m` was handed out as `res`, and stands at `k` of the new queue. */
  ghost predicate HandsOver(cfg: Config, s: Store, t: Store, lane: Lane, receipt: Receipt, now: nat,
                            res: Reservation, m: nat, k: nat) {
    && m < |s.jobs| && k < |t.jobs| && Free(s.jobs[m], lane, now) && !Spent(cfg, s.jobs[m])
    && res == Reservation(s.jobs[m].env, receipt, cfg.lease) && HandedOver(cfg, s.jobs[m], t.jobs[k], receipt, now)
    && forall x :: 0 <= x < |s.jobs| && Free(s.jobs[x], lane, now) && s.jobs[x].env.priority > res.env.priority ==>
         Spent(cfg, s.jobs[x])
  }

  /** Job `x` is still in the queue, with its envelope, its key and its time. */
  ghost predicate Stays(s: Store, t: Store, x: nat)
    requires x < |s.jobs|
  {
    exists k :: 0 <= k < |t.jobs| && t.jobs[k].env == s.jobs[x].env && t.jobs[k].key == s.jobs[x].key
                && t.jobs[k].availableAt == s.jobs[x].availableAt
  }

  /** The record of a free job that had used up its deliveries, with the bound named. */
  ghost predicate LeftBySweep(cfg: Config, s: Store, lane: Lane, now: nat, d: DeadRec) {
    exists x :: && 0 <= x < |s.jobs| && Free(s.jobs[x], lane, now) && Spent(cfg, s.jobs[x])
                && RecordOf(d, s.jobs[x], OverDelivered(cfg.maxDeliveries.value), now)
  }

  lemma SweptFrom(cfg: Config, s: Store, lane: Lane, now: nat, d: DeadRec)
    requires SweptRecord(cfg, Lapse(s, now).jobs, lane, now, d)
    ensures LeftBySweep(cfg, s, lane, now, d)
  {
    var r := Lapse(s, now);
    var j :| j in r.jobs && Visible(j, lane, now) && Over(cfg, j) &&
             RecordOf(d, j, OverDelivered(cfg.maxDeliveries.value), now);
    var x :| 0 <= x < |r.jobs| && r.jobs[x] == j;
    assert Free(s.jobs[x], lane, now) && Spent(cfg, s.jobs[x]);
  }

  lemma StaysIf(cfg: Config, s: Store, t: Store, u: Store, lane: Lane, now: nat, x: nat)
    requires x < |s.jobs| && SweptTo(cfg, Lapse(s, now), t, lane, now) && |u.jobs| == |t.jobs|
    requires forall k :: 0 <= k < |t.jobs| ==> u.jobs[k].env == t.jobs[k].env && u.jobs[k].key == t.jobs[k].key
                                               && u.jobs[k].availableAt == t.jobs[k].availableAt
    ensures Stays(s, u, x) || (Free(s.jobs[x], lane, now) && Spent(cfg, s.jobs[x]))
  {
    var j := Lapse(s, now).jobs[x];
    if j in t.jobs {
      var k :| 0 <= k < |t.jobs| && t.jobs[k] == j;
      assert u.jobs[k].env == s.jobs[x].env;
    }
  }

  /** A reserve clears leases, sweeps `n` jobs to reach `t`, and then leases the job at `got`, if any. */
  lemma ReserveSplits(cfg: Config, s: Store, lane: Lane, receipt: Receipt, now: nat, o: Outcome)
    returns (t: Store, n: nat, got: Option<nat>)
    requires StepAny(cfg, s, Reserve(lane, receipt), now, o)
    ensures SweptTo(cfg, Lapse(s, now), t, lane, now) && |t.jobs| + n == |s.jobs|
    ensures got.None? ==>
              && o.store == t && o.reply == Reserved(None)
              && (n == MAX_DEAD_LETTER_SWEEP || !AnyVisible(t.jobs, lane, now))
    ensures got.Some? ==>
              && IsTop(t.jobs, lane, now, got.value) && !Over(cfg, t.jobs[got.value])
              && var leased := LeaseOutcome(cfg, t, lane, got.value, receipt, now);
                 o.store == leased.store && o.reply == leased.reply
  {
    var bs, at, swept :| SweepAny(cfg, Lapse(s, now), lane, receipt, now, MAX_DEAD_LETTER_SWEEP, bs, at, swept)
                         && o == Outcome(swept.store, swept.reply, [Lapsed(now)] + swept.log);
    SweepRemoves(cfg, Lapse(s, now), lane, now, bs);
    t, n, got := Reach(cfg, Lapse(s, now), bs), |bs|, at;
  }

  /**
   A reserve hands out a free job within its delivery budget, under a lease from now, and every
   free job of a higher priority had used its budget up. It hands out nothing only if every free
   job had, or the sweep removed as many as one call may.
   */
  lemma ReserveEffect(cfg: Config, s: Store, lane: Lane, receipt: Receipt, now: nat, o: Outcome)
    requires StepAny(cfg, s, Reserve(lane, receipt), now, o)
    ensures o.reply.Reserved?
    ensures o.reply.reservation.Some? ==>
              exists m: nat, k: nat :: HandsOver(cfg, s, o.store, lane, receipt, now, o.reply.reservation.value, m, k)
    ensures o.reply.reservation.None? ==>
              || |s.jobs| == |o.store.jobs| + MAX_DEAD_LETTER_SWEEP
              || forall x :: 0 <= x < |s.jobs| && Free(s.jobs[x], lane, now) ==> Spent(cfg, s.jobs[x])
  {
    var t, n, got := ReserveSplits(cfg, s, lane, receipt, now, o);
    if got.Some? {
      PicksTop(cfg, s, t, lane, receipt, now, got.value);
    } else if n != MAX_DEAD_LETTER_SWEEP {
      forall x | 0 <= x < |s.jobs| && Free(s.jobs[x], lane, now) ensures Spent(cfg, s.jobs[x]) {
        StaysVisible(cfg, s, t, lane, now, x);
      }
    }
  }

  /** A reserve takes no job away but free ones over budget, and adds no record but theirs. */
  lemma ReserveSpares(cfg: Config, s: Store, lane: Lane, receipt: Receipt, now: nat, o: Outcome)
    requires StepAny(cfg, s, Reserve(lane, receipt), now, o)
    ensures forall x :: 0 <= x < |s.jobs| && !(Free(s.jobs[x], lane, now) && Spent(cfg, s.jobs[x])) ==>
              Stays(s, o.store, x)
    ensures forall d :: d in o.store.dead ==> d in s.dead || LeftBySweep(cfg, s, lane, now, d)
    ensures o.store.schedules == s.schedules
  {
    var t, n, got := ReserveSplits(cfg, s, lane, receipt, now, o);
    forall x | 0 <= x < |s.jobs| && !(Free(s.jobs[x], lane, now) && Spent(cfg, s.jobs[x]))
      ensures Stays(s, o.store, x)
    {
      StaysIf(cfg, s, t, o.store, lane, now, x);
    }
    forall d | d in o.store.dead ensures d in s.dead || LeftBySweep(cfg, s, lane, now, d) {
      if d !in s.dead {
        SweptFrom(cfg, s, lane, now, d);
      }
    }
  }

  /** A free job within budget is still there, visible, when the sweep is over. */
  lemma StaysVisible(cfg: Config, s: Store, t: Store, lane: Lane, now: nat, x: nat)
    requires x < |s.jobs| && Free(s.jobs[x], lane, now)
    requires forall j :: j in Lapse(s, now).jobs ==> j in t.jobs || (Visible(j, lane, now) && Over(cfg, j))
    ensures Spent(cfg, s.jobs[x]) ||
            exists k :: 0 <= k < |t.jobs| && Visible(t.jobs[k], lane, now) && t.jobs[k].env == s.jobs[x].env
  {
    var j := Lapse(s, now).jobs[x];
    if !Spent(cfg, s.jobs[x]) {
      assert j in t.jobs;
      var k :| 0 <= k < |t.jobs| && t.jobs[k] == j;
      assert Visible(t.jobs[k], lane, now);
    }
  }

  lemma PicksTop(cfg: Config, s: Store, t: Store, lane: Lane, receipt: Receipt, now: nat, i: nat)
    requires IsTop(t.jobs, lane, now, i) && !Over(cfg, t.jobs[i])
    requires forall j :: j in t.jobs ==> j in Lapse(s, now).jobs
    requires forall j :: j in Lapse(s, now).jobs ==> j in t.jobs || (Visible(j, lane, now) && Over(cfg, j))
    ensures var o := LeaseOutcome(cfg, t, lane, i, receipt, now);
            exists m: nat, k: nat :: HandsOver(cfg, s, o.store, lane, receipt, now, o.reply.reservation.value, m, k)
  {
    var o := LeaseOutcome(cfg, t, lane, i, receipt, now);
    assert t.jobs[i] in Lapse(s, now).jobs;
    var m :| 0 <= m < |s.jobs| && Lapse(s, now).jobs[m] == t.jobs[i];
    forall x | 0 <= x < |s.jobs| && Free(s.jobs[x], lane, now) && s.jobs[x].env.priority > t.jobs[i].env.priority
      ensures Spent(cfg, s.jobs[x])
    {
      StaysVisible(cfg, s, t, lane, now, x);
    }
    assert HandsOver(cfg, s, o.store, lane, receipt, now, o.reply.reservation.value, m, i);
  }

  /** By priority, highest first, then by the time the wait ends, then by age in the queue. */
  predicate Earlier(jobs: seq<Job>, m: nat, x: nat)
    requires m < |jobs| && x < |jobs|
  {
    var a, b := jobs[m], jobs[x];
    if a.env.priority != b.env.priority then a.env.priority > b.env.priority
    else if a.availableAt != b.availableAt then a.availableAt < b.availableAt
    else m < x
  }

  /** The in-memory reserve hands out the earliest of the free jobs within budget. */
  lemma ReserveOrder(cfg: Config, s: Store, lane: Lane, receipt: Receipt, now: nat)
    ensures var o := Step(cfg, s, Reserve(lane, receipt), now);
            && o.reply.Reserved?
            && (o.reply.reservation.Some? ==>
                  exists m: nat :: && IsEarliest(cfg, s, lane, now, m)
                                   && o.reply.reservation.value == Reservation(s.jobs[m].env, receipt, cfg.lease))
  {
    var gone, got := ReserveLaws.ReserveIsRight(cfg, s, lane, receipt, now);
    if got.Some? {
      var r, m := Release(s.jobs, now), got.value;
      forall x | 0 <= x < |s.jobs| && x != m && Free(s.jobs[x], lane, now) && !Spent(cfg, s.jobs[x])
        ensures Earlier(s.jobs, m, x)
      {
        assert Visible(r[x], lane, now) && !Over(cfg, r[x]);
        assert Ahead(r, m, x);
      }
      assert IsEarliest(cfg, s, lane, now, m);
    }
  }

  ghost predicate IsEarliest(cfg: Config, s: Store, lane: Lane, now: nat, m: nat) {
    && m < |s.jobs| && Free(s.jobs[m], lane, now) && !Spent(cfg, s.jobs[m])
    && forall x :: 0 <= x < |s.jobs| && x != m && Free(s.jobs[x], lane, now) && !Spent(cfg, s.jobs[x]) ==>
         Earlier(s.jobs, m, x)
  }

  /** A job's state: live, dead-lettered, or neither; a count of waiting jobs counts the lane's live ones. */
  lemma ReadEffect(cfg: Config, s: Store, op: Op, now: nat, o: Outcome)
    requires StepAny(cfg, s, op, now, o) && (op.Classify? || op.PendingCount?)
    ensures o.store == s
    ensures op.Classify? ==>
              o.reply == State(if LiveId(s, op.id) then Live
                               else if exists k :: 0 <= k < |s.dead| && s.dead[k].env.id == op.id then DeadLettered
                               else CompletedOrUnknown)
    ensures op.PendingCount? ==> o.reply == Count(|LanePlaces(s.jobs, op.lane)|)
  {
    if op.PendingCount? {
      LaneCount(s.jobs, op.lane);
    }
  }

  /** Where in the queue the lane's jobs are. */
  function LanePlaces(jobs: seq<Job>, lane: Lane): set<nat> {
    set i: nat | i < |jobs| && jobs[i].env.lane == lane
  }

  lemma PlacesNext(jobs: seq<Job>, job: Job, lane: Lane)
    ensures LanePlaces(jobs + [job], lane) == LanePlaces(jobs, lane) + (if job.env.lane == lane then {|jobs|} else {})
    ensures |jobs| !in LanePlaces(jobs, lane)
  {
  }

  lemma {:induction false} LaneCount(jobs: seq<Job>, lane: Lane)
    ensures Tally(JobsOnLane(jobs, lane)) == |LanePlaces(jobs, lane)|
  {
    if jobs == [] {
      assert LanePlaces(jobs, lane) == {};
    } else {
      var n := |jobs| - 1;
      LaneCount(jobs[..n], lane);
      PlacesNext(jobs[..n], jobs[n], lane);
      assert jobs == jobs[..n] + [jobs[n]];
      assert JobsOnLane(jobs, lane)[..n] == JobsOnLane(jobs[..n], lane);
    }
  }

  /** Removing a schedule forgets its watermark and changes nothing else. */
  lemma UnscheduleEffect(cfg: Config, s: Store, sid: ScheduleId, now: nat, o: Outcome)
    requires StepAny(cfg, s, RemoveSchedule(sid), now, o)
    ensures o.reply == Done && o.store == s.(schedules := o.store.schedules) && sid !in o.store.schedules
    ensures forall other :: other != sid ==>
              && (other in o.store.schedules <==> other in s.schedules)
              && (other in s.schedules ==> o.store.schedules[other] == s.schedules[other])
  {
  }

  /** A rejected use clears at most the expired lease of the receipt's holder. */
  lemma RejectEffect(cfg: Config, s: Store, receipt: Receipt, how: How, now: nat, o: Outcome)
    requires Inv(s) && StepAny(cfg, s, Resolve(receipt, how), now, o) && o.reply == Stale
    ensures |o.store.jobs| == |s.jobs| && o.store == s.(jobs := o.store.jobs)
    ensures forall i :: 0 <= i < |s.jobs| ==>
              if s.jobs[i].receipt == Some(receipt) then Freed(s.jobs[i], o.store.jobs[i], now)
              else o.store.jobs[i] == s.jobs[i]
  {
    HolderHolds(s, receipt, now);
  }
}
