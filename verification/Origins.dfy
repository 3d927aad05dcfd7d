/**
 What a job carries through its life. Whatever happened in between, every live job, every dead
 record and every reservation is what some client submitted, and its attempts count its retries.
 */
module Origins {
  import opened Types
  import opened Lists
  import opened Contract
  import opened Invariant
  import opened Receipts
  import opened Accounting
  import opened Effects
  import opened FanInRuns

  /** The envelope and key are those of the submitted job; the attempts are the envelope's own. */
  predicate Agrees(env: Envelope, key: Option<Key>, job: NewJob) {
    && env.id == job.id && env.lane == job.lane && env.kind == job.kind && env.payload == job.payload
    && env.maxAttempts == job.maxAttempts && env.priority == job.priority && key == job.key
  }

  /** The call submits the job. */
  predicate Submits(op: Op, job: NewJob) {
    || (op.Enqueue? && op.job == job)
    || (op.EnqueueBatch? && job in op.jobs)
    || (op.EnqueueScheduled? && op.job == job)
  }

  ghost function Submitted(calls: seq<Call>, n: nat): iset<NewJob>
    requires n <= |calls|
  {
    iset job | SubmittedBefore(calls, n, job)
  }

  ghost predicate SubmittedBefore(calls: seq<Call>, n: nat, job: NewJob)
    requires n <= |calls|
  {
    exists k :: 0 <= k < n && Submits(calls[k].op, job)
  }

  ghost predicate Origin(env: Envelope, key: Option<Key>, from: iset<NewJob>) {
    exists job :: job in from && Agrees(env, key, job)
  }

  ghost predicate Genuine(s: Store, from: iset<NewJob>) {
    && (forall i :: 0 <= i < |s.jobs| ==> Origin(s.jobs[i].env, s.jobs[i].key, from))
    && (forall k :: 0 <= k < |s.dead| ==> Origin(s.dead[k].env, s.dead[k].key, from))
  }

  // -------------------------------------------------------------------- records

  lemma BuryGenuine(cfg: Config, s: Store, i: nat, reason: Reason, now: nat, pos: nat, from: iset<NewJob>)
    requires i < |s.jobs| && pos <= |s.dead| && Genuine(s, from)
    ensures Genuine(Bury(cfg, s, i, reason, now, pos), from)
  {
    var t := Bury(cfg, s, i, reason, now, pos);
    BuriedRecords(cfg, s, i, reason, now, pos);
    forall k | 0 <= k < |t.dead| ensures Origin(t.dead[k].env, t.dead[k].key, from) {
      assert t.dead[k] in t.dead;
      if t.dead[k] in s.dead {
        var m :| 0 <= m < |s.dead| && s.dead[m] == t.dead[k];
      }
    }
  }

  lemma SameOrigin(a: Envelope, b: Envelope, key: Option<Key>, from: iset<NewJob>)
    requires Origin(a, key, from) && b == a.(attempts := b.attempts)
    ensures Origin(b, key, from)
  {
    var job :| job in from && Agrees(a, key, job);
    assert Agrees(b, key, job);
  }

  lemma PlaceGenuine(s: Store, job: NewJob, now: nat, from: iset<NewJob>)
    requires Genuine(s, from) && job in from
    ensures Genuine(Place(s, job, now), from)
  {
    var t := Place(s, job, now);
    assert Agrees(t.jobs[|s.jobs|].env, t.jobs[|s.jobs|].key, job);
  }

  lemma PutGenuine(s: Store, i: nat, j: Job, from: iset<NewJob>)
    requires i < |s.jobs| && Genuine(s, from)
    requires j.key == s.jobs[i].key && j.env == s.jobs[i].env.(attempts := j.env.attempts)
    ensures Genuine(Put(s, i, j), from)
  {
    SameOrigin(s.jobs[i].env, j.env, j.key, from);
  }

  lemma EmptyGenuine(s: Store, lane: Lane, from: iset<NewJob>)
    requires Genuine(s, from)
    ensures Genuine(Empty(s, lane), from)
  {
    var keep := Negate(OnLane(s.dead, lane));
    forall k | 0 <= k < |Pick(s.dead, keep)|
      ensures Origin(Pick(s.dead, keep)[k].env, Pick(s.dead, keep)[k].key, from)
    {
      var m := PickFrom(s.dead, keep, k);
    }
  }

  lemma UseGenuine(cfg: Config, s: Store, i: nat, how: How, now: nat, pos: nat, from: iset<NewJob>)
    requires i < |s.jobs| && pos <= |s.dead| && Genuine(s, from)
    ensures Genuine(Use(cfg, s, i, how, now, pos), from)
  {
    match how
    case Ack =>
    case Fail(text) => BuryGenuine(cfg, s, i, Given(text), now, pos, from);
    case _ => PutGenuine(s, i, Use(cfg, s, i, how, now, pos).jobs[i], from);
  }

  lemma EventGenuine(cfg: Config, s: Store, e: Event, from: iset<NewJob>)
    requires Enabled(cfg, s, e) && Genuine(s, from) && (e.Stored? ==> e.job in from)
    ensures Genuine(Fire(cfg, s, e), from)
  {
    match e
    case Stored(job, at) => PlaceGenuine(s, job, at, from);
    case Buried(_, i, at, pos) => BuryGenuine(cfg, s, i, OverReason(cfg), at, pos, from);
    case Resolved(i, _, how, at, pos) => UseGenuine(cfg, s, i, how, at, pos, from);
    case Emptied(lane) => EmptyGenuine(s, lane, from);
    case _ =>
  }

  lemma {:induction false} TraceGenuine(cfg: Config, s: Store, log: seq<Event>, from: iset<NewJob>)
    requires Trace(cfg, s, log) && Genuine(s, from)
    requires forall k :: 0 <= k < |log| && log[k].Stored? ==> log[k].job in from
    ensures Genuine(Reach(cfg, s, log), from)
    decreases |log|
  {
    if log != [] {
      EventGenuine(cfg, s, log[0], from);
      TraceGenuine(cfg, Fire(cfg, s, log[0]), log[1..], from);
    }
  }

  // ----------------------------------------------------------------------- runs

  lemma {:induction false} InsertAllStores(s: Store, jobs: seq<NewJob>, now: nat)
    ensures StoresOf(InsertAll(s, jobs, now).log, jobs)
  {
    if jobs != [] {
      var n := |jobs| - 1;
      InsertAllStores(s, jobs[..n], now);
      var front := InsertAll(s, jobs[..n], now);
      var last := Insert(front.store, jobs[n], now);
      assert forall job :: job in jobs[..n] ==> job in jobs;
      assert StoresOf(front.log, jobs) && StoresOf(last.log, jobs);
    }
  }

  ghost predicate StoresOf(log: seq<Event>, jobs: seq<NewJob>) {
    forall k :: 0 <= k < |log| && log[k].Stored? ==> log[k].job in jobs
  }

  /** A call stores only jobs it submits. */
  lemma StepStores(cfg: Config, s: Store, op: Op, now: nat, o: Outcome)
    requires StepAny(cfg, s, op, now, o)
    ensures forall k :: 0 <= k < |o.log| && o.log[k].Stored? ==> Submits(op, o.log[k].job)
  {
    match op
    case EnqueueBatch(jobs) => InsertAllStores(s, jobs, now);
    case _ =>
  }

  /** Over every run all records are what the calls so far submitted. */
  lemma {:induction false} RecordsGenuine(cfg: Config, calls: seq<Call>, outs: seq<Outcome>, n: nat)
    requires IsRun(cfg, calls, outs) && n <= |calls|
    ensures Genuine(At(outs, n), Submitted(calls, n))
  {
    if n > 0 {
      RecordsGenuine(cfg, calls, outs, n - 1);
      var op, now, o := calls[n - 1].op, calls[n - 1].now, outs[n - 1];
      assert CallMade(cfg, calls, outs, n - 1);
      StepLeads(cfg, At(outs, n - 1), op, now, o);
      StepStores(cfg, At(outs, n - 1), op, now, o);
      MoreSubmitted(At(outs, n - 1), calls, n);
      TraceGenuine(cfg, At(outs, n - 1), o.log, Submitted(calls, n));
    }
  }

  lemma MoreSubmitted(s: Store, calls: seq<Call>, n: nat)
    requires 0 < n <= |calls| && Genuine(s, Submitted(calls, n - 1))
    ensures Genuine(s, Submitted(calls, n))
  {
    assert forall job :: job in Submitted(calls, n - 1) ==> job in Submitted(calls, n);
  }

  /** Over every run a reservation carries what an earlier call submitted under its id. */
  lemma ReservationsGenuine(cfg: Config, calls: seq<Call>, outs: seq<Outcome>, n: nat)
    requires IsRun(cfg, calls, outs) && n < |calls| && calls[n].op.Reserve?
    ensures outs[n].reply.Reserved?
    ensures outs[n].reply.reservation.Some? ==>
              exists key :: Origin(outs[n].reply.reservation.value.env, key, Submitted(calls, n))
  {
    RecordsGenuine(cfg, calls, outs, n);
    assert CallMade(cfg, calls, outs, n);
    var s, op, o := At(outs, n), calls[n].op, outs[n];
    ReserveEffect(cfg, s, op.lane, op.receipt, calls[n].now, o);
    if o.reply.reservation.Some? {
      var m: nat, k: nat :|
        HandsOver(cfg, s, o.store, op.lane, op.receipt, calls[n].now, o.reply.reservation.value, m, k);
      assert Origin(s.jobs[m].env, s.jobs[m].key, Submitted(calls, n));
    }
  }

  // ------------------------------------------------------------------- attempts

  /** Every record of job `x` shows `a` attempts. */
  ghost predicate Tried(s: Store, x: JobId, a: nat) {
    && (forall i :: 0 <= i < |s.jobs| && s.jobs[i].env.id == x ==> s.jobs[i].env.attempts == a)
    && (forall k :: 0 <= k < |s.dead| && s.dead[k].env.id == x ==> s.dead[k].env.attempts == a)
  }

  /** The call was an accepted retry of job `x`. */
  ghost predicate RetriedBy(s: Store, op: Op, reply: Reply, x: JobId) {
    && op.Resolve? && op.how.Retry? && reply == Done
    && exists i :: 0 <= i < |s.jobs| && s.jobs[i].receipt == Some(op.receipt) && s.jobs[i].env.id == x
  }

  /** How often job `x` was retried in the first `n` calls. */
  ghost function Retries(calls: seq<Call>, outs: seq<Outcome>, n: nat, x: JobId): nat
    requires n <= |calls| == |outs|
  {
    if n == 0 then 0
    else Retries(calls, outs, n - 1, x)
         + (if RetriedBy(At(outs, n - 1), calls[n - 1].op, outs[n - 1].reply, x) then 1 else 0)
  }

  /** A count as a `u32` shows it. */
  function AsU32(n: nat): nat {
    if n <= U32_MAX then n else U32_MAX
  }

  lemma BuryTried(cfg: Config, s: Store, i: nat, reason: Reason, now: nat, pos: nat, x: JobId, a: nat)
    requires i < |s.jobs| && pos <= |s.dead| && Tried(s, x, a)
    ensures Tried(Bury(cfg, s, i, reason, now, pos), x, a)
  {
    var t := Bury(cfg, s, i, reason, now, pos);
    BuriedRecords(cfg, s, i, reason, now, pos);
    forall k | 0 <= k < |t.dead| && t.dead[k].env.id == x ensures t.dead[k].env.attempts == a {
      assert t.dead[k] in t.dead;
      if t.dead[k] in s.dead {
        var m :| 0 <= m < |s.dead| && s.dead[m] == t.dead[k];
      }
    }
  }

  lemma EmptyTried(s: Store, lane: Lane, x: JobId, a: nat)
    requires Tried(s, x, a)
    ensures Tried(Empty(s, lane), x, a)
  {
    var keep := Negate(OnLane(s.dead, lane));
    forall k | 0 <= k < |Pick(s.dead, keep)| && Pick(s.dead, keep)[k].env.id == x
      ensures Pick(s.dead, keep)[k].env.attempts == a
    {
      var m := PickFrom(s.dead, keep, k);
    }
  }

  /** No event but a retry or a new job changes attempts. */
  lemma EventTried(cfg: Config, s: Store, e: Event, x: JobId, a: nat)
    requires Enabled(cfg, s, e) && Tried(s, x, a) && (e.Stored? && e.job.id == x ==> a == 0)
    requires !(e.Resolved? && e.how.Retry?)
    ensures Tried(Fire(cfg, s, e), x, a)
  {
    match e
    case Buried(_, i, at, pos) => BuryTried(cfg, s, i, OverReason(cfg), at, pos, x, a);
    case Resolved(i, _, how, at, pos) =>
      if how.Fail? {
        BuryTried(cfg, s, i, Given(how.text), at, pos, x, a);
      }
    case Emptied(lane) => EmptyTried(s, lane, x, a);
    case _ =>
  }

  ghost predicate NoRetry(log: seq<Event>) {
    forall k :: 0 <= k < |log| ==> !(log[k].Resolved? && log[k].how.Retry?)
  }

  lemma {:induction false} TraceTried(cfg: Config, s: Store, log: seq<Event>, x: JobId, a: nat)
    requires Trace(cfg, s, log) && Tried(s, x, a) && NoRetry(log) && (Entries(log, x) > 0 ==> a == 0)
    ensures Tried(Reach(cfg, s, log), x, a)
    decreases |log|
  {
    if log != [] {
      EventTried(cfg, s, log[0], x, a);
      TraceTried(cfg, Fire(cfg, s, log[0]), log[1..], x, a);
    }
  }

  lemma {:induction false} InsertAllNoRetry(s: Store, jobs: seq<NewJob>, now: nat)
    ensures NoRetry(InsertAll(s, jobs, now).log)
  {
    if jobs != [] {
      InsertAllNoRetry(s, jobs[..|jobs| - 1], now);
    }
  }

  lemma StepNoRetry(cfg: Config, s: Store, op: Op, now: nat, o: Outcome)
    requires StepAny(cfg, s, op, now, o) && !(op.Resolve? && op.how.Retry?)
    ensures NoRetry(o.log)
  {
    match op
    case EnqueueBatch(jobs) => InsertAllNoRetry(s, jobs, now);
    case _ =>
  }

  /** At most one record of job `x` exists. */
  ghost predicate Sole(s: Store, x: JobId) {
    Alive(s, x) + Dead(s, x) <= 1
  }

  lemma RetryTried(cfg: Config, s: Store, r: Receipt, delay: nat, now: nat, o: Outcome, x: JobId, a: nat)
    requires Inv(s) && Sole(s, x) && Tried(s, x, a) && StepAny(cfg, s, Resolve(r, Retry(delay)), now, o)
    requires a <= U32_MAX
    ensures Tried(o.store, x, if RetriedBy(s, Resolve(r, Retry(delay)), o.reply, x) then AsU32(a + 1) else a)
  {
    UseAccepted(cfg, s, r, Retry(delay), now, o);
    if o.reply == Done {
      var i: nat :| Holds(s, r, now, i);
      RetryEffect(cfg, s, r, delay, now, o, i);
      StateIff(s, x);
      OccursIff(DeadIds(s.dead), x);
      if s.jobs[i].env.id == x {
        assert RetriedBy(s, Resolve(r, Retry(delay)), o.reply, x);
        forall k | 0 <= k < |s.dead| ensures s.dead[k].env.id != x {
          OccursIff(LiveIds(s.jobs), x);
          assert LiveIds(s.jobs)[i] == x && DeadIds(s.dead)[k] == s.dead[k].env.id;
        }
      }
    }
  }

  lemma StepTried(cfg: Config, s: Store, op: Op, now: nat, o: Outcome, x: JobId, a: nat)
    requires Inv(s) && Sole(s, x) && Tried(s, x, a) && a <= U32_MAX && StepAny(cfg, s, op, now, o)
    requires Entries(o.log, x) > 0 ==> a == 0
    ensures Tried(o.store, x, if RetriedBy(s, op, o.reply, x) then AsU32(a + 1) else a)
  {
    if op.Resolve? && op.how.Retry? {
      RetryTried(cfg, s, op.receipt, op.how.delay, now, o, x, a);
    } else {
      StepLeads(cfg, s, op, now, o);
      StepNoRetry(cfg, s, op, now, o);
      TraceTried(cfg, s, o.log, x, a);
    }
  }

  lemma NotRetried(s: Store, op: Op, reply: Reply, x: JobId)
    requires Alive(s, x) == 0
    ensures !RetriedBy(s, op, reply, x)
  {
    OccursIff(LiveIds(s.jobs), x);
    forall i | 0 <= i < |s.jobs| ensures s.jobs[i].env.id != x {
      assert LiveIds(s.jobs)[i] == s.jobs[i].env.id;
    }
  }

  /** Before it is stored a job has no record, and was never retried. */
  lemma {:induction false} UntouchedBefore(cfg: Config, calls: seq<Call>, outs: seq<Outcome>, n: nat, x: JobId)
    requires IsRun(cfg, calls, outs) && n <= |calls| && Entries(History(outs, 0, n), x) == 0
    ensures Retries(calls, outs, n, x) == 0 && Alive(At(outs, n), x) == 0 == Dead(At(outs, n), x)
  {
    Conservation(cfg, calls, outs, n, x);
    if n > 0 {
      EntriesJoin(History(outs, 0, n - 1), outs[n - 1].log, x);
      UntouchedBefore(cfg, calls, outs, n - 1, x);
      NotRetried(At(outs, n - 1), calls[n - 1].op, outs[n - 1].reply, x);
    }
  }

  /** One call further, given that the job was stored at most once by then. */
  lemma CallTried(cfg: Config, calls: seq<Call>, outs: seq<Outcome>, n: nat, x: JobId, a: nat)
    requires IsRun(cfg, calls, outs) && ReceiptsFresh(calls) && n < |calls| && Entries(History(outs, 0, n), x) <= 1
    requires Tried(At(outs, n), x, a) && a <= U32_MAX && (Entries(outs[n].log, x) > 0 ==> a == 0)
    ensures Tried(outs[n].store, x,
                  if RetriedBy(At(outs, n), calls[n].op, outs[n].reply, x) then AsU32(a + 1) else a)
  {
    Conservation(cfg, calls, outs, n, x);
    RunKeepsInvariant(cfg, calls, outs, n);
    assert CallMade(cfg, calls, outs, n);
    StepTried(cfg, At(outs, n), calls[n].op, calls[n].now, outs[n], x, a);
  }

  /** By call `n` the job was stored at most once. */
  ghost predicate StoredOnce(outs: seq<Outcome>, n: nat, x: JobId)
    requires n <= |outs|
  {
    Entries(History(outs, 0, n), x) <= 1
  }

  lemma StoredOnceBefore(outs: seq<Outcome>, n: nat, x: JobId)
    requires n < |outs| && StoredOnce(outs, n + 1, x)
    ensures StoredOnce(outs, n, x) && (Entries(outs[n].log, x) > 0 ==> Entries(History(outs, 0, n), x) == 0)
  {
    EntriesJoin(History(outs, 0, n), outs[n].log, x);
  }

  /** After `n` calls every record of the job shows its accepted retries as its attempts, as a `u32`. */
  ghost predicate TriedAt(calls: seq<Call>, outs: seq<Outcome>, n: nat, x: JobId)
    requires n <= |calls| == |outs|
  {
    Tried(At(outs, n), x, AsU32(Retries(calls, outs, n, x)))
  }

  lemma NextTried(cfg: Config, calls: seq<Call>, outs: seq<Outcome>, n: nat, x: JobId)
    requires IsRun(cfg, calls, outs) && ReceiptsFresh(calls) && n < |calls| && StoredOnce(outs, n + 1, x)
    requires TriedAt(calls, outs, n, x)
    ensures TriedAt(calls, outs, n + 1, x)
  {
    StoredOnceBefore(outs, n, x);
    if Entries(outs[n].log, x) > 0 {
      UntouchedBefore(cfg, calls, outs, n, x);
    }
    CallTried(cfg, calls, outs, n, x, AsU32(Retries(calls, outs, n, x)));
  }

  /** Over every run, the attempts of a job stored once are its accepted retries. */
  lemma {:induction false} AttemptsAreRetries(cfg: Config, calls: seq<Call>, outs: seq<Outcome>, n: nat, x: JobId)
    requires IsRun(cfg, calls, outs) && ReceiptsFresh(calls) && n <= |calls| && StoredOnce(outs, n, x)
    ensures TriedAt(calls, outs, n, x)
  {
    if n > 0 {
      StoredOnceBefore(outs, n - 1, x);
      AttemptsAreRetries(cfg, calls, outs, n - 1, x);
      NextTried(cfg, calls, outs, n - 1, x);
    }
  }
}
