/**
 Any number of clients and workers on one broker and one payload store, in any
 interleaving. The broker may be any that keeps the contract.

 A client puts a large payload into the store, enqueues a reference to it, and
 deletes the blob again if the enqueue failed or was deduplicated. A worker deletes
 the blob of a job it acknowledged. A batch behaves as its jobs enqueued one by one,
 so it needs no step of its own.
 */
module Fleet {
  import opened Types
  import opened Contract
  import opened Invariant
  import opened FleetEvents

  datatype Task =
    | Idle
    | Submitting(job: NewJob)                    // payload placed, enqueue still to come
    | Deleting(blob: nat)                        // this task now owns the blob and removes it
    | Running(env: Envelope, receipt: Receipt)   // a worker's copy of a reserved job

  datatype Fleet = Fleet(
    store: Store, blobs: set<nat>, used: set<nat>, receipts: set<Receipt>, tasks: seq<Task>)

  const EMPTY_FLEET := Fleet(EMPTY_STORE, {}, {}, {}, [])

  datatype Act =
    | Spawn
    | Offload(t: nat, job: NewJob, blob: nat)
    | KeepInline(t: nat, job: NewJob)
    | Submit(t: nat, now: nat)
    | SubmitFailed(t: nat)
    | SubmitLost(t: nat, now: nat)               // stored, but the client is told it failed
    | Delete(t: nat)
    | Take(t: nat, lane: Lane, receipt: Receipt, now: nat, o: Outcome)
    | Finish(t: nat, how: How, now: nat, o: Outcome)
    | Beat(t: nat, now: nat, o: Outcome)
    | Crash(t: nat)
    | Admin(op: Op, now: nat, o: Outcome)

  // ------------------------------------------------------------------- steps

  /** `handle_failure` retries only while the worker's copy has an attempt left. */
  predicate WorkerMay(env: Envelope, how: How) {
    && !how.Extend?
    && (how.Retry? ==> Bump(env.attempts) < env.maxAttempts)
  }

  /** Calls that neither hold a receipt nor carry a blob. */
  predicate Administers(op: Op) {
    match op
    case Requeue(_) => true
    case PurgeDead(_) => true
    case RemoveSchedule(_) => true
    case EnqueueScheduled(_, _, job) => job.payload.Inline?
    case _ => false
  }

  ghost predicate Can(cfg: Config, f: Fleet, a: Act) {
    match a
    case Spawn => true
    case Offload(t, job, blob) => t < |f.tasks| && f.tasks[t].Idle? && blob !in f.used
    case KeepInline(t, job) => t < |f.tasks| && f.tasks[t].Idle? && job.payload.Inline?
    case Submit(t, _) => t < |f.tasks| && f.tasks[t].Submitting?
    case SubmitFailed(t) => t < |f.tasks| && f.tasks[t].Submitting?
    case SubmitLost(t, _) => t < |f.tasks| && f.tasks[t].Submitting?
    case Delete(t) => t < |f.tasks| && f.tasks[t].Deleting?
    case Take(t, lane, receipt, now, o) =>
      && t < |f.tasks| && f.tasks[t].Idle? && receipt !in f.receipts
      && StepAny(cfg, f.store, Reserve(lane, receipt), now, o)
    case Finish(t, how, now, o) =>
      && t < |f.tasks| && f.tasks[t].Running? && WorkerMay(f.tasks[t].env, how)
      && StepAny(cfg, f.store, Resolve(f.tasks[t].receipt, how), now, o)
    case Beat(t, now, o) =>
      && t < |f.tasks| && f.tasks[t].Running?
      && StepAny(cfg, f.store, Resolve(f.tasks[t].receipt, Extend), now, o)
    case Crash(t) => t < |f.tasks|
    case Admin(op, now, o) => Administers(op) && StepAny(cfg, f.store, op, now, o)
  }

  /** Getting rid of a payload: nothing to do unless it is a reference. */
  function Discard(p: Payload): Task {
    if p.Reference? then Deleting(p.blob) else Idle
  }

  ghost function After(cfg: Config, f: Fleet, a: Act): Fleet
    requires Can(cfg, f, a)
  {
    match a
    case Spawn => f.(tasks := f.tasks + [Idle])
    case Offload(t, job, blob) =>
      f.(blobs := f.blobs + {blob}, used := f.used + {blob},
         tasks := f.tasks[t := Submitting(job.(payload := Reference(blob)))])
    case KeepInline(t, job) => f.(tasks := f.tasks[t := Submitting(job)])
    case Submit(t, now) =>
      var job := f.tasks[t].job;
      var o := Insert(f.store, job, now);
      f.(store := o.store, tasks := f.tasks[t := if o.reply.id == job.id then Idle else Discard(job.payload)])
    case SubmitFailed(t) => f.(tasks := f.tasks[t := Discard(f.tasks[t].job.payload)])
    case SubmitLost(t, now) =>
      f.(store := Insert(f.store, f.tasks[t].job, now).store, tasks := f.tasks[t := Discard(f.tasks[t].job.payload)])
    case Delete(t) => f.(blobs := f.blobs - {f.tasks[t].blob}, tasks := f.tasks[t := Idle])
    case Take(t, _, receipt, _, o) =>
      var got := if o.reply.Reserved? then o.reply.reservation else None;
      f.(store := o.store, receipts := f.receipts + {receipt},
         tasks := f.tasks[t := if got.Some? then Running(got.value.env, receipt) else Idle])
    case Finish(t, how, _, o) =>
      f.(store := o.store,
         tasks := f.tasks[t := if how.Ack? && o.reply.Done? then Discard(f.tasks[t].env.payload) else Idle])
    case Beat(_, _, o) => f.(store := o.store)
    case Crash(t) => f.(tasks := f.tasks[t := Idle])
    case Admin(_, _, o) => f.(store := o.store)
  }

  // --------------------------------------------- what broker calls do to a store

  ghost predicate Healthy(s: Store, known: set<Receipt>) {
    Inv(s) && AllSpared(s) && ReceiptsIn(s, known)
  }

  ghost predicate NoMoreRefs(s: Store, t: Store, b: int) {
    Refs(t, b) <= Refs(s, b)
  }

  ghost predicate CopyStays(s: Store, t: Store, env: Envelope, r: Receipt) {
    Copy(s, env, r) ==> Copy(t, env, r)
  }

  /** From `s` to `t`: no new references, and no change under a receipt already known. */
  ghost predicate Mild(s: Store, t: Store, known: set<Receipt>) {
    && (forall b :: NoMoreRefs(s, t, b))
    && (forall env, r :: r in known ==> CopyStays(s, t, env, r))
  }

  lemma MildJoin(s: Store, t: Store, u: Store, known: set<Receipt>)
    requires Mild(s, t, known) && Mild(t, u, known)
    ensures Mild(s, u, known)
  {
    forall b ensures NoMoreRefs(s, u, b) {
      assert NoMoreRefs(s, t, b) && NoMoreRefs(t, u, b);
    }
    forall env, r | r in known ensures CopyStays(s, u, env, r) {
      assert CopyStays(s, t, env, r) && CopyStays(t, u, env, r);
    }
  }

  /** One event that stores nothing and issues nothing known. */
  lemma EventMild(cfg: Config, s: Store, e: Event, known: set<Receipt>)
    requires Enabled(cfg, s, e) && !e.Stored? && (e.Leased? ==> e.receipt !in known)
    ensures Mild(s, Fire(cfg, s, e), known)
  {
    var t := Fire(cfg, s, e);
    forall b ensures NoMoreRefs(s, t, b) {
      EventRefs(cfg, s, e, b);
    }
    forall env, r | r in known ensures CopyStays(s, t, env, r) {
      if Copy(s, env, r) {
        EventKeepsCopy(cfg, s, e, env, r);
      }
    }
  }

  lemma EventHealthy(cfg: Config, s: Store, e: Event, known: set<Receipt>)
    requires Healthy(s, known) && Enabled(cfg, s, e) && RetrySpared(s, e)
    requires e.Leased? ==> NotCurrent(s.jobs, e.receipt) && e.receipt in known
    ensures Healthy(Fire(cfg, s, e), known)
  {
    EventKeepsInv(cfg, s, e);
    EventSpares(cfg, s, e);
    EventReceiptsIn(cfg, s, e, known);
  }

  lemma {:induction false} BurialsMild(cfg: Config, s: Store, lane: Lane, now: nat, bs: seq<Event>, known: set<Receipt>)
    requires Healthy(s, known) && Burials(lane, now, bs) && Trace(cfg, s, bs)
    ensures Healthy(Reach(cfg, s, bs), known) && Mild(s, Reach(cfg, s, bs), known)
    decreases |bs|
  {
    if bs != [] {
      var t := Fire(cfg, s, bs[0]);
      EventHealthy(cfg, s, bs[0], known);
      EventMild(cfg, s, bs[0], known);
      BurialsMild(cfg, t, lane, now, bs[1..], known);
      MildJoin(s, t, Reach(cfg, t, bs[1..]), known);
    }
  }

  /** A lease under a new receipt: the hand-out is a true copy. */
  lemma LeaseHealthy(cfg: Config, s: Store, lane: Lane, i: nat, receipt: Receipt, now: nat, known: set<Receipt>)
    requires Healthy(s, known) && receipt !in known && Enabled(cfg, s, Leased(lane, i, receipt, now))
    ensures var t := Put(s, i, LeaseJob(cfg, s.jobs[i], receipt, now));
            Healthy(t, known + {receipt}) && Mild(s, t, known) && Copy(t, s.jobs[i].env, receipt)
  {
    var e := Leased(lane, i, receipt, now);
    EventHealthy(cfg, s, e, known + {receipt});
    EventMild(cfg, s, e, known);
  }

  /** Reserve, on any backend. */
  lemma ReserveHealthy(cfg: Config, s: Store, lane: Lane, receipt: Receipt, now: nat, o: Outcome, known: set<Receipt>)
    requires Healthy(s, known) && receipt !in known && ReserveAny(cfg, s, lane, receipt, now, o)
    ensures Healthy(o.store, known + {receipt}) && Mild(s, o.store, known)
    ensures o.reply.Reserved? && (o.reply.reservation.Some? ==> Copy(o.store, o.reply.reservation.value.env, receipt))
  {
    var s1 := Lapse(s, now);
    var bs, got, swept :|
      && SweepAny(cfg, s1, lane, receipt, now, MAX_DEAD_LETTER_SWEEP, bs, got, swept)
      && o == Outcome(swept.store, swept.reply, [Lapsed(now)] + swept.log);
    EventHealthy(cfg, s, Lapsed(now), known);
    EventMild(cfg, s, Lapsed(now), known);
    BurialsMild(cfg, s1, lane, now, bs, known);
    var s2 := Reach(cfg, s1, bs);
    MildJoin(s, s1, s2, known);
    if got.Some? {
      LeaseHealthy(cfg, s2, lane, got.value, receipt, now, known);
      MildJoin(s, s2, o.store, known);
    }
  }

  /** The job's record, if an acknowledgement removed it. */
  ghost predicate AckTakes(s: Store, t: Store, env: Envelope, b: int) {
    Refs(t, b) + One(env.payload, b) <= Refs(s, b)
  }

  /** Using a receipt with a true copy in hand, on any backend. */
  lemma ResolveHealthy(cfg: Config, s: Store, env: Envelope, receipt: Receipt, how: How, now: nat, o: Outcome,
                       known: set<Receipt>)
    requires Healthy(s, known) && Copy(s, env, receipt) && (how.Retry? ==> Bump(env.attempts) < env.maxAttempts)
    requires StepAny(cfg, s, Resolve(receipt, how), now, o)
    ensures Healthy(o.store, known) && Mild(s, o.store, known)
    ensures how.Ack? && o.reply.Done? ==> forall b :: AckTakes(s, o.store, env, b)
  {
    var pos :| PlaceAllowed(s, receipt, now, pos) && o == ResolveStep(cfg, s, receipt, how, now, pos);
    if o.log == [] {
      assert forall b :: NoMoreRefs(s, s, b);
    } else {
      var e := o.log[0];
      EventHealthy(cfg, s, e, known);
      EventMild(cfg, s, e, known);
      if how.Ack? && o.reply.Done? {
        forall b ensures AckTakes(s, o.store, env, b) {
          EventRefs(cfg, s, e, b);
        }
      }
    }
  }

  lemma InsertHealthy(cfg: Config, s: Store, job: NewJob, now: nat, known: set<Receipt>)
    requires Healthy(s, known)
    ensures Healthy(Insert(s, job, now).store, known)
    ensures forall env, r :: CopyStays(s, Insert(s, job, now).store, env, r)
  {
    if Insert(s, job, now).log != [] {
      var e := Stored(job, now);
      EventHealthy(cfg, s, e, known);
      forall env, r ensures CopyStays(s, Fire(cfg, s, e), env, r) {
        if Copy(s, env, r) {
          EventKeepsCopy(cfg, s, e, env, r);
        }
      }
    }
  }

  ghost predicate InsertAdds(s: Store, job: NewJob, now: nat, b: int) {
    var o := Insert(s, job, now);
    Refs(o.store, b) <= Refs(s, b) + (if o.log == [] then 0 else One(job.payload, b))
  }

  lemma InsertRefs(cfg: Config, s: Store, job: NewJob, now: nat, b: int)
    ensures InsertAdds(s, job, now, b)
  {
    if Insert(s, job, now).log != [] {
      EventRefs(cfg, s, Stored(job, now), b);
    }
  }

  /** Requeue, purge and the schedule calls. */
  lemma AdminHealthy(cfg: Config, s: Store, op: Op, now: nat, o: Outcome, known: set<Receipt>)
    requires Healthy(s, known) && Administers(op) && StepAny(cfg, s, op, now, o)
    ensures Healthy(o.store, known)
    ensures forall env, r :: CopyStays(s, o.store, env, r)
    ensures forall b :: 0 <= b ==> NoMoreRefs(s, o.store, b)
  {
    match op
    case EnqueueScheduled(sid, occurrence, job) =>
      if o.reply.won {
        var marked := s.(schedules := s.schedules[sid := occurrence]);
        InsertHealthy(cfg, marked, job, now, known);
        forall env, r ensures CopyStays(s, o.store, env, r) {
          assert CopyStays(marked, o.store, env, r);
        }
        forall b | 0 <= b ensures NoMoreRefs(s, o.store, b) {
          InsertRefs(cfg, marked, job, now, b);
        }
      }
    case Requeue(id) => OneEvent(cfg, s, o, known);
    case PurgeDead(lane) => OneEvent(cfg, s, o, known);
    case RemoveSchedule(sid) => OneEvent(cfg, s, o, known);
  }

  lemma OneEvent(cfg: Config, s: Store, o: Outcome, known: set<Receipt>)
    requires Healthy(s, known)
    requires |o.log| <= 1 && (o.log == [] ==> o.store == s)
    requires o.log != [] ==>
               var e := o.log[0];
               (e.Revived? || e.Emptied? || e.Unscheduled?) && Enabled(cfg, s, e) && o.store == Fire(cfg, s, e)
    ensures Healthy(o.store, known)
    ensures forall env, r :: CopyStays(s, o.store, env, r)
    ensures forall b :: NoMoreRefs(s, o.store, b)
  {
    if o.log != [] {
      var e := o.log[0];
      EventHealthy(cfg, s, e, known);
      forall b ensures NoMoreRefs(s, o.store, b) {
        EventRefs(cfg, s, e, b);
      }
      forall env, r ensures CopyStays(s, o.store, env, r) {
        if Copy(s, env, r) {
          EventKeepsCopy(cfg, s, e, env, r);
        }
      }
    }
  }
}
