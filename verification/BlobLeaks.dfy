/**
 The other half of blob safety: no blob is forgotten. Whoever gives a reference up, by an
 acknowledgement, a deduplicated or a failed enqueue, deletes the blob; so in a run that prunes,
 purges and crashes nothing that refers to one, every stored blob has an owner.
 */
module BlobLeaks {
  import opened Types
  import opened Lists
  import opened Contract
  import opened Invariant
  import opened Accounting
  import opened FleetEvents
  import opened Fleet
  import opened FleetLaws

  // ---------------------------------------------------------- who deletes a blob

  /** An acknowledged job's blob is the worker's to delete, and the delete removes it and no other. */
  lemma AckThenDelete(cfg: Config, f: Fleet, t: nat, now: nat, o: Outcome, blob: nat)
    requires Can(cfg, f, Finish(t, Ack, now, o)) && o.reply == Done && f.tasks[t].env.payload == Reference(blob)
    ensures var g := After(cfg, f, Finish(t, Ack, now, o));
            && g == f.(store := o.store, tasks := f.tasks[t := Deleting(blob)])
            && Can(cfg, g, Delete(t))
            && After(cfg, g, Delete(t)) == g.(blobs := f.blobs - {blob}, tasks := f.tasks[t := Idle])
  {
  }

  /** A client whose enqueue was answered with another job's id deletes the blob it offloaded; else it keeps it. */
  lemma DedupThenDelete(cfg: Config, f: Fleet, t: nat, now: nat, o: Outcome, blob: nat)
    requires Can(cfg, f, Submit(t, now)) && f.tasks[t].job.payload == Reference(blob)
    requires StepAny(cfg, f.store, Enqueue(f.tasks[t].job), now, o) && o.reply.Id?
    ensures var g := After(cfg, f, Submit(t, now));
            && g.store == o.store && g.blobs == f.blobs
            && (o.reply.id == f.tasks[t].job.id ==> g.tasks == f.tasks[t := Idle])
            && (o.reply.id != f.tasks[t].job.id ==>
                  && g.tasks == f.tasks[t := Deleting(blob)] && Can(cfg, g, Delete(t))
                  && After(cfg, g, Delete(t)).blobs == f.blobs - {blob})
  {
  }

  /** A worker that is handed a reservation runs exactly that, under its receipt; one that is not stays idle. */
  lemma TakeThenRun(cfg: Config, f: Fleet, t: nat, lane: Lane, receipt: Receipt, now: nat, o: Outcome)
    requires BudgetInv(f) && Can(cfg, f, Take(t, lane, receipt, now, o))
    ensures o.reply.Reserved?
    ensures var g := After(cfg, f, Take(t, lane, receipt, now, o));
            match o.reply.reservation
            case None => g.tasks == f.tasks
            case Some(res) => g.tasks == f.tasks[t := Running(res.env, receipt)] && Copy(g.store, res.env, receipt)
  {
    ReserveHealthy(cfg, f.store, lane, receipt, now, o, f.receipts);
  }

  // ----------------------------------------------------------------- references

  lemma BuryKeepsRefs(cfg: Config, s: Store, i: nat, reason: Reason, now: nat, pos: nat, b: int)
    requires i < |s.jobs| && pos <= |s.dead| && cfg.retention == Retention(None, None)
    ensures Refs(Bury(cfg, s, i, reason, now, pos), b) == Refs(s, b)
  {
    var dead := DeadWith(s, i, reason, now, pos);
    RemoveTags(s, i, b);
    assert DeadTags(dead) == InsertAt(DeadTags(s.dead), pos, Tag(s.jobs[i].env.payload));
    OccursInsert(DeadTags(s.dead), pos, Tag(s.jobs[i].env.payload), b);
    PickAll(dead, Kept(cfg.retention, dead, s.jobs[i].env.lane, now));
  }

  lemma UseKeepsRefs(cfg: Config, s: Store, i: nat, how: How, now: nat, pos: nat, b: int)
    requires i < |s.jobs| && pos <= |s.dead| && cfg.retention == Retention(None, None)
    ensures var acked := if how.Ack? then One(s.jobs[i].env.payload, b) else 0;
            Refs(Use(cfg, s, i, how, now, pos), b) + acked == Refs(s, b)
  {
    if how.Fail? {
      BuryKeepsRefs(cfg, s, i, Given(how.text), now, pos, b);
    } else if how.Ack? {
      RemoveTags(s, i, b);
    } else {
      assert JobTags(Use(cfg, s, i, how, now, pos).jobs) == JobTags(s.jobs);
    }
  }

  /** Without retention bounds and purges, references disappear only with an acknowledgement. */
  lemma EventKeepsRefs(cfg: Config, s: Store, e: Event, b: int)
    requires Enabled(cfg, s, e) && cfg.retention == Retention(None, None) && !e.Emptied?
    ensures Refs(Fire(cfg, s, e), b) + AckedRef(s, e, b) == Refs(s, b) + StoredRef(e, b)
  {
    var t := Fire(cfg, s, e);
    match e
    case Stored(job, _) =>
      assert JobTags(t.jobs) == JobTags(s.jobs) + [Tag(job.payload)];
      OccursJoin(JobTags(s.jobs), [Tag(job.payload)], b);
    case Buried(_, i, at, pos) => BuryKeepsRefs(cfg, s, i, OverReason(cfg), at, pos, b);
    case Resolved(i, _, how, at, pos) => UseKeepsRefs(cfg, s, i, how, at, pos, b);
    case Revived(k, at) => ReviveRefs(s, k, at, b);
    case Emptied(_) =>
    case _ =>
      assert JobTags(t.jobs) == JobTags(s.jobs);
  }

  /** Nothing in the log stores, purges or acknowledges. */
  ghost predicate Quiet(log: seq<Event>) {
    forall k :: 0 <= k < |log| ==> !log[k].Stored? && !log[k].Emptied? && !(log[k].Resolved? && log[k].how.Ack?)
  }

  lemma {:induction false} QuietKeepsRefs(cfg: Config, s: Store, log: seq<Event>, b: int)
    requires Trace(cfg, s, log) && Quiet(log) && cfg.retention == Retention(None, None)
    ensures Refs(Reach(cfg, s, log), b) == Refs(s, b)
    decreases |log|
  {
    if log != [] {
      EventKeepsRefs(cfg, s, log[0], b);
      QuietKeepsRefs(cfg, Fire(cfg, s, log[0]), log[1..], b);
    }
  }

  lemma CallKeepsRefs(cfg: Config, s: Store, op: Op, now: nat, o: Outcome, b: int)
    requires StepAny(cfg, s, op, now, o) && cfg.retention == Retention(None, None)
    requires op.Reserve? || op.Requeue? || op.RemoveSchedule? || (op.Resolve? && !op.how.Ack?)
    ensures Refs(o.store, b) == Refs(s, b)
  {
    StepLeads(cfg, s, op, now, o);
    QuietKeepsRefs(cfg, s, o.log, b);
  }

  // -------------------------------------------------------------------- ownership

  /** Every stored blob is referred to by a record, or in the hands of a task. */
  ghost predicate Covered(f: Fleet) {
    forall b: nat :: b in f.blobs ==> Owners(f, b) >= 1
  }

  /** The act forgets no blob: submitted ids are new, crashing tasks own none, no lane is purged. */
  ghost predicate Tidy(cfg: Config, f: Fleet, a: Act)
    requires Can(cfg, f, a)
  {
    match a
    case Submit(t, _) => !HasId(f.store.jobs, f.tasks[t].job.id)
    case Crash(t) => TaskTag(f.tasks[t]) == NO_BLOB
    case Admin(op, _, _) => !op.PurgeDead?
    case _ => true
  }

  /** Task `t` moved on, and owns whatever reference the store lost. */
  ghost predicate Passes(f: Fleet, g: Fleet, t: nat, b: nat)
    requires t < |f.tasks| && t < |g.tasks|
  {
    Refs(g.store, b) + (if TaskTag(g.tasks[t]) == b then 1 else 0)
    >= Refs(f.store, b) + (if TaskTag(f.tasks[t]) == b then 1 else 0)
  }

  lemma PassOn(f: Fleet, g: Fleet, t: nat)
    requires Covered(f) && t < |f.tasks| == |g.tasks| && g.blobs == f.blobs && g.tasks == f.tasks[t := g.tasks[t]]
    requires forall b: nat :: Passes(f, g, t, b)
    ensures Covered(g)
  {
    forall b: nat | b in g.blobs ensures Owners(g, b) >= 1 {
      assert Passes(f, g, t, b);
      PutTask(f.tasks, t, g.tasks[t], b);
    }
  }

  lemma KeyHolderLives(s: Store, key: Option<Key>)
    requires Inv(s)
    ensures key.Some? && key.value in s.unique ==> HasId(s.jobs, s.unique[key.value])
  {
    if key.Some? && key.value in s.unique {
      assert HoldsKey(s.jobs, key.value);
    }
  }

  lemma SubmitCovers(cfg: Config, f: Fleet, a: Act)
    requires BudgetInv(f) && Covered(f) && Can(cfg, f, a) && (a.Submit? || a.SubmitLost?) && Tidy(cfg, f, a)
    requires cfg.retention == Retention(None, None)
    ensures Covered(After(cfg, f, a))
  {
    var g, job := After(cfg, f, a), f.tasks[a.t].job;
    assert g.tasks == f.tasks[a.t := g.tasks[a.t]];
    KeyHolderLives(f.store, job.key);
    forall b: nat ensures Passes(f, g, a.t, b) {
      if Insert(f.store, job, a.now).log != [] {
        EventKeepsRefs(cfg, f.store, Stored(job, a.now), b);
      }
    }
    PassOn(f, g, a.t);
  }

  lemma FinishCovers(cfg: Config, f: Fleet, a: Act)
    requires BudgetInv(f) && Covered(f) && Can(cfg, f, a) && (a.Finish? || a.Beat?)
    requires cfg.retention == Retention(None, None)
    ensures Covered(After(cfg, f, a))
  {
    var g, task, how := After(cfg, f, a), f.tasks[a.t], if a.Finish? then a.how else Extend;
    assert TaskTrue(f.store, f.receipts, task);
    assert g.tasks == f.tasks[a.t := g.tasks[a.t]];
    forall b: nat ensures Passes(f, g, a.t, b) {
      if how.Ack? {
        AckPasses(cfg, f.store, task.env, task.receipt, a.now, a.o, b);
      } else {
        CallKeepsRefs(cfg, f.store, Resolve(task.receipt, how), a.now, a.o, b);
      }
    }
    PassOn(f, g, a.t);
  }

  /** What an acknowledgement takes from the store is the reference in the worker's copy. */
  lemma AckPasses(cfg: Config, s: Store, env: Envelope, receipt: Receipt, now: nat, o: Outcome, b: nat)
    requires StepAny(cfg, s, Resolve(receipt, Ack), now, o) && Copy(s, env, receipt)
    requires cfg.retention == Retention(None, None)
    ensures Refs(o.store, b) + (if o.reply == Done then One(env.payload, b) else 0) == Refs(s, b)
  {
    if o.log != [] {
      EventKeepsRefs(cfg, s, o.log[0], b);
    }
  }

  lemma AdminCovers(cfg: Config, f: Fleet, a: Act)
    requires Covered(f) && Can(cfg, f, a) && a.Admin? && Tidy(cfg, f, a) && cfg.retention == Retention(None, None)
    ensures Covered(After(cfg, f, a))
  {
    forall b: nat | b in f.blobs ensures Owners(After(cfg, f, a), b) >= 1 {
      if a.op.EnqueueScheduled? {
        ScheduledKeepsRefs(cfg, f.store, a.op, a.now, a.o, b);
      } else {
        CallKeepsRefs(cfg, f.store, a.op, a.now, a.o, b);
      }
    }
  }

  lemma ScheduledKeepsRefs(cfg: Config, s: Store, op: Op, now: nat, o: Outcome, b: nat)
    requires StepAny(cfg, s, op, now, o) && op.EnqueueScheduled? && cfg.retention == Retention(None, None)
    ensures Refs(o.store, b) >= Refs(s, b)
  {
    if o.reply.won {
      var marked := s.(schedules := s.schedules[op.schedule := op.occurrence]);
      if Insert(marked, op.job, now).log != [] {
        EventKeepsRefs(cfg, marked, Stored(op.job, now), b);
      }
    }
  }

  /** Tasks that start, crash, give up or delete. */
  lemma TaskCovers(cfg: Config, f: Fleet, a: Act)
    requires Covered(f) && Can(cfg, f, a) && Tidy(cfg, f, a)
    requires a.Spawn? || a.Offload? || a.KeepInline? || a.SubmitFailed? || a.Delete? || a.Crash?
    ensures Covered(After(cfg, f, a))
  {
    var g := After(cfg, f, a);
    forall b: nat | b in g.blobs ensures Owners(g, b) >= 1 {
      if a.Spawn? {
        assert TaskTags(g.tasks) == TaskTags(f.tasks) + [NO_BLOB];
        OccursJoin(TaskTags(f.tasks), [NO_BLOB], b);
      } else {
        assert g.tasks == f.tasks[a.t := g.tasks[a.t]];
        PutTask(f.tasks, a.t, g.tasks[a.t], b);
      }
    }
  }

  lemma TakeCovers(cfg: Config, f: Fleet, a: Act)
    requires Covered(f) && Can(cfg, f, a) && a.Take? && cfg.retention == Retention(None, None)
    ensures Covered(After(cfg, f, a))
  {
    var g := After(cfg, f, a);
    assert g.tasks == f.tasks[a.t := g.tasks[a.t]];
    forall b: nat ensures Passes(f, g, a.t, b) {
      CallKeepsRefs(cfg, f.store, Reserve(a.lane, a.receipt), a.now, a.o, b);
    }
    PassOn(f, g, a.t);
  }

  lemma ActCovers(cfg: Config, f: Fleet, a: Act)
    requires BudgetInv(f) && Covered(f) && Can(cfg, f, a) && Tidy(cfg, f, a) && cfg.retention == Retention(None, None)
    ensures Covered(After(cfg, f, a))
  {
    match a
    case Submit(_, _) => SubmitCovers(cfg, f, a);
    case SubmitLost(_, _) => SubmitCovers(cfg, f, a);
    case Take(_, _, _, _, _) => TakeCovers(cfg, f, a);
    case Finish(_, _, _, _) => FinishCovers(cfg, f, a);
    case Beat(_, _, _) => FinishCovers(cfg, f, a);
    case Admin(_, _, _) => AdminCovers(cfg, f, a);
    case _ => TaskCovers(cfg, f, a);
  }

  ghost predicate TidyRun(cfg: Config, f: Fleet, acts: seq<Act>)
    decreases |acts|
  {
    acts != [] ==>
      && Can(cfg, f, acts[0]) && Tidy(cfg, f, acts[0])
      && TidyRun(cfg, After(cfg, f, acts[0]), acts[1..])
  }

  lemma {:induction false} RunCovers(cfg: Config, f: Fleet, acts: seq<Act>)
    requires BudgetInv(f) && Covered(f) && Run(cfg, f, acts) && TidyRun(cfg, f, acts)
    requires cfg.retention == Retention(None, None)
    ensures Covered(End(cfg, f, acts))
    decreases |acts|
  {
    if acts != [] {
      ActKeepsBudget(cfg, f, acts[0]);
      ActCovers(cfg, f, acts[0]);
      RunCovers(cfg, After(cfg, f, acts[0]), acts[1..]);
    }
  }

  /**
   Without retention bounds, over every run in which submitted ids are new, no lane is purged and no
   task crashes with a blob in hand, every stored blob has an owner, and if lost replies are
   harmless exactly one.
   */
  lemma NothingLeaks(cfg: Config, acts: seq<Act>, b: nat)
    requires Run(cfg, EMPTY_FLEET, acts) && TidyRun(cfg, EMPTY_FLEET, acts) && cfg.retention == Retention(None, None)
    requires b in End(cfg, EMPTY_FLEET, acts).blobs
    ensures Owners(End(cfg, EMPTY_FLEET, acts), b) >= 1
    ensures HarmlessRun(cfg, EMPTY_FLEET, acts) ==> Owners(End(cfg, EMPTY_FLEET, acts), b) == 1
  {
    EmptyFleetOk();
    RunCovers(cfg, EMPTY_FLEET, acts);
    if HarmlessRun(cfg, EMPTY_FLEET, acts) {
      RunKeeps(cfg, EMPTY_FLEET, acts);
      assert BlobOk(End(cfg, EMPTY_FLEET, acts), b);
    }
  }
}
