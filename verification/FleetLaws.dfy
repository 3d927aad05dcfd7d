/**
 The two promises of the worker protocol, over every interleaving of clients,
 workers, crashes and lease expiries: no job is tried beyond its attempt budget, and
 no stored record refers to a deleted blob.
 */
module FleetLaws {
  import opened Types
  import opened Lists
  import opened Contract
  import opened Invariant
  import opened Accounting
  import opened FleetEvents
  import opened Fleet

  // ---------------------------------------------------------- attempt budget

  /** A worker's copy is true for as long as its receipt is current. */
  ghost predicate TaskTrue(s: Store, known: set<Receipt>, task: Task) {
    task.Running? ==> task.receipt in known && Copy(s, task.env, task.receipt)
  }

  ghost predicate BudgetInv(f: Fleet) {
    && Healthy(f.store, f.receipts)
    && forall t :: 0 <= t < |f.tasks| ==> TaskTrue(f.store, f.receipts, f.tasks[t])
  }

  /** Every task but `t` carries over to a store that changes nothing under known receipts. */
  lemma OthersTrue(f: Fleet, g: Fleet, t: nat)
    requires BudgetInv(f) && |f.tasks| == |g.tasks| && f.receipts <= g.receipts && t < |f.tasks|
    requires forall u :: 0 <= u < |f.tasks| && u != t ==> g.tasks[u] == f.tasks[u]
    requires TaskTrue(g.store, g.receipts, g.tasks[t])
    requires forall env, r :: r in f.receipts ==> CopyStays(f.store, g.store, env, r)
    requires Healthy(g.store, g.receipts)
    ensures BudgetInv(g)
  {
    forall u | 0 <= u < |g.tasks| ensures TaskTrue(g.store, g.receipts, g.tasks[u]) {
      if u != t && g.tasks[u].Running? {
        assert TaskTrue(f.store, f.receipts, f.tasks[u]);
        assert CopyStays(f.store, g.store, g.tasks[u].env, g.tasks[u].receipt);
      }
    }
  }

  lemma SubmitBudget(cfg: Config, f: Fleet, a: Act)
    requires BudgetInv(f) && Can(cfg, f, a) && (a.Submit? || a.SubmitLost?)
    ensures BudgetInv(After(cfg, f, a))
  {
    InsertHealthy(cfg, f.store, f.tasks[a.t].job, a.now, f.receipts);
    OthersTrue(f, After(cfg, f, a), a.t);
  }

  lemma TakeBudget(cfg: Config, f: Fleet, a: Act)
    requires BudgetInv(f) && Can(cfg, f, a) && a.Take?
    ensures BudgetInv(After(cfg, f, a))
  {
    ReserveHealthy(cfg, f.store, a.lane, a.receipt, a.now, a.o, f.receipts);
    OthersTrue(f, After(cfg, f, a), a.t);
  }

  lemma FinishBudget(cfg: Config, f: Fleet, a: Act)
    requires BudgetInv(f) && Can(cfg, f, a) && (a.Finish? || a.Beat?)
    ensures BudgetInv(After(cfg, f, a))
  {
    var task, how := f.tasks[a.t], if a.Finish? then a.how else Extend;
    assert TaskTrue(f.store, f.receipts, task);
    ResolveHealthy(cfg, f.store, task.env, task.receipt, how, a.now, a.o, f.receipts);
    assert CopyStays(f.store, a.o.store, task.env, task.receipt);
    OthersTrue(f, After(cfg, f, a), a.t);
  }

  lemma AdminBudget(cfg: Config, f: Fleet, a: Act)
    requires BudgetInv(f) && Can(cfg, f, a) && a.Admin?
    ensures BudgetInv(After(cfg, f, a))
  {
    AdminHealthy(cfg, f.store, a.op, a.now, a.o, f.receipts);
    forall u | 0 <= u < |f.tasks| && f.tasks[u].Running? ensures TaskTrue(a.o.store, f.receipts, f.tasks[u]) {
      assert TaskTrue(f.store, f.receipts, f.tasks[u]);
      assert CopyStays(f.store, a.o.store, f.tasks[u].env, f.tasks[u].receipt);
    }
  }

  lemma ActKeepsBudget(cfg: Config, f: Fleet, a: Act)
    requires BudgetInv(f) && Can(cfg, f, a)
    ensures BudgetInv(After(cfg, f, a))
  {
    match a
    case Submit(_, _) => SubmitBudget(cfg, f, a);
    case SubmitLost(_, _) => SubmitBudget(cfg, f, a);
    case Take(_, _, _, _, _) => TakeBudget(cfg, f, a);
    case Finish(_, _, _, _) => FinishBudget(cfg, f, a);
    case Beat(_, _, _) => FinishBudget(cfg, f, a);
    case Admin(_, _, _) => AdminBudget(cfg, f, a);
    case _ =>
      var g := After(cfg, f, a);
      forall u | 0 <= u < |g.tasks| ensures TaskTrue(g.store, g.receipts, g.tasks[u]) {
        if u < |f.tasks| {
          assert TaskTrue(f.store, f.receipts, f.tasks[u]);
        }
      }
  }

  // ---------------------------------------------------------------- blobs

  function TaskTag(task: Task): int {
    match task
    case Submitting(job) => Tag(job.payload)
    case Deleting(blob) => blob
    case _ => NO_BLOB
  }

  function TaskTags(tasks: seq<Task>): seq<int> {
    seq(|tasks|, t requires 0 <= t < |tasks| => TaskTag(tasks[t]))
  }

  /** Everyone who refers to blob `b`: records, clients about to enqueue it, tasks about to delete it. */
  function Owners(f: Fleet, b: int): nat {
    Refs(f.store, b) + Occurs(TaskTags(f.tasks), b)
  }

  ghost predicate BlobOk(f: Fleet, b: nat) {
    && Owners(f, b) <= 1
    && (Refs(f.store, b) > 0 ==> b in f.blobs)
    && (Owners(f, b) > 0 ==> b in f.used)
  }

  ghost predicate TaskOk(blobs: set<nat>, task: Task) {
    task.Submitting? && task.job.payload.Reference? ==> task.job.payload.blob in blobs
  }

  ghost predicate BlobInv(f: Fleet) {
    && (forall b: nat :: BlobOk(f, b))
    && (forall t :: 0 <= t < |f.tasks| ==> TaskOk(f.blobs, f.tasks[t]))
  }

  lemma PutTask(tasks: seq<Task>, t: nat, task: Task, b: int)
    requires t < |tasks|
    ensures Occurs(TaskTags(tasks[t := task]), b) + (if TaskTag(tasks[t]) == b then 1 else 0)
            == Occurs(TaskTags(tasks), b) + (if TaskTag(task) == b then 1 else 0)
  {
    var tags, tags' := TaskTags(tasks), TaskTags(tasks[t := task]);
    assert RemoveAt(tags', t) == RemoveAt(tags, t);
    OccursRemove(tags, t, b);
    OccursRemove(tags', t, b);
  }

  lemma TaskOwns(tasks: seq<Task>, t: nat)
    requires t < |tasks|
    ensures Occurs(TaskTags(tasks), TaskTag(tasks[t])) >= 1
  {
    OccursRemove(TaskTags(tasks), t, TaskTag(tasks[t]));
  }

  lemma OffloadBlobs(cfg: Config, f: Fleet, a: Act)
    requires BlobInv(f) && Can(cfg, f, a) && a.Offload?
    ensures BlobInv(After(cfg, f, a))
  {
    var g := After(cfg, f, a);
    forall b: nat ensures BlobOk(g, b) {
      assert BlobOk(f, b) && BlobOk(f, a.blob);
      PutTask(f.tasks, a.t, g.tasks[a.t], b);
    }
    forall u | 0 <= u < |g.tasks| ensures TaskOk(g.blobs, g.tasks[u]) {
      assert TaskOk(f.blobs, f.tasks[u]);
    }
  }

  /** One client or worker moves on, and the store gains at most what it gave up. */
  lemma HandOver(f: Fleet, g: Fleet, t: nat)
    requires BlobInv(f) && t < |f.tasks| == |g.tasks| && g.blobs == f.blobs && g.used == f.used
    requires g.tasks == f.tasks[t := g.tasks[t]] && TaskOk(g.blobs, g.tasks[t])
    requires forall b: nat :: Balanced(f, g, t, b)
    ensures BlobInv(g)
  {
    forall b: nat ensures BlobOk(g, b) {
      assert BlobOk(f, b) && Balanced(f, g, t, b);
      PutTask(f.tasks, t, g.tasks[t], b);
      if Refs(g.store, b) > Refs(f.store, b) {
        assert TaskOk(f.blobs, f.tasks[t]);
      }
    }
    forall u | 0 <= u < |g.tasks| ensures TaskOk(g.blobs, g.tasks[u]) {
      assert TaskOk(f.blobs, f.tasks[u]);
    }
  }

  ghost predicate Balanced(f: Fleet, g: Fleet, t: nat, b: nat)
    requires t < |f.tasks| && t < |g.tasks|
  {
    && Refs(g.store, b) + (if TaskTag(g.tasks[t]) == b then 1 else 0)
       <= Refs(f.store, b) + (if TaskTag(f.tasks[t]) == b then 1 else 0)
    && (Refs(g.store, b) > Refs(f.store, b) ==> f.tasks[t].Submitting?)
  }

  lemma SubmitBlobs(cfg: Config, f: Fleet, a: Act)
    requires BlobInv(f) && Can(cfg, f, a) && a.Submit?
    ensures BlobInv(After(cfg, f, a))
  {
    var g := After(cfg, f, a);
    assert g.tasks == f.tasks[a.t := g.tasks[a.t]];
    forall b: nat ensures Balanced(f, g, a.t, b) {
      InsertRefs(cfg, f.store, f.tasks[a.t].job, a.now, b);
    }
    HandOver(f, g, a.t);
  }

  lemma TakeBlobs(cfg: Config, f: Fleet, a: Act)
    requires BudgetInv(f) && BlobInv(f) && Can(cfg, f, a) && a.Take?
    ensures BlobInv(After(cfg, f, a))
  {
    var g := After(cfg, f, a);
    ReserveHealthy(cfg, f.store, a.lane, a.receipt, a.now, a.o, f.receipts);
    assert g.tasks == f.tasks[a.t := g.tasks[a.t]];
    forall b: nat ensures Balanced(f, g, a.t, b) {
      assert NoMoreRefs(f.store, g.store, b);
    }
    HandOver(f, g, a.t);
  }

  lemma FinishBlobs(cfg: Config, f: Fleet, a: Act)
    requires BudgetInv(f) && BlobInv(f) && Can(cfg, f, a) && (a.Finish? || a.Beat?)
    ensures BlobInv(After(cfg, f, a))
  {
    var g, task, how := After(cfg, f, a), f.tasks[a.t], if a.Finish? then a.how else Extend;
    assert TaskTrue(f.store, f.receipts, task);
    ResolveHealthy(cfg, f.store, task.env, task.receipt, how, a.now, a.o, f.receipts);
    assert g.tasks == f.tasks[a.t := g.tasks[a.t]];
    forall b: nat ensures Balanced(f, g, a.t, b) {
      assert NoMoreRefs(f.store, g.store, b);
      if how.Ack? && a.o.reply.Done? {
        assert AckTakes(f.store, g.store, task.env, b);
      }
    }
    HandOver(f, g, a.t);
  }

  lemma AdminBlobs(cfg: Config, f: Fleet, a: Act)
    requires BudgetInv(f) && BlobInv(f) && Can(cfg, f, a) && a.Admin?
    ensures BlobInv(After(cfg, f, a))
  {
    AdminHealthy(cfg, f.store, a.op, a.now, a.o, f.receipts);
    forall b: nat ensures BlobOk(After(cfg, f, a), b) {
      assert BlobOk(f, b) && NoMoreRefs(f.store, a.o.store, b);
    }
  }

  /** The deleted blob had no other owner. */
  lemma DeleteBlobs(cfg: Config, f: Fleet, a: Act)
    requires BlobInv(f) && Can(cfg, f, a) && a.Delete?
    ensures BlobInv(After(cfg, f, a))
  {
    var g, gone := After(cfg, f, a), f.tasks[a.t].blob;
    TaskOwns(f.tasks, a.t);
    assert BlobOk(f, gone);
    forall b: nat ensures BlobOk(g, b) {
      assert BlobOk(f, b);
      PutTask(f.tasks, a.t, Idle, b);
    }
    forall u | 0 <= u < |g.tasks| ensures TaskOk(g.blobs, g.tasks[u]) {
      assert TaskOk(f.blobs, f.tasks[u]);
      PutTask(f.tasks, a.t, Idle, gone);
      TaskOwns(g.tasks, u);
    }
  }

  /** Spawning, failing and crashing tasks only ever give blobs up. */
  lemma TaskBlobs(cfg: Config, f: Fleet, a: Act)
    requires BlobInv(f) && Can(cfg, f, a) && (a.KeepInline? || a.SubmitFailed? || a.Crash?)
    ensures BlobInv(After(cfg, f, a))
  {
    var g := After(cfg, f, a);
    assert g.tasks == f.tasks[a.t := g.tasks[a.t]];
    HandOver(f, g, a.t);
  }

  lemma SpawnBlobs(f: Fleet)
    requires BlobInv(f)
    ensures BlobInv(f.(tasks := f.tasks + [Idle]))
  {
    var g := f.(tasks := f.tasks + [Idle]);
    assert TaskTags(g.tasks) == TaskTags(f.tasks) + [NO_BLOB];
    forall b: nat ensures BlobOk(g, b) {
      assert BlobOk(f, b);
      OccursJoin(TaskTags(f.tasks), [NO_BLOB], b);
    }
    forall u | 0 <= u < |g.tasks| ensures TaskOk(g.blobs, g.tasks[u]) {
      if u < |f.tasks| {
        assert TaskOk(f.blobs, f.tasks[u]);
      }
    }
  }

  /** A lost reply does no harm when the job carries no blob or was not stored after all. */
  ghost predicate Harmless(cfg: Config, f: Fleet, a: Act)
    requires Can(cfg, f, a)
  {
    a.SubmitLost? ==>
      f.tasks[a.t].job.payload.Inline? || Insert(f.store, f.tasks[a.t].job, a.now).store == f.store
  }

  lemma LostBlobs(cfg: Config, f: Fleet, a: Act)
    requires BlobInv(f) && Can(cfg, f, a) && a.SubmitLost? && Harmless(cfg, f, a)
    ensures BlobInv(After(cfg, f, a))
  {
    var g := After(cfg, f, a);
    assert g.tasks == f.tasks[a.t := g.tasks[a.t]];
    forall b: nat ensures Balanced(f, g, a.t, b) {
      InsertRefs(cfg, f.store, f.tasks[a.t].job, a.now, b);
    }
    HandOver(f, g, a.t);
  }

  lemma ActKeepsBlobs(cfg: Config, f: Fleet, a: Act)
    requires BudgetInv(f) && BlobInv(f) && Can(cfg, f, a) && Harmless(cfg, f, a)
    ensures BlobInv(After(cfg, f, a))
  {
    match a
    case SubmitLost(_, _) => LostBlobs(cfg, f, a);
    case Spawn => SpawnBlobs(f);
    case Offload(_, _, _) => OffloadBlobs(cfg, f, a);
    case Submit(_, _) => SubmitBlobs(cfg, f, a);
    case Delete(_) => DeleteBlobs(cfg, f, a);
    case Take(_, _, _, _, _) => TakeBlobs(cfg, f, a);
    case Finish(_, _, _, _) => FinishBlobs(cfg, f, a);
    case Beat(_, _, _) => FinishBlobs(cfg, f, a);
    case Admin(_, _, _) => AdminBlobs(cfg, f, a);
    case _ => TaskBlobs(cfg, f, a);
  }

  // ------------------------------------------------------------------- runs

  ghost predicate Run(cfg: Config, f: Fleet, acts: seq<Act>)
    decreases |acts|
  {
    acts != [] ==> Can(cfg, f, acts[0]) && Run(cfg, After(cfg, f, acts[0]), acts[1..])
  }

  ghost function End(cfg: Config, f: Fleet, acts: seq<Act>): Fleet
    requires Run(cfg, f, acts)
    decreases |acts|
  {
    if acts == [] then f else End(cfg, After(cfg, f, acts[0]), acts[1..])
  }

  /** Every lost reply of the run is harmless. */
  ghost predicate HarmlessRun(cfg: Config, f: Fleet, acts: seq<Act>)
    decreases |acts|
  {
    acts != [] ==>
      && Can(cfg, f, acts[0]) && Harmless(cfg, f, acts[0])
      && HarmlessRun(cfg, After(cfg, f, acts[0]), acts[1..])
  }

  lemma {:induction false} RunKeeps(cfg: Config, f: Fleet, acts: seq<Act>)
    requires BudgetInv(f) && BlobInv(f) && Run(cfg, f, acts) && HarmlessRun(cfg, f, acts)
    ensures BudgetInv(End(cfg, f, acts)) && BlobInv(End(cfg, f, acts))
    decreases |acts|
  {
    if acts != [] {
      ActKeepsBudget(cfg, f, acts[0]);
      ActKeepsBlobs(cfg, f, acts[0]);
      RunKeeps(cfg, After(cfg, f, acts[0]), acts[1..]);
    }
  }

  lemma {:induction false} RunKeepsBudget(cfg: Config, f: Fleet, acts: seq<Act>)
    requires BudgetInv(f) && Run(cfg, f, acts)
    ensures BudgetInv(End(cfg, f, acts))
    decreases |acts|
  {
    if acts != [] {
      ActKeepsBudget(cfg, f, acts[0]);
      RunKeepsBudget(cfg, After(cfg, f, acts[0]), acts[1..]);
    }
  }

  lemma EmptyFleetOk()
    ensures BudgetInv(EMPTY_FLEET) && BlobInv(EMPTY_FLEET)
  {
  }

  /**
   Attempt budget: whatever fails, crashes, expires, is deferred or requeued, every
   live and dead job has an attempt left, and every worker whose receipt is current
   holds the job exactly as it is stored.
   */
  lemma AttemptBudget(cfg: Config, acts: seq<Act>)
    requires Run(cfg, EMPTY_FLEET, acts)
    ensures var f := End(cfg, EMPTY_FLEET, acts);
            && AllSpared(f.store)
            && forall t :: 0 <= t < |f.tasks| ==> TaskTrue(f.store, f.receipts, f.tasks[t])
  {
    EmptyFleetOk();
    RunKeepsBudget(cfg, EMPTY_FLEET, acts);
  }

  /** No live or dead record refers to a blob that is not there. */
  ghost predicate BlobsSafe(f: Fleet) {
    && (forall i :: 0 <= i < |f.store.jobs| && f.store.jobs[i].env.payload.Reference? ==>
                      f.store.jobs[i].env.payload.blob in f.blobs)
    && (forall k :: 0 <= k < |f.store.dead| && f.store.dead[k].env.payload.Reference? ==>
                      f.store.dead[k].env.payload.blob in f.blobs)
  }

  /** A worker with a current receipt finds its payload. */
  ghost predicate Resolvable(f: Fleet, t: nat)
    requires t < |f.tasks|
  {
    var task := f.tasks[t];
    task.Running? && task.env.payload.Reference? && !NotCurrent(f.store.jobs, task.receipt) ==>
      task.env.payload.blob in f.blobs
  }

  lemma OwnedIsPresent(f: Fleet)
    requires BlobInv(f)
    ensures BlobsSafe(f)
  {
    forall i | 0 <= i < |f.store.jobs| && f.store.jobs[i].env.payload.Reference?
      ensures f.store.jobs[i].env.payload.blob in f.blobs
    {
      OccursRemove(JobTags(f.store.jobs), i, f.store.jobs[i].env.payload.blob);
      assert BlobOk(f, f.store.jobs[i].env.payload.blob);
    }
    forall k | 0 <= k < |f.store.dead| && f.store.dead[k].env.payload.Reference?
      ensures f.store.dead[k].env.payload.blob in f.blobs
    {
      OccursRemove(DeadTags(f.store.dead), k, f.store.dead[k].env.payload.blob);
      assert BlobOk(f, f.store.dead[k].env.payload.blob);
    }
  }

  /** Blob safety, over every run whose lost replies are all harmless. */
  lemma BlobSafety(cfg: Config, acts: seq<Act>)
    requires Run(cfg, EMPTY_FLEET, acts) && HarmlessRun(cfg, EMPTY_FLEET, acts)
    ensures var f := End(cfg, EMPTY_FLEET, acts);
            BlobsSafe(f) && forall t :: 0 <= t < |f.tasks| ==> Resolvable(f, t)
  {
    EmptyFleetOk();
    RunKeeps(cfg, EMPTY_FLEET, acts);
    var f := End(cfg, EMPTY_FLEET, acts);
    OwnedIsPresent(f);
    forall t | 0 <= t < |f.tasks| ensures Resolvable(f, t) {
      assert TaskTrue(f.store, f.receipts, f.tasks[t]);
    }
  }

  // ------------------------------------------------- where the promise breaks

  /** A stored enqueue reported as failed: the client deletes the blob of a live job. */
  function LostRun(job: NewJob): seq<Act> {
    [Spawn, Offload(0, job, 0), SubmitLost(0, 0), Delete(0)]
  }

  lemma MoreActs(cfg: Config, f: Fleet, a: Act, rest: seq<Act>, g: Fleet)
    requires Can(cfg, f, a) && After(cfg, f, a) == g && Run(cfg, g, rest)
    ensures Run(cfg, f, [a] + rest) && End(cfg, f, [a] + rest) == End(cfg, g, rest)
  {
    assert ([a] + rest)[1..] == rest;
  }

  lemma LossBreaks(cfg: Config, job: NewJob)
    ensures Run(cfg, EMPTY_FLEET, LostRun(job)) && !BlobsSafe(End(cfg, EMPTY_FLEET, LostRun(job)))
  {
    var f1 := EMPTY_FLEET.(tasks := [Idle]);
    var placed := job.(payload := Reference(0));
    var f2 := Fleet(EMPTY_STORE, {0}, {0}, {}, [Submitting(placed)]);
    var f3 := Fleet(Place(EMPTY_STORE, placed, 0), {0}, {0}, {}, [Deleting(0)]);
    var f4 := f3.(blobs := {}, tasks := [Idle]);
    MoreActs(cfg, f3, Delete(0), [], f4);
    MoreActs(cfg, f2, SubmitLost(0, 0), [Delete(0)], f3);
    MoreActs(cfg, f1, Offload(0, job, 0), [SubmitLost(0, 0), Delete(0)], f2);
    MoreActs(cfg, EMPTY_FLEET, Spawn, [Offload(0, job, 0), SubmitLost(0, 0), Delete(0)], f1);
    assert [Delete(0)] + [] == [Delete(0)] && [SubmitLost(0, 0)] + [Delete(0)] == [SubmitLost(0, 0), Delete(0)];
    assert f4.store.jobs[0].env.payload == Reference(0);
  }

  /** The reply is lost, and the client cleans up if it has something to clean up. */
  ghost function Cleaned(cfg: Config, f: Fleet, a: Act): Fleet
    requires Can(cfg, f, a) && a.SubmitLost?
  {
    var g := After(cfg, f, a);
    if g.tasks[a.t].Deleting? then After(cfg, g, Delete(a.t)) else g
  }

  /** A stored job's reference is among the records. */
  lemma StoredRefers(f: Fleet, job: NewJob, now: nat)
    requires Insert(f.store, job, now).store != f.store && job.payload.Reference? && job.payload.blob !in f.blobs
    ensures !BlobsSafe(f.(store := Insert(f.store, job, now).store))
  {
    var jobs := Insert(f.store, job, now).store.jobs;
    assert jobs[|f.store.jobs|].env.payload == job.payload;
  }

  /** A lost reply and its clean-up leave every record its blob, if and only if the loss is harmless. */
  lemma LostIff(cfg: Config, f: Fleet, a: Act)
    requires BlobInv(f) && Can(cfg, f, a) && a.SubmitLost?
    ensures BlobsSafe(Cleaned(cfg, f, a)) <==> Harmless(cfg, f, a)
  {
    var g := After(cfg, f, a);
    if Harmless(cfg, f, a) {
      LostBlobs(cfg, f, a);
      if g.tasks[a.t].Deleting? {
        DeleteBlobs(cfg, g, Delete(a.t));
      }
      OwnedIsPresent(Cleaned(cfg, f, a));
    } else {
      var h := f.(blobs := f.blobs - {f.tasks[a.t].job.payload.blob}, tasks := f.tasks[a.t := Idle]);
      assert Cleaned(cfg, f, a) == h.(store := g.store);
      StoredRefers(h, f.tasks[a.t].job, a.now);
    }
  }

  /** Whatever happens next, as long as later losses are harmless, every record keeps its blob. */
  ghost predicate SafeFromHere(cfg: Config, f: Fleet) {
    forall acts :: Run(cfg, f, acts) && HarmlessRun(cfg, f, acts) ==> BlobsSafe(End(cfg, f, acts))
  }

  /** A step leaves the fleet safe whatever happens next, if and only if it is no harmful loss. */
  lemma SafeIffHarmless(cfg: Config, f: Fleet, a: Act)
    requires BudgetInv(f) && BlobInv(f) && Can(cfg, f, a)
    ensures SafeFromHere(cfg, After(cfg, f, a)) <==> Harmless(cfg, f, a)
  {
    var g := After(cfg, f, a);
    if Harmless(cfg, f, a) {
      ActKeepsBudget(cfg, f, a);
      ActKeepsBlobs(cfg, f, a);
      forall acts | Run(cfg, g, acts) && HarmlessRun(cfg, g, acts) ensures BlobsSafe(End(cfg, g, acts)) {
        RunKeeps(cfg, g, acts);
        OwnedIsPresent(End(cfg, g, acts));
      }
    } else {
      LostIff(cfg, f, a);
      OneAct(cfg, g, Delete(a.t));
    }
  }

  lemma OneAct(cfg: Config, f: Fleet, a: Act)
    requires Can(cfg, f, a) && !a.SubmitLost?
    ensures Run(cfg, f, [a]) && HarmlessRun(cfg, f, [a]) && End(cfg, f, [a]) == After(cfg, f, a)
  {
    assert [a][1..] == [];
    assert Run(cfg, After(cfg, f, a), []) && HarmlessRun(cfg, After(cfg, f, a), []);
  }
}
