/**
 Accounting over every run: no job is lost or duplicated, and the delivery bound
 holds however workers crash, retry and defer.
 */
module Accounting {
  import opened Types
  import opened Lists
  import opened Contract
  import opened Receipts

  // ----------------------------------------------------------- conservation

  /** How many times `x` occurs among `ids`. */
  function Occurs(ids: seq<JobId>, x: JobId): nat {
    if ids == [] then 0
    else Occurs(ids[..|ids| - 1], x) + (if ids[|ids| - 1] == x then 1 else 0)
  }

  lemma {:induction false} OccursJoin(a: seq<JobId>, b: seq<JobId>, x: JobId)
    ensures Occurs(a + b, x) == Occurs(a, x) + Occurs(b, x)
  {
    if b == [] {
      assert a + b == a;
    } else {
      var n := |b| - 1;
      assert (a + b)[..|a + b| - 1] == a + b[..n];
      OccursJoin(a, b[..n], x);
    }
  }

  lemma OccursRemove(ids: seq<JobId>, i: nat, x: JobId)
    requires i < |ids|
    ensures Occurs(ids, x) == Occurs(RemoveAt(ids, i), x) + (if ids[i] == x then 1 else 0)
  {
    assert ids == ids[..i + 1] + ids[i + 1..];
    assert ids[..i + 1][..i] == ids[..i];
    OccursJoin(ids[..i + 1], ids[i + 1..], x);
    OccursJoin(ids[..i], ids[i + 1..], x);
  }

  lemma OccursInsert(ids: seq<JobId>, i: nat, y: JobId, x: JobId)
    requires i <= |ids|
    ensures Occurs(InsertAt(ids, i, y), x) == Occurs(ids, x) + (if y == x then 1 else 0)
  {
    var all := InsertAt(ids, i, y);
    assert RemoveAt(all, i) == ids;
    OccursRemove(all, i, x);
  }

  lemma {:induction false} OccursPick(ids: seq<JobId>, keep: seq<bool>, x: JobId)
    requires |keep| == |ids|
    ensures Occurs(ids, x) == Occurs(Pick(ids, keep), x) + Occurs(Pick(ids, Negate(keep)), x)
  {
    if ids != [] {
      var n := |ids| - 1;
      OccursPick(ids[..n], keep[..n], x);
      assert Negate(keep)[..n] == Negate(keep[..n]);
      OccursJoin(Pick(ids[..n], keep[..n]), if keep[n] then [ids[n]] else [], x);
      OccursJoin(Pick(ids[..n], Negate(keep[..n])), if keep[n] then [] else [ids[n]], x);
      assert Occurs([ids[n]], x) == if ids[n] == x then 1 else 0;
    }
  }

  lemma {:induction false} PickIds(dead: seq<DeadRec>, keep: seq<bool>)
    requires |dead| == |keep|
    ensures DeadIds(Pick(dead, keep)) == Pick(DeadIds(dead), keep)
  {
    if dead != [] {
      var n := |dead| - 1;
      PickIds(dead[..n], keep[..n]);
      assert DeadIds(dead)[..n] == DeadIds(dead[..n]);
    }
  }

  function Alive(s: Store, x: JobId): nat {
    Occurs(LiveIds(s.jobs), x)
  }

  function Dead(s: Store, x: JobId): nat {
    Occurs(DeadIds(s.dead), x)
  }

  function Entry(e: Event, x: JobId): nat {
    if e.Stored? && e.job.id == x then 1 else 0
  }

  function Acked(s: Store, e: Event, x: JobId): nat {
    if e.Resolved? && e.how.Ack? && e.index < |s.jobs| && s.jobs[e.index].env.id == x then 1 else 0
  }

  /** Records of `x` that the event removes from the dead letters for good. */
  ghost function Dropped(cfg: Config, s: Store, e: Event, x: JobId): nat
    requires Enabled(cfg, s, e)
  {
    if e.Emptied? then Occurs(Pick(DeadIds(s.dead), OnLane(s.dead, e.lane)), x)
    else if e.Buried? then Pruned(cfg, s, e.index, OverReason(cfg), e.at, e.pos, x)
    else if e.Resolved? && e.how.Fail? then Pruned(cfg, s, e.index, Given(e.how.text), e.at, e.pos, x)
    else 0
  }

  function Pruned(cfg: Config, s: Store, i: nat, reason: Reason, now: nat, pos: nat, x: JobId): nat
    requires i < |s.jobs| && pos <= |s.dead|
  {
    var dead := DeadWith(s, i, reason, now, pos);
    Occurs(Pick(DeadIds(dead), Negate(Kept(cfg.retention, dead, s.jobs[i].env.lane, now))), x)
  }

  lemma PickBalances(dead: seq<DeadRec>, keep: seq<bool>, x: JobId)
    requires |keep| == |dead|
    ensures Occurs(DeadIds(dead), x) ==
            Occurs(DeadIds(Pick(dead, keep)), x) + Occurs(Pick(DeadIds(dead), Negate(keep)), x)
  {
    PickIds(dead, keep);
    OccursPick(DeadIds(dead), keep, x);
  }

  lemma RemoveBalances(s: Store, i: nat, x: JobId)
    requires i < |s.jobs|
    ensures Alive(s, x) == Alive(Without(s, i), x) + (if s.jobs[i].env.id == x then 1 else 0)
  {
    assert LiveIds(RemoveAt(s.jobs, i)) == RemoveAt(LiveIds(s.jobs), i);
    OccursRemove(LiveIds(s.jobs), i, x);
  }

  lemma BuryBalances(cfg: Config, s: Store, i: nat, reason: Reason, now: nat, pos: nat, x: JobId)
    requires i < |s.jobs| && pos <= |s.dead|
    ensures var t := Bury(cfg, s, i, reason, now, pos);
            Alive(s, x) + Dead(s, x) == Alive(t, x) + Dead(t, x) + Pruned(cfg, s, i, reason, now, pos, x)
  {
    var dead := DeadWith(s, i, reason, now, pos);
    RemoveBalances(s, i, x);
    assert DeadIds(dead) == InsertAt(DeadIds(s.dead), pos, s.jobs[i].env.id);
    OccursInsert(DeadIds(s.dead), pos, s.jobs[i].env.id, x);
    PickBalances(dead, Kept(cfg.retention, dead, s.jobs[i].env.lane, now), x);
  }

  lemma ReviveBalances(s: Store, k: nat, now: nat, x: JobId)
    requires k < |s.dead|
    ensures var t := Revive(s, k, now); Alive(s, x) + Dead(s, x) == Alive(t, x) + Dead(t, x)
  {
    var t := Revive(s, k, now);
    assert LiveIds(t.jobs) == LiveIds(s.jobs) + [s.dead[k].env.id];
    OccursJoin(LiveIds(s.jobs), [s.dead[k].env.id], x);
    assert DeadIds(t.dead) == RemoveAt(DeadIds(s.dead), k);
    OccursRemove(DeadIds(s.dead), k, x);
  }

  lemma EmptyBalances(s: Store, lane: Lane, x: JobId)
    ensures Dead(s, x) == Dead(Empty(s, lane), x) + Occurs(Pick(DeadIds(s.dead), OnLane(s.dead, lane)), x)
  {
    var on := OnLane(s.dead, lane);
    assert Negate(Negate(on)) == on;
    PickBalances(s.dead, Negate(on), x);
  }

  lemma UseKeepsIds(cfg: Config, s: Store, i: nat, how: How, now: nat, pos: nat)
    requires i < |s.jobs| && pos <= |s.dead| && (how.Retry? || how.Defer? || how.Extend?)
    ensures var t := Use(cfg, s, i, how, now, pos); LiveIds(t.jobs) == LiveIds(s.jobs) && t.dead == s.dead
  {
  }

  /** One event neither loses nor duplicates a job. */
  lemma EventBalances(cfg: Config, s: Store, e: Event, x: JobId)
    requires Enabled(cfg, s, e)
    ensures var t := Fire(cfg, s, e);
            Alive(s, x) + Dead(s, x) + Entry(e, x) == Alive(t, x) + Dead(t, x) + Acked(s, e, x) + Dropped(cfg, s, e, x)
  {
    var t := Fire(cfg, s, e);
    match e
    case Stored(job, _) =>
      assert LiveIds(t.jobs) == LiveIds(s.jobs) + [job.id];
      OccursJoin(LiveIds(s.jobs), [job.id], x);
    case Buried(_, i, at, pos) => BuryBalances(cfg, s, i, OverReason(cfg), at, pos, x);
    case Resolved(i, _, how, at, pos) =>
      if how.Fail? {
        BuryBalances(cfg, s, i, Given(how.text), at, pos, x);
      } else if how.Ack? {
        RemoveBalances(s, i, x);
      } else {
        UseKeepsIds(cfg, s, i, how, at, pos);
      }
    case Revived(k, at) => ReviveBalances(s, k, at, x);
    case Emptied(lane) => EmptyBalances(s, lane, x);
    case _ =>
      assert LiveIds(t.jobs) == LiveIds(s.jobs);
  }

  function Entries(log: seq<Event>, x: JobId): nat {
    if log == [] then 0 else Entry(log[0], x) + Entries(log[1..], x)
  }

  ghost function AckedIn(cfg: Config, s: Store, log: seq<Event>, x: JobId): nat
    requires Trace(cfg, s, log)
    decreases |log|
  {
    if log == [] then 0 else Acked(s, log[0], x) + AckedIn(cfg, Fire(cfg, s, log[0]), log[1..], x)
  }

  ghost function DroppedIn(cfg: Config, s: Store, log: seq<Event>, x: JobId): nat
    requires Trace(cfg, s, log)
    decreases |log|
  {
    if log == [] then 0 else Dropped(cfg, s, log[0], x) + DroppedIn(cfg, Fire(cfg, s, log[0]), log[1..], x)
  }

  lemma {:induction false} TraceBalances(cfg: Config, s: Store, log: seq<Event>, x: JobId)
    requires Trace(cfg, s, log)
    ensures var t := Reach(cfg, s, log);
            Alive(s, x) + Dead(s, x) + Entries(log, x) ==
            Alive(t, x) + Dead(t, x) + AckedIn(cfg, s, log, x) + DroppedIn(cfg, s, log, x)
    decreases |log|
  {
    if log != [] {
      EventBalances(cfg, s, log[0], x);
      TraceBalances(cfg, Fire(cfg, s, log[0]), log[1..], x);
    }
  }

  /**
   Every job ever stored is live, dead-lettered, acknowledged, or dropped by
   retention or purge, and in exactly one of these when its id was stored once.
   No hypothesis on receipts or on the clock.
   */
  lemma Conservation(cfg: Config, calls: seq<Call>, outs: seq<Outcome>, n: nat, x: JobId)
    requires IsRun(cfg, calls, outs) && n <= |calls|
    ensures Leads(cfg, EMPTY_STORE, History(outs, 0, n), At(outs, n))
    ensures var log := History(outs, 0, n);
            Entries(log, x) == Alive(At(outs, n), x) + Dead(At(outs, n), x)
                               + AckedIn(cfg, EMPTY_STORE, log, x) + DroppedIn(cfg, EMPTY_STORE, log, x)
  {
    RunIsLogged(cfg, calls, outs);
    RunLeads(cfg, calls, outs, 0, n);
    TraceBalances(cfg, EMPTY_STORE, History(outs, 0, n), x);
  }

  // ---------------------------------------------------------- delivery bound

  /** No live job was delivered more than `m` times. */
  ghost predicate WithinBudget(jobs: seq<Job>, m: nat) {
    forall i :: 0 <= i < |jobs| ==> jobs[i].deliveries <= m
  }

  /** Deliveries the live jobs have left. */
  ghost function Budget(jobs: seq<Job>, m: nat): nat
    requires WithinBudget(jobs, m)
  {
    if jobs == [] then 0
    else Budget(jobs[..|jobs| - 1], m) + (m - jobs[|jobs| - 1].deliveries)
  }

  lemma {:induction false} BudgetJoin(a: seq<Job>, b: seq<Job>, m: nat)
    requires WithinBudget(a, m) && WithinBudget(b, m)
    ensures WithinBudget(a + b, m) && Budget(a + b, m) == Budget(a, m) + Budget(b, m)
  {
    if b == [] {
      assert a + b == a;
    } else {
      var n := |b| - 1;
      assert (a + b)[..|a + b| - 1] == a + b[..n];
      BudgetJoin(a, b[..n], m);
    }
  }

  lemma BudgetRemove(jobs: seq<Job>, i: nat, m: nat)
    requires WithinBudget(jobs, m) && i < |jobs|
    ensures WithinBudget(RemoveAt(jobs, i), m)
    ensures Budget(jobs, m) == Budget(RemoveAt(jobs, i), m) + (m - jobs[i].deliveries)
  {
    assert jobs == jobs[..i + 1] + jobs[i + 1..];
    assert jobs[..i + 1][..i] == jobs[..i];
    BudgetJoin(jobs[..i + 1], jobs[i + 1..], m);
    BudgetJoin(jobs[..i], jobs[i + 1..], m);
  }

  lemma BudgetPut(jobs: seq<Job>, i: nat, j: Job, m: nat)
    requires WithinBudget(jobs, m) && i < |jobs| && j.deliveries <= m
    ensures WithinBudget(jobs[i := j], m)
    ensures Budget(jobs[i := j], m) + jobs[i := j][i].deliveries == Budget(jobs, m) + jobs[i].deliveries
  {
    var new_ := jobs[i := j];
    assert RemoveAt(new_, i) == RemoveAt(jobs, i);
    BudgetRemove(jobs, i, m);
    BudgetRemove(new_, i, m);
  }

  lemma {:induction false} BudgetSame(a: seq<Job>, b: seq<Job>, m: nat)
    requires WithinBudget(a, m) && |a| == |b|
    requires forall i :: 0 <= i < |a| ==> b[i].deliveries == a[i].deliveries
    ensures WithinBudget(b, m) && Budget(b, m) == Budget(a, m)
  {
    if a != [] {
      BudgetSame(a[..|a| - 1], b[..|b| - 1], m);
    }
  }

  function Handout(e: Event): nat {
    if e.Leased? then 1 else 0
  }

  function Start(e: Event): nat {
    if e.Stored? || e.Revived? then 1 else 0
  }

  function Grant(e: Event, m: nat): nat {
    if e.Stored? || e.Revived? then m else 0
  }

  /** A bound the delivery counter can go past. */
  ghost predicate Bounded(cfg: Config, m: nat) {
    cfg.maxDeliveries == Some(m) && (cfg.wide || m < U32_MAX)
  }

  lemma UseSpendsNothing(cfg: Config, s: Store, i: nat, how: How, now: nat, pos: nat, m: nat)
    requires i < |s.jobs| && pos <= |s.dead| && WithinBudget(s.jobs, m)
    ensures var t := Use(cfg, s, i, how, now, pos);
            WithinBudget(t.jobs, m) && Budget(t.jobs, m) <= Budget(s.jobs, m)
  {
    if how.Ack? || how.Fail? {
      BudgetRemove(s.jobs, i, m);
    } else {
      BudgetPut(s.jobs, i, Use(cfg, s, i, how, now, pos).jobs[i], m);
    }
  }

  /** A hand-out spends one delivery; only a new or revived job brings new ones. */
  lemma EventSpends(cfg: Config, s: Store, e: Event, m: nat)
    requires Bounded(cfg, m) && Enabled(cfg, s, e) && WithinBudget(s.jobs, m)
    ensures var t := Fire(cfg, s, e);
            WithinBudget(t.jobs, m) && Handout(e) + Budget(t.jobs, m) <= Budget(s.jobs, m) + Grant(e, m)
  {
    var t := Fire(cfg, s, e);
    match e
    case Stored(job, at) => BudgetJoin(s.jobs, [t.jobs[|s.jobs|]], m);
    case Lapsed(at) => BudgetSame(s.jobs, t.jobs, m);
    case LapsedOne(i, _) => BudgetPut(s.jobs, i, t.jobs[i], m);
    case Buried(_, i, at, pos) => BudgetRemove(s.jobs, i, m);
    case Leased(_, i, receipt, at) => BudgetPut(s.jobs, i, t.jobs[i], m);
    case Resolved(i, _, how, at, pos) => UseSpendsNothing(cfg, s, i, how, at, pos, m);
    case Revived(k, at) => BudgetJoin(s.jobs, [t.jobs[|s.jobs|]], m);
    case _ =>
  }

  function Handouts(log: seq<Event>): nat {
    if log == [] then 0 else Handout(log[0]) + Handouts(log[1..])
  }

  function Starts(log: seq<Event>): nat {
    if log == [] then 0 else Start(log[0]) + Starts(log[1..])
  }

  function Grants(log: seq<Event>, m: nat): nat {
    if log == [] then 0 else Grant(log[0], m) + Grants(log[1..], m)
  }

  lemma {:induction false} GrantsPerStart(log: seq<Event>, m: nat)
    ensures Grants(log, m) == m * Starts(log)
  {
    if log != [] {
      GrantsPerStart(log[1..], m);
      assert m * (Start(log[0]) + Starts(log[1..])) == m * Start(log[0]) + m * Starts(log[1..]);
    }
  }

  lemma {:induction false} TraceSpends(cfg: Config, s: Store, log: seq<Event>, m: nat)
    requires Bounded(cfg, m) && Trace(cfg, s, log) && WithinBudget(s.jobs, m)
    ensures var t := Reach(cfg, s, log);
            WithinBudget(t.jobs, m) && Handouts(log) + Budget(t.jobs, m) <= Budget(s.jobs, m) + Grants(log, m)
    decreases |log|
  {
    if log != [] {
      EventSpends(cfg, s, log[0], m);
      TraceSpends(cfg, Fire(cfg, s, log[0]), log[1..], m);
    }
  }

  /**
   With a delivery bound `m`, no live job was ever delivered more than `m` times and
   the successful reserves number at most `m` per stored or requeued job.
   */
  lemma DeliveryBound(cfg: Config, calls: seq<Call>, outs: seq<Outcome>, n: nat, m: nat)
    requires IsRun(cfg, calls, outs) && n <= |calls| && Bounded(cfg, m)
    ensures WithinBudget(At(outs, n).jobs, m)
    ensures Handouts(History(outs, 0, n)) <= m * Starts(History(outs, 0, n))
  {
    RunIsLogged(cfg, calls, outs);
    RunLeads(cfg, calls, outs, 0, n);
    TraceSpends(cfg, EMPTY_STORE, History(outs, 0, n), m);
    GrantsPerStart(History(outs, 0, n), m);
  }

  // -------------------------------------------- a bound the counter cannot pass

  const PROBE: NewJob := NewJob(0, 0, 0, Inline(0), 1, 0, 0, None)

  /** One job waiting, delivered `d` times. */
  function Waiting(d: nat): Store {
    Store([Job(FreshEnvelope(PROBE), 0, None, None, None, d)], [], map[], map[])
  }

  lemma {:induction false} LogsJoin(a: seq<Event>, b: seq<Event>)
    ensures Handouts(a + b) == Handouts(a) + Handouts(b) && Starts(a + b) == Starts(a) + Starts(b)
  {
    if a == [] {
      assert a + b == b;
    } else {
      assert (a + b)[1..] == a[1..] + b;
      LogsJoin(a[1..], b);
    }
  }

  /** The bound is the counter's own ceiling, so no job is ever over it. */
  ghost predicate Ceiling(cfg: Config) {
    cfg.maxDeliveries == Some(U32_MAX) && !cfg.wide
  }

  ghost function Delivered(cfg: Config, d: nat, r: Receipt): Outcome {
    Step(cfg, Waiting(d), Reserve(0, r), 0)
  }

  /** The waiting job is handed out. */
  lemma DeliverOnce(cfg: Config, d: nat, r: Receipt)
    requires Ceiling(cfg)
    ensures Delivered(cfg, d, r) ==
            Outcome(Put(Waiting(d), 0, LeaseJob(cfg, Waiting(d).jobs[0], r, 0)),
                    Reserved(Some(Reservation(FreshEnvelope(PROBE), r, cfg.lease))), [Lapsed(0), Leased(0, 0, r, 0)])
  {
    var s := Waiting(d);
    assert Release(s.jobs, 0) == s.jobs;
    assert IsFirst(s.jobs, 0, 0, 0);
    FirstUnique(s.jobs, 0, 0, 0, First(s.jobs, 0, 0).value);
  }

  /** Deferring it, or finding its lease already over, makes it wait again. */
  lemma WaitAgain(cfg: Config, d: nat, r: Receipt)
    requires Ceiling(cfg)
    ensures var o := Step(cfg, Delivered(cfg, d, r).store, Resolve(r, Defer(0)), 0);
            o.store == Waiting(Bump(d)) && Handouts(o.log) == 0 && Starts(o.log) == 0
  {
    DeliverOnce(cfg, d, r);
    var s := Delivered(cfg, d, r).store;
    assert Holder(s.jobs, r) == Some(0);
    var o := Step(cfg, s, Resolve(r, Defer(0)), 0);
    assert o.log[1..] == [];
    assert o.store.jobs == Waiting(Bump(d)).jobs;
  }

  /** One more delivery and one more wait. */
  lemma HandOnce(cfg: Config, calls: seq<Call>, outs: seq<Outcome>, d: nat, r: Receipt)
    requires Ceiling(cfg) && IsRun(cfg, calls, outs) && At(outs, |calls|) == Waiting(d)
    ensures var calls', outs' := calls + [Call(0, Reserve(0, r))], outs + [Delivered(cfg, d, r)];
            && IsRun(cfg, calls', outs') && At(outs', |calls'|) == Delivered(cfg, d, r).store
            && var log, log' := History(outs, 0, |calls|), History(outs', 0, |calls'|);
               Handouts(log') == Handouts(log) + 1 && Starts(log') == Starts(log)
  {
    var a := Delivered(cfg, d, r);
    StepIsAllowed(cfg, Waiting(d), Reserve(0, r), 0);
    DeliverOnce(cfg, d, r);
    RunExtends(cfg, calls, outs, Reserve(0, r), 0, a);
    LogsJoin(History(outs, 0, |calls|), a.log);
    OneHandout(r);
  }

  lemma OneHandout(r: Receipt)
    ensures Handouts([Lapsed(0), Leased(0, 0, r, 0)]) == 1 && Starts([Lapsed(0), Leased(0, 0, r, 0)]) == 0
  {
    var log := [Lapsed(0), Leased(0, 0, r, 0)];
    var rest := log[1..];
    assert rest == [Leased(0, 0, r, 0)] && rest[1..] == [];
    assert Handouts(rest) == 1 + Handouts(rest[1..]) && Starts(rest) == Starts(rest[1..]);
    assert Handouts(log) == Handouts(rest) && Starts(log) == Starts(rest);
  }

  lemma DeliverAgain(cfg: Config, calls: seq<Call>, outs: seq<Outcome>, d: nat, r: Receipt)
    returns (calls': seq<Call>, outs': seq<Outcome>)
    requires Ceiling(cfg) && IsRun(cfg, calls, outs) && At(outs, |calls|) == Waiting(d)
    ensures IsRun(cfg, calls', outs') && At(outs', |calls'|) == Waiting(Bump(d))
    ensures var log, log' := History(outs, 0, |calls|), History(outs', 0, |calls'|);
            Handouts(log') == Handouts(log) + 1 && Starts(log') == Starts(log)
  {
    var a := Delivered(cfg, d, r);
    HandOnce(cfg, calls, outs, d, r);
    var c1, o1 := calls + [Call(0, Reserve(0, r))], outs + [a];
    var b := Step(cfg, a.store, Resolve(r, Defer(0)), 0);
    StepIsAllowed(cfg, a.store, Resolve(r, Defer(0)), 0);
    WaitAgain(cfg, d, r);
    RunExtends(cfg, c1, o1, Resolve(r, Defer(0)), 0, b);
    LogsJoin(History(o1, 0, |c1|), b.log);
    calls', outs' := c1 + [Call(0, Resolve(r, Defer(0)))], o1 + [b];
  }

  lemma {:induction false} EndlessRun(cfg: Config, n: nat) returns (calls: seq<Call>, outs: seq<Outcome>, d: nat)
    requires Ceiling(cfg)
    ensures IsRun(cfg, calls, outs) && At(outs, |calls|) == Waiting(d)
    ensures Handouts(History(outs, 0, |calls|)) == n && Starts(History(outs, 0, |calls|)) == 1
  {
    if n == 0 {
      var o := Step(cfg, EMPTY_STORE, Enqueue(PROBE), 0);
      RunExtends(cfg, [], [], Enqueue(PROBE), 0, o);
      calls, outs, d := [] + [Call(0, Enqueue(PROBE))], [] + [o], 0;
      assert o.log == [Stored(PROBE, 0)] && o.log[1..] == [];
      assert History(outs, 0, 1) == History(outs, 0, 0) + o.log == [] + o.log == o.log;
    } else {
      calls, outs, d := EndlessRun(cfg, n - 1);
      calls, outs := DeliverAgain(cfg, calls, outs, d, n);
      d := Bump(d);
    }
  }

  /** Over every run, the successful reserves number at most `m` per stored or requeued job. */
  ghost predicate BoundHolds(cfg: Config, m: nat) {
    forall calls, outs :: IsRun(cfg, calls, outs) ==>
                            Handouts(History(outs, 0, |calls|)) <= m * Starts(History(outs, 0, |calls|))
  }

  /** The delivery bound holds over every run, if and only if the counter can go past it. */
  lemma BoundIff(cfg: Config, m: nat)
    requires cfg.maxDeliveries == Some(m) && m <= U32_MAX
    ensures BoundHolds(cfg, m) <==> cfg.wide || m < U32_MAX
  {
    if Bounded(cfg, m) {
      forall calls, outs | IsRun(cfg, calls, outs)
        ensures Handouts(History(outs, 0, |calls|)) <= m * Starts(History(outs, 0, |calls|))
      {
        DeliveryBound(cfg, calls, outs, |calls|, m);
      }
    } else {
      var calls, outs, d := EndlessRun(cfg, m + 1);
      assert m * Starts(History(outs, 0, |calls|)) == m;
    }
  }
}
