/**
 The job-lifecycle contract as a state machine.

 `Store` is the in-memory broker's state; `Step` is its behaviour, one call at a
 time, with a log of the elementary events the call consists of. `StepAny` is the
 freedom the contract leaves to other backends: a reserve may pick any visible job
 of top priority, and records dead-lettered at the same instant may be kept in any
 order.
 */
module Contract {
  import opened Types
  import opened Lists

  datatype Store = Store(
    jobs: seq<Job>, dead: seq<DeadRec>,
    unique: map<Key, JobId>, schedules: map<ScheduleId, int>)

  const EMPTY_STORE := Store([], [], map[], map[])

  /** The five ways to use a receipt. */
  datatype How = Ack | Retry(delay: nat) | Defer(delay: nat) | Fail(text: int) | Extend

  datatype Op =
    | Enqueue(job: NewJob)
    | EnqueueBatch(jobs: seq<NewJob>)
    | Reserve(lane: Lane, receipt: Receipt)
    | Resolve(receipt: Receipt, how: How)
    | Requeue(id: JobId)
    | PurgeDead(lane: Lane)
    | EnqueueScheduled(schedule: ScheduleId, occurrence: int, job: NewJob)
    | RemoveSchedule(schedule: ScheduleId)
    | Classify(id: JobId)
    | ReadDead(lane: Lane, limit: nat)
    | CountDead(lane: Lane)
    | PendingCount(lane: Lane)

  datatype Reply =
    | Id(id: JobId)
    | Ids(ids: seq<JobId>)
    | Reserved(reservation: Option<Reservation>)
    | Done
    | Stale
    | NoDeadRecord
    | LiveIdConflict
    | KeyHeld
    | Purged(count: nat)
    | Claimed(won: bool)
    | State(state: JobState)
    | Letters(letters: seq<Letter>)
    | Count(count: nat)

  /** The elementary changes a call consists of; `at` is the clock reading. */
  datatype Event =
    | Stored(job: NewJob, at: nat)
    | Lapsed(at: nat)
    | LapsedOne(index: nat, at: nat)
    | Buried(lane: Lane, index: nat, at: nat, pos: nat)
    | Leased(lane: Lane, index: nat, receipt: Receipt, at: nat)
    | Resolved(index: nat, receipt: Receipt, how: How, at: nat, pos: nat)
    | Revived(index: nat, at: nat)
    | Emptied(lane: Lane)
    | Watermarked(schedule: ScheduleId, occurrence: int)
    | Unscheduled(schedule: ScheduleId)

  datatype Outcome = Outcome(store: Store, reply: Reply, log: seq<Event>)

  // ---------------------------------------------------------------- lookups

  predicate HasId(jobs: seq<Job>, id: JobId) {
    exists i :: 0 <= i < |jobs| && jobs[i].env.id == id
  }

  predicate HasDead(dead: seq<DeadRec>, id: JobId) {
    exists i :: 0 <= i < |dead| && dead[i].env.id == id
  }

  /** The first job carrying `receipt`. */
  function Holder(jobs: seq<Job>, receipt: Receipt): (r: Option<nat>)
    ensures r.Some? ==> r.value < |jobs| && jobs[r.value].receipt == Some(receipt)
    ensures r.Some? ==> forall k :: 0 <= k < r.value ==> jobs[k].receipt != Some(receipt)
    ensures r.None? ==> forall k :: 0 <= k < |jobs| ==> jobs[k].receipt != Some(receipt)
  {
    if jobs == [] then None
    else
      var n := |jobs| - 1;
      var r := Holder(jobs[..n], receipt);
      if r.Some? then r
      else if jobs[n].receipt == Some(receipt) then Some(n)
      else None
  }

  /** The first dead record of job `id`. */
  function DeadIndex(dead: seq<DeadRec>, id: JobId): (r: Option<nat>)
    ensures r.Some? ==> r.value < |dead| && dead[r.value].env.id == id
    ensures r.Some? ==> forall k :: 0 <= k < r.value ==> dead[k].env.id != id
    ensures r.None? ==> forall k :: 0 <= k < |dead| ==> dead[k].env.id != id
  {
    if dead == [] then None
    else
      var n := |dead| - 1;
      var r := DeadIndex(dead[..n], id);
      if r.Some? then r
      else if dead[n].env.id == id then Some(n)
      else None
  }

  // ------------------------------------------------------------- visibility

  function Visible(j: Job, lane: Lane, now: nat): bool {
    j.env.lane == lane && j.leasedUntil.None? && j.availableAt <= now
  }

  /** Reserve order: priority descending, then visibility time, then insertion order. */
  ghost predicate Ahead(jobs: seq<Job>, i: nat, k: nat)
    requires i < |jobs| && k < |jobs|
  {
    var a, b := jobs[i], jobs[k];
    || a.env.priority > b.env.priority
    || (&& a.env.priority == b.env.priority
        && (a.availableAt < b.availableAt || (a.availableAt == b.availableAt && i < k)))
  }

  ghost predicate AnyVisible(jobs: seq<Job>, lane: Lane, now: nat) {
    exists i :: 0 <= i < |jobs| && Visible(jobs[i], lane, now)
  }

  ghost predicate IsFirst(jobs: seq<Job>, lane: Lane, now: nat, i: nat) {
    && i < |jobs|
    && Visible(jobs[i], lane, now)
    && forall k :: 0 <= k < |jobs| && k != i && Visible(jobs[k], lane, now) ==> Ahead(jobs, i, k)
  }

  /** Visible, and no visible job of the lane has a higher priority. */
  ghost predicate IsTop(jobs: seq<Job>, lane: Lane, now: nat, i: nat) {
    && i < |jobs|
    && Visible(jobs[i], lane, now)
    && forall k :: 0 <= k < |jobs| && Visible(jobs[k], lane, now)
                   ==> jobs[k].env.priority <= jobs[i].env.priority
  }

  /** The job a deterministic reserve considers first. */
  ghost function First(jobs: seq<Job>, lane: Lane, now: nat): (r: Option<nat>)
    ensures r.None? ==> !AnyVisible(jobs, lane, now)
    ensures r.Some? ==> IsFirst(jobs, lane, now, r.value)
  {
    if i: nat :| IsFirst(jobs, lane, now, i) then Some(i) else
    SomeFirst(jobs, lane, now); None
  }

  /** Every non-empty set of visible jobs has a first one. */
  lemma {:induction false} SomeFirst(jobs: seq<Job>, lane: Lane, now: nat)
    ensures AnyVisible(jobs, lane, now) ==> exists i: nat :: IsFirst(jobs, lane, now, i)
  {
    if jobs != [] {
      var n := |jobs| - 1;
      var front := jobs[..n];
      SomeFirst(front, lane, now);
      if AnyVisible(front, lane, now) {
        var b: nat :| IsFirst(front, lane, now, b);
        if Visible(jobs[n], lane, now) && Ahead(jobs, n, b) {
          assert forall k :: 0 <= k < n && Visible(jobs[k], lane, now) && k != b ==> Ahead(front, b, k);
          assert IsFirst(jobs, lane, now, n);
        } else {
          assert forall k :: 0 <= k < n && Visible(jobs[k], lane, now) && k != b ==> Ahead(front, b, k);
          assert IsFirst(jobs, lane, now, b);
        }
      } else if AnyVisible(jobs, lane, now) {
        assert IsFirst(jobs, lane, now, n);
      }
    }
  }

  lemma FirstUnique(jobs: seq<Job>, lane: Lane, now: nat, i: nat, k: nat)
    requires IsFirst(jobs, lane, now, i) && IsFirst(jobs, lane, now, k)
    ensures i == k
  {
  }

  // ---------------------------------------------------------------- leasing

  function Unleased(j: Job): Job {
    j.(leasedUntil := None, receipt := None)
  }

  function Expired(j: Job, now: nat): bool {
    j.leasedUntil.Some? && j.leasedUntil.value <= now
  }

  /** No job carries a lease that has run out. */
  ghost predicate NoneExpired(jobs: seq<Job>, now: nat) {
    forall i :: 0 <= i < |jobs| ==> !Expired(jobs[i], now)
  }

  function ReleaseOne(j: Job, now: nat): Job {
    if Expired(j, now) then Unleased(j) else j
  }

  /** Every expired lease is cleared, on every lane. */
  function Release(jobs: seq<Job>, now: nat): seq<Job> {
    seq(|jobs|, i requires 0 <= i < |jobs| => ReleaseOne(jobs[i], now))
  }

  function LeaseJob(cfg: Config, j: Job, receipt: Receipt, now: nat): Job {
    j.(deliveries := Next(cfg, j.deliveries),
       leasedUntil := Some(AddTime(now, cfg.lease)),
       receipt := Some(receipt))
  }

  /** The job already used up its delivery budget. */
  function Over(cfg: Config, j: Job): bool {
    cfg.maxDeliveries.Some? && Next(cfg, j.deliveries) > cfg.maxDeliveries.value
  }

  function FreeKey(unique: map<Key, JobId>, key: Option<Key>): map<Key, JobId> {
    if key.Some? then unique - {key.value} else unique
  }

  function ClaimKey(unique: map<Key, JobId>, key: Option<Key>, id: JobId): map<Key, JobId> {
    if key.Some? then unique[key.value := id] else unique
  }

  function Without(s: Store, i: nat): Store
    requires i < |s.jobs|
  {
    s.(jobs := RemoveAt(s.jobs, i), unique := FreeKey(s.unique, s.jobs[i].key))
  }

  // -------------------------------------------------------------- retention

  /** The record is inside the age bound (if there is one) at `now`. */
  function Young(ret: Retention, d: DeadRec, now: nat): bool {
    ret.maxAge.Some? ==> d.deadAt + ret.maxAge.value >= now
  }

  /** How many records of `lane` at or after position `k` are inside the age bound. */
  function YoungFrom(ret: Retention, dead: seq<DeadRec>, lane: Lane, now: nat, k: nat): nat
    requires k <= |dead|
    decreases |dead| - k
  {
    if k == |dead| then 0
    else YoungFrom(ret, dead, lane, now, k + 1)
         + (if dead[k].env.lane == lane && Young(ret, dead[k], now) then 1 else 0)
  }

  /** A record survives a prune of `lane` when it is elsewhere, or young and among the newest. */
  function Survives(ret: Retention, dead: seq<DeadRec>, lane: Lane, now: nat, k: nat): bool
    requires k < |dead|
  {
    dead[k].env.lane == lane ==>
      && Young(ret, dead[k], now)
      && (ret.maxCount.Some? ==> YoungFrom(ret, dead, lane, now, k) <= ret.maxCount.value)
  }

  function Kept(ret: Retention, dead: seq<DeadRec>, lane: Lane, now: nat): seq<bool> {
    seq(|dead|, k requires 0 <= k < |dead| => Survives(ret, dead, lane, now, k))
  }

  function Negate(flags: seq<bool>): seq<bool> {
    seq(|flags|, k requires 0 <= k < |flags| => !flags[k])
  }

  function Prune(ret: Retention, dead: seq<DeadRec>, lane: Lane, now: nat): seq<DeadRec> {
    Pick(dead, Kept(ret, dead, lane, now))
  }

  function DeadIds(dead: seq<DeadRec>): seq<JobId> {
    seq(|dead|, i requires 0 <= i < |dead| => dead[i].env.id)
  }

  function LiveIds(jobs: seq<Job>): seq<JobId> {
    seq(|jobs|, i requires 0 <= i < |jobs| => jobs[i].env.id)
  }

  /** The record of a job buried at `now` may sit anywhere after the lane's older records. */
  ghost predicate TiePosition(dead: seq<DeadRec>, lane: Lane, now: nat, pos: nat) {
    && pos <= |dead|
    && forall k :: pos <= k < |dead| && dead[k].env.lane == lane ==> dead[k].deadAt >= now
  }

  function DeadWith(s: Store, i: nat, reason: Reason, now: nat, pos: nat): seq<DeadRec>
    requires i < |s.jobs| && pos <= |s.dead|
  {
    InsertAt(s.dead, pos, DeadRec(s.jobs[i].env, reason, s.jobs[i].key, now))
  }

  /** Move job `i` to the dead letters, its record at `pos`, and prune its lane. */
  function Bury(cfg: Config, s: Store, i: nat, reason: Reason, now: nat, pos: nat): Store
    requires i < |s.jobs| && pos <= |s.dead|
  {
    Without(s, i).(dead := Prune(cfg.retention, DeadWith(s, i, reason, now, pos), s.jobs[i].env.lane, now))
  }

  // ----------------------------------------------------------------- events

  /** A new job, stored at the back of the queue and holding its key. */
  function Place(s: Store, job: NewJob, now: nat): Store {
    s.(jobs := s.jobs + [Job(FreshEnvelope(job), AddTime(now, job.delay), None, None, job.key, 0)],
       unique := ClaimKey(s.unique, job.key, job.id))
  }

  function Lapse(s: Store, now: nat): Store {
    s.(jobs := Release(s.jobs, now))
  }

  function Put(s: Store, i: nat, j: Job): Store
    requires i < |s.jobs|
  {
    s.(jobs := s.jobs[i := j])
  }

  function OverReason(cfg: Config): Reason {
    OverDelivered(if cfg.maxDeliveries.Some? then cfg.maxDeliveries.value else 0)
  }

  /** What using a current receipt does to the job at `i` that holds it. */
  function Use(cfg: Config, s: Store, i: nat, how: How, now: nat, pos: nat): Store
    requires i < |s.jobs| && pos <= |s.dead|
  {
    var j := s.jobs[i];
    match how
    case Ack => Without(s, i)
    case Retry(delay) =>
      Put(s, i, Unleased(j).(env := j.env.(attempts := Bump(j.env.attempts)), availableAt := AddTime(now, delay)))
    case Defer(delay) => Put(s, i, Unleased(j).(availableAt := AddTime(now, delay)))
    case Fail(text) => Bury(cfg, s, i, Given(text), now, pos)
    case Extend => Put(s, i, j.(leasedUntil := Some(AddTime(now, cfg.lease))))
  }

  /** The dead record at `k` goes back to the live jobs, visible at once, with a fresh delivery budget. */
  function Revive(s: Store, k: nat, now: nat): Store
    requires k < |s.dead|
  {
    var rec := s.dead[k];
    s.(jobs := s.jobs + [Job(rec.env, now, None, None, rec.key, 0)],
       dead := RemoveAt(s.dead, k),
       unique := ClaimKey(s.unique, rec.key, rec.env.id))
  }

  function OnLane(dead: seq<DeadRec>, lane: Lane): seq<bool> {
    seq(|dead|, k requires 0 <= k < |dead| => dead[k].env.lane == lane)
  }

  function Empty(s: Store, lane: Lane): Store {
    s.(dead := Pick(s.dead, Negate(OnLane(s.dead, lane))))
  }

  ghost predicate KeyFree(s: Store, key: Option<Key>) {
    key.Some? ==> key.value !in s.unique
  }

  ghost predicate Enabled(cfg: Config, s: Store, e: Event) {
    match e
    case Stored(job, _) => !HasId(s.jobs, job.id) && KeyFree(s, job.key)
    case LapsedOne(i, at) => i < |s.jobs| && Expired(s.jobs[i], at)
    case Buried(lane, i, at, pos) =>
      IsTop(s.jobs, lane, at, i) && Over(cfg, s.jobs[i]) && TiePosition(s.dead, lane, at, pos)
    case Leased(lane, i, _, at) => IsTop(s.jobs, lane, at, i) && !Over(cfg, s.jobs[i])
    case Resolved(i, receipt, how, at, pos) =>
      && i < |s.jobs| && s.jobs[i].receipt == Some(receipt) && !Expired(s.jobs[i], at)
      && TiePosition(s.dead, s.jobs[i].env.lane, at, pos)
    case Revived(k, _) =>
      k < |s.dead| && !HasId(s.jobs, s.dead[k].env.id) && KeyFree(s, s.dead[k].key)
    case _ => true
  }

  ghost function Fire(cfg: Config, s: Store, e: Event): Store
    requires Enabled(cfg, s, e)
  {
    match e
    case Stored(job, at) => Place(s, job, at)
    case Lapsed(at) => Lapse(s, at)
    case LapsedOne(i, _) => Put(s, i, Unleased(s.jobs[i]))
    case Buried(_, i, at, pos) => Bury(cfg, s, i, OverReason(cfg), at, pos)
    case Leased(_, i, receipt, at) => Put(s, i, LeaseJob(cfg, s.jobs[i], receipt, at))
    case Resolved(i, _, how, at, pos) => Use(cfg, s, i, how, at, pos)
    case Revived(k, at) => Revive(s, k, at)
    case Emptied(lane) => Empty(s, lane)
    case Watermarked(sid, occurrence) => s.(schedules := s.schedules[sid := occurrence])
    case Unscheduled(sid) => s.(schedules := s.schedules - {sid})
  }

  /** Every event of the log is enabled in turn. */
  ghost predicate Trace(cfg: Config, s: Store, log: seq<Event>)
    decreases |log|
  {
    log != [] ==> Enabled(cfg, s, log[0]) && Trace(cfg, Fire(cfg, s, log[0]), log[1..])
  }

  ghost function Reach(cfg: Config, s: Store, log: seq<Event>): Store
    requires Trace(cfg, s, log)
    decreases |log|
  {
    if log == [] then s else Reach(cfg, Fire(cfg, s, log[0]), log[1..])
  }

  /** `log` leads from `s` to `t`. */
  ghost predicate Leads(cfg: Config, s: Store, log: seq<Event>, t: Store) {
    Trace(cfg, s, log) && Reach(cfg, s, log) == t
  }

  lemma LeadsOne(cfg: Config, s: Store, e: Event)
    requires Enabled(cfg, s, e)
    ensures Leads(cfg, s, [e], Fire(cfg, s, e))
  {
  }

  lemma {:induction false} LeadsJoin(cfg: Config, s: Store, a: seq<Event>, t: Store, b: seq<Event>, u: Store)
    requires Leads(cfg, s, a, t) && Leads(cfg, t, b, u)
    ensures Leads(cfg, s, a + b, u)
    decreases |a|
  {
    if a == [] {
      assert a + b == b;
    } else {
      LeadsJoin(cfg, Fire(cfg, s, a[0]), a[1..], t, b, u);
      assert (a + b)[0] == a[0];
      assert (a + b)[1..] == a[1..] + b;
    }
  }

  // ---------------------------------------------------------------- enqueue

  /** The single insertion path: a live id wins, then a held key, then the job is stored. */
  ghost function Insert(s: Store, job: NewJob, now: nat): Outcome {
    if HasId(s.jobs, job.id) then Outcome(s, Id(job.id), [])
    else if job.key.Some? && job.key.value in s.unique then
      Outcome(s, Id(s.unique[job.key.value]), [])
    else
      Outcome(Place(s, job, now), Id(job.id), [Stored(job, now)])
  }

  ghost function InsertAll(s: Store, jobs: seq<NewJob>, now: nat): (r: Outcome)
    ensures r.reply.Ids? && |r.reply.ids| == |jobs|
  {
    if jobs == [] then Outcome(s, Ids([]), [])
    else
      var n := |jobs| - 1;
      var front := InsertAll(s, jobs[..n], now);
      var last := Insert(front.store, jobs[n], now);
      Outcome(last.store, Ids(front.reply.ids + [last.reply.id]), front.log + last.log)
  }

  // ---------------------------------------------------------------- reserve

  function LeaseOutcome(cfg: Config, s: Store, lane: Lane, i: nat, receipt: Receipt, now: nat): Outcome
    requires i < |s.jobs|
  {
    Outcome(Put(s, i, LeaseJob(cfg, s.jobs[i], receipt, now)),
            Reserved(Some(Reservation(s.jobs[i].env, receipt, cfg.lease))),
            [Leased(lane, i, receipt, now)])
  }

  /** Pick the first visible job; bury it if over budget and go on, else lease it. */
  ghost function Sweep(cfg: Config, s: Store, lane: Lane, receipt: Receipt, now: nat, room: nat): Outcome
    requires room > 0
    decreases room
  {
    var best := First(s.jobs, lane, now);
    if best.None? then Outcome(s, Reserved(None), [])
    else if Over(cfg, s.jobs[best.value]) then
      var next := Bury(cfg, s, best.value, OverReason(cfg), now, |s.dead|);
      var buried := [Buried(lane, best.value, now, |s.dead|)];
      if room == 1 then Outcome(next, Reserved(None), buried)
      else
        var rest := Sweep(cfg, next, lane, receipt, now, room - 1);
        Outcome(rest.store, rest.reply, buried + rest.log)
    else LeaseOutcome(cfg, s, lane, best.value, receipt, now)
  }

  ghost function ReserveStep(cfg: Config, s: Store, lane: Lane, receipt: Receipt, now: nat): Outcome {
    var o := Sweep(cfg, Lapse(s, now), lane, receipt, now, MAX_DEAD_LETTER_SWEEP);
    Outcome(o.store, o.reply, [Lapsed(now)] + o.log)
  }

  /** The burials of one reserve, all on one lane at one instant. */
  ghost predicate Burials(lane: Lane, now: nat, bs: seq<Event>) {
    forall k :: 0 <= k < |bs| ==> bs[k].Buried? && bs[k].lane == lane && bs[k].at == now
  }

  /** How a sweep with room for `room` burials may end after burying `bs`, having reached `t`. */
  ghost predicate SweepEnds(cfg: Config, t: Store, lane: Lane, receipt: Receipt, now: nat,
                            room: nat, bs: seq<Event>, got: Option<nat>, o: Outcome) {
    match got
    case None =>
      && |bs| <= room && (|bs| == room || !AnyVisible(t.jobs, lane, now))
      && o == Outcome(t, Reserved(None), bs)
    case Some(i) =>
      && |bs| < room && Enabled(cfg, t, Leased(lane, i, receipt, now))
      && var leased := LeaseOutcome(cfg, t, lane, i, receipt, now);
         o == Outcome(leased.store, leased.reply, bs + leased.log)
  }

  ghost predicate SweepAny(cfg: Config, s: Store, lane: Lane, receipt: Receipt, now: nat,
                           room: nat, bs: seq<Event>, got: Option<nat>, o: Outcome) {
    && Burials(lane, now, bs)
    && Trace(cfg, s, bs)
    && SweepEnds(cfg, Reach(cfg, s, bs), lane, receipt, now, room, bs, got, o)
  }

  ghost predicate ReserveAny(cfg: Config, s: Store, lane: Lane, receipt: Receipt, now: nat, o: Outcome) {
    exists bs, got, swept ::
      && SweepAny(cfg, Lapse(s, now), lane, receipt, now, MAX_DEAD_LETTER_SWEEP, bs, got, swept)
      && o == Outcome(swept.store, swept.reply, [Lapsed(now)] + swept.log)
  }

  // ------------------------------------------------------------- resolution

  /** Use `receipt`, if its holder's lease still runs; an expired lease is cleared instead. */
  function ResolveStep(cfg: Config, s: Store, receipt: Receipt, how: How, now: nat, pos: nat): Outcome
    requires pos <= |s.dead|
  {
    var at := Holder(s.jobs, receipt);
    if at.None? then Outcome(s, Stale, [])
    else if Expired(s.jobs[at.value], now) then
      Outcome(Put(s, at.value, Unleased(s.jobs[at.value])), Stale, [LapsedOne(at.value, now)])
    else
      Outcome(Use(cfg, s, at.value, how, now, pos), Done, [Resolved(at.value, receipt, how, now, pos)])
  }

  /** The dead record of a failing job may be placed at `pos`. */
  ghost predicate PlaceAllowed(s: Store, receipt: Receipt, now: nat, pos: nat) {
    var at := Holder(s.jobs, receipt);
    pos <= |s.dead| && (at.Some? ==> TiePosition(s.dead, s.jobs[at.value].env.lane, now, pos))
  }

  // ----------------------------------------------------- dead letters, reads

  ghost function RequeueStep(s: Store, id: JobId, now: nat): Outcome {
    var pos := DeadIndex(s.dead, id);
    if pos.None? then Outcome(s, NoDeadRecord, [])
    else if HasId(s.jobs, id) then Outcome(s, LiveIdConflict, [])
    else if !KeyFree(s, s.dead[pos.value].key) then Outcome(s, KeyHeld, [])
    else Outcome(Revive(s, pos.value, now), Done, [Revived(pos.value, now)])
  }

  function JobsOnLane(jobs: seq<Job>, lane: Lane): seq<bool> {
    seq(|jobs|, k requires 0 <= k < |jobs| => jobs[k].env.lane == lane)
  }

  ghost function ScheduledStep(s: Store, schedule: ScheduleId, occurrence: int, job: NewJob, now: nat): Outcome {
    if schedule in s.schedules && occurrence <= s.schedules[schedule] then
      Outcome(s, Claimed(false), [])
    else
      var o := Insert(s.(schedules := s.schedules[schedule := occurrence]), job, now);
      Outcome(o.store, Claimed(true), [Watermarked(schedule, occurrence)] + o.log)
  }

  function ToLetters(dead: seq<DeadRec>): seq<Letter> {
    seq(|dead|, i requires 0 <= i < |dead| => Letter(dead[i].env, dead[i].reason))
  }

  function Take<T>(s: seq<T>, limit: nat): seq<T> {
    if limit < |s| then s[..limit] else s
  }

  ghost function StateOf(s: Store, id: JobId): JobState {
    if HasId(s.jobs, id) then Live
    else if HasDead(s.dead, id) then DeadLettered
    else CompletedOrUnknown
  }

  /** One call on the in-memory broker. */
  ghost function Step(cfg: Config, s: Store, op: Op, now: nat): Outcome {
    match op
    case Enqueue(job) => Insert(s, job, now)
    case EnqueueBatch(jobs) => InsertAll(s, jobs, now)
    case Reserve(lane, receipt) => ReserveStep(cfg, s, lane, receipt, now)
    case Resolve(receipt, how) => ResolveStep(cfg, s, receipt, how, now, |s.dead|)
    case Requeue(id) => RequeueStep(s, id, now)
    case PurgeDead(lane) => Outcome(Empty(s, lane), Purged(Tally(OnLane(s.dead, lane))), [Emptied(lane)])
    case EnqueueScheduled(sid, occurrence, job) => ScheduledStep(s, sid, occurrence, job, now)
    case RemoveSchedule(sid) => Outcome(s.(schedules := s.schedules - {sid}), Done, [Unscheduled(sid)])
    case Classify(id) => Outcome(s, State(StateOf(s, id)), [])
    case ReadDead(lane, limit) =>
      Outcome(s, Letters(Take(ToLetters(Pick(s.dead, OnLane(s.dead, lane))), limit)), [])
    case CountDead(lane) => Outcome(s, Count(Tally(OnLane(s.dead, lane))), [])
    case PendingCount(lane) => Outcome(s, Count(Tally(JobsOnLane(s.jobs, lane))), [])
  }

  /** The behaviours the contract allows. */
  ghost predicate StepAny(cfg: Config, s: Store, op: Op, now: nat, o: Outcome) {
    match op
    case Reserve(lane, receipt) => ReserveAny(cfg, s, lane, receipt, now, o)
    case Resolve(receipt, how) =>
      exists pos :: PlaceAllowed(s, receipt, now, pos) && o == ResolveStep(cfg, s, receipt, how, now, pos)
    case _ => o == Step(cfg, s, op, now)
  }

  /** The contract lets a call on `s` answer `reply` and leave `t`. */
  ghost predicate Allowed(cfg: Config, s: Store, op: Op, now: nat, t: Store, reply: Reply) {
    exists o :: StepAny(cfg, s, op, now, o) && o.store == t && o.reply == reply
  }

  /** One use of a receipt on the in-memory broker, told apart by whether the receipt was current. */
  ghost predicate Resolves(cfg: Config, s: Store, receipt: Receipt, how: How, now: nat, t: Store, ok: bool) {
    var o := Step(cfg, s, Resolve(receipt, how), now);
    t == o.store && o.reply == (if ok then Done else Stale)
  }

  // ------------------------------------------- the in-memory run is allowed

  lemma SweepBuries(cfg: Config, s: Store, e: Event, lane: Lane, receipt: Receipt, now: nat, room: nat,
                    bs: seq<Event>, got: Option<nat>, o: Outcome)
    requires e.Buried? && e.lane == lane && e.at == now && Enabled(cfg, s, e)
    requires SweepAny(cfg, Fire(cfg, s, e), lane, receipt, now, room, bs, got, o)
    ensures SweepAny(cfg, s, lane, receipt, now, room + 1, [e] + bs, got,
                     Outcome(o.store, o.reply, [e] + o.log))
  {
    var all := [e] + bs;
    assert all[1..] == bs;
    if got.Some? {
      assert [e] + (bs + [Leased(lane, got.value, receipt, now)]) == all + [Leased(lane, got.value, receipt, now)];
    }
  }

  /** A sweep that buries nothing: nothing is visible, or the first job is leased. */
  lemma SweepAtOnce(cfg: Config, s: Store, lane: Lane, receipt: Receipt, now: nat, room: nat, best: Option<nat>)
    requires room > 0 && best == First(s.jobs, lane, now)
    requires best.Some? ==> !Over(cfg, s.jobs[best.value])
    ensures SweepAny(cfg, s, lane, receipt, now, room, [], best, Sweep(cfg, s, lane, receipt, now, room))
  {
  }

  lemma SweepUnfolds(cfg: Config, s: Store, lane: Lane, receipt: Receipt, now: nat, room: nat, i: nat, o: Outcome)
    requires room > 0 && First(s.jobs, lane, now) == Some(i) && Over(cfg, s.jobs[i])
    requires var next := Bury(cfg, s, i, OverReason(cfg), now, |s.dead|);
             o == if room == 1 then Outcome(next, Reserved(None), [])
                  else Sweep(cfg, next, lane, receipt, now, room - 1)
    ensures Sweep(cfg, s, lane, receipt, now, room) ==
            Outcome(o.store, o.reply, [Buried(lane, i, now, |s.dead|)] + o.log)
  {
  }

  lemma {:induction false} SweepIsAllowed(cfg: Config, s: Store, lane: Lane, receipt: Receipt, now: nat, room: nat)
    returns (bs: seq<Event>, got: Option<nat>)
    requires room > 0
    ensures SweepAny(cfg, s, lane, receipt, now, room, bs, got, Sweep(cfg, s, lane, receipt, now, room))
    decreases room
  {
    var best := First(s.jobs, lane, now);
    if best.None? || !Over(cfg, s.jobs[best.value]) {
      bs, got := [], best;
      SweepAtOnce(cfg, s, lane, receipt, now, room, best);
    } else {
      var e := Buried(lane, best.value, now, |s.dead|);
      var next := Fire(cfg, s, e);
      var o := Outcome(next, Reserved(None), []);
      bs, got := [], None;
      if room > 1 {
        bs, got := SweepIsAllowed(cfg, next, lane, receipt, now, room - 1);
        o := Sweep(cfg, next, lane, receipt, now, room - 1);
      }
      SweepBuries(cfg, s, e, lane, receipt, now, room - 1, bs, got, o);
      SweepUnfolds(cfg, s, lane, receipt, now, room, best.value, o);
      bs := [e] + bs;
    }
  }

  /** The in-memory broker is one of the allowed behaviours. */
  lemma StepIsAllowed(cfg: Config, s: Store, op: Op, now: nat)
    ensures StepAny(cfg, s, op, now, Step(cfg, s, op, now))
  {
    match op
    case Reserve(lane, receipt) =>
      var bs, got := SweepIsAllowed(cfg, Lapse(s, now), lane, receipt, now, MAX_DEAD_LETTER_SWEEP);
    case Resolve(receipt, how) =>
      assert PlaceAllowed(s, receipt, now, |s.dead|);
    case _ =>
  }

  // --------------------------------------------- a call is the sum of its events

  lemma InsertLeads(cfg: Config, s: Store, job: NewJob, now: nat)
    ensures var o := Insert(s, job, now); Leads(cfg, s, o.log, o.store)
  {
  }

  lemma {:induction false} InsertAllLeads(cfg: Config, s: Store, jobs: seq<NewJob>, now: nat)
    ensures var o := InsertAll(s, jobs, now); Leads(cfg, s, o.log, o.store)
  {
    if jobs != [] {
      var n := |jobs| - 1;
      var front := InsertAll(s, jobs[..n], now);
      var last := Insert(front.store, jobs[n], now);
      InsertAllLeads(cfg, s, jobs[..n], now);
      InsertLeads(cfg, front.store, jobs[n], now);
      LeadsJoin(cfg, s, front.log, front.store, last.log, last.store);
    }
  }

  lemma SweepLeads(cfg: Config, s: Store, lane: Lane, receipt: Receipt, now: nat,
                   room: nat, bs: seq<Event>, got: Option<nat>, o: Outcome)
    requires SweepAny(cfg, s, lane, receipt, now, room, bs, got, o)
    ensures Leads(cfg, s, o.log, o.store)
  {
    if got.Some? {
      var e := Leased(lane, got.value, receipt, now);
      var t := Reach(cfg, s, bs);
      LeadsOne(cfg, t, e);
      LeadsJoin(cfg, s, bs, t, [e], Fire(cfg, t, e));
    }
  }

  lemma ReserveLeads(cfg: Config, s: Store, lane: Lane, receipt: Receipt, now: nat, o: Outcome)
    requires ReserveAny(cfg, s, lane, receipt, now, o)
    ensures Leads(cfg, s, o.log, o.store)
  {
    var t := Lapse(s, now);
    var bs, got, swept :|
      && SweepAny(cfg, t, lane, receipt, now, MAX_DEAD_LETTER_SWEEP, bs, got, swept)
      && o == Outcome(swept.store, swept.reply, [Lapsed(now)] + swept.log);
    SweepLeads(cfg, t, lane, receipt, now, MAX_DEAD_LETTER_SWEEP, bs, got, swept);
    LeadsOne(cfg, s, Lapsed(now));
    LeadsJoin(cfg, s, [Lapsed(now)], t, swept.log, swept.store);
  }

  lemma ResolveLeads(cfg: Config, s: Store, receipt: Receipt, how: How, now: nat, pos: nat)
    requires PlaceAllowed(s, receipt, now, pos)
    ensures var o := ResolveStep(cfg, s, receipt, how, now, pos); Leads(cfg, s, o.log, o.store)
  {
  }

  /** Every allowed call is exactly the events of its log, one after the other. */
  lemma StepLeads(cfg: Config, s: Store, op: Op, now: nat, o: Outcome)
    requires StepAny(cfg, s, op, now, o)
    ensures Leads(cfg, s, o.log, o.store)
  {
    match op
    case Enqueue(job) => InsertLeads(cfg, s, job, now);
    case EnqueueBatch(jobs) => InsertAllLeads(cfg, s, jobs, now);
    case Reserve(lane, receipt) => ReserveLeads(cfg, s, lane, receipt, now, o);
    case Resolve(receipt, how) =>
      var pos :| PlaceAllowed(s, receipt, now, pos) && o == ResolveStep(cfg, s, receipt, how, now, pos);
      ResolveLeads(cfg, s, receipt, how, now, pos);
    case Requeue(id) =>
      if o.reply.Done? {
        LeadsOne(cfg, s, o.log[0]);
      }
    case PurgeDead(lane) => LeadsOne(cfg, s, Emptied(lane));
    case EnqueueScheduled(sid, occurrence, job) =>
      if o.reply.won {
        var e := Watermarked(sid, occurrence);
        var t := Fire(cfg, s, e);
        LeadsOne(cfg, s, e);
        InsertLeads(cfg, t, job, now);
        LeadsJoin(cfg, s, [e], t, Insert(t, job, now).log, o.store);
      }
    case RemoveSchedule(sid) => LeadsOne(cfg, s, Unscheduled(sid));
    case _ =>
  }
}
