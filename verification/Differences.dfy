/** Runs on which two brokers differ, each with the settings or the calls that bring it about. */
module Differences {
  import opened Types
  import opened Lists
  import opened Contract
  import opened RedisLive
  import opened RedisState
  import opened RedisDead
  import opened RedisBury
  import opened RedisSound
  import opened DeadLanes
  import opened RedisTies
  import opened Memory
  import opened Sqlite
  import opened Redis

  lemma ClashStore(x: NewJob, y: NewJob, now: nat)
    requires x.key.None? && y.key.Some? && x.id != y.id
    ensures var s := Insert(Insert(EMPTY_STORE, x, now).store, y, now).store;
            && KeyFirst(s, x.(key := y.key)) == y.id
            && Insert(s, x.(key := y.key), now).reply == Id(x.id)
            && !HasDead(s.dead, x.id)
  {
    var s := Place(EMPTY_STORE, x, now);
    assert Insert(EMPTY_STORE, x, now).store == s;
    assert !HasId(s.jobs, y.id);
    assert Place(s, y, now).jobs[0].env.id == x.id;
  }

  /** `x` without a key, `y` with one, then `x` again with the key of `y`: SQLite answers `y`, memory `x`. */
  method ClashRun(settings: Settings, x: NewJob, y: NewJob, now: nat) returns (sqlite: JobId, memory: Option<JobId>)
    requires x.key.None? && y.key.Some? && x.id != y.id && now < I64_MAX
    ensures sqlite == y.id && memory == Some(x.id)
  {
    ClashStore(x, y, now);
    var db := new SqliteBroker(settings);
    sqlite := db.Enqueue(x, now);
    sqlite := db.Enqueue(y, now);
    sqlite := db.Enqueue(x.(key := y.key), now);
    var broker := new InMemoryBroker(settings);
    memory := broker.Enqueue(x, 0, now);
    memory := broker.Enqueue(y, 0, now);
    memory := broker.Enqueue(x.(key := y.key), 0, now);
  }

  // ------------------------------------------------- one visible job at a time

  /** Job `i` is the only visible one of its lane and within budget, and no lease has run out. */
  ghost predicate OnlyVisible(cfg: Config, s: Store, now: nat, i: nat) {
    && i < |s.jobs| && !Over(cfg, s.jobs[i]) && NoneExpired(s.jobs, now)
    && forall k :: 0 <= k < |s.jobs| ==> (Visible(s.jobs[k], s.jobs[i].env.lane, now) <==> k == i)
  }

  function Taken(cfg: Config, s: Store, i: nat, receipt: Receipt, now: nat): Store
    requires i < |s.jobs|
  {
    Put(s, i, LeaseJob(cfg, s.jobs[i], receipt, now))
  }

  /** Then no sweep buries anything. */
  lemma NothingSwept(cfg: Config, s: Store, now: nat, i: nat, bs: seq<Event>)
    requires OnlyVisible(cfg, s, now, i) && Burials(s.jobs[i].env.lane, now, bs) && Trace(cfg, s, bs)
    ensures bs == []
  {
  }

  lemma SweepHandsOut(cfg: Config, s: Store, receipt: Receipt, now: nat, i: nat,
                      bs: seq<Event>, got: Option<nat>, o: Outcome)
    requires OnlyVisible(cfg, s, now, i)
    requires SweepAny(cfg, s, s.jobs[i].env.lane, receipt, now, MAX_DEAD_LETTER_SWEEP, bs, got, o)
    ensures o.store == Taken(cfg, s, i, receipt, now)
    ensures o.reply == Reserved(Some(Reservation(s.jobs[i].env, receipt, cfg.lease)))
  {
    NothingSwept(cfg, s, now, i, bs);
    assert Visible(s.jobs[i], s.jobs[i].env.lane, now);
  }

  /** Then every reserve the contract allows hands out that job and changes nothing else. */
  lemma HandsOut(cfg: Config, s: Store, receipt: Receipt, now: nat, i: nat, t: Store, reply: Reply)
    requires OnlyVisible(cfg, s, now, i)
    requires Allowed(cfg, s, Contract.Reserve(s.jobs[i].env.lane, receipt), now, t, reply)
    ensures t == Taken(cfg, s, i, receipt, now)
    ensures reply == Reserved(Some(Reservation(s.jobs[i].env, receipt, cfg.lease)))
  {
    var lane := s.jobs[i].env.lane;
    assert Release(s.jobs, now) == s.jobs;
    var o :| StepAny(cfg, s, Contract.Reserve(lane, receipt), now, o) && o.store == t && o.reply == reply;
    var bs, got, swept :| SweepAny(cfg, s, lane, receipt, now, MAX_DEAD_LETTER_SWEEP, bs, got, swept)
                          && o == Outcome(swept.store, swept.reply, [Lapsed(now)] + swept.log);
    SweepHandsOut(cfg, s, receipt, now, i, bs, got, swept);
  }

  /** `a` is queued alone. */
  lemma FirstQueued(cfg: Config, a: NewJob, now: nat)
    requires a.delay == 0 && now < I64_MAX && cfg.maxDeliveries != Some(0)
    ensures Insert(EMPTY_STORE, a, now).store == Place(EMPTY_STORE, a, now)
    ensures OnlyVisible(cfg, Place(EMPTY_STORE, a, now), now, 0)
  {
  }

  function Second(cfg: Config, a: NewJob, ra: Receipt, b: NewJob, now: nat): Store {
    Place(Taken(cfg, Place(EMPTY_STORE, a, now), 0, ra, now), b, now)
  }

  /** `b` is queued while `a` is out. */
  lemma SecondQueued(cfg: Config, a: NewJob, ra: Receipt, b: NewJob, now: nat)
    requires a.delay == 0 == b.delay && now < I64_MAX && cfg.maxDeliveries != Some(0) && cfg.lease > 0
    requires a.id != b.id && b.key.None?
    ensures Insert(Taken(cfg, Place(EMPTY_STORE, a, now), 0, ra, now), b, now).store == Second(cfg, a, ra, b, now)
    ensures OnlyVisible(cfg, Second(cfg, a, ra, b, now), now, 1)
  {
  }

  function Pair(cfg: Config, a: NewJob, ra: Receipt, b: NewJob, rb: Receipt, now: nat): Store {
    Taken(cfg, Second(cfg, a, ra, b, now), 1, rb, now)
  }

  /** A failure with the receipt of an unexpired lease buries its job. */
  lemma Buries(cfg: Config, s: Store, i: nat, receipt: Receipt, text: int, now: nat, t: Store, reply: Reply)
    requires i < |s.jobs| && Holder(s.jobs, receipt) == Some(i) && !Expired(s.jobs[i], now)
    requires Allowed(cfg, s, Resolve(receipt, How.Fail(text)), now, t, reply)
    ensures reply == Done && exists pos: nat :: pos <= |s.dead| && t == Bury(cfg, s, i, Given(text), now, pos)
  {
  }

  // ---------------------------------------------------------- the same on Redis

  /** A receipt that is on no unexpired lease is bound to no job, if all jobs are leased. */
  lemma NotBound(w: World, receipt: Receipt)
    requires Sound(w) && NoneExpired(w.store.jobs, w.now)
    requires forall i :: 0 <= i < |w.store.jobs| ==> w.store.jobs[i].receipt.Some? && w.store.jobs[i].leasedUntil.Some?
    requires Holder(w.store.jobs, receipt).None?
    ensures receipt !in w.live.rcpt
  {
    Parts(w);
    if receipt in w.live.rcpt {
      var i := PositionOf(w.live, w.store, w.now, w.live.rcpt[receipt]);
    }
  }

  /** Reserve the only visible job. */
  method TakeOne(broker: RedisBroker, lane: Lane, receipt: Receipt, now: nat, ghost i: nat)
    returns (got: Result<Option<Reservation>>)
    requires broker.Valid() && broker.clock == now && now < I64_MAX && receipt !in broker.rcpt
    requires OnlyVisible(broker.cfg, broker.view, now, i) && broker.view.jobs[i].env.lane == lane
    requires broker.view.jobs[i].env.attempts == 0
    modifies broker
    ensures broker.Valid() && broker.clock == now && broker.view == Taken(broker.cfg, old(broker.view), i, receipt, now)
    ensures got.Ok? && got.value.Some?
  {
    Parts(broker.Space());
    StoredAt(broker.Live(), broker.view, now, i);
    ghost var s := broker.view;
    ghost var handed;
    got, handed := broker.Reserve(lane, receipt, now);
    HandsOut(broker.cfg, s, receipt, now, i, broker.view, Reserved(handed));
  }

  /** A new broker with one job, which is reserved. */
  method StartOne(settings: Settings, a: NewJob, ra: Receipt, now: nat)
    returns (broker: RedisBroker, got: Result<Option<Reservation>>)
    requires a.delay == 0 && a.key.None? && now < I64_MAX
    ensures fresh(broker) && broker.Valid() && broker.clock == now && broker.settings == settings
    ensures broker.view == Taken(broker.cfg, Place(EMPTY_STORE, a, now), 0, ra, now)
    ensures got.Ok? && got.value.Some?
  {
    broker := new RedisBroker(settings);
    var id := broker.Enqueue(a, now);
    FirstQueued(broker.cfg, a, now);
    got := TakeOne(broker, a.lane, ra, now, 0);
  }

  // ------------------------------------------------------------ bounds of zero

  /** Every call does the same under both configurations, on every store at every time. */
  ghost predicate SameSteps(c: Config, d: Config) {
    forall s, op, now :: Step(c, s, op, now) == Step(d, s, op, now)
  }

  lemma OneJobFirst(a: NewJob, now: nat)
    requires a.delay == 0 && now < I64_MAX
    ensures var s := Place(EMPTY_STORE, a, now);
            Lapse(s, now) == s && First(s.jobs, a.lane, now) == Some(0)
  {
    var s := Place(EMPTY_STORE, a, now);
    assert Visible(s.jobs[0], a.lane, now);
  }

  lemma SweptAway(cfg: Config, a: NewJob, receipt: Receipt, now: nat)
    requires a.delay == 0 && now < I64_MAX && cfg.maxDeliveries == Some(0)
    ensures Step(cfg, Place(EMPTY_STORE, a, now), Contract.Reserve(a.lane, receipt), now).reply == Reserved(None)
  {
    OneJobFirst(a, now);
    var s := Place(EMPTY_STORE, a, now);
    var t := Bury(cfg, s, 0, OverReason(cfg), now, 0);
    assert t.jobs == [];
  }

  /** With `max_deliveries` of zero a fresh job is handed out or swept. */
  lemma ZeroDeliveriesDiffer(settings: Settings, a: NewJob, receipt: Receipt, now: nat)
    requires settings.maxDeliveries == Some(0) && a.delay == 0 && now < I64_MAX
    ensures var s, op := Place(EMPTY_STORE, a, now), Contract.Reserve(a.lane, receipt);
            Step(RedisConfig(settings), s, op, now).reply != Step(SqlConfig(settings), s, op, now).reply
  {
    var s, op := Place(EMPTY_STORE, a, now), Contract.Reserve(a.lane, receipt);
    var o := Step(RedisConfig(settings), s, op, now);
    FirstQueued(RedisConfig(settings), a, now);
    StepIsAllowed(RedisConfig(settings), s, op, now);
    assert Allowed(RedisConfig(settings), s, op, now, o.store, o.reply);
    HandsOut(RedisConfig(settings), s, receipt, now, 0, o.store, o.reply);
    SweptAway(SqlConfig(settings), a, receipt, now);
  }

  /** The first dead record of a lane is kept, or nothing is. */
  lemma FirstRecord(cfg: Config, s: Store, i: nat, reason: Reason, now: nat, pos: nat)
    requires i < |s.jobs| && s.dead == [] && pos == 0
    ensures var left := OfLane(Bury(cfg, s, i, reason, now, pos).dead, s.jobs[i].env.lane);
            left == if cfg.retention.maxCount == Some(0) then []
                    else [DeadRec(s.jobs[i].env, reason, s.jobs[i].key, now)]
  {
    var rec := DeadRec(s.jobs[i].env, reason, s.jobs[i].key, now);
    assert DeadWith(s, i, reason, now, pos) == [rec];
    OneSurvives(cfg.retention, rec);
  }

  lemma OneSurvives(ret: Retention, rec: DeadRec)
    ensures OfLane(Prune(ret, [rec], rec.env.lane, rec.deadAt), rec.env.lane) ==
            if ret.maxCount == Some(0) then [] else [rec]
  {
    OfLaneOne(rec, rec.env.lane);
    PruneOne(ret, rec);
  }

  lemma PruneOne(ret: Retention, rec: DeadRec)
    ensures Prune(ret, [rec], rec.env.lane, rec.deadAt) == if ret.maxCount == Some(0) then [] else [rec]
  {
    var keep := Kept(ret, [rec], rec.env.lane, rec.deadAt);
    assert YoungFrom(ret, [rec], rec.env.lane, rec.deadAt, 1) == 0;
    assert keep[0] <==> ret.maxCount != Some(0);
    assert Pick([rec][..0], keep[..0]) == [];
  }

  lemma FailBuries(cfg: Config, s: Store, i: nat, receipt: Receipt, text: int, now: nat)
    requires i < |s.jobs| && Holder(s.jobs, receipt) == Some(i) && !Expired(s.jobs[i], now)
    ensures Step(cfg, s, Resolve(receipt, How.Fail(text)), now).store == Bury(cfg, s, i, Given(text), now, |s.dead|)
  {
  }

  /** With `max_count` of zero the first failure of a lane leaves a record or none. */
  lemma ZeroCountDiffers(settings: Settings, s: Store, i: nat, receipt: Receipt, text: int, now: nat)
    requires settings.retention.maxCount == Some(0) && s.dead == []
    requires i < |s.jobs| && Holder(s.jobs, receipt) == Some(i) && !Expired(s.jobs[i], now)
    ensures var op := Resolve(receipt, How.Fail(text));
            Step(RedisConfig(settings), s, op, now).store != Step(SqlConfig(settings), s, op, now).store
  {
    FailBuries(RedisConfig(settings), s, i, receipt, text, now);
    FailBuries(SqlConfig(settings), s, i, receipt, text, now);
    FirstRecord(RedisConfig(settings), s, i, Given(text), now, 0);
    FirstRecord(SqlConfig(settings), s, i, Given(text), now, 0);
  }

  /** On every store, every call of Redis does what it does to the SQL brokers, exactly when no bound is zero. */
  lemma RedisActsAlikeIff(settings: Settings)
    ensures SameSteps(RedisConfig(settings), SqlConfig(settings)) <==>
            settings.retention.maxCount != Some(0) && settings.maxDeliveries != Some(0)
  {
    var a := NewJob(0, 0, 0, Inline(0), 1, 0, 0, None);
    if settings.maxDeliveries == Some(0) {
      ZeroDeliveriesDiffer(settings, a, 0, 0);
    } else if settings.retention.maxCount == Some(0) {
      var s := Store([Job(FreshEnvelope(a), 0, Some(1), Some(0), None, 0)], [], map[], map[]);
      assert Holder(s.jobs, 0) == Some(0);
      ZeroCountDiffers(settings, s, 0, 0, 0, 0);
    }
  }

  /** With `max_deliveries` of zero Redis hands a fresh job out, and memory dead-letters it. */
  method ZeroDeliveriesRun(settings: Settings, a: NewJob, receipt: Receipt, now: nat)
    returns (redis: Result<Option<Reservation>>, memory: Option<Reservation>)
    requires settings.maxDeliveries == Some(0) && a.delay == 0 && a.key.None? && now < I64_MAX
    ensures redis.Ok? && redis.value.Some? && memory.None?
  {
    var store;
    store, redis := StartOne(settings, a, receipt, now);
    var broker := new InMemoryBroker(settings);
    var queued := broker.Enqueue(a, 0, now);
    SweptAway(broker.cfg, a, receipt, now);
    memory := broker.Reserve(a.lane, receipt, now);
  }

  /** Every record was never retried. */
  ghost predicate Untried(dead: seq<DeadRec>) {
    forall k :: 0 <= k < |dead| ==> dead[k].env.attempts == 0
  }

  lemma BuryUntried(cfg: Config, s: Store, i: nat, reason: Reason, now: nat, pos: nat)
    requires i < |s.jobs| && pos <= |s.dead| && Untried(s.dead) && s.jobs[i].env.attempts == 0
    ensures Untried(Bury(cfg, s, i, reason, now, pos).dead)
  {
    var dead := DeadWith(s, i, reason, now, pos);
    var keep := Kept(cfg.retention, dead, s.jobs[i].env.lane, now);
    forall k | 0 <= k < |Pick(dead, keep)| ensures Pick(dead, keep)[k].env.attempts == 0 {
      var m := PickFrom(dead, keep, k);
    }
  }

  /** Fail a leased job, which is stored at `i`. */
  method FailOne(broker: RedisBroker, receipt: Receipt, text: int, now: nat, ghost i: nat) returns (ghost pos: nat)
    requires broker.Valid() && broker.clock == now && now < I64_MAX && i < |broker.view.jobs|
    requires Holder(broker.view.jobs, receipt) == Some(i) && !Expired(broker.view.jobs[i], now)
    modifies broker
    ensures broker.Valid() && broker.clock == now && pos <= |old(broker.view).dead|
    ensures broker.view == Bury(broker.cfg, old(broker.view), i, Given(text), now, pos)
    ensures var j := old(broker.view).jobs[i];
            && j.env.id in old(broker.job) && broker.job == old(broker.job) - {j.env.id}
            && broker.deadSets == DeadSetsAfter(broker.cfg.retention, old(broker.deadSets), j.env.lane, now,
                                                Member(old(broker.job)[j.env.id].num, j.env.id))
  {
    GuardIff(broker.Space(), receipt);
    Parts(broker.Space());
    StoredAt(broker.Live(), broker.view, now, i);
    ghost var s := broker.view;
    var ok;
    ok, pos := broker.Fail(receipt, text, now);
    Buries(broker.cfg, s, i, receipt, text, now, broker.view, if ok then Done else Stale);
  }

  /** With `max_count` of zero Redis keeps the dead letter of a failed job, and memory keeps none. */
  method ZeroCountRun(settings: Settings, a: NewJob, ra: Receipt, text: int, now: nat) returns (redis: nat, memory: nat)
    requires settings.retention.maxCount == Some(0) && settings.maxDeliveries != Some(0) && settings.lease > 0
    requires a.delay == 0 && a.key.None? && now < I64_MAX
    ensures redis == 1 && memory == 0
  {
    redis := ZeroCountRedis(settings, a, ra, text, now);
    memory := ZeroCountMemory(settings, a, ra, text, now);
  }

  method ZeroCountRedis(settings: Settings, a: NewJob, ra: Receipt, text: int, now: nat) returns (redis: nat)
    requires settings.retention.maxCount == Some(0) && settings.lease > 0
    requires a.delay == 0 && a.key.None? && now < I64_MAX
    ensures redis == 1
  {
    var broker, got := StartOne(settings, a, ra, now);
    ghost var s := broker.view;
    ghost var pos := FailOne(broker, ra, text, now, 0);
    FirstRecord(broker.cfg, s, 0, Given(text), now, pos);
    redis := broker.CountDeadLetters(a.lane);
    DeadCount(broker.Space(), a.lane);
  }

  method ZeroCountMemory(settings: Settings, a: NewJob, ra: Receipt, text: int, now: nat) returns (memory: nat)
    requires settings.retention.maxCount == Some(0) && settings.maxDeliveries != Some(0) && settings.lease > 0
    requires a.delay == 0 && a.key.None? && now < I64_MAX
    ensures memory == 0
  {
    var broker := StartMemory(settings, a, ra, now);
    ghost var s := broker.View();
    var failed := broker.Fail(ra, text, now);
    PruneOne(broker.cfg.retention, DeadRec(s.jobs[0].env, Given(text), s.jobs[0].key, now));
    memory := |broker.dead|;
  }

  /** A new in-memory broker with one job, which is reserved. */
  method StartMemory(settings: Settings, a: NewJob, ra: Receipt, now: nat) returns (broker: InMemoryBroker)
    requires settings.maxDeliveries != Some(0) && a.delay == 0 && now < I64_MAX
    ensures fresh(broker) && broker.settings == settings
    ensures broker.View() == Taken(broker.cfg, Place(EMPTY_STORE, a, now), 0, ra, now)
  {
    broker := new InMemoryBroker(settings);
    var id := broker.Enqueue(a, 0, now);
    FirstQueued(broker.cfg, a, now);
    TakeMemory(broker, a.lane, ra, now, 0);
  }

  method TakeMemory(broker: InMemoryBroker, lane: Lane, receipt: Receipt, now: nat, ghost i: nat)
    requires OnlyVisible(broker.cfg, broker.View(), now, i) && broker.View().jobs[i].env.lane == lane
    modifies broker
    ensures broker.View() == Taken(broker.cfg, old(broker.View()), i, receipt, now)
  {
    ghost var s := broker.View();
    StepIsAllowed(broker.cfg, s, Contract.Reserve(lane, receipt), now);
    ghost var o := Step(broker.cfg, s, Contract.Reserve(lane, receipt), now);
    assert Allowed(broker.cfg, s, Contract.Reserve(lane, receipt), now, o.store, o.reply);
    HandsOut(broker.cfg, s, receipt, now, i, o.store, o.reply);
    var got := broker.Reserve(lane, receipt, now);
  }

  // -------------------------------------------------------------------- ties

  /** The settings and calls of `TieRun`. */
  ghost predicate TieSetting(settings: Settings, a: NewJob, ra: Receipt, b: NewJob, rb: Receipt, now: nat) {
    && settings.retention.maxCount == Some(1) && settings.maxDeliveries != Some(0) && settings.lease > 0
    && a.id != b.id && ra != rb && a.lane == b.lane && a.key.None? && b.key.None?
    && a.delay == 0 == b.delay && now < I64_MAX
  }

  lemma PairLeased(cfg: Config, a: NewJob, ra: Receipt, b: NewJob, rb: Receipt, now: nat)
    requires cfg.lease > 0 && ra != rb && now < I64_MAX
    ensures var s := Pair(cfg, a, ra, b, rb, now);
            && |s.jobs| == 2 && s.dead == [] && NoneExpired(s.jobs, now)
            && Holder(s.jobs, ra) == Some(0) && Holder(s.jobs, rb) == Some(1)
            && Holder(RemoveAt(s.jobs, 1), ra) == Some(0)
  {
    var s := Pair(cfg, a, ra, b, rb, now);
    assert s.jobs[0].receipt == Some(ra) && s.jobs[1].receipt == Some(rb);
    assert RemoveAt(s.jobs, 1) == [s.jobs[0]];
  }

  /** Enqueue `a` and reserve it, then the same with `b`. */
  method StartPair(settings: Settings, a: NewJob, ra: Receipt, b: NewJob, rb: Receipt, now: nat)
    returns (broker: RedisBroker)
    requires TieSetting(settings, a, ra, b, rb, now)
    ensures fresh(broker) && broker.Valid() && broker.clock == now && broker.settings == settings
    ensures broker.view == Pair(broker.cfg, a, ra, b, rb, now)
  {
    var first, second;
    broker, first := StartOne(settings, a, ra, now);
    NotBound(broker.Space(), rb);
    DeadIff(broker.Space(), b.id);
    var id := broker.Enqueue(b, now);
    SecondQueued(broker.cfg, a, ra, b, now);
    second := TakeOne(broker, b.lane, rb, now, 1);
  }

  method TieRedis(settings: Settings, a: NewJob, ra: Receipt, b: NewJob, rb: Receipt, text: int, now: nat)
    returns (broker: RedisBroker)
    requires TieSetting(settings, a, ra, b, rb, now)
    ensures fresh(broker) && broker.Valid() && Untried(broker.view.dead)
    ensures DeadIds(OfLane(broker.view.dead, a.lane)) == [b.id]
  {
    broker := StartPair(settings, a, ra, b, rb, now);
    ghost var s := broker.view;
    PairLeased(broker.cfg, a, ra, b, rb, now);
    ghost var m, n := Numbers(broker.Space(), a.id, b.id);
    DeadCount(broker.Space(), a.lane);
    ghost var pos := FailOne(broker, rb, text, now, 1);
    BuryUntried(broker.cfg, s, 1, Given(text), now, pos);
    OneEntry(broker.cfg.retention, now, Member(n, b.id));
    s := broker.view;
    pos := FailOne(broker, ra, text, now, 0);
    BuryUntried(broker.cfg, s, 0, Given(text), now, pos);
    TwoEntries(broker.cfg.retention, now, Member(m, a.id), Member(n, b.id));
    OneKept(broker.Space(), a.lane, Entry(now, Member(n, b.id)));
  }

  /** Of two jobs the one listed first has the smaller sequence number. */
  lemma Numbers(w: World, a: JobId, b: JobId) returns (m: nat, n: nat)
    requires Sound(w) && |w.store.jobs| == 2 && w.store.jobs[0].env.id == a && w.store.jobs[1].env.id == b
    ensures a in w.live.job && b in w.live.job && w.live.job[a].num == m < n == w.live.job[b].num
  {
    Parts(w);
    assert InOrder(w.live.job, w.store.jobs, 0, 1);
    m, n := w.live.job[a].num, w.live.job[b].num;
  }

  method PairMemory(settings: Settings, a: NewJob, ra: Receipt, b: NewJob, rb: Receipt, now: nat)
    returns (broker: InMemoryBroker)
    requires TieSetting(settings, a, ra, b, rb, now)
    ensures fresh(broker) && broker.settings == settings && broker.View() == Pair(broker.cfg, a, ra, b, rb, now)
  {
    broker := StartMemory(settings, a, ra, now);
    var id := broker.Enqueue(b, 0, now);
    SecondQueued(broker.cfg, a, ra, b, now);
    TakeMemory(broker, b.lane, rb, now, 1);
  }

  method FailMemory(broker: InMemoryBroker, receipt: Receipt, text: int, now: nat, ghost i: nat)
    requires i < |broker.jobs| && Holder(broker.jobs, receipt) == Some(i) && !Expired(broker.jobs[i], now)
    modifies broker
    ensures broker.View() == Bury(broker.cfg, old(broker.View()), i, Given(text), now, |old(broker.dead)|)
  {
    var failed := broker.Fail(receipt, text, now);
  }

  method TieMemory(settings: Settings, a: NewJob, ra: Receipt, b: NewJob, rb: Receipt, text: int, now: nat)
    returns (broker: InMemoryBroker)
    requires TieSetting(settings, a, ra, b, rb, now)
    ensures fresh(broker) && DeadIds(OfLane(broker.dead, a.lane)) == [a.id]
  {
    broker := PairMemory(settings, a, ra, b, rb, now);
    PairLeased(broker.cfg, a, ra, b, rb, now);
    FailMemory(broker, rb, text, now, 1);
    ghost var s := broker.View();
    FailMemory(broker, ra, text, now, 0);
    MemoryKeepsNewest(broker.cfg, s, 0, Given(text), now);
  }

  /**
   With room for one record, `a` enqueued and reserved before `b`: when `b` and then `a`
   fail at one instant, Redis keeps `b` and memory keeps `a`.
   */
  method TieRun(settings: Settings, a: NewJob, ra: Receipt, b: NewJob, rb: Receipt, text: int, now: nat)
    returns (redis: Result<seq<Letter>>, memory: seq<JobId>)
    requires TieSetting(settings, a, ra, b, rb, now)
    ensures redis.Ok? && |redis.value| == 1 && redis.value[0].env.id == b.id
    ensures memory == [a.id]
  {
    var store := TieRedis(settings, a, ra, b, rb, text, now);
    redis := store.ReadDeadLetters(a.lane, 2);
    OneLetter(store.Space(), a.lane, b.id);
    var broker := TieMemory(settings, a, ra, b, rb, text, now);
    memory := DeadIds(OfLane(broker.dead, a.lane));
  }

  lemma OneLetter(w: World, lane: Lane, id: JobId)
    requires Sound(w) && Untried(w.store.dead) && DeadIds(OfLane(w.store.dead, lane)) == [id]
    ensures DeadIds(Take(OfLane(w.store.dead, lane), 2)) == [id]
    ensures id in w.dj ==> w.dj[id].attempts == 0
    ensures var letters := Take(ToLetters(Pick(w.store.dead, OnLane(w.store.dead, lane))), 2);
            |letters| == 1 && letters[0].env.id == id
  {
    DeadIff(w, id);
    OfLanePick(w.store.dead, lane);
    assert OfLane(w.store.dead, lane)[0].env.id == DeadIds(OfLane(w.store.dead, lane))[0];
  }
}
