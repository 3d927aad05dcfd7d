/**
 The Redis broker: every lifecycle script as a method over the key space, proved to
 keep all indexes in agreement and to be a behaviour the contract allows.
 */
module Redis {
  import opened Types
  import opened Lists
  import opened Contract
  import opened Invariant
  import opened RetentionLaws
  import opened RedisLive
  import opened RedisState
  import opened RedisDead
  import opened RedisBury
  import opened RedisSound
  import opened RedisReads
  import opened DeadLanes
  import opened Batches
  import opened Encoding

  class RedisBroker {
    var job: Hashes                        // ns:job:{id}
    var lanes: LaneSets                    // ns:lane:{lane}:p:{priority}
    var prios: map<Lane, set<nat>>         // ns:lane:{lane}:prios
    var rcpt: map<Receipt, JobId>          // ns:rcpt:{receipt}
    var unique: map<Key, JobId>            // ns:unique:{key}
    var counter: nat                       // ns:seq
    var deadJob: DeadHashes                // ns:dead:job:{id}
    var deadSets: DeadSets                 // ns:dead:{lane}
    var schedules: map<ScheduleId, string> // ns:schedule:{id}
    const settings: Settings
    const cfg: Config := RedisConfig(settings)

    /** The contract's store this key space stands for. */
    ghost var view: Store
    /** The latest clock reading. */
    ghost var clock: nat

    ghost function Live(): Keys
      reads this
    {
      Keys(job, lanes, prios, rcpt, unique, counter)
    }

    ghost function Space(): World
      reads this
    {
      World(Live(), deadJob, deadSets, schedules, view, clock)
    }

    ghost predicate Valid()
      reads this
    {
      Sound(Space())
    }

    constructor (settings: Settings)
      ensures Valid() && view == EMPTY_STORE && clock == 0 && this.settings == settings
      ensures rcpt == map[] && deadJob == map[]
    {
      job, lanes, prios, rcpt, unique, counter := map[], map[], map[], map[], map[], 0;
      deadJob, deadSets, schedules := map[], map[], map[];
      this.settings := settings;
      view, clock := EMPTY_STORE, 0;
      new;
      SoundEmpty(0);
    }

    /** The clock moves on; nothing else changes. */
    ghost method Tick(now: nat)
      requires Valid() && clock <= now < I64_MAX
      modifies this`clock
      ensures Valid() && clock == now
    {
      SoundLater(Space(), now);
      clock := now;
    }

    // ------------------------------------------------------------ key writes

    /** INCR of the sequence, HSET, SET of the unique key, ZADD of the member, and `prio_add`. */
    method WriteNew(id: JobId, h: Hash)
      requires h.num == counter + 1 && h.leasedUntil.None?
      modifies this`job, this`lanes, this`prios, this`unique, this`counter
      ensures Live() == WithNew(old(Live()), id, h)
    {
      counter := counter + 1;
      job := job[id := h];
      if h.key.Some? {
        unique := unique[h.key.value := id];
      }
      lanes := ZAdd(lanes, h.lane, h.priority, h.availableAt, Member(counter, id));
      prios := PrioAdd(prios, h.lane, h.priority);
    }

    /** HSET or HDEL on the hash, ZADD of its member at the new score, and its receipt entry to match. */
    method WriteMoved(id: JobId, h: Hash)
      requires id in job
      modifies this`job, this`lanes, this`rcpt
      ensures Live() == WithMoved(old(Live()), id, h)
    {
      if job[id].receipt.Some? {
        rcpt := rcpt - {job[id].receipt.value};
      }
      if h.receipt.Some? {
        rcpt := rcpt[h.receipt.value := id];
      }
      job := job[id := h];
      lanes := ZAdd(lanes, h.lane, h.priority, Score(h), Member(h.num, id));
    }

    /** A job leaves every live key: its unique key, lane member, receipt entry and hash. */
    method DropJob(id: JobId)
      requires id in job
      modifies this`job, this`lanes, this`rcpt, this`unique
      ensures Live() == WithoutHash(old(Live()), id)
    {
      var h := job[id];
      if h.key.Some? {
        unique := unique - {h.key.value};
      }
      lanes := ZRem(lanes, h.lane, h.priority, RedisLive.FifoMember(job, id));
      if h.receipt.Some? {
        rcpt := rcpt - {h.receipt.value};
      }
      job := job - {id};
    }

    /** Drop the `n` lowest-ranked entries of a dead ZSET, and their hashes. */
    method DropRanks(lane: Lane, n: nat)
      requires lane in deadSets && n <= |deadSets[lane]|
      modifies this`deadJob, this`deadSets
      ensures deadJob == old(deadJob) - MemberIds(old(deadSets)[lane][..n])
      ensures deadSets == old(deadSets)[lane := old(deadSets)[lane][n..]]
    {
      var z := deadSets[lane];
      deadJob := deadJob - MemberIds(z[..n]);
      deadSets := deadSets[lane := z[n..]];
    }

    /** Retention on one lane's dead ZSET: by score for age, then by rank for count. */
    method PruneLane(lane: Lane, now: nat)
      requires lane in deadSets
      modifies this`deadJob, this`deadSets
      ensures var z := old(deadSets)[lane];
              var c := CutOff(cfg.retention, z, now);
              deadJob == old(deadJob) - MemberIds(z[..c]) && deadSets == old(deadSets)[lane := z[c..]]
    {
      if cfg.retention.maxAge.Some? {
        var aged := Aged(deadSets[lane], SignedCutoff(now, cfg.retention.maxAge.value));
        DropRanks(lane, aged);
      }
      var max := CountArg(settings);
      if max > 0 {
        CutInTwo(cfg.retention, old(deadSets)[lane], now);
        var excess := ScriptExcess(max, |deadSets[lane]|);
        if excess > 0 {
          DropRanks(lane, excess);
        }
      }
    }

    /** A dead record is filed in its hash and its lane's ZSET, and the lane is pruned. */
    method FileDead(id: JobId, h: DeadHash)
      modifies this`deadJob, this`deadSets
      ensures deadJob == DeadJobsAfter(cfg.retention, old(deadJob), old(deadSets), id, h)
      ensures deadSets == DeadSetsAfter(cfg.retention, old(deadSets), h.lane, h.deadAt, h.member)
    {
      var z := ZInsert(DOf(deadSets, h.lane), Entry(h.deadAt, h.member));
      deadSets := deadSets[h.lane := z];
      deadJob := deadJob[id := h];
      PruneLane(h.lane, h.deadAt);
      assert deadSets == old(deadSets)[h.lane := z[CutOff(cfg.retention, z, h.deadAt)..]];
    }

    // ------------------------------------- key writes beside the contract's store

    /** A new job enters the key space. */
    method AddHash(h: Hash, ghost j: Job)
      requires Valid() && h.env.id == j.env.id && h.env.id !in job && h.env.id !in deadJob && h.num == counter + 1
      requires HashIs(h, j, clock) && j.leasedUntil.None? && j.receipt.None? && h.leasedUntil.None?
      requires j.key.Some? ==> j.key.value !in unique
      modifies this
      ensures Valid() && clock == old(clock) && deadJob == old(deadJob)
      ensures view == old(view).(jobs := old(view).jobs + [j],
                                 unique := ClaimKey(old(view).unique, j.key, j.env.id))
      ensures deadSets == old(deadSets) && rcpt == old(rcpt)
    {
      SoundNew(Space(), h, j);
      WriteNew(h.env.id, h);
      view := view.(jobs := view.jobs + [j], unique := ClaimKey(view.unique, j.key, j.env.id));
    }

    /** A stored job changes its lease, receipt or time. */
    method MoveHash(id: JobId, h: Hash, ghost i: nat, ghost j: Job)
      requires Valid() && id in job && Moves(job[id], h)
      requires i < |view.jobs| && j.env.id == id == view.jobs[i].env.id && j.key == view.jobs[i].key
      requires HashIs(h, j, clock) && (j.leasedUntil.Some? <==> j.receipt.Some?)
      requires j.receipt.Some? ==> j.receipt == view.jobs[i].receipt || NotCurrent(view.jobs, j.receipt.value)
      requires h.receipt.Some? ==> h.receipt.value !in rcpt || h.receipt == job[id].receipt
      modifies this
      ensures Valid() && clock == old(clock) && view == Put(old(view), i, j)
    {
      SoundMoved(Space(), i, h, j);
      WriteMoved(id, h);
      view := Put(view, i, j);
    }

    /** A finished job leaves the key space. */
    method Remove(id: JobId, ghost i: nat)
      requires Valid() && i < |view.jobs| && view.jobs[i].env.id == id && id in job
      modifies this
      ensures Valid() && clock == old(clock) && view == Without(old(view), i)
    {
      SoundDropped(Space(), i);
      DropJob(id);
      view := Without(view, i);
    }

    /** The key writes of `dead_letter_move`. */
    method MoveToDead(id: JobId, reason: Reason, now: nat)
      requires id in job
      modifies this`job, this`lanes, this`rcpt, this`unique, this`deadJob, this`deadSets
      ensures Live() == WithoutHash(old(Live()), id)
      ensures var h := BuriedHash(old(job)[id], id, reason, now);
              && deadJob == DeadJobsAfter(cfg.retention, old(deadJob), old(deadSets), id, h)
              && deadSets == DeadSetsAfter(cfg.retention, old(deadSets), h.lane, now, h.member)
    {
      var h := job[id];
      var record := DeadHash(h.env, reason, h.lane, h.priority, h.attempts, now, RedisLive.FifoMember(job, id), h.key);
      DropJob(id);
      FileDead(id, record);
    }

    /** `dead_letter_move`. */
    method DeadLetterMove(id: JobId, reason: Reason, now: nat, ghost i: nat) returns (ghost pos: nat)
      requires Valid() && clock == now && i < |view.jobs| && view.jobs[i].env.id == id && id in job
      modifies this
      ensures Valid() && clock == now
      ensures TiePosition(old(view).dead, old(view).jobs[i].env.lane, now, pos)
      ensures PlacedAt(old(view).dead, pos, DeadRec(old(view).jobs[i].env, reason, old(view).jobs[i].key, now),
                       FileRank(old(Live()), old(deadSets), old(view).jobs[i], now))
      ensures view == Bury(cfg, old(view), i, reason, now, pos)
      ensures job == old(job) - {id} && rcpt.Keys <= old(rcpt).Keys
      ensures deadSets ==
              DeadSetsAfter(cfg.retention, old(deadSets), old(job)[id].lane, now, Member(old(job)[id].num, id))
    {
      pos := SoundBuried(cfg, Space(), i, reason);
      MoveToDead(id, reason, now);
      view := Bury(cfg, view, i, reason, now, pos);
    }

    // ---------------------------------------------------------------- enqueue

    /** The ENQUEUE script; the batch and scheduled scripts repeat it. */
    method EnqueueOne(new_: NewJob, now: nat) returns (id: JobId)
      requires Valid() && clock == now && new_.id !in deadJob
      modifies this
      ensures Valid() && clock == now && deadJob == old(deadJob)
      ensures var o := Insert(old(view), new_, now); view == o.store && Id(id) == o.reply
      ensures deadSets == old(deadSets) && rcpt == old(rcpt)
    {
      LiveIff(Space(), new_.id);
      if new_.id in job {
        return job[new_.id].env.id;
      }
      KeyIff(Space(), if new_.key.Some? then new_.key.value else 0);
      if new_.key.Some? && new_.key.value in unique {
        return job[unique[new_.key.value]].env.id;
      }
      id := new_.id;
      var h := Hash(FreshEnvelope(new_), new_.lane, new_.priority, Nanos(AddTime(now, new_.delay)),
                    None, None, 0, 0, counter + 1, new_.key);
      AddHash(h, Place(view, new_, now).jobs[|view.jobs|]);
    }

    method Enqueue(new_: NewJob, now: nat) returns (id: JobId)
      requires Valid() && clock <= now < I64_MAX && new_.id !in deadJob
      modifies this
      ensures Valid() && clock == now
      ensures Allowed(cfg, old(view), Contract.Enqueue(new_), now, view, Id(id))
      ensures rcpt == old(rcpt) && deadSets == old(deadSets) && deadJob == old(deadJob)
    {
      Tick(now);
      id := EnqueueOne(new_, now);
      assert StepAny(cfg, old(view), Contract.Enqueue(new_), now, Insert(old(view), new_, now));
    }

    /** The clock is read once per job; at a single instant this is the contract's batch. */
    method EnqueueBatch(batch: seq<NewJob>, nows: seq<nat>) returns (ids: seq<JobId>)
      requires Valid() && |nows| == |batch| && forall k :: 0 <= k < |batch| ==> batch[k].id !in deadJob
      requires forall k :: 0 <= k < |nows| ==> clock <= nows[k] < I64_MAX
      requires forall i, k :: 0 <= i < k < |nows| ==> nows[i] <= nows[k]
      modifies this
      ensures Valid() && clock == (if nows == [] then old(clock) else nows[|nows| - 1])
      ensures var o := InsertEach(old(view), batch, nows); view == o.store && Ids(ids) == o.reply
    {
      ids := [];
      for i := 0 to |batch|
        invariant Valid() && deadJob == old(deadJob)
        invariant clock == if i == 0 then old(clock) else nows[i - 1]
        invariant var o := InsertEach(old(view), batch[..i], nows[..i]); view == o.store && Ids(ids) == o.reply
      {
        EachNext(old(view), batch, nows, i);
        Tick(nows[i]);
        var id := EnqueueOne(batch[i], nows[i]);
        ids := ids + [id];
      }
      assert batch[..|batch|] == batch && nows[..|nows|] == nows;
    }

    // ------------------------------------------------------------- resolution

    /** The GUARD prologue: the receipt's job, if the receipt is current. */
    method Guard(receipt: Receipt, now: nat) returns (id: Option<JobId>, ghost i: nat)
      requires Valid() && clock <= now < I64_MAX
      modifies this`view, this`clock
      ensures Valid() && clock == now
      ensures id.None? ==> Rejects(cfg, old(view), receipt, now, view)
      ensures id.Some? ==>
                && view == old(view) && Accepts(view, receipt, now, i)
                && id.value in job && view.jobs[i].env.id == id.value
                && HashIs(job[id.value], view.jobs[i], now)
                && receipt in rcpt && rcpt[receipt] == id.value && job[id.value].receipt == Some(receipt)
    {
      Tick(now);
      i := 0;
      GuardIff(Space(), receipt);
      if receipt in rcpt && rcpt[receipt] in job {
        var h := job[rcpt[receipt]];
        if h.receipt == Some(receipt) && h.leasedUntil.Some? && h.leasedUntil.value > now {
          id := Some(rcpt[receipt]);
          i := Holder(view.jobs, receipt).value;
          return;
        }
      }
      id := None;
      RejectsAll(cfg, view, receipt, now);
      if Holder(view.jobs, receipt).Some? {
        SoundForgotten(Space(), Holder(view.jobs, receipt).value);
        view := Rejected(view, receipt);
      }
    }

    method Ack(receipt: Receipt, now: nat) returns (ok: bool)
      requires Valid() && clock <= now < I64_MAX
      modifies this
      ensures Valid() && clock == now
      ensures Allowed(cfg, old(view), Resolve(receipt, How.Ack), now, view, if ok then Done else Stale)
    {
      var id, i := Guard(receipt, now);
      ok := id.Some?;
      if ok {
        UseAllowed(cfg, view, receipt, How.Ack, now, i, |view.dead|);
        Remove(id.value, i);
      } else {
        assert RejectsUse(cfg, old(view), receipt, How.Ack, now, view);
      }
    }

    method Retry(receipt: Receipt, delay: nat, now: nat) returns (ok: bool)
      requires Valid() && clock <= now < I64_MAX
      modifies this
      ensures Valid() && clock == now
      ensures Allowed(cfg, old(view), Resolve(receipt, How.Retry(delay)), now, view, if ok then Done else Stale)
    {
      var id, i := Guard(receipt, now);
      ok := id.Some?;
      if ok {
        var h := job[id.value].(attempts := job[id.value].attempts + 1, availableAt := Nanos(AddTime(now, delay)),
                                leasedUntil := None, receipt := None);
        UseAllowed(cfg, view, receipt, How.Retry(delay), now, i, |view.dead|);
        MoveHash(id.value, h, i, Use(cfg, view, i, How.Retry(delay), now, |view.dead|).jobs[i]);
      } else {
        assert RejectsUse(cfg, old(view), receipt, How.Retry(delay), now, view);
      }
    }

    method Defer(receipt: Receipt, delay: nat, now: nat) returns (ok: bool)
      requires Valid() && clock <= now < I64_MAX
      modifies this
      ensures Valid() && clock == now
      ensures Allowed(cfg, old(view), Resolve(receipt, How.Defer(delay)), now, view, if ok then Done else Stale)
    {
      var id, i := Guard(receipt, now);
      ok := id.Some?;
      if ok {
        var h := job[id.value].(availableAt := Nanos(AddTime(now, delay)), leasedUntil := None, receipt := None);
        UseAllowed(cfg, view, receipt, How.Defer(delay), now, i, |view.dead|);
        MoveHash(id.value, h, i, Use(cfg, view, i, How.Defer(delay), now, |view.dead|).jobs[i]);
      } else {
        assert RejectsUse(cfg, old(view), receipt, How.Defer(delay), now, view);
      }
    }

    method Extend(receipt: Receipt, now: nat) returns (ok: bool)
      requires Valid() && clock <= now < I64_MAX
      modifies this
      ensures Valid() && clock == now
      ensures Allowed(cfg, old(view), Resolve(receipt, How.Extend), now, view, if ok then Done else Stale)
    {
      var id, i := Guard(receipt, now);
      ok := id.Some?;
      if ok {
        var h := job[id.value].(leasedUntil := Some(Nanos(AddTime(now, cfg.lease))));
        UseAllowed(cfg, view, receipt, How.Extend, now, i, |view.dead|);
        MoveHash(id.value, h, i, Use(cfg, view, i, How.Extend, now, |view.dead|).jobs[i]);
      } else {
        assert RejectsUse(cfg, old(view), receipt, How.Extend, now, view);
      }
    }

    /** The record is filed by instant and sequence number, at `pos` of the store's list. */
    method Fail(receipt: Receipt, text: int, now: nat) returns (ok: bool, ghost pos: nat)
      requires Valid() && clock <= now < I64_MAX
      modifies this
      ensures Valid() && clock == now
      ensures Allowed(cfg, old(view), Resolve(receipt, How.Fail(text)), now, view, if ok then Done else Stale)
      ensures ok ==>
                && receipt in old(rcpt) && old(rcpt)[receipt] in old(job)
                && var id := old(rcpt)[receipt];
                   && job == old(job) - {id}
                   && deadSets == DeadSetsAfter(cfg.retention, old(deadSets), old(job)[id].lane, now,
                                                Member(old(job)[id].num, id))
      ensures ok ==> FiledByRank(cfg, old(Live()), old(deadSets), old(view), receipt, text, now, view, pos)
    {
      var id, i := Guard(receipt, now);
      ok := id.Some?;
      pos := 0;
      if ok {
        pos := DeadLetterMove(id.value, Given(text), now, i);
        FailAllowed(cfg, old(Live()), old(deadSets), old(view), receipt, text, now, i, pos);
      } else {
        assert RejectsUse(cfg, old(view), receipt, How.Fail(text), now, view);
      }
    }

    // ---------------------------------------------------------------- reserve

    /** Lease the job: drop its old receipt, bump its deliveries, rescore it, bind the new receipt. */
    method LeaseMember(id: JobId, lane: Lane, receipt: Receipt, now: nat,
                       ghost i: nat, ghost s0: Store, ghost bs: seq<Event>)
      returns (got: Raw)
      requires Valid() && clock == now && now < I64_MAX && NoneExpired(view.jobs, now) && receipt !in rcpt
      requires Swept(cfg, s0, lane, now, bs, view) && |bs| < MAX_DEAD_LETTER_SWEEP
      requires IsTop(view.jobs, lane, now, i) && !Over(cfg, view.jobs[i]) && view.jobs[i].env.id == id && id in job
      requires HashIs(job[id], view.jobs[i], now) && Score(job[id]) <= now
      modifies this
      ensures Valid() && clock == now
      ensures Picked(cfg, s0, lane, receipt, now, bs, old(view), i, view, Reservation(Handed(got), receipt, cfg.lease))
      ensures RawOf(got, old(job))
    {
      var h := job[id].(deliveries := job[id].deliveries + 1,
                        leasedUntil := Some(Nanos(AddTime(now, cfg.lease))), receipt := Some(receipt));
      LeaseHash(cfg, job[id], view.jobs[i], receipt, now);
      Unused(Space(), receipt);
      MoveHash(id, h, i, LeaseJob(cfg, view.jobs[i], receipt, now));
      got := Raw(h.env, h.attempts);
    }

    /** One over-delivered job moves to the dead letters. */
    method BurySwept(id: JobId, lane: Lane, now: nat, ghost i: nat, ghost s0: Store, ghost bs0: seq<Event>)
      returns (ghost bs: seq<Event>)
      requires Valid() && clock == now && NoneExpired(view.jobs, now) && Swept(cfg, s0, lane, now, bs0, view)
      requires IsTop(view.jobs, lane, now, i) && Over(cfg, view.jobs[i]) && view.jobs[i].env.id == id && id in job
      modifies this
      ensures Valid() && clock == now && NoneExpired(view.jobs, now)
      ensures Swept(cfg, s0, lane, now, bs, view) && |bs| == |bs0| + 1
      ensures job == old(job) - {id} && rcpt.Keys <= old(rcpt).Keys
      ensures IsFirst(old(view).jobs, lane, now, i) && FirstSweep(cfg, s0, lane, now, bs0, old(view)) ==>
                FirstSweep(cfg, s0, lane, now, bs, view)
    {
      ghost var pos := DeadLetterMove(id, OverDelivered(MaxArg(settings)), now, i);
      RemoveKeepsNoneExpired(old(view).jobs, i, now);
      SweptExtends(cfg, s0, lane, now, bs0, old(view), i, pos);
      if IsFirst(old(view).jobs, lane, now, i) && FirstSweep(cfg, s0, lane, now, bs0, old(view)) {
        FirstSweepExtends(cfg, s0, lane, now, bs0, old(view), Buried(lane, i, now, pos));
      }
      bs := bs0 + [Buried(lane, i, now, pos)];
    }

    /** One priority level of the RESERVE script. `clean` says that no lease of the lane is stale. */
    method SweepLevel(lane: Lane, p: nat, receipt: Receipt, now: nat, start: nat,
                      ghost levels: set<nat>, ghost s0: Store, ghost bs0: seq<Event>, ghost clean: bool)
      returns (got: Option<Raw>, swept: nat, ghost bs: seq<Event>, ghost t: Store, ghost i: nat)
      requires Valid() && clock == now && now < I64_MAX && NoneExpired(view.jobs, now) && receipt !in rcpt
      requires Swept(cfg, s0, lane, now, bs0, view) && |bs0| == start < MAX_DEAD_LETTER_SWEEP
      requires DueWithin(job, lane, now, levels + {p}) && forall q :: q in levels ==> q <= p
      requires clean ==> OnCourse(cfg, job, s0, lane, now, bs0, view)
      modifies this
      ensures Valid() && clock == now
      ensures got.None? ==>
                && NoneExpired(view.jobs, now) && receipt !in rcpt
                && Swept(cfg, s0, lane, now, bs, view) && |bs| == swept <= MAX_DEAD_LETTER_SWEEP
                && (swept < MAX_DEAD_LETTER_SWEEP ==> DueWithin(job, lane, now, levels)) && Among(job, old(job))
                && (clean ==> OnCourse(cfg, job, s0, lane, now, bs, view))
      ensures got.Some? ==>
                && Picked(cfg, s0, lane, receipt, now, bs, t, i, view,
                          Reservation(Handed(got.value), receipt, cfg.lease))
                && RawOf(got.value, old(job))
                && (clean ==> IsFirst(t.jobs, lane, now, i) && FirstSweep(cfg, s0, lane, now, bs, t))
    {
      got, swept, bs, t, i := None, start, bs0, view, 0;
      while true
        invariant Valid() && clock == now && NoneExpired(view.jobs, now) && receipt !in rcpt
        invariant Swept(cfg, s0, lane, now, bs, view) && |bs| == swept < MAX_DEAD_LETTER_SWEEP
        invariant DueWithin(job, lane, now, levels + {p}) && Among(job, old(job))
        invariant clean ==> OnCourse(cfg, job, s0, lane, now, bs, view)
        invariant got.None?
        decreases MAX_DEAD_LETTER_SWEEP - swept
      {
        var z := ZOf(lanes, lane, p);
        if forall m :: m in z ==> z[m] > now {
          LevelDone(Space(), lane, p, levels);
          return;
        }
        SomeLeastDue(z, now);
        var m :| m in z && LeastDue(z, now, m);
        i := DueIsTop(Space(), lane, p, levels, m);
        OverIff(settings, job[m.id], view.jobs[i], now);
        if clean {
          LeastDueIsFirst(Space(), lane, p, m, i);
        }
        t := view;
        if ScriptOver(MaxArg(settings), job[m.id].deliveries) {
          bs := BurySwept(m.id, lane, now, i, s0, bs);
          swept := swept + 1;
          if swept >= MAX_DEAD_LETTER_SWEEP {
            return;
          }
        } else {
          var leased := LeaseMember(m.id, lane, receipt, now, i, s0, bs);
          got := Some(leased);
          return;
        }
      }
    }

    /** An expired lease counts as none; the store forgets them all, the keys keep them. */
    ghost method LapseAll(now: nat)
      requires Valid() && clock <= now < I64_MAX
      modifies this`view, this`clock
      ensures Valid() && clock == now && view == Lapse(old(view), now) && NoneExpired(view.jobs, now)
    {
      Tick(now);
      SoundLapsed(Space());
      view := Lapse(view, now);
    }

    /** ZREM of a drained priority. */
    method DropLevel(lane: Lane, p: nat)
      requires Valid() && ZOf(lanes, lane, p) == map[]
      modifies this`prios
      ensures Valid()
    {
      PrunePrios(Space(), lane, p);
      prios := prios[lane := PriosOf(prios, lane) - {p}];
    }

    /** Sweep the active priorities from the top. */
    method SweepLevels(lane: Lane, receipt: Receipt, now: nat, ghost clean: bool)
      returns (got: Option<Raw>, ghost bs: seq<Event>, ghost t: Store, ghost i: nat)
      requires Valid() && clock == now && now < I64_MAX && NoneExpired(view.jobs, now) && receipt !in rcpt
      requires clean ==> NoStaleLease(job, lane, now)
      modifies this
      ensures Valid() && clock == now
      ensures got.None? ==>
                && Swept(cfg, old(view), lane, now, bs, view) && |bs| <= MAX_DEAD_LETTER_SWEEP
                && (|bs| == MAX_DEAD_LETTER_SWEEP || !AnyVisible(view.jobs, lane, now))
                && (clean ==> FirstSweep(cfg, old(view), lane, now, bs, view))
      ensures got.Some? ==>
                && Picked(cfg, old(view), lane, receipt, now, bs, t, i, view,
                          Reservation(Handed(got.value), receipt, cfg.lease))
                && RawOf(got.value, old(job))
                && (clean ==> IsFirst(t.jobs, lane, now, i) && FirstSweep(cfg, old(view), lane, now, bs, t))
    {
      got, bs, t, i := None, [], view, 0;
      var swept, todo := 0, PriosOf(prios, lane);
      AllDueWithin(Space(), lane);
      while todo != {}
        invariant Valid() && clock == now && NoneExpired(view.jobs, now) && receipt !in rcpt
        invariant Swept(cfg, old(view), lane, now, bs, view) && |bs| == swept < MAX_DEAD_LETTER_SWEEP
        invariant DueWithin(job, lane, now, todo) && Among(job, old(job))
        invariant clean ==> OnCourse(cfg, job, old(view), lane, now, bs, view)
        invariant got.None?
        decreases todo
      {
        SomeMax(todo);
        var p :| p in todo && forall q :: q in todo ==> q <= p;
        assert todo == todo - {p} + {p};
        todo := todo - {p};
        if ZOf(lanes, lane, p) == map[] {
          LevelDone(Space(), lane, p, todo);
          DropLevel(lane, p);
        } else {
          got, swept, bs, t, i := SweepLevel(lane, p, receipt, now, swept, todo, old(view), bs, clean);
          if got.Some? || swept >= MAX_DEAD_LETTER_SWEEP {
            return;
          }
        }
      }
      NothingDue(Space(), lane);
    }

    /**
     The RESERVE script and its caller. Without stale leases on the lane it leaves the
     queue and answers as the in-memory broker does. The caller reads the attempts back
     as a `u32`, so a job with more is leased but the call fails.
     */
    method Reserve(lane: Lane, receipt: Receipt, now: nat)
      returns (got: Result<Option<Reservation>>, ghost handed: Option<Reservation>)
      requires Valid() && clock <= now < I64_MAX && receipt !in rcpt
      modifies this
      ensures Valid() && clock == now
      ensures Allowed(cfg, old(view), Contract.Reserve(lane, receipt), now, view, Reserved(handed))
      ensures old(NoStaleLease(job, lane, now)) ==>
                var o := Step(cfg, old(view), Contract.Reserve(lane, receipt), now);
                Reserved(handed) == o.reply && view.jobs == o.store.jobs
      ensures handed.Some? ==> handed.value.env.id in old(job)
      ensures got == if handed.Some? && old(job)[handed.value.env.id].attempts > U32_MAX then Err else Ok(handed)
    {
      ghost var bs, t, i;
      ghost var clean := NoStaleLease(job, lane, now);
      var raw;
      LapseAll(now);
      raw, bs, t, i := SweepLevels(lane, receipt, now, clean);
      if raw.Some? {
        handed := Some(Reservation(Handed(raw.value), receipt, cfg.lease));
        got := if raw.value.attempts > U32_MAX then Err
               else Ok(Some(Reservation(raw.value.env.(attempts := raw.value.attempts), receipt, settings.lease)));
        PickedAllowed(cfg, old(view), lane, receipt, now, bs, t, i, view, handed.value);
      } else {
        handed, got := None, Ok(None);
        SweptAllowed(cfg, old(view), lane, receipt, now, bs, view);
      }
      if clean {
        ReserveFollows(cfg, old(view), lane, receipt, now, bs, if raw.Some? then t else view,
                       if raw.Some? then Some(i) else None);
      }
    }

    // ------------------------------------------------------------ dead letters

    /** The key writes of REQUEUE, past its checks. */
    method WriteRevived(id: JobId, now: nat, ghost i: nat)
      requires id in deadJob && clock == now
      requires var z := DOf(deadSets, deadJob[id].lane);
               && i < |z| && z[i].member == deadJob[id].member
               && forall k :: 0 <= k < |z| && k != i ==> z[k].member != deadJob[id].member
      modifies this`job, this`lanes, this`prios, this`unique, this`counter, this`deadJob, this`deadSets
      ensures Space() == RevivedWorld(old(Space()), id, i, view)
    {
      var dead := deadJob[id];
      WriteNew(id, Hash(dead.env, dead.lane, dead.priority, now, None, None, dead.attempts, 0, counter + 1, dead.key));
      var z, k := DOf(deadSets, dead.lane), 0;
      while z[k].member != dead.member
        invariant 0 <= k <= i < |z|
        decreases i - k
      {
        k := k + 1;
      }
      deadSets := deadSets[dead.lane := RemoveAt(z, k)];
      deadJob := deadJob - {id};
    }

    method ReviveRecord(id: JobId, now: nat)
      requires Valid() && clock == now && id in deadJob
      requires deadJob[id].key.Some? ==> deadJob[id].key.value !in unique
      modifies this
      ensures Valid() && clock == now
      ensures DeadIndex(old(view).dead, id).Some?
      ensures view == Revive(old(view), DeadIndex(old(view).dead, id).value, now)
    {
      ghost var k, i := SoundRevived(Space(), id);
      OnlyEntry(Space(), id, i);
      WriteRevived(id, now, i);
      view := Revive(view, k, now);
    }

    method Requeue(id: JobId, now: nat) returns (reply: Reply)
      requires Valid() && clock <= now < I64_MAX
      modifies this
      ensures Valid() && clock == now
      ensures Allowed(cfg, old(view), Contract.Requeue(id), now, view, reply)
    {
      Tick(now);
      DeadIff(Space(), id);
      LiveIff(Space(), id);
      if id !in deadJob {
        reply := NoDeadRecord;
      } else if id in job {
        reply := LiveIdConflict;
      } else {
        KeyIff(Space(), 0);
        if deadJob[id].key.Some? && deadJob[id].key.value in unique {
          reply := KeyHeld;
        } else {
          ReviveRecord(id, now);
          reply := Done;
        }
      }
      assert StepAny(cfg, old(view), Contract.Requeue(id), now, RequeueStep(old(view), id, now));
    }

    method PurgeDeadLetters(lane: Lane) returns (count: nat)
      requires Valid()
      modifies this
      ensures Valid() && clock == old(clock)
      ensures Allowed(cfg, old(view), PurgeDead(lane), clock, view, Purged(count))
    {
      SoundEmptied(Space(), lane);
      var z := DOf(deadSets, lane);
      deadJob := deadJob - MemberIds(z);
      count := |z|;
      deadSets := deadSets[lane := []];
      view := Empty(view, lane);
      assert StepAny(cfg, old(view), PurgeDead(lane), clock, Step(cfg, old(view), PurgeDead(lane), clock));
    }

    // --------------------------------------------------------------- schedules

    /** Watermarks are compared and stored as fixed-width text. */
    method EnqueueScheduled(sid: ScheduleId, occurrence: int, new_: NewJob, now: nat) returns (won: bool)
      requires Valid() && clock <= now < I64_MAX && new_.id !in deadJob && IsI64(occurrence)
      modifies this
      ensures Valid() && clock == now
      ensures Allowed(cfg, old(view), Contract.EnqueueScheduled(sid, occurrence, new_), now, view, Claimed(won))
    {
      Tick(now);
      MarkIff(Space(), sid, occurrence);
      won := sid !in schedules || Less(schedules[sid], Watermark(occurrence));
      if won {
        SoundMarked(Space(), sid, occurrence);
        schedules := schedules[sid := Watermark(occurrence)];
        view := view.(schedules := view.schedules[sid := occurrence]);
        var id := EnqueueOne(new_, now);
      }
      assert StepAny(cfg, old(view), Contract.EnqueueScheduled(sid, occurrence, new_), now,
                     ScheduledStep(old(view), sid, occurrence, new_, now));
    }

    method RemoveSchedule(sid: ScheduleId)
      requires Valid()
      modifies this
      ensures Valid() && clock == old(clock)
      ensures Allowed(cfg, old(view), Contract.RemoveSchedule(sid), clock, view, Done)
    {
      SoundUnmarked(Space(), sid);
      schedules := schedules - {sid};
      view := view.(schedules := view.schedules - {sid});
      assert StepAny(cfg, old(view), Contract.RemoveSchedule(sid), clock,
                     Step(cfg, old(view), Contract.RemoveSchedule(sid), clock));
    }

    // ------------------------------------------------------------------- reads

    method Classify(id: JobId) returns (state: JobState)
      requires Valid()
      ensures state == StateOf(view, id)
    {
      LiveIff(Space(), id);
      DeadIff(Space(), id);
      state := if id in job then JobState.Live else if id in deadJob then DeadLettered else CompletedOrUnknown;
    }

    /** ZCARD. */
    method CountDeadLetters(lane: Lane) returns (count: nat)
      requires Valid()
      ensures count == Tally(OnLane(view.dead, lane))
    {
      DeadCount(Space(), lane);
      count := |DOf(deadSets, lane)|;
    }

    /** The first round trip of a read: ZRANGE. */
    method ReadMembers(lane: Lane, limit: nat) returns (ids: seq<JobId>)
      requires Valid()
      ensures ids == DeadIds(Take(OfLane(view.dead, lane), limit))
    {
      MembersAre(Space(), lane, limit);
      ids := EntryIds(Take(DOf(deadSets, lane), limit));
    }

    /**
     The second round trip, at whatever state it meets: an id whose hash has gone is
     skipped, and an attempt count beyond `u32` fails the whole read.
     */
    method FetchLetters(ids: seq<JobId>) returns (letters: Result<seq<Letter>>)
      requires Valid()
      ensures letters.Err? <==> exists k :: 0 <= k < |ids| && ids[k] in deadJob && deadJob[ids[k]].attempts > U32_MAX
      ensures letters.Ok? ==> letters.value == Found(view.dead, ids)
    {
      var out: seq<Letter> := [];
      for k := 0 to |ids|
        invariant out == Found(view.dead, ids[..k])
        invariant forall m :: 0 <= m < k && ids[m] in deadJob ==> deadJob[ids[m]].attempts <= U32_MAX
      {
        assert ids[..k + 1][..k] == ids[..k];
        DeadIff(Space(), ids[k]);
        if ids[k] in deadJob {
          var h := deadJob[ids[k]];
          if h.attempts > U32_MAX {
            return Err;
          }
          out := out + [Letter(h.env.(attempts := h.attempts), h.reason)];
        }
      }
      assert ids[..|ids|] == ids;
      letters := Ok(out);
    }

    /** Both round trips with nothing in between. */
    method ReadDeadLetters(lane: Lane, limit: nat) returns (letters: Result<seq<Letter>>)
      requires Valid()
      ensures letters.Ok? ==> letters.value == Take(ToLetters(Pick(view.dead, OnLane(view.dead, lane))), limit)
      ensures letters.Err? <==> exists id :: id in DeadIds(Take(OfLane(view.dead, lane), limit)) &&
                                             id in deadJob && deadJob[id].attempts > U32_MAX
    {
      LettersAre(Space(), lane, limit);
      MembersAre(Space(), lane, limit);
      var ids := ReadMembers(lane, limit);
      letters := FetchLetters(ids);
    }

    /** The sum of ZCARD over the active priorities. */
    method PendingCount(lane: Lane) returns (total: nat)
      requires Valid()
      ensures total == Tally(JobsOnLane(view.jobs, lane))
    {
      AllLevels(Space(), lane);
      var all := PriosOf(prios, lane);
      var todo := all;
      total := 0;
      while todo != {}
        invariant todo <= all && total == |IdsAt(job, lane, all - todo)|
        decreases todo
      {
        var p :| p in todo;
        LevelCount(Space(), lane, p);
        LevelsAdd(job, lane, all - todo, p);
        assert all - todo + {p} == all - (todo - {p});
        todo := todo - {p};
        total := total + |ZOf(lanes, lane, p)|;
      }
      assert all - todo == all;
    }
  }
}
