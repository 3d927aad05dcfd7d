/** The SQLite broker, proved to answer and act as the in-memory broker does, call by call. */
module Sqlite {
  import opened Types
  import opened Lists
  import opened Contract
  import opened Invariant
  import opened SqliteTables
  import opened SqliteDead
  import opened Batches

  /** The one input on which insertion answers differently: a live id and a key held by another job. */
  ghost predicate Clash(s: Store, job: NewJob) {
    && HasId(s.jobs, job.id) && job.key.Some? && job.key.value in s.unique
    && s.unique[job.key.value] != job.id
  }

  /** The answer of a broker that looks the key up before the id. */
  ghost function KeyFirst(s: Store, job: NewJob): JobId {
    if job.key.Some? && job.key.value in s.unique then s.unique[job.key.value] else job.id
  }

  lemma KeyFirstIff(s: Store, job: NewJob, now: nat)
    ensures Id(KeyFirst(s, job)) == Insert(s, job, now).reply <==> !Clash(s, job)
  {
  }

  ghost predicate AnsweredFirst(s: Store, batch: seq<NewJob>, now: nat, ids: seq<JobId>, k: nat)
    requires k < |ids| && k < |batch|
  {
    ids[k] == KeyFirst(Before(s, batch, now, k), batch[k])
  }

  /** The batch's `k`-th answer is the contract's, unless that job clashed at its turn. */
  ghost predicate Answered(s: Store, batch: seq<NewJob>, now: nat, ids: seq<JobId>, k: nat)
    requires k < |ids| && k < |batch|
  {
    ids[k] == InsertAll(s, batch, now).reply.ids[k] <==> !Clash(Before(s, batch, now, k), batch[k])
  }

  lemma BatchAnswered(s: Store, batch: seq<NewJob>, now: nat, ids: seq<JobId>, k: nat)
    requires k < |ids| && k < |batch| && AnsweredFirst(s, batch, now, ids, k)
    ensures Answered(s, batch, now, ids, k)
  {
    AnswerAt(s, batch, now, k);
    KeyFirstIff(Before(s, batch, now, k), batch[k], now);
  }

  // ------------------------------------------------------------------ lookups

  /** `ORDER BY ... LIMIT 1` over the reservable rows. */
  predicate IsBest(rows: seq<Row>, lane: Lane, now: nat, i: nat) {
    && i < |rows| && Reservable(rows[i], lane, now)
    && forall k :: 0 <= k < |rows| && k != i && Reservable(rows[k], lane, now) ==> Sorts(rows[i], rows[k])
  }

  lemma ReservableIff(d: Db, lane: Lane, i: nat)
    requires Sound(d) && NoneExpired(d.store.jobs, d.now) && i < |d.jobs| && i < |d.store.jobs|
    ensures Reservable(d.jobs[i], lane, d.now) <==> Visible(d.store.jobs[i], lane, d.now)
  {
    Parts(d);
    assert RowAt(d.jobs, d.store.jobs, i, d.now);
  }

  lemma SortsIff(d: Db, lane: Lane, i: nat, k: nat)
    requires Sound(d) && i < |d.jobs| && k < |d.jobs| && i < |d.store.jobs| && k < |d.store.jobs| && i != k
    requires Visible(d.store.jobs[i], lane, d.now) && Visible(d.store.jobs[k], lane, d.now)
    ensures Sorts(d.jobs[i], d.jobs[k]) <==> Ahead(d.store.jobs, i, k)
  {
    Parts(d);
    assert RowAt(d.jobs, d.store.jobs, i, d.now) && RowAt(d.jobs, d.store.jobs, k, d.now);
  }

  /** The query's first row is the first job, and there is one exactly when a job is visible. */
  lemma BestIff(d: Db, lane: Lane)
    requires Sound(d) && NoneExpired(d.store.jobs, d.now)
    ensures |d.jobs| == |d.store.jobs|
    ensures forall i: nat :: IsBest(d.jobs, lane, d.now, i) <==> IsFirst(d.store.jobs, lane, d.now, i)
    ensures (exists i: nat :: IsBest(d.jobs, lane, d.now, i)) <==> AnyVisible(d.store.jobs, lane, d.now)
  {
    Parts(d);
    forall k | 0 <= k < |d.jobs| ensures Reservable(d.jobs[k], lane, d.now) <==> Visible(d.store.jobs[k], lane, d.now) {
      ReservableIff(d, lane, k);
    }
    forall i: nat ensures IsBest(d.jobs, lane, d.now, i) <==> IsFirst(d.store.jobs, lane, d.now, i) {
      if i < |d.jobs| && Visible(d.store.jobs[i], lane, d.now) {
        forall k | 0 <= k < |d.jobs| && k != i && Visible(d.store.jobs[k], lane, d.now)
          ensures Sorts(d.jobs[i], d.jobs[k]) <==> Ahead(d.store.jobs, i, k)
        {
          SortsIff(d, lane, i, k);
        }
      }
    }
    SomeFirst(d.store.jobs, lane, d.now);
  }

  /** `find_valid_row`: the row with the receipt, if its lease still runs. */
  predicate ValidRow(rows: seq<Row>, receipt: Receipt, now: nat, i: nat) {
    && i < |rows| && rows[i].receipt == Some(receipt)
    && rows[i].leasedUntil.Some? && rows[i].leasedUntil.value > now
  }

  lemma ValidRowIff(d: Db, receipt: Receipt)
    requires Sound(d)
    ensures |d.jobs| == |d.store.jobs|
    ensures var at := Holder(d.store.jobs, receipt);
            forall i: nat :: ValidRow(d.jobs, receipt, d.now, i) <==>
                             at == Some(i) && !Expired(d.store.jobs[at.value], d.now)
  {
    Parts(d);
    var at := Holder(d.store.jobs, receipt);
    forall i: nat
      ensures ValidRow(d.jobs, receipt, d.now, i) <==> at == Some(i) && !Expired(d.store.jobs[at.value], d.now)
    {
      if i < |d.jobs| {
        assert RowAt(d.jobs, d.store.jobs, i, d.now);
      }
    }
  }

  class SqliteBroker {
    var jobs: seq<Row>
    var unique: map<Key, nat>
    var dead: seq<DeadRow>
    var schedules: map<ScheduleId, int>
    const settings: Settings
    const cfg: Config := SqlConfig(settings)

    /** The contract's store these tables stand for. */
    ghost var view: Store
    /** The latest clock reading. */
    ghost var clock: nat

    ghost function Base(): Db
      reads this
    {
      Db(jobs, unique, dead, schedules, view, clock)
    }

    ghost predicate Valid()
      reads this
    {
      Sound(Base())
    }

    constructor (settings: Settings)
      ensures Valid() && view == EMPTY_STORE && clock == 0 && this.settings == settings
    {
      jobs, unique, dead, schedules := [], map[], [], map[];
      this.settings := settings;
      view, clock := EMPTY_STORE, 0;
      new;
      SoundEmpty(0);
    }

    ghost method Tick(now: nat)
      requires Valid() && clock <= now < I64_MAX
      modifies this`clock
      ensures Valid() && clock == now
    {
      SoundLater(Base(), now);
      clock := now;
    }

    // ---------------------------------------------------------------- enqueue

    /** `insert_job`: the key is looked up first, then the id is inserted unless it is taken. */
    method InsertJob(new_: NewJob, now: nat) returns (id: JobId)
      requires Valid() && clock == now && !HasDead(view.dead, new_.id)
      modifies this
      ensures Valid() && clock == now && view == Insert(old(view), new_, now).store
      ensures id == KeyFirst(old(view), new_) && view.dead == old(view).dead
    {
      Parts(Base());
      if new_.key.Some? && new_.key.value in unique {
        var at := KeyHolder(new_.key.value);
        return jobs[at].env.id;
      }
      id := new_.id;
      assert KeyFree(view, new_.key) by {
        if new_.key.Some? && new_.key.value in view.unique {
          KeyKnown(Base(), new_.key.value);
        }
      }
      IdKnown(Base(), id);
      if !(exists i :: 0 <= i < |jobs| && jobs[i].env.id == id) {
        var env := FreshEnvelope(new_);
        var row := Row(NextNum(jobs), env, env.lane, env.priority, Nanos(AddTime(now, new_.delay)), None, None, 0);
        SoundNew(Base(), row, Job(env, AddTime(now, new_.delay), None, None, new_.key, 0));
        jobs := jobs + [row];
        if new_.key.Some? {
          unique := unique[new_.key.value := row.num];
        }
        view := Place(view, new_, now);
      }
    }

    /** The join of `unique_keys` with `jobs`: the holder of a key. */
    method KeyHolder(key: Key) returns (at: nat)
      requires Valid() && key in unique
      ensures at < |jobs| && key in view.unique && view.unique[key] == jobs[at].env.id
    {
      KeyKnown(Base(), key);
      var found := Seek(jobs, unique[key]);
      at := found.value;
    }

    /** The store changes as the contract says; the answer differs exactly on a clash. */
    method Enqueue(new_: NewJob, now: nat) returns (id: JobId)
      requires Valid() && clock <= now < I64_MAX && !HasDead(view.dead, new_.id)
      modifies this
      ensures Valid() && clock == now
      ensures var o := Step(cfg, old(view), Contract.Enqueue(new_), now);
              view == o.store && (Id(id) == o.reply <==> !Clash(old(view), new_))
      ensures id == KeyFirst(old(view), new_)
    {
      Tick(now);
      KeyFirstIff(view, new_, now);
      id := InsertJob(new_, now);
    }

    /** One transaction, one clock reading; each answer differs exactly on a clash at its turn. */
    method EnqueueBatch(batch: seq<NewJob>, now: nat) returns (ids: seq<JobId>)
      requires Valid() && clock <= now < I64_MAX
      requires forall k :: 0 <= k < |batch| ==> !HasDead(view.dead, batch[k].id)
      modifies this
      ensures Valid() && clock == now
      ensures view == Step(cfg, old(view), Contract.EnqueueBatch(batch), now).store && |ids| == |batch|
      ensures forall k :: 0 <= k < |batch| ==> Answered(old(view), batch, now, ids, k)
    {
      Tick(now);
      ids := [];
      for i := 0 to |batch|
        invariant Valid() && clock == now && view.dead == old(view).dead && |ids| == i
        invariant view == InsertAll(old(view), batch[..i], now).store
        invariant forall k :: 0 <= k < i ==> AnsweredFirst(old(view), batch, now, ids, k)
      {
        assert batch[..i + 1][..i] == batch[..i];
        ghost var before := ids;
        var id := InsertJob(batch[i], now);
        ids := ids + [id];
        forall k | 0 <= k < i + 1 ensures AnsweredFirst(old(view), batch, now, ids, k) {
          if k < i {
            assert AnsweredFirst(old(view), batch, now, before, k);
          }
        }
      }
      assert batch[..|batch|] == batch;
      forall k | 0 <= k < |batch| ensures Answered(old(view), batch, now, ids, k) {
        BatchAnswered(old(view), batch, now, ids, k);
      }
    }

    // ------------------------------------------------------------- resolution

    /** `find_valid_row`: on `None` the receipt is rejected, whatever it was for. */
    method FindValidRow(receipt: Receipt, now: nat) returns (at: Option<nat>)
      requires Valid() && clock <= now < I64_MAX
      modifies this`view, this`clock
      ensures Valid() && clock == now
      ensures at.Some? ==>
                && view == old(view) && at.value < |jobs| && at == Holder(view.jobs, receipt)
                && !Expired(view.jobs[at.value], now) && RowIs(jobs[at.value], view.jobs[at.value], now)
                && jobs[at.value].receipt == Some(receipt)
      ensures at.None? ==> Rejected(cfg, old(view), receipt, now, view)
    {
      Tick(now);
      ValidRowIff(Base(), receipt);
      if i: nat :| i < |jobs| && ValidRow(jobs, receipt, now, i) {
        at := Some(i);
        Parts(Base());
        assert RowAt(jobs, view.jobs, i, now);
      } else {
        at := None;
        ghost var holder := Holder(view.jobs, receipt);
        if holder.Some? {
          assert !ValidRow(jobs, receipt, now, holder.value);
          SoundForgotten(Base(), holder.value);
          view := Put(view, holder.value, Unleased(view.jobs[holder.value]));
        }
      }
    }

    /** `UPDATE jobs` on one row, in step with the store. */
    method Change(at: nat, row: Row, ghost j: Job)
      requires Valid() && at < |jobs| && at < |view.jobs| && row.num == jobs[at].num && RowIs(row, j, clock)
      requires j.env.id == view.jobs[at].env.id && j.key == view.jobs[at].key
      requires row.receipt.Some? ==> row.receipt == jobs[at].receipt || UnusedReceipt(jobs, row.receipt.value)
      requires j.leasedUntil.Some? <==> j.receipt.Some?
      requires j.receipt.Some? ==> j.receipt == view.jobs[at].receipt || NotCurrent(view.jobs, j.receipt.value)
      modifies this
      ensures Valid() && clock == old(clock) && view == Put(old(view), at, j)
    {
      SoundPut(Base(), at, row, j);
      jobs := UpdateJob(jobs, row);
      view := Put(view, at, j);
    }

    method Ack(receipt: Receipt, now: nat) returns (ok: bool)
      requires Valid() && clock <= now < I64_MAX
      modifies this
      ensures Valid() && clock == now && Resolves(cfg, old(view), receipt, How.Ack, now, view, ok)
    {
      var at := FindValidRow(receipt, now);
      ok := at.Some?;
      if ok {
        Parts(Base());
        var num := jobs[at.value].num;
        SoundWithout(Base(), at.value);
        unique := FreeNum(unique, num);
        jobs := DeleteJob(jobs, num);
        view := Without(view, at.value);
      } else {
        assert RejectedUse(cfg, old(view), receipt, How.Ack, now, view);
      }
    }

    method Retry(receipt: Receipt, delay: nat, now: nat) returns (ok: bool)
      requires Valid() && clock <= now < I64_MAX
      modifies this
      ensures Valid() && clock == now && Resolves(cfg, old(view), receipt, How.Retry(delay), now, view, ok)
    {
      var at := FindValidRow(receipt, now);
      ok := at.Some?;
      if ok {
        var row := jobs[at.value];
        Change(at.value, row.(env := row.env.(attempts := Bump(row.env.attempts)),
                              availableAt := Nanos(AddTime(now, delay)), leasedUntil := None, receipt := None),
               Use(cfg, view, at.value, How.Retry(delay), now, |view.dead|).jobs[at.value]);
      } else {
        assert RejectedUse(cfg, old(view), receipt, How.Retry(delay), now, view);
      }
    }

    method Defer(receipt: Receipt, delay: nat, now: nat) returns (ok: bool)
      requires Valid() && clock <= now < I64_MAX
      modifies this
      ensures Valid() && clock == now && Resolves(cfg, old(view), receipt, How.Defer(delay), now, view, ok)
    {
      var at := FindValidRow(receipt, now);
      ok := at.Some?;
      if ok {
        var row := jobs[at.value];
        Change(at.value, row.(availableAt := Nanos(AddTime(now, delay)), leasedUntil := None, receipt := None),
               Use(cfg, view, at.value, How.Defer(delay), now, |view.dead|).jobs[at.value]);
      } else {
        assert RejectedUse(cfg, old(view), receipt, How.Defer(delay), now, view);
      }
    }

    method Extend(receipt: Receipt, now: nat) returns (ok: bool)
      requires Valid() && clock <= now < I64_MAX
      modifies this
      ensures Valid() && clock == now && Resolves(cfg, old(view), receipt, How.Extend, now, view, ok)
    {
      var at := FindValidRow(receipt, now);
      ok := at.Some?;
      if ok {
        var row := jobs[at.value];
        Change(at.value, row.(leasedUntil := Some(Nanos(AddTime(now, cfg.lease)))),
               Use(cfg, view, at.value, How.Extend, now, |view.dead|).jobs[at.value]);
      } else {
        assert RejectedUse(cfg, old(view), receipt, How.Extend, now, view);
      }
    }

    /** The side table's key for a row. */
    method KeyHeldBy(at: nat) returns (key: Option<Key>)
      requires Valid() && at < |jobs| && at < |view.jobs|
      ensures key == view.jobs[at].key
    {
      key := None;
      if k :| k in unique && unique[k] == jobs[at].num {
        KeyOfRow(Base(), at, k);
        key := Some(k);
      } else if view.jobs[at].key.Some? {
        KeyOfRow(Base(), at, view.jobs[at].key.value);
      }
    }

    /** `dead_letter_seq`. */
    method DeadLetterSeq(at: nat, reason: Reason, now: nat)
      requires Valid() && clock == now && at < |jobs| && at < |view.jobs|
      modifies this
      ensures Valid() && clock == now && view == Bury(cfg, old(view), at, reason, now, |old(view).dead|)
      ensures jobs == RemoveAt(old(jobs), at)
    {
      Parts(Base());
      SeekFinds(jobs, at);
      var num, env := jobs[at].num, jobs[at].env;
      var key := KeyHeldBy(at);
      SoundBuried(cfg, Base(), at, reason);
      dead := DeadAfter(cfg.retention, dead, DeadRec(env, reason, key, now), now);
      unique := FreeNum(unique, num);
      jobs := DeleteJob(jobs, num);
      view := Bury(cfg, view, at, reason, now, |view.dead|);
    }

    method Fail(receipt: Receipt, text: int, now: nat) returns (ok: bool)
      requires Valid() && clock <= now < I64_MAX
      modifies this
      ensures Valid() && clock == now && Resolves(cfg, old(view), receipt, How.Fail(text), now, view, ok)
    {
      var at := FindValidRow(receipt, now);
      ok := at.Some?;
      if ok {
        DeadLetterSeq(at.value, Given(text), now);
      } else {
        assert RejectedUse(cfg, old(view), receipt, How.Fail(text), now, view);
      }
    }

    // ---------------------------------------------------------------- reserve

    /** An expired lease counts as none; the store forgets them all, the rows keep them. */
    ghost method LapseAll(now: nat)
      requires Valid() && clock <= now < I64_MAX
      modifies this`view, this`clock
      ensures Valid() && clock == now && view == Lapse(old(view), now) && NoneExpired(view.jobs, now)
    {
      Tick(now);
      SoundLapsed(Base());
      view := Lapse(view, now);
    }

    /** The row `reserve` would lease next, if any. */
    method BestRow(lane: Lane, now: nat) returns (best: Option<nat>)
      requires Valid() && clock == now && NoneExpired(view.jobs, now)
      ensures best == First(view.jobs, lane, now) && (best.Some? ==> best.value < |jobs| && best.value < |view.jobs|)
      ensures best.Some? ==>
                RowIs(jobs[best.value], view.jobs[best.value], now) && Visible(view.jobs[best.value], lane, now)
    {
      BestIff(Base(), lane);
      if i: nat :| i < |jobs| && IsBest(jobs, lane, now, i) {
        best := Some(i);
        FirstUnique(view.jobs, lane, now, i, First(view.jobs, lane, now).value);
        Parts(Base());
        assert RowAt(jobs, view.jobs, i, now);
      } else {
        best := None;
      }
    }

    /** The leasing UPDATE. */
    method LeaseRow(at: nat, receipt: Receipt, now: nat) returns (got: Option<Reservation>)
      requires Valid() && clock == now && NoneExpired(view.jobs, now) && UnusedReceipt(jobs, receipt)
      requires at < |jobs| && at < |view.jobs| && RowIs(jobs[at], view.jobs[at], now)
      modifies this
      ensures Valid() && clock == now
      ensures view == Put(old(view), at, LeaseJob(cfg, old(view).jobs[at], receipt, now))
      ensures got == Some(Reservation(old(view).jobs[at].env, receipt, cfg.lease))
    {
      Parts(Base());
      UnusedNotCurrent(Base(), receipt);
      var row := jobs[at];
      Change(at, row.(receipt := Some(receipt), leasedUntil := Some(Nanos(AddTime(now, cfg.lease))),
                      deliveries := row.deliveries + 1),
             LeaseJob(cfg, view.jobs[at], receipt, now));
      got := Some(Reservation(row.env, receipt, cfg.lease));
    }

    /** The unbounded path: one statement leases the first visible job. */
    method ReserveUnbounded(lane: Lane, receipt: Receipt, now: nat) returns (got: Option<Reservation>)
      requires Valid() && clock == now && NoneExpired(view.jobs, now) && UnusedReceipt(jobs, receipt)
      requires cfg.maxDeliveries.None?
      modifies this
      ensures Valid() && clock == now
      ensures var o := Sweep(cfg, old(view), lane, receipt, now, MAX_DEAD_LETTER_SWEEP);
              view == o.store && Reserved(got) == o.reply
    {
      var best := BestRow(lane, now);
      if best.None? {
        return None;
      }
      got := LeaseRow(best.value, receipt, now);
    }

    /** The bounded path: jobs over their delivery budget are dead-lettered on the way. */
    method ReserveBounded(lane: Lane, receipt: Receipt, now: nat) returns (got: Option<Reservation>)
      requires Valid() && clock == now && NoneExpired(view.jobs, now) && UnusedReceipt(jobs, receipt)
      requires cfg.maxDeliveries.Some?
      modifies this
      ensures Valid() && clock == now
      ensures var o := Sweep(cfg, old(view), lane, receipt, now, MAX_DEAD_LETTER_SWEEP);
              view == o.store && Reserved(got) == o.reply
    {
      ghost var goal := Sweep(cfg, view, lane, receipt, now, MAX_DEAD_LETTER_SWEEP);
      var swept := 0;
      while true
        invariant Valid() && clock == now && NoneExpired(view.jobs, now) && UnusedReceipt(jobs, receipt)
        invariant swept < MAX_DEAD_LETTER_SWEEP
        invariant var rest := Sweep(cfg, view, lane, receipt, now, MAX_DEAD_LETTER_SWEEP - swept);
                  rest.store == goal.store && rest.reply == goal.reply
        decreases MAX_DEAD_LETTER_SWEEP - swept
      {
        var best := BestRow(lane, now);
        if best.None? {
          return None;
        }
        var i := best.value;
        if jobs[i].deliveries + 1 > cfg.maxDeliveries.value {
          ghost var rows, listed := jobs, view.jobs;
          DeadLetterSeq(i, OverDelivered(cfg.maxDeliveries.value), now);
          RemoveKeeps(rows, listed, i, receipt, now);
          swept := swept + 1;
          if swept >= MAX_DEAD_LETTER_SWEEP {
            return None;
          }
        } else {
          got := LeaseRow(i, receipt, now);
          return;
        }
      }
    }

    method Reserve(lane: Lane, receipt: Receipt, now: nat) returns (got: Option<Reservation>)
      requires Valid() && clock <= now < I64_MAX && UnusedReceipt(jobs, receipt)
      modifies this
      ensures Valid() && clock == now
      ensures var o := Step(cfg, old(view), Contract.Reserve(lane, receipt), now);
              view == o.store && Reserved(got) == o.reply
    {
      LapseAll(now);
      if cfg.maxDeliveries.None? {
        got := ReserveUnbounded(lane, receipt, now);
      } else {
        got := ReserveBounded(lane, receipt, now);
      }
    }

    // ------------------------------------------------------------ dead letters

    method Requeue(id: JobId, now: nat) returns (reply: Reply)
      requires Valid() && clock <= now < I64_MAX
      modifies this
      ensures Valid() && clock == now
      ensures var o := Step(cfg, old(view), Contract.Requeue(id), now); view == o.store && reply == o.reply
    {
      Tick(now);
      Parts(Base());
      FindDeadIs(Base(), id);
      IdKnown(Base(), id);
      var at := FindDead(dead, id);
      if at.None? {
        return NoDeadRecord;
      }
      if exists i :: 0 <= i < |jobs| && jobs[i].env.id == id {
        return LiveIdConflict;
      }
      var rec := dead[at.value].rec;
      KeyKnown(Base(), if rec.key.Some? then rec.key.value else 0);
      if rec.key.Some? && rec.key.value in unique {
        return KeyHeld;
      }
      SoundRevived(Base(), at.value);
      var num := NextNum(jobs);
      jobs := jobs + [Row(num, rec.env, rec.env.lane, rec.env.priority, now, None, None, 0)];
      if rec.key.Some? {
        unique := unique[rec.key.value := num];
      }
      dead := Pick(dead, NotId(dead, id));
      view := Revive(view, at.value, now);
      reply := Done;
    }

    method PurgeDeadLetters(lane: Lane) returns (count: nat)
      requires Valid()
      modifies this
      ensures Valid() && clock == old(clock)
      ensures var o := Step(cfg, old(view), PurgeDead(lane), clock); view == o.store && Purged(count) == o.reply
    {
      SoundPurged(Base(), lane);
      count := CountDeadLetters(lane);
      dead := Pick(dead, NotLane(dead, lane));
      view := Empty(view, lane);
    }

    // --------------------------------------------------------------- schedules

    /** The conditional upsert of the watermark, then the job. */
    method EnqueueScheduled(sid: ScheduleId, occurrence: int, new_: NewJob, now: nat) returns (won: bool)
      requires Valid() && clock <= now < I64_MAX && !HasDead(view.dead, new_.id)
      modifies this
      ensures Valid() && clock == now
      ensures var o := Step(cfg, old(view), Contract.EnqueueScheduled(sid, occurrence, new_), now);
              view == o.store && Claimed(won) == o.reply
    {
      Tick(now);
      Parts(Base());
      won := sid !in schedules || schedules[sid] < occurrence;
      if won {
        SoundMarked(Base(), schedules[sid := occurrence]);
        schedules := schedules[sid := occurrence];
        view := view.(schedules := schedules);
        var id := InsertJob(new_, now);
      }
    }

    method RemoveSchedule(sid: ScheduleId)
      requires Valid()
      modifies this
      ensures Valid() && clock == old(clock)
      ensures view == Step(cfg, old(view), Contract.RemoveSchedule(sid), clock).store
    {
      Parts(Base());
      SoundMarked(Base(), schedules - {sid});
      schedules := schedules - {sid};
      view := view.(schedules := schedules);
    }

    // ------------------------------------------------------------------- reads

    method Classify(id: JobId) returns (state: JobState)
      requires Valid()
      ensures state == StateOf(view, id)
    {
      IdKnown(Base(), id);
      FindDeadIs(Base(), id);
      if exists i :: 0 <= i < |jobs| && jobs[i].env.id == id {
        state := Live;
      } else {
        var at := FindDead(dead, id);
        state := if at.Some? then DeadLettered else CompletedOrUnknown;
      }
    }

    method CountDeadLetters(lane: Lane) returns (count: nat)
      requires Valid()
      ensures count == Tally(OnLane(view.dead, lane))
    {
      Parts(Base());
      ghost var flags := OnLane(view.dead, lane);
      count := 0;
      for i := 0 to |dead|
        invariant count == Tally(flags[..i])
      {
        assert flags[..i + 1][..i] == flags[..i];
        if dead[i].rec.env.lane == lane {
          count := count + 1;
        }
      }
      assert flags[..|dead|] == flags;
    }

    method PendingCount(lane: Lane) returns (count: nat)
      requires Valid()
      ensures count == Tally(JobsOnLane(view.jobs, lane))
    {
      Parts(Base());
      ghost var flags := JobsOnLane(view.jobs, lane);
      count := 0;
      for i := 0 to |jobs|
        invariant count == Tally(flags[..i])
      {
        assert flags[..i + 1][..i] == flags[..i];
        assert RowAt(jobs, view.jobs, i, clock);
        if jobs[i].lane == lane {
          count := count + 1;
        }
      }
      assert flags[..|jobs|] == flags;
    }

    method ReadDeadLetters(lane: Lane, limit: nat) returns (letters: seq<Letter>)
      requires Valid()
      ensures letters == Take(ToLetters(Pick(view.dead, OnLane(view.dead, lane))), limit)
    {
      Parts(Base());
      ghost var flags := OnLane(view.dead, lane);
      var all: seq<Letter> := [];
      for i := 0 to |dead|
        invariant all == ToLetters(Pick(view.dead[..i], flags[..i]))
      {
        assert flags[..i + 1][..i] == flags[..i] && view.dead[..i + 1][..i] == view.dead[..i];
        if dead[i].rec.env.lane == lane {
          all := all + [Letter(dead[i].rec.env, dead[i].rec.reason)];
        }
      }
      assert flags[..|dead|] == flags && view.dead[..|dead|] == view.dead;
      letters := Take(all, limit);
    }
  }

  /** A deletion leaves leases and receipts of the other rows alone. */
  lemma RemoveKeeps(rows: seq<Row>, jobs: seq<Job>, i: nat, receipt: Receipt, now: nat)
    requires i < |rows| && i < |jobs| && NoneExpired(jobs, now) && UnusedReceipt(rows, receipt)
    ensures NoneExpired(RemoveAt(jobs, i), now) && UnusedReceipt(RemoveAt(rows, i), receipt)
  {
  }

  ghost predicate RejectedUse(cfg: Config, s: Store, receipt: Receipt, how: How, now: nat, t: Store) {
    Resolves(cfg, s, receipt, how, now, t, false)
  }

  ghost predicate Rejected(cfg: Config, s: Store, receipt: Receipt, now: nat, t: Store) {
    forall how :: RejectedUse(cfg, s, receipt, how, now, t)
  }

  lemma KeyKnown(d: Db, key: Key)
    requires Sound(d)
    ensures key in d.unique <==> key in d.store.unique
    ensures key in d.unique ==>
              && Seek(d.jobs, d.unique[key]).Some?
              && d.jobs[Seek(d.jobs, d.unique[key]).value].env.id == d.store.unique[key]
  {
    Parts(d);
    if HoldsKey(d.store.jobs, key) {
      var i :| 0 <= i < |d.store.jobs| && d.store.jobs[i].key == Some(key);
      assert KeyAt(d.unique, d.jobs, d.store.jobs, i) && RowAt(d.jobs, d.store.jobs, i, d.now);
      SeekFinds(d.jobs, i);
    }
  }

  lemma IdKnown(d: Db, id: JobId)
    requires Sound(d)
    ensures (exists i :: 0 <= i < |d.jobs| && d.jobs[i].env.id == id) <==> HasId(d.store.jobs, id)
  {
    Parts(d);
    if i :| 0 <= i < |d.jobs| && d.jobs[i].env.id == id {
      assert RowAt(d.jobs, d.store.jobs, i, d.now);
    }
    if i :| 0 <= i < |d.store.jobs| && d.store.jobs[i].env.id == id {
      assert RowAt(d.jobs, d.store.jobs, i, d.now);
    }
  }
}
