/**
 The cron scheduler: many instances may run the same schedules against one store.
 The store's watermark lets each occurrence through once; each instance's cursors
 move forward only and never go back for an occurrence that was missed.
 */
module Scheduler {
  import opened Types
  import opened Contract
  import opened Accounting
  import opened Effects
  import opened FanInRuns
  import opened Origins
  import opened Receipts

  // ------------------------------------------------------- the store's watermark

  lemma EventMarks(cfg: Config, s: Store, e: Event)
    requires Enabled(cfg, s, e) && !e.Watermarked? && !e.Unscheduled?
    ensures Fire(cfg, s, e).schedules == s.schedules
  {
  }

  lemma {:induction false} BurialMarks(cfg: Config, s: Store, lane: Lane, now: nat, bs: seq<Event>)
    requires Burials(lane, now, bs) && Trace(cfg, s, bs)
    ensures Reach(cfg, s, bs).schedules == s.schedules
    decreases |bs|
  {
    if bs != [] {
      EventMarks(cfg, s, bs[0]);
      BurialMarks(cfg, Fire(cfg, s, bs[0]), lane, now, bs[1..]);
    }
  }

  lemma {:induction false} BatchMarks(s: Store, batch: seq<NewJob>, now: nat)
    ensures InsertAll(s, batch, now).store.schedules == s.schedules
  {
    if batch != [] {
      BatchMarks(s, batch[..|batch| - 1], now);
    }
  }

  lemma ReserveMarks(cfg: Config, s: Store, lane: Lane, receipt: Receipt, now: nat, o: Outcome)
    requires ReserveAny(cfg, s, lane, receipt, now, o)
    ensures o.store.schedules == s.schedules && o.reply.Reserved?
  {
    var bs, got, swept :|
      && SweepAny(cfg, Lapse(s, now), lane, receipt, now, MAX_DEAD_LETTER_SWEEP, bs, got, swept)
      && o == Outcome(swept.store, swept.reply, [Lapsed(now)] + swept.log);
    BurialMarks(cfg, Lapse(s, now), lane, now, bs);
  }

  ghost predicate Accepts(op: Op, reply: Reply, sid: ScheduleId) {
    op.EnqueueScheduled? && op.schedule == sid && reply == Claimed(true)
  }

  /** The schedule's watermark is as it was. */
  ghost predicate MarkSame(s: Store, t: Store, sid: ScheduleId) {
    && (sid in t.schedules <==> sid in s.schedules)
    && (sid in s.schedules ==> t.schedules[sid] == s.schedules[sid])
  }

  /**
   Only a removal forgets a watermark and only an accepted claim moves it; a claim is
   accepted exactly when its occurrence is above the watermark.
   */
  lemma StepMarks(cfg: Config, s: Store, op: Op, now: nat, o: Outcome, sid: ScheduleId)
    requires StepAny(cfg, s, op, now, o)
    ensures op == RemoveSchedule(sid) ==> sid !in o.store.schedules
    ensures op != RemoveSchedule(sid) && !Accepts(op, o.reply, sid) ==> MarkSame(s, o.store, sid)
    ensures Accepts(op, o.reply, sid) ==> sid in o.store.schedules && o.store.schedules[sid] == op.occurrence
    ensures op.EnqueueScheduled? && op.schedule == sid ==>
              (Accepts(op, o.reply, sid) <==> (sid in s.schedules ==> s.schedules[sid] < op.occurrence))
  {
    match op
    case EnqueueBatch(jobs) => BatchMarks(s, jobs, now);
    case Reserve(lane, receipt) => ReserveMarks(cfg, s, lane, receipt, now, o);
    case _ =>
  }

  ghost predicate NeverRemoved(calls: seq<Call>, sid: ScheduleId, m: nat, n: nat) {
    forall k :: m <= k < n && k < |calls| ==> calls[k].op != RemoveSchedule(sid)
  }

  /** Call `k` claimed an occurrence of the schedule, which was not removed from then up to call `n`. */
  ghost predicate AcceptedSince(calls: seq<Call>, outs: seq<Outcome>, sid: ScheduleId, k: nat, n: nat)
    requires |calls| == |outs|
  {
    k < n <= |calls| && Accepts(calls[k].op, outs[k].reply, sid) && NeverRemoved(calls, sid, k + 1, n)
  }

  /** The watermark is the largest occurrence accepted since the last removal. */
  ghost predicate MarkIsLargest(calls: seq<Call>, outs: seq<Outcome>, sid: ScheduleId, n: nat)
    requires |calls| == |outs| && n <= |calls|
  {
    var marks := At(outs, n).schedules;
    && (sid in marks ==> exists k: nat :: AcceptedSince(calls, outs, sid, k, n) && calls[k].op.occurrence == marks[sid])
    && (forall k: nat :: AcceptedSince(calls, outs, sid, k, n) ==> sid in marks && calls[k].op.occurrence <= marks[sid])
  }

  /** One call on, each earlier claim still counts unless the schedule was removed. */
  lemma SinceOneMore(calls: seq<Call>, outs: seq<Outcome>, sid: ScheduleId, k: nat, n: nat)
    requires |calls| == |outs| && k < n < |calls|
    ensures AcceptedSince(calls, outs, sid, k, n + 1) <==>
            AcceptedSince(calls, outs, sid, k, n) && calls[n].op != RemoveSchedule(sid)
  {
  }

  lemma MarkMoves(cfg: Config, calls: seq<Call>, outs: seq<Outcome>, sid: ScheduleId, n: nat)
    requires IsRun(cfg, calls, outs) && n < |calls| && MarkIsLargest(calls, outs, sid, n)
    ensures MarkIsLargest(calls, outs, sid, n + 1)
  {
    assert CallMade(cfg, calls, outs, n);
    var op, s, t := calls[n].op, At(outs, n), At(outs, n + 1);
    StepMarks(cfg, s, op, calls[n].now, outs[n], sid);
    forall k: nat | AcceptedSince(calls, outs, sid, k, n + 1)
      ensures sid in t.schedules && calls[k].op.occurrence <= t.schedules[sid]
    {
      if k < n {
        SinceOneMore(calls, outs, sid, k, n);
      }
    }
    if sid in t.schedules {
      if Accepts(op, outs[n].reply, sid) {
        assert AcceptedSince(calls, outs, sid, n, n + 1);
      } else {
        var k: nat :| AcceptedSince(calls, outs, sid, k, n) && calls[k].op.occurrence == s.schedules[sid];
        SinceOneMore(calls, outs, sid, k, n);
      }
    }
  }

  lemma {:induction false} MarksAreLargest(cfg: Config, calls: seq<Call>, outs: seq<Outcome>, sid: ScheduleId, n: nat)
    requires IsRun(cfg, calls, outs) && n <= |calls|
    ensures MarkIsLargest(calls, outs, sid, n)
  {
    if n > 0 {
      MarksAreLargest(cfg, calls, outs, sid, n - 1);
      MarkMoves(cfg, calls, outs, sid, n - 1);
    }
  }

  /**
   Whichever instances make the calls, a claim is accepted exactly when its occurrence
   exceeds every occurrence accepted since the schedule was last removed.
   */
  lemma ClaimIff(cfg: Config, calls: seq<Call>, outs: seq<Outcome>, sid: ScheduleId, n: nat)
    requires IsRun(cfg, calls, outs) && n < |calls|
    requires calls[n].op.EnqueueScheduled? && calls[n].op.schedule == sid
    ensures Accepts(calls[n].op, outs[n].reply, sid) <==>
            forall k: nat :: AcceptedSince(calls, outs, sid, k, n) ==> calls[k].op.occurrence < calls[n].op.occurrence
  {
    assert CallMade(cfg, calls, outs, n);
    StepMarks(cfg, At(outs, n), calls[n].op, calls[n].now, outs[n], sid);
    MarksAreLargest(cfg, calls, outs, sid, n);
  }

  /** So accepted occurrences strictly increase for as long as the schedule is not removed. */
  lemma AcceptedIncrease(cfg: Config, calls: seq<Call>, outs: seq<Outcome>, sid: ScheduleId, i: nat, k: nat)
    requires IsRun(cfg, calls, outs) && i < k < |calls| && NeverRemoved(calls, sid, i, k)
    requires Accepts(calls[i].op, outs[i].reply, sid) && Accepts(calls[k].op, outs[k].reply, sid)
    ensures calls[i].op.occurrence < calls[k].op.occurrence
  {
    ClaimIff(cfg, calls, outs, sid, k);
    assert AcceptedSince(calls, outs, sid, i, k);
  }

  /** And the first claim after a removal is accepted, whatever was accepted before. */
  lemma FreshAfterRemoval(cfg: Config, calls: seq<Call>, outs: seq<Outcome>, sid: ScheduleId, r: nat, n: nat)
    requires IsRun(cfg, calls, outs) && r < n < |calls| && calls[r].op == RemoveSchedule(sid)
    requires forall k :: r < k < n ==> !Accepts(calls[k].op, outs[k].reply, sid)
    requires calls[n].op.EnqueueScheduled? && calls[n].op.schedule == sid
    ensures Accepts(calls[n].op, outs[n].reply, sid)
  {
    ClaimIff(cfg, calls, outs, sid, n);
    forall k: nat ensures !AcceptedSince(calls, outs, sid, k, n) {
    }
  }

  function StoredIn(log: seq<Event>): nat {
    if log == [] then 0 else (if log[0].Stored? then 1 else 0) + StoredIn(log[1..])
  }

  /**
   An accepted occurrence stores exactly one job, unless its id is live or its key held, and then
   none; a refused one stores none.
   */
  lemma OneJobPerClaim(cfg: Config, s: Store, op: Op, now: nat, o: Outcome)
    requires op.EnqueueScheduled? && StepAny(cfg, s, op, now, o)
    ensures var fresh_ := !LiveId(s, op.job.id) && (op.job.key.Some? ==> op.job.key.value !in s.unique);
            && StoredIn(o.log) == (if o.reply == Claimed(true) && fresh_ then 1 else 0)
            && |o.store.jobs| == |s.jobs| + StoredIn(o.log)
  {
    ClaimEffect(cfg, s, op.schedule, op.occurrence, op.job, now, o);
    assert o == ScheduledStep(s, op.schedule, op.occurrence, op.job, now);
    if o.reply.won {
      var rest := o.log[1..];
      assert o.log == [Watermarked(op.schedule, op.occurrence)] + rest;
      assert StoredIn(o.log) == StoredIn(rest);
      if rest != [] {
        assert rest == [Stored(op.job, now)] && rest[1..] == [];
        assert StoredIn(rest) == 1 + StoredIn(rest[1..]);
      }
    }
  }

  /** The job of an accepted occurrence waits in the queue, if its id was never stored and it has no key. */
  lemma ClaimedJobWaits(cfg: Config, calls: seq<Call>, outs: seq<Outcome>, n: nat)
    requires IsRun(cfg, calls, outs) && n < |calls| && calls[n].op.EnqueueScheduled? && calls[n].op.job.key.None?
    requires outs[n].reply == Claimed(true) && Entries(History(outs, 0, n), calls[n].op.job.id) == 0
    ensures StateOf(outs[n].store, calls[n].op.job.id) == Live
    ensures exists i :: 0 <= i < |outs[n].store.jobs| && IsNew(outs[n].store.jobs[i], calls[n].op.job, calls[n].now)
  {
    var s, op, t := At(outs, n), calls[n].op, outs[n].store;
    assert CallMade(cfg, calls, outs, n);
    UntouchedBefore(cfg, calls, outs, n, op.job.id);
    StateIff(s, op.job.id);
    ClaimEffect(cfg, s, op.schedule, op.occurrence, op.job, calls[n].now, outs[n]);
    assert IsNew(t.jobs[|s.jobs|], op.job, calls[n].now);
  }

  // ------------------------------------------------------------- the cursors

  const SECOND: nat := 1_000_000_000

  /** One firing: the occurrence, when the loop found it due, and the reading once it was done. */
  datatype Firing = Firing(occurrence: int, start: int, end: int)

  /** `next_after`: a whole second strictly later than the given instant. */
  ghost predicate IsCron(next: (nat, int) -> int) {
    forall i, t :: next(i, t) > t && next(i, t) % SECOND == 0
  }

  /** Only due occurrences fire, and none that was due before the previous firing ended. */
  ghost predicate InTurn(fires: seq<Firing>) {
    && (forall m :: 0 <= m < |fires| ==>
                      fires[m].occurrence <= fires[m].start <= fires[m].end && fires[m].occurrence % SECOND == 0)
    && (forall m, n :: 0 <= m < n < |fires| ==> fires[m].end < fires[n].occurrence)
  }

  /** An entry's cursor: the first occurrence after its last reading, which nothing fired has reached. */
  ghost predicate EntryOk(next: (nat, int) -> int, i: nat, cursor: int, seen: int, fires: seq<Firing>, clock: int) {
    && InTurn(fires) && cursor == next(i, seen) && seen <= clock
    && forall m :: 0 <= m < |fires| ==> fires[m].end <= seen
  }

  /** Occurrences strictly increase, also as the whole seconds the store compares. */
  lemma FiringsIncrease(fires: seq<Firing>, m: nat, n: nat)
    requires InTurn(fires) && m < n < |fires|
    ensures fires[m].occurrence < fires[n].occurrence
    ensures fires[m].occurrence / SECOND < fires[n].occurrence / SECOND
  {
  }

  /** A pass over an entry: it fires if it is due, and its cursor skips all that was due before the fire ended. */
  ghost predicate Passed(next: (nat, int) -> int, i: nat, now: int, after: int,
                         cursor: int, fires: seq<Firing>, cursor': int, fires': seq<Firing>) {
    if cursor <= now then
      fires' == fires + [Firing(cursor, now, after)] && cursor' == next(i, after)
    else
      fires' == fires && cursor' == cursor
  }

  /**
   A due entry's turn adds exactly one firing, of the occurrence its cursor stood at, and moves the
   cursor past the end of that firing; another entry's turn changes nothing.
   */
  lemma TurnFiresOnce(next: (nat, int) -> int, i: nat, now: int, after: int,
                      cursor: int, fires: seq<Firing>, cursor': int, fires': seq<Firing>)
    requires IsCron(next) && Passed(next, i, now, after, cursor, fires, cursor', fires')
    ensures cursor > now ==> cursor' == cursor && fires' == fires
    ensures cursor <= now ==>
              && |fires'| == |fires| + 1 && fires'[..|fires|] == fires
              && fires'[|fires|].occurrence == cursor && fires'[|fires|].start == now && fires'[|fires|].end == after
              && cursor' > after && cursor' % SECOND == 0
  {
  }

  class CronScheduler {
    const next: (nat, int) -> int
    const resilient: bool
    var cursors: seq<int>

    /** What each entry fired so far, and the reading its cursor was computed from. */
    ghost var fired: seq<seq<Firing>>
    ghost var seen: seq<int>
    ghost var clock: int

    ghost predicate Valid()
      reads this
    {
      && |fired| == |cursors| == |seen| && IsCron(next)
      && forall i :: 0 <= i < |cursors| ==> EntryOk(next, i, cursors[i], seen[i], fired[i], clock)
    }

    /** Each cursor starts at the first occurrence after now: earlier ones are not made up for. */
    constructor (entries: nat, next: (nat, int) -> int, resilient: bool, now: int)
      requires IsCron(next)
      ensures Valid() && |cursors| == entries && this.next == next && this.resilient == resilient && clock == now
      ensures forall i :: 0 <= i < entries ==> cursors[i] == next(i, now) && fired[i] == []
    {
      this.next := next;
      this.resilient := resilient;
      var cs: seq<int> := [];
      for i := 0 to entries
        invariant |cs| == i && forall k :: 0 <= k < i ==> cs[k] == next(k, now)
      {
        cs := cs + [next(i, now)];
      }
      cursors := cs;
      fired := seq(entries, _ => []);
      seen := seq(entries, _ => now);
      clock := now;
    }

    /** The entry fires and its cursor skips everything up to `after`. */
    method Advance(i: nat, now: int, after: int)
      requires Valid() && i < |cursors| && cursors[i] <= now <= after && clock <= after
      requires seen[i] <= now
      modifies this
      ensures Valid() && clock == after && |cursors| == |old(cursors)|
      ensures cursors == old(cursors)[i := next(i, after)] && seen == old(seen)[i := after]
      ensures fired == old(fired)[i := old(fired)[i] + [Firing(old(cursors)[i], now, after)]]
    {
      assert EntryOk(next, i, cursors[i], seen[i], fired[i], clock);
      ghost var firing := Firing(cursors[i], now, after);
      fired := fired[i := fired[i] + [firing]];
      seen := seen[i := after];
      cursors := cursors[i := next(i, after)];
      clock := after;
      forall k | 0 <= k < |cursors| ensures EntryOk(next, k, cursors[k], seen[k], fired[k], clock) {
        assert EntryOk(next, k, old(cursors)[k], old(seen)[k], old(fired)[k], old(clock));
      }
    }

    /** Every cursor was computed from a reading no later than the clock. */
    lemma SeenBefore(now: int)
      requires Valid() && clock <= now
      ensures forall i :: 0 <= i < |cursors| ==> seen[i] <= now
    {
      forall i | 0 <= i < |cursors| ensures seen[i] <= now {
        assert EntryOk(next, i, cursors[i], seen[i], fired[i], clock);
      }
    }

    /**
     One pass of the loop: every due entry fires once. `afters[i]` is the clock read
     after entry `i` fired, `oks[i]` whether its fire succeeded. Unless the scheduler is
     resilient the pass stops at the first failure, which `stop` then names: entries
     before it have had their turn, it and the later ones are as they were.
     */
    method FireDue(now: int, afters: seq<int>, oks: seq<bool>) returns (stop: Option<nat>)
      requires Valid() && clock <= now && |afters| == |oks| == |cursors|
      requires forall i :: 0 <= i < |afters| ==> now <= afters[i]
      requires forall i, k :: 0 <= i < k < |afters| ==> afters[i] <= afters[k]
      modifies this
      ensures Valid() && |cursors| == |old(cursors)|
      ensures stop.None? <==> resilient || forall i :: 0 <= i < |oks| && old(cursors)[i] <= now ==> oks[i]
      ensures stop.Some? ==>
                && stop.value < |oks| && old(cursors)[stop.value] <= now && !oks[stop.value]
                && forall i :: 0 <= i < stop.value && old(cursors)[i] <= now ==> oks[i]
      ensures forall i :: 0 <= i < |cursors| ==>
                if stop.None? || i < stop.value
                then Passed(next, i, now, afters[i], old(cursors)[i], old(fired)[i], cursors[i], fired[i])
                else cursors[i] == old(cursors)[i] && fired[i] == old(fired)[i]
    {
      ghost var seen0 := seen;
      SeenBefore(now);
      for i := 0 to |cursors|
        invariant Valid() && |cursors| == |old(cursors)|
        invariant clock <= now || exists m :: 0 <= m < i && clock == afters[m]
        invariant forall k :: i <= k < |cursors| ==>
                    cursors[k] == old(cursors)[k] && fired[k] == old(fired)[k] && seen[k] == seen0[k]
        invariant forall k :: 0 <= k < i && old(cursors)[k] <= now ==> resilient || oks[k]
        invariant forall k :: 0 <= k < i ==>
                    Passed(next, k, now, afters[k], old(cursors)[k], old(fired)[k], cursors[k], fired[k])
      {
        if cursors[i] <= now {
          if !oks[i] && !resilient {
            return Some(i);
          }
          Advance(i, now, afters[i]);
        }
      }
      stop := None;
    }
  }
}
