/**
 How long a lease lasts, told by the answers of later calls: from the reserve that granted it,
 or the last heartbeat, for exactly one lease duration.
 */
module Leases {
  import opened Types
  import opened Contract
  import opened Invariant
  import opened Receipts
  import opened Effects

  /** The call granted or renewed the lease that goes with the receipt. */
  predicate Grants(op: Op, reply: Reply, r: Receipt) {
    || (op.Reserve? && op.receipt == r && reply.Reserved? && reply.reservation.Some?)
    || (op == Resolve(r, Extend) && reply == Done)
  }

  /** One lease duration from `now`, as far as a duration reaches. */
  function LeaseEnd(cfg: Config, now: nat): nat {
    if now + cfg.lease <= DURATION_MAX then now + cfg.lease else DURATION_MAX
  }

  /** Whoever carries the receipt is job `x`, leased until `end`. */
  ghost predicate Under(s: Store, r: Receipt, x: JobId, end: nat) {
    forall i :: 0 <= i < |s.jobs| && s.jobs[i].receipt == Some(r) ==>
                  s.jobs[i].leasedUntil == Some(end) && s.jobs[i].env.id == x
  }

  ghost predicate Held(s: Store, r: Receipt) {
    exists i :: 0 <= i < |s.jobs| && s.jobs[i].receipt == Some(r)
  }

  // ------------------------------------------------------------------- events

  /** The event neither issues nor uses the receipt. */
  predicate ApartFrom(e: Event, r: Receipt) {
    (e.Leased? || e.Resolved?) ==> e.receipt != r
  }

  /** The event clears no lease that runs until `end`. */
  predicate Early(e: Event, end: nat) {
    (e.Lapsed? || e.LapsedOne?) ==> e.at < end
  }

  lemma EventUnder(cfg: Config, s: Store, e: Event, r: Receipt, x: JobId, end: nat)
    requires Enabled(cfg, s, e) && ApartFrom(e, r) && Under(s, r, x, end)
    ensures Under(Fire(cfg, s, e), r, x, end)
  {
    if e.Buried? || (e.Resolved? && (e.how.Ack? || e.how.Fail?)) {
      UnderWithout(s, e.index, r, x, end);
    }
  }

  lemma UnderWithout(s: Store, gone: nat, r: Receipt, x: JobId, end: nat)
    requires gone < |s.jobs| && Under(s, r, x, end)
    ensures Under(Without(s, gone), r, x, end)
  {
  }

  lemma EventHeld(cfg: Config, s: Store, e: Event, r: Receipt, x: JobId, end: nat)
    requires Enabled(cfg, s, e) && ApartFrom(e, r) && Early(e, end) && Under(s, r, x, end) && Held(s, r)
    ensures Held(Fire(cfg, s, e), r)
  {
    var i :| 0 <= i < |s.jobs| && s.jobs[i].receipt == Some(r);
    if e.Buried? || (e.Resolved? && (e.how.Ack? || e.how.Fail?)) {
      HeldWithout(s, e.index, r, i);
    } else {
      assert Fire(cfg, s, e).jobs[i].receipt == Some(r);
    }
  }

  lemma HeldWithout(s: Store, gone: nat, r: Receipt, i: nat)
    requires gone < |s.jobs| && i < |s.jobs| && i != gone && s.jobs[i].receipt == Some(r)
    ensures Held(Without(s, gone), r)
  {
    assert Without(s, gone).jobs[if i < gone then i else i - 1] == s.jobs[i];
  }

  ghost predicate AllApart(log: seq<Event>, r: Receipt) {
    forall k :: 0 <= k < |log| ==> ApartFrom(log[k], r)
  }

  ghost predicate AllEarly(log: seq<Event>, end: nat) {
    forall k :: 0 <= k < |log| ==> Early(log[k], end)
  }

  lemma {:induction false} TraceUnder(cfg: Config, s: Store, log: seq<Event>, r: Receipt, x: JobId, end: nat)
    requires Trace(cfg, s, log) && AllApart(log, r) && Under(s, r, x, end)
    ensures Under(Reach(cfg, s, log), r, x, end)
    ensures AllEarly(log, end) && Held(s, r) ==> Held(Reach(cfg, s, log), r)
    decreases |log|
  {
    if log != [] {
      EventUnder(cfg, s, log[0], r, x, end);
      if AllEarly(log, end) && Held(s, r) {
        EventHeld(cfg, s, log[0], r, x, end);
      }
      TraceUnder(cfg, Fire(cfg, s, log[0]), log[1..], r, x, end);
    }
  }

  // -------------------------------------------------------------------- calls

  /** The call neither mints nor uses the receipt. */
  predicate Elsewhere(op: Op, r: Receipt) {
    (op.Reserve? || op.Resolve?) ==> op.receipt != r
  }

  lemma {:induction false} InsertAllApart(s: Store, jobs: seq<NewJob>, now: nat, r: Receipt, end: nat)
    ensures AllApart(InsertAll(s, jobs, now).log, r) && AllEarly(InsertAll(s, jobs, now).log, end)
  {
    if jobs != [] {
      InsertAllApart(s, jobs[..|jobs| - 1], now, r, end);
    }
  }

  lemma StepApart(cfg: Config, s: Store, op: Op, now: nat, o: Outcome, r: Receipt, end: nat)
    requires StepAny(cfg, s, op, now, o) && Elsewhere(op, r)
    ensures AllApart(o.log, r) && (now < end ==> AllEarly(o.log, end))
  {
    match op
    case EnqueueBatch(jobs) => InsertAllApart(s, jobs, now, r, end);
    case _ =>
  }

  /** A call elsewhere leaves a lease alone while it runs, and never gives the receipt to another job. */
  lemma StepUnder(cfg: Config, s: Store, op: Op, now: nat, o: Outcome, r: Receipt, x: JobId, end: nat)
    requires StepAny(cfg, s, op, now, o) && Elsewhere(op, r) && Under(s, r, x, end)
    ensures Under(o.store, r, x, end) && (now < end && Held(s, r) ==> Held(o.store, r))
  {
    StepLeads(cfg, s, op, now, o);
    StepApart(cfg, s, op, now, o, r, end);
    TraceUnder(cfg, s, o.log, r, x, end);
  }

  lemma ReserveGrants(cfg: Config, s: Store, lane: Lane, now: nat, o: Outcome, r: Receipt) returns (x: JobId)
    requires StepAny(cfg, s, Reserve(lane, r), now, o) && NotCurrent(s.jobs, r)
    requires o.reply.Reserved? && o.reply.reservation.Some?
    ensures Under(o.store, r, x, LeaseEnd(cfg, now)) && Held(o.store, r)
    ensures x == o.reply.reservation.value.env.id
  {
    var t, n, got := ReserveSplits(cfg, s, lane, r, now, o);
    x := o.reply.reservation.value.env.id;
    assert o.store.jobs[got.value].receipt == Some(r);
    forall i | 0 <= i < |t.jobs| ensures t.jobs[i].receipt != Some(r) {
      assert t.jobs[i] in Lapse(s, now).jobs;
    }
  }

  /** A granted lease ends one lease duration from the call. */
  lemma StepGrants(cfg: Config, s: Store, op: Op, now: nat, o: Outcome, r: Receipt) returns (x: JobId)
    requires Inv(s) && StepAny(cfg, s, op, now, o) && Grants(op, o.reply, r) && (op.Reserve? ==> NotCurrent(s.jobs, r))
    ensures Under(o.store, r, x, LeaseEnd(cfg, now)) && Held(o.store, r)
    ensures op.Reserve? ==> x == o.reply.reservation.value.env.id
  {
    if op.Reserve? {
      x := ReserveGrants(cfg, s, op.lane, now, o, r);
    } else {
      UseAccepted(cfg, s, r, Extend, now, o);
      var i: nat :| Holds(s, r, now, i);
      ExtendEffect(cfg, s, r, now, o, i);
      x := s.jobs[i].env.id;
      assert o.store.jobs[i].receipt == Some(r);
    }
  }

  /** A use is accepted exactly while the lease runs. */
  lemma StepUse(cfg: Config, s: Store, r: Receipt, how: How, now: nat, o: Outcome, x: JobId, end: nat)
    requires Inv(s) && StepAny(cfg, s, Resolve(r, how), now, o) && Under(s, r, x, end)
    ensures o.reply == Done <==> Held(s, r) && now < end
  {
    UseAccepted(cfg, s, r, how, now, o);
    if Held(s, r) && now < end {
      var i :| 0 <= i < |s.jobs| && s.jobs[i].receipt == Some(r);
      assert Holds(s, r, now, i);
    }
  }

  /** While the lease runs no reserve hands the job out. */
  lemma StepHandsElsewhere(cfg: Config, s: Store, lane: Lane, q: Receipt, now: nat, o: Outcome,
                           r: Receipt, x: JobId, end: nat)
    requires Inv(s) && StepAny(cfg, s, Reserve(lane, q), now, o) && Under(s, r, x, end) && Held(s, r) && now < end
    ensures o.reply.Reserved? && (o.reply.reservation.Some? ==> o.reply.reservation.value.env.id != x)
  {
    ReserveEffect(cfg, s, lane, q, now, o);
    if o.reply.reservation.Some? {
      var i :| 0 <= i < |s.jobs| && s.jobs[i].receipt == Some(r);
      var m: nat, k: nat :| HandsOver(cfg, s, o.store, lane, q, now, o.reply.reservation.value, m, k);
      assert i != m;
    }
  }

  // --------------------------------------------------------------------- runs

  /** Between the two calls nothing mints or uses the receipt. */
  ghost predicate Undisturbed(calls: seq<Call>, r: Receipt, m: nat, n: nat)
    requires n <= |calls|
  {
    forall k :: m <= k < n ==> calls[k].op.Resolve? ==> calls[k].op.receipt != r
  }

  /** A receipt once granted is minted by no later reserve. */
  lemma MintedOnce(cfg: Config, calls: seq<Call>, outs: seq<Outcome>, m: nat, n: nat, r: Receipt)
    requires IsRun(cfg, calls, outs) && ReceiptsFresh(calls) && m < n < |calls| && calls[n].op.Reserve?
    requires Held(outs[m].store, r)
    ensures calls[n].op.receipt != r
  {
    RunIsLogged(cfg, calls, outs);
    HistoryReceipts(cfg, calls, outs, m + 1, r);
    HistoryIssues(calls, outs, 0, m + 1, r);
    assert !NotCurrent(At(outs, m + 1).jobs, r);
    var k :| 0 <= k < m + 1 && ReservedWith(calls, outs, k, r);
  }

  lemma FreshBefore(cfg: Config, calls: seq<Call>, outs: seq<Outcome>, m: nat, r: Receipt)
    requires IsRun(cfg, calls, outs) && ReceiptsFresh(calls) && m < |calls|
    requires calls[m].op.Reserve? && calls[m].op.receipt == r
    ensures NotCurrent(At(outs, m).jobs, r)
  {
    RunIsLogged(cfg, calls, outs);
    HistoryReceipts(cfg, calls, outs, m, r);
    HistoryIssues(calls, outs, 0, m, r);
  }

  /** The lease granted by call `m` to job `x`, as it stands before call `n`. */
  lemma {:induction false} LeaseAt(cfg: Config, calls: seq<Call>, outs: seq<Outcome>, m: nat, n: nat, r: Receipt)
    returns (x: JobId)
    requires IsRun(cfg, calls, outs) && ReceiptsFresh(calls) && m < n <= |calls|
    requires Grants(calls[m].op, outs[m].reply, r) && Undisturbed(calls, r, m + 1, n)
    ensures var end := LeaseEnd(cfg, calls[m].now);
            && Under(outs[m].store, r, x, end) && Held(outs[m].store, r) && Under(At(outs, n), r, x, end)
            && ((forall k :: m < k < n ==> calls[k].now < end) ==> Held(At(outs, n), r))
    ensures calls[m].op.Reserve? ==> x == outs[m].reply.reservation.value.env.id
  {
    if n == m + 1 {
      RunKeepsInvariant(cfg, calls, outs, m);
      if calls[m].op.Reserve? {
        FreshBefore(cfg, calls, outs, m, r);
      }
      assert CallMade(cfg, calls, outs, m);
      x := StepGrants(cfg, At(outs, m), calls[m].op, calls[m].now, outs[m], r);
    } else {
      x := LeaseAt(cfg, calls, outs, m, n - 1, r);
      if calls[n - 1].op.Reserve? {
        MintedOnce(cfg, calls, outs, m, n - 1, r);
      }
      assert CallMade(cfg, calls, outs, n - 1);
      StepUnder(cfg, At(outs, n - 1), calls[n - 1].op, calls[n - 1].now, outs[n - 1], r, x,
                LeaseEnd(cfg, calls[m].now));
    }
  }

  /**
   A lease granted or renewed by call `m`, with no other use of its receipt up to call `n` and a
   clock that does not pass the reading of `n`: a use by call `n` is accepted, if and only if
   less than one lease duration has passed.
   */
  lemma LeaseLasts(cfg: Config, calls: seq<Call>, outs: seq<Outcome>, m: nat, n: nat, r: Receipt)
    requires IsRun(cfg, calls, outs) && ReceiptsFresh(calls) && m < n < |calls|
    requires Grants(calls[m].op, outs[m].reply, r) && Undisturbed(calls, r, m + 1, n)
    requires calls[n].op.Resolve? && calls[n].op.receipt == r
    requires forall k :: m < k < n ==> calls[k].now <= calls[n].now
    ensures outs[n].reply == Done <==> calls[n].now < LeaseEnd(cfg, calls[m].now)
  {
    var x := LeaseAt(cfg, calls, outs, m, n, r);
    RunKeepsInvariant(cfg, calls, outs, n);
    assert CallMade(cfg, calls, outs, n);
    StepUse(cfg, At(outs, n), r, calls[n].op.how, calls[n].now, outs[n], x, LeaseEnd(cfg, calls[m].now));
  }

  /** Until then no reserve hands the job out again, whatever its lane and receipt. */
  lemma LeaseExcludes(cfg: Config, calls: seq<Call>, outs: seq<Outcome>, m: nat, n: nat, r: Receipt) returns (x: JobId)
    requires IsRun(cfg, calls, outs) && ReceiptsFresh(calls) && m < n < |calls|
    requires Grants(calls[m].op, outs[m].reply, r) && Undisturbed(calls, r, m + 1, n) && calls[n].op.Reserve?
    requires forall k :: m < k <= n ==> calls[k].now < LeaseEnd(cfg, calls[m].now)
    ensures exists i :: 0 <= i < |outs[m].store.jobs| && outs[m].store.jobs[i].receipt == Some(r)
                        && outs[m].store.jobs[i].env.id == x
    ensures outs[n].reply.Reserved?
    ensures outs[n].reply.reservation.Some? ==> outs[n].reply.reservation.value.env.id != x
  {
    x := LeaseAt(cfg, calls, outs, m, n, r);
    var i :| 0 <= i < |outs[m].store.jobs| && outs[m].store.jobs[i].receipt == Some(r);
    assert outs[m].store.jobs[i].env.id == x;
    RunKeepsInvariant(cfg, calls, outs, n);
    assert CallMade(cfg, calls, outs, n);
    StepHandsElsewhere(cfg, At(outs, n), calls[n].op.lane, calls[n].op.receipt, calls[n].now, outs[n],
                       r, x, LeaseEnd(cfg, calls[m].now));
  }
}
