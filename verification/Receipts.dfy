/**
 Authority of receipts, over every run any backend may produce: the invariant holds
 at every point, a receipt resolves its job at most once, and a receipt that was
 once rejected is rejected for good.
 */
module Receipts {
  import opened Types
  import opened Contract
  import opened Invariant

  // ------------------------------------------------------------ along a log

  /** 1 while `r` is the current receipt of a live job. */
  ghost function Current(s: Store, r: Receipt): nat {
    if NotCurrent(s.jobs, r) then 0 else 1
  }

  function Issue(e: Event, r: Receipt): nat {
    if e.Leased? && e.receipt == r then 1 else 0
  }

  /** A use that ends the reservation: everything but the heartbeat. */
  function Final(e: Event, r: Receipt): nat {
    if e.Resolved? && e.receipt == r && !e.how.Extend? then 1 else 0
  }

  function Issues(log: seq<Event>, r: Receipt): nat {
    if log == [] then 0 else Issue(log[0], r) + Issues(log[1..], r)
  }

  function Finals(log: seq<Event>, r: Receipt): nat {
    if log == [] then 0 else Final(log[0], r) + Finals(log[1..], r)
  }

  lemma {:induction false} CountsJoin(a: seq<Event>, b: seq<Event>, r: Receipt)
    ensures Issues(a + b, r) == Issues(a, r) + Issues(b, r)
    ensures Finals(a + b, r) == Finals(a, r) + Finals(b, r)
  {
    if a == [] {
      assert a + b == b;
    } else {
      assert (a + b)[1..] == a[1..] + b;
      CountsJoin(a[1..], b, r);
    }
  }

  lemma RemoveRetires(s: Store, i: nat, r: Receipt)
    requires Inv(s) && i < |s.jobs|
    ensures NotCurrent(s.jobs, r) || s.jobs[i].receipt == Some(r) ==> NotCurrent(Without(s, i).jobs, r)
  {
  }

  /** One event: a final use retires its receipt, and only a lease makes one current. */
  lemma EventReceipts(cfg: Config, s: Store, e: Event, r: Receipt)
    requires Inv(s) && Enabled(cfg, s, e)
    ensures Final(e, r) + Current(Fire(cfg, s, e), r) <= Current(s, r) + Issue(e, r)
  {
    if e.Buried? || (e.Resolved? && (e.how.Ack? || e.how.Fail?)) {
      RemoveRetires(s, e.index, r);
    }
  }

  /** Every receipt the log issues is issued once, and is not already in use. */
  ghost predicate FreshLog(s: Store, log: seq<Event>) {
    forall r :: Current(s, r) + Issues(log, r) <= 1
  }

  /** One event on, the invariant holds and the rest of the log is still fresh. */
  lemma StepsOn(cfg: Config, s: Store, log: seq<Event>)
    requires Inv(s) && Trace(cfg, s, log) && FreshLog(s, log) && log != []
    ensures Inv(Fire(cfg, s, log[0])) && FreshLog(Fire(cfg, s, log[0]), log[1..])
  {
    var e := log[0];
    assert FreshFor(s, e) by {
      if e.Leased? {
        assert Current(s, e.receipt) + Issues(log, e.receipt) <= 1;
      }
    }
    EventKeepsInv(cfg, s, e);
    forall q ensures Current(Fire(cfg, s, e), q) + Issues(log[1..], q) <= 1 {
      EventReceipts(cfg, s, e, q);
      assert Current(s, q) + Issues(log, q) <= 1;
    }
  }

  lemma {:induction false} TraceReceipts(cfg: Config, s: Store, log: seq<Event>, r: Receipt)
    requires Inv(s) && Trace(cfg, s, log) && FreshLog(s, log)
    ensures Inv(Reach(cfg, s, log))
    ensures Finals(log, r) + Current(Reach(cfg, s, log), r) <= Current(s, r) + Issues(log, r)
    decreases |log|
  {
    if log != [] {
      StepsOn(cfg, s, log);
      TraceReceipts(cfg, Fire(cfg, s, log[0]), log[1..], r);
      EventReceipts(cfg, s, log[0], r);
    }
  }

  // ------------------------------------------------------------ along a run

  datatype Call = Call(now: nat, op: Op)

  /** The store before call `n`. */
  ghost function At(outs: seq<Outcome>, n: nat): Store
    requires n <= |outs|
  {
    if n == 0 then EMPTY_STORE else outs[n - 1].store
  }

  ghost predicate CallMade(cfg: Config, calls: seq<Call>, outs: seq<Outcome>, n: nat)
    requires n < |calls| == |outs|
  {
    StepAny(cfg, At(outs, n), calls[n].op, calls[n].now, outs[n])
  }

  /** `outs` are the outcomes of making `calls` in turn on an empty broker. */
  ghost predicate IsRun(cfg: Config, calls: seq<Call>, outs: seq<Outcome>) {
    |outs| == |calls| && forall n :: 0 <= n < |calls| ==> CallMade(cfg, calls, outs, n)
  }

  /** Everything that happened from call `m` up to call `n`. */
  ghost function History(outs: seq<Outcome>, m: nat, n: nat): seq<Event>
    requires m <= n <= |outs|
  {
    if m == n then [] else History(outs, m, n - 1) + outs[n - 1].log
  }

  lemma {:induction false} HistorySplit(outs: seq<Outcome>, m: nat, k: nat, n: nat)
    requires m <= k <= n <= |outs|
    ensures History(outs, m, n) == History(outs, m, k) + History(outs, k, n)
  {
    if k < n {
      HistorySplit(outs, m, k, n - 1);
    }
  }

  lemma {:induction false} HistoryPrefix(outs: seq<Outcome>, more: seq<Outcome>, n: nat)
    requires n <= |outs| && outs <= more
    ensures History(more, 0, n) == History(outs, 0, n)
  {
    if n > 0 {
      HistoryPrefix(outs, more, n - 1);
    }
  }

  /** Any further allowed call makes a run one call longer. */
  lemma RunExtends(cfg: Config, calls: seq<Call>, outs: seq<Outcome>, op: Op, now: nat, o: Outcome)
    requires IsRun(cfg, calls, outs) && StepAny(cfg, At(outs, |calls|), op, now, o)
    ensures IsRun(cfg, calls + [Call(now, op)], outs + [o]) && At(outs + [o], |calls| + 1) == o.store
    ensures History(outs + [o], 0, |calls| + 1) == History(outs, 0, |calls|) + o.log
  {
    var calls', outs' := calls + [Call(now, op)], outs + [o];
    forall n | 0 <= n < |calls'| ensures CallMade(cfg, calls', outs', n) {
      if n < |calls| {
        assert CallMade(cfg, calls, outs, n);
      }
    }
    HistoryPrefix(outs, outs', |calls|);
  }

  /** What a backend's method promises of one call makes a run that ends in `s` one that ends in `t`. */
  lemma AllowedExtends(cfg: Config, calls: seq<Call>, outs: seq<Outcome>, op: Op, now: nat, t: Store, reply: Reply)
    returns (o: Outcome)
    requires IsRun(cfg, calls, outs) && Allowed(cfg, At(outs, |calls|), op, now, t, reply)
    ensures IsRun(cfg, calls + [Call(now, op)], outs + [o]) && At(outs + [o], |calls| + 1) == t && o.reply == reply
  {
    o :| StepAny(cfg, At(outs, |calls|), op, now, o) && o.store == t && o.reply == reply;
    RunExtends(cfg, calls, outs, op, now, o);
  }

  /** Receipts are random: no two reserves mint the same one. */
  ghost predicate ReceiptsFresh(calls: seq<Call>) {
    forall i, k :: 0 <= i < k < |calls| && calls[i].op.Reserve? && calls[k].op.Reserve? ==>
                     calls[i].op.receipt != calls[k].op.receipt
  }

  lemma {:induction false} BurialsIssueNothing(lane: Lane, now: nat, bs: seq<Event>, r: Receipt)
    requires Burials(lane, now, bs)
    ensures Issues(bs, r) == 0
  {
    if bs != [] {
      BurialsIssueNothing(lane, now, bs[1..], r);
    }
  }

  lemma {:induction false} InsertAllIssuesNothing(s: Store, jobs: seq<NewJob>, now: nat, r: Receipt)
    ensures Issues(InsertAll(s, jobs, now).log, r) == 0
  {
    if jobs != [] {
      var n := |jobs| - 1;
      var front := InsertAll(s, jobs[..n], now);
      InsertAllIssuesNothing(s, jobs[..n], now, r);
      CountsJoin(front.log, Insert(front.store, jobs[n], now).log, r);
    }
  }

  function HandedOut(op: Op, reply: Reply, r: Receipt): nat {
    if op.Reserve? && op.receipt == r && reply.Reserved? && reply.reservation.Some? then 1 else 0
  }

  lemma ReserveIssues(cfg: Config, s: Store, lane: Lane, receipt: Receipt, now: nat, o: Outcome, r: Receipt)
    requires ReserveAny(cfg, s, lane, receipt, now, o)
    ensures Issues(o.log, r) == HandedOut(Reserve(lane, receipt), o.reply, r)
  {
    var bs, got, swept :|
      && SweepAny(cfg, Lapse(s, now), lane, receipt, now, MAX_DEAD_LETTER_SWEEP, bs, got, swept)
      && o == Outcome(swept.store, swept.reply, [Lapsed(now)] + swept.log);
    BurialsIssueNothing(lane, now, bs, r);
    CountsJoin([Lapsed(now)], swept.log, r);
    if got.Some? {
      CountsJoin(bs, [Leased(lane, got.value, receipt, now)], r);
    }
  }

  /** Only a reserve issues, and only its own receipt, once, exactly when it hands a job out. */
  lemma StepIssues(cfg: Config, s: Store, op: Op, now: nat, o: Outcome, r: Receipt)
    requires StepAny(cfg, s, op, now, o)
    ensures Issues(o.log, r) == HandedOut(op, o.reply, r)
  {
    match op
    case EnqueueBatch(jobs) => InsertAllIssuesNothing(s, jobs, now, r);
    case Reserve(lane, receipt) => ReserveIssues(cfg, s, lane, receipt, now, o, r);
    case EnqueueScheduled(sid, occurrence, job) =>
      if o.reply.won {
        CountsJoin([Watermarked(sid, occurrence)], o.log[1..], r);
      }
    case _ =>
  }

  /** The receipts in a call's log are the one it handed out, if any. */
  ghost predicate Issuing(op: Op, o: Outcome) {
    forall r :: Issues(o.log, r) == HandedOut(op, o.reply, r)
  }

  /** What the laws need to know of one call: its events, and the receipt it issued. */
  ghost predicate Logged(cfg: Config, s: Store, op: Op, o: Outcome) {
    Leads(cfg, s, o.log, o.store) && Issuing(op, o)
  }

  ghost predicate LoggedRun(cfg: Config, calls: seq<Call>, outs: seq<Outcome>) {
    && |outs| == |calls|
    && (forall n :: 0 <= n < |calls| ==> CallLeads(cfg, outs, n))
    && IssuingRun(calls, outs)
  }

  ghost predicate CallLeads(cfg: Config, outs: seq<Outcome>, n: nat)
    requires n < |outs|
  {
    Leads(cfg, At(outs, n), outs[n].log, At(outs, n + 1))
  }

  ghost predicate IssuingRun(calls: seq<Call>, outs: seq<Outcome>) {
    |outs| == |calls| && forall n :: 0 <= n < |calls| ==> Issuing(calls[n].op, outs[n])
  }

  lemma StepIsLogged(cfg: Config, s: Store, op: Op, now: nat, o: Outcome)
    requires StepAny(cfg, s, op, now, o)
    ensures Logged(cfg, s, op, o)
  {
    StepLeads(cfg, s, op, now, o);
    forall r ensures Issues(o.log, r) == HandedOut(op, o.reply, r) {
      StepIssues(cfg, s, op, now, o, r);
    }
  }

  lemma RunIsLogged(cfg: Config, calls: seq<Call>, outs: seq<Outcome>)
    requires IsRun(cfg, calls, outs)
    ensures LoggedRun(cfg, calls, outs)
  {
    forall n | 0 <= n < |calls|
      ensures CallLeads(cfg, outs, n) && Issuing(calls[n].op, outs[n])
    {
      assert CallMade(cfg, calls, outs, n);
      StepIsLogged(cfg, At(outs, n), calls[n].op, calls[n].now, outs[n]);
    }
  }

  lemma {:induction false} RunLeads(cfg: Config, calls: seq<Call>, outs: seq<Outcome>, m: nat, n: nat)
    requires LoggedRun(cfg, calls, outs) && m <= n <= |calls|
    ensures Leads(cfg, At(outs, m), History(outs, m, n), At(outs, n))
  {
    if m < n {
      RunLeads(cfg, calls, outs, m, n - 1);
      assert CallLeads(cfg, outs, n - 1);
      LeadsJoin(cfg, At(outs, m), History(outs, m, n - 1), At(outs, n - 1), outs[n - 1].log, At(outs, n));
    }
  }

  ghost predicate ReservedWith(calls: seq<Call>, outs: seq<Outcome>, k: nat, r: Receipt)
    requires k < |calls| == |outs|
  {
    HandedOut(calls[k].op, outs[k].reply, r) == 1
  }

  /** The receipts issued between calls `m` and `n` are those of the successful reserves among them. */
  lemma {:induction false} HistoryIssues(calls: seq<Call>, outs: seq<Outcome>, m: nat, n: nat, r: Receipt)
    requires IssuingRun(calls, outs) && ReceiptsFresh(calls) && m <= n <= |calls|
    ensures Issues(History(outs, m, n), r) <= 1
    ensures Issues(History(outs, m, n), r) == 1 <==> exists k :: m <= k < n && ReservedWith(calls, outs, k, r)
  {
    if m < n {
      HistoryIssues(calls, outs, m, n - 1, r);
      assert Issuing(calls[n - 1].op, outs[n - 1]);
      CountsJoin(History(outs, m, n - 1), outs[n - 1].log, r);
      assert ReservedWith(calls, outs, n - 1, r) <==> HandedOut(calls[n - 1].op, outs[n - 1].reply, r) == 1;
    }
  }

  lemma HistoryFresh(cfg: Config, calls: seq<Call>, outs: seq<Outcome>, n: nat)
    requires LoggedRun(cfg, calls, outs) && ReceiptsFresh(calls) && n <= |calls|
    ensures FreshLog(EMPTY_STORE, History(outs, 0, n))
  {
    forall r ensures Current(EMPTY_STORE, r) + Issues(History(outs, 0, n), r) <= 1 {
      HistoryIssues(calls, outs, 0, n, r);
    }
  }

  lemma HistoryReceipts(cfg: Config, calls: seq<Call>, outs: seq<Outcome>, n: nat, r: Receipt)
    requires LoggedRun(cfg, calls, outs) && ReceiptsFresh(calls) && n <= |calls|
    ensures Inv(At(outs, n))
    ensures Finals(History(outs, 0, n), r) + Current(At(outs, n), r) <= Issues(History(outs, 0, n), r)
  {
    RunLeads(cfg, calls, outs, 0, n);
    HistoryFresh(cfg, calls, outs, n);
    TraceReceipts(cfg, EMPTY_STORE, History(outs, 0, n), r);
  }

  /** The broker invariant holds at every point of every run. */
  lemma RunKeepsInvariant(cfg: Config, calls: seq<Call>, outs: seq<Outcome>, n: nat)
    requires IsRun(cfg, calls, outs) && ReceiptsFresh(calls) && n <= |calls|
    ensures Inv(At(outs, n))
  {
    RunIsLogged(cfg, calls, outs);
    HistoryReceipts(cfg, calls, outs, n, 0);
  }

  /** At most one of ack, retry, defer and fail ever succeeds with a given receipt. */
  lemma ReceiptResolvesOnce(cfg: Config, calls: seq<Call>, outs: seq<Outcome>, n: nat, r: Receipt)
    requires IsRun(cfg, calls, outs) && ReceiptsFresh(calls) && n <= |calls|
    ensures Finals(History(outs, 0, n), r) + Current(At(outs, n), r) <= 1
  {
    RunIsLogged(cfg, calls, outs);
    HistoryReceipts(cfg, calls, outs, n, r);
    HistoryIssues(calls, outs, 0, n, r);
  }

  /** The call used `r` for good: an accepted ack, retry, defer or fail. */
  function UsedUp(op: Op, reply: Reply, r: Receipt): nat {
    if op.Resolve? && op.receipt == r && !op.how.Extend? && reply == Done then 1 else 0
  }

  lemma {:induction false} BurialsUseNothing(lane: Lane, now: nat, bs: seq<Event>, r: Receipt)
    requires Burials(lane, now, bs)
    ensures Finals(bs, r) == 0
  {
    if bs != [] {
      BurialsUseNothing(lane, now, bs[1..], r);
    }
  }

  lemma {:induction false} InsertAllUsesNothing(s: Store, jobs: seq<NewJob>, now: nat, r: Receipt)
    ensures Finals(InsertAll(s, jobs, now).log, r) == 0
  {
    if jobs != [] {
      var n := |jobs| - 1;
      var front := InsertAll(s, jobs[..n], now);
      InsertAllUsesNothing(s, jobs[..n], now, r);
      CountsJoin(front.log, Insert(front.store, jobs[n], now).log, r);
    }
  }

  lemma ReserveUsesNothing(cfg: Config, s: Store, lane: Lane, receipt: Receipt, now: nat, o: Outcome, r: Receipt)
    requires ReserveAny(cfg, s, lane, receipt, now, o)
    ensures Finals(o.log, r) == 0 && o.reply.Reserved?
  {
    var bs, got, swept :|
      && SweepAny(cfg, Lapse(s, now), lane, receipt, now, MAX_DEAD_LETTER_SWEEP, bs, got, swept)
      && o == Outcome(swept.store, swept.reply, [Lapsed(now)] + swept.log);
    BurialsUseNothing(lane, now, bs, r);
    CountsJoin([Lapsed(now)], swept.log, r);
    if got.Some? {
      CountsJoin(bs, [Leased(lane, got.value, receipt, now)], r);
    }
  }

  /** A call's log ends a reservation exactly when the call was an accepted final use of its receipt. */
  lemma StepUsesUp(cfg: Config, s: Store, op: Op, now: nat, o: Outcome, r: Receipt)
    requires StepAny(cfg, s, op, now, o)
    ensures Finals(o.log, r) == UsedUp(op, o.reply, r)
  {
    match op
    case EnqueueBatch(jobs) => InsertAllUsesNothing(s, jobs, now, r);
    case Reserve(lane, receipt) => ReserveUsesNothing(cfg, s, lane, receipt, now, o, r);
    case EnqueueScheduled(sid, occurrence, job) =>
      if o.reply.won {
        CountsJoin([Watermarked(sid, occurrence)], o.log[1..], r);
      }
    case _ =>
  }

  /** Final uses of a receipt among the first `n` calls. */
  ghost function FinalsBy(outs: seq<Outcome>, n: nat, r: Receipt): nat
    requires n <= |outs|
  {
    if n == 0 then 0 else FinalsBy(outs, n - 1, r) + Finals(outs[n - 1].log, r)
  }

  lemma {:induction false} FinalsAdd(outs: seq<Outcome>, n: nat, r: Receipt)
    requires n <= |outs|
    ensures FinalsBy(outs, n, r) == Finals(History(outs, 0, n), r)
  {
    if n > 0 {
      FinalsAdd(outs, n - 1, r);
      CountsJoin(History(outs, 0, n - 1), outs[n - 1].log, r);
    }
  }

  lemma {:induction false} FinalsGrow(outs: seq<Outcome>, m: nat, n: nat, r: Receipt)
    requires m <= n <= |outs|
    ensures FinalsBy(outs, m, r) <= FinalsBy(outs, n, r)
  {
    if m < n {
      FinalsGrow(outs, m, n - 1, r);
    }
  }

  lemma OneCall(cfg: Config, calls: seq<Call>, outs: seq<Outcome>, n: nat, r: Receipt)
    requires IsRun(cfg, calls, outs) && n < |calls|
    ensures FinalsBy(outs, n + 1, r) == FinalsBy(outs, n, r) + UsedUp(calls[n].op, outs[n].reply, r)
  {
    assert CallMade(cfg, calls, outs, n);
    StepUsesUp(cfg, At(outs, n), calls[n].op, calls[n].now, outs[n], r);
  }

  lemma FinalsAtMostOne(cfg: Config, calls: seq<Call>, outs: seq<Outcome>, n: nat, r: Receipt)
    requires IsRun(cfg, calls, outs) && ReceiptsFresh(calls) && n <= |calls|
    ensures FinalsBy(outs, n, r) <= 1
  {
    ReceiptResolvesOnce(cfg, calls, outs, n, r);
    FinalsAdd(outs, n, r);
  }

  /** Of all calls that use a receipt for good, at most one is accepted. */
  lemma OneFinalUse(cfg: Config, calls: seq<Call>, outs: seq<Outcome>, i: nat, k: nat, r: Receipt)
    requires IsRun(cfg, calls, outs) && ReceiptsFresh(calls) && i < k < |calls|
    requires UsedUp(calls[i].op, outs[i].reply, r) == 1
    ensures UsedUp(calls[k].op, outs[k].reply, r) == 0
  {
    FinalsAtMostOne(cfg, calls, outs, k + 1, r);
    FinalsGrow(outs, i + 1, k, r);
    OneCall(cfg, calls, outs, i, r);
    OneCall(cfg, calls, outs, k, r);
  }

  lemma StaleMeansGone(cfg: Config, s: Store, r: Receipt, how: How, now: nat, o: Outcome)
    requires Inv(s) && StepAny(cfg, s, Resolve(r, how), now, o)
    ensures o.reply.Stale? ==> NotCurrent(o.store.jobs, r)
    ensures NotCurrent(s.jobs, r) ==> o.reply.Stale?
  {
  }

  /** A receipt not current at call `m`, and not issued from there on, is still not current at call `n`. */
  lemma StaysGone(cfg: Config, calls: seq<Call>, outs: seq<Outcome>, m: nat, n: nat, r: Receipt)
    requires LoggedRun(cfg, calls, outs) && ReceiptsFresh(calls) && m <= n <= |calls|
    requires NotCurrent(At(outs, m).jobs, r) && Issues(History(outs, m, n), r) == 0
    ensures NotCurrent(At(outs, n).jobs, r)
  {
    HistoryReceipts(cfg, calls, outs, m, r);
    RunLeads(cfg, calls, outs, m, n);
    forall q ensures Current(At(outs, m), q) + Issues(History(outs, m, n), q) <= 1 {
      HistoryReceipts(cfg, calls, outs, m, q);
      HistoryIssues(calls, outs, 0, n, q);
      HistorySplit(outs, 0, m, n);
      CountsJoin(History(outs, 0, m), History(outs, m, n), q);
    }
    TraceReceipts(cfg, At(outs, m), History(outs, m, n), r);
  }

  lemma CallOnReceipt(cfg: Config, calls: seq<Call>, outs: seq<Outcome>, n: nat)
    requires IsRun(cfg, calls, outs) && n < |calls| && calls[n].op.Resolve? && Inv(At(outs, n))
    ensures outs[n].reply.Stale? ==> NotCurrent(At(outs, n + 1).jobs, calls[n].op.receipt)
    ensures NotCurrent(At(outs, n).jobs, calls[n].op.receipt) ==> outs[n].reply.Stale?
  {
    assert CallMade(cfg, calls, outs, n);
    StaleMeansGone(cfg, At(outs, n), calls[n].op.receipt, calls[n].op.how, calls[n].now, outs[n]);
  }

  lemma NotReissued(calls: seq<Call>, outs: seq<Outcome>, j: nat, m: nat, n: nat, r: Receipt)
    requires IssuingRun(calls, outs) && ReceiptsFresh(calls)
    requires j < m <= n <= |calls| && ReservedWith(calls, outs, j, r)
    ensures Issues(History(outs, m, n), r) == 0
  {
    HistoryIssues(calls, outs, m, n, r);
  }

  /**
   Once any use of an issued receipt is rejected, every later use is rejected,
   whatever the clock reads at each call.
   */
  lemma RejectedForGood(cfg: Config, calls: seq<Call>, outs: seq<Outcome>, j: nat, m: nat, n: nat, r: Receipt)
    requires IsRun(cfg, calls, outs) && ReceiptsFresh(calls)
    requires j < m < n < |calls| && ReservedWith(calls, outs, j, r)
    requires calls[m].op.Resolve? && calls[m].op.receipt == r && outs[m].reply.Stale?
    requires calls[n].op.Resolve? && calls[n].op.receipt == r
    ensures outs[n].reply.Stale?
  {
    RunKeepsInvariant(cfg, calls, outs, m);
    RunKeepsInvariant(cfg, calls, outs, n);
    CallOnReceipt(cfg, calls, outs, m);
    CallOnReceipt(cfg, calls, outs, n);
    RunIsLogged(cfg, calls, outs);
    NotReissued(calls, outs, j, m + 1, n, r);
    StaysGone(cfg, calls, outs, m + 1, n, r);
  }
}
