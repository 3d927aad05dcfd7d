/**
 Two hand-outs of one job never overlap: between them its reservation was ended by
 its own receipt, or a call found the lease expired.
 */
module HandOuts {
  import opened Types
  import opened Contract
  import opened Invariant
  import opened Receipts

  /** Job `x` is reserved. */
  ghost predicate Held(s: Store, x: JobId) {
    exists i :: 0 <= i < |s.jobs| && s.jobs[i].env.id == x && s.jobs[i].leasedUntil.Some?
  }

  ghost predicate ExpiredAt(s: Store, x: JobId, at: nat) {
    exists i :: 0 <= i < |s.jobs| && s.jobs[i].env.id == x && Expired(s.jobs[i], at)
  }

  /** The event ends a reservation of `x`: a final use of its receipt, or its lease seen expired. */
  ghost predicate Frees(s: Store, e: Event, x: JobId) {
    match e
    case Lapsed(at) => ExpiredAt(s, x, at)
    case LapsedOne(i, at) => i < |s.jobs| && s.jobs[i].env.id == x && Expired(s.jobs[i], at)
    case Resolved(i, receipt, how, _, _) =>
      i < |s.jobs| && s.jobs[i].env.id == x && s.jobs[i].receipt == Some(receipt) && !how.Extend?
    case _ => false
  }

  ghost predicate HandsOut(s: Store, e: Event, x: JobId) {
    e.Leased? && e.index < |s.jobs| && s.jobs[e.index].env.id == x
  }

  lemma RemoveKeepsHeld(s: Store, i: nat, x: JobId)
    requires Held(s, x) && i < |s.jobs| && s.jobs[i].env.id != x
    ensures Held(Without(s, i), x)
  {
    var k :| 0 <= k < |s.jobs| && s.jobs[k].env.id == x && s.jobs[k].leasedUntil.Some?;
    assert Without(s, i).jobs[if k < i then k else k - 1] == s.jobs[k];
  }

  lemma PutKeepsHeld(s: Store, i: nat, j: Job, x: JobId)
    requires Held(s, x) && i < |s.jobs| && j.env.id == s.jobs[i].env.id
    requires s.jobs[i].env.id == x ==> j.leasedUntil.Some?
    ensures Held(Put(s, i, j), x)
  {
    var k :| 0 <= k < |s.jobs| && s.jobs[k].env.id == x && s.jobs[k].leasedUntil.Some?;
    assert Put(s, i, j).jobs[k].env.id == x;
  }

  lemma AppendKeepsHeld(s: Store, t: Store, x: JobId)
    requires Held(s, x) && s.jobs <= t.jobs
    ensures Held(t, x)
  {
  }

  lemma LapseKeepsHeld(s: Store, at: nat, x: JobId)
    requires Held(s, x) && !ExpiredAt(s, x, at)
    ensures Held(Lapse(s, at), x)
  {
    var k :| 0 <= k < |s.jobs| && s.jobs[k].env.id == x && s.jobs[k].leasedUntil.Some?;
    assert Lapse(s, at).jobs[k] == s.jobs[k];
  }

  lemma UseKeepsHeld(cfg: Config, s: Store, i: nat, how: How, at: nat, pos: nat, x: JobId)
    requires Held(s, x) && i < |s.jobs| && pos <= |s.dead| && (s.jobs[i].env.id == x ==> how.Extend?)
    ensures Held(Use(cfg, s, i, how, at, pos), x)
  {
    if how.Ack? || how.Fail? {
      RemoveKeepsHeld(s, i, x);
    } else {
      PutKeepsHeld(s, i, Use(cfg, s, i, how, at, pos).jobs[i], x);
    }
  }

  /** A reserved job is not handed out, and stays reserved until something frees it. */
  lemma EventKeepsHeld(cfg: Config, s: Store, e: Event, x: JobId)
    requires Inv(s) && Held(s, x) && Enabled(cfg, s, e)
    ensures !HandsOut(s, e, x)
    ensures !Frees(s, e, x) ==> Held(Fire(cfg, s, e), x)
  {
    var k :| 0 <= k < |s.jobs| && s.jobs[k].env.id == x && s.jobs[k].leasedUntil.Some?;
    if !Frees(s, e, x) {
      match e
      case Stored(job, at) => AppendKeepsHeld(s, Fire(cfg, s, e), x);
      case Lapsed(at) => LapseKeepsHeld(s, at, x);
      case LapsedOne(i, at) => PutKeepsHeld(s, i, Unleased(s.jobs[i]), x);
      case Buried(_, i, at, pos) => RemoveKeepsHeld(s, i, x);
      case Leased(_, i, receipt, at) => PutKeepsHeld(s, i, LeaseJob(cfg, s.jobs[i], receipt, at), x);
      case Resolved(i, _, how, at, pos) => UseKeepsHeld(cfg, s, i, how, at, pos, x);
      case Revived(j, at) => AppendKeepsHeld(s, Fire(cfg, s, e), x);
      case _ => AppendKeepsHeld(s, Fire(cfg, s, e), x);
    }
  }

  // ------------------------------------------------------------ along a log

  /** The `n`-th event of the log hands out `x`. */
  ghost predicate HandsOutAt(cfg: Config, s: Store, log: seq<Event>, n: nat, x: JobId)
    decreases |log|
  {
    && Trace(cfg, s, log) && n < |log|
    && if n == 0 then HandsOut(s, log[0], x)
       else HandsOutAt(cfg, Fire(cfg, s, log[0]), log[1..], n - 1, x)
  }

  /** Some event of the log's first `n` frees `x`. */
  ghost predicate FreedWithin(cfg: Config, s: Store, log: seq<Event>, n: nat, x: JobId)
    decreases |log|
  {
    && Trace(cfg, s, log) && 0 < n <= |log|
    && (Frees(s, log[0], x) || FreedWithin(cfg, Fire(cfg, s, log[0]), log[1..], n - 1, x))
  }

  /** Some event of the log after the `m`-th and before the `n`-th frees `x`. */
  ghost predicate FreedBetween(cfg: Config, s: Store, log: seq<Event>, m: nat, n: nat, x: JobId)
    decreases |log|
  {
    && Trace(cfg, s, log) && m < n <= |log|
    && var t := Fire(cfg, s, log[0]);
       if m == 0 then FreedWithin(cfg, t, log[1..], n - 1, x)
       else FreedBetween(cfg, t, log[1..], m - 1, n - 1, x)
  }

  lemma {:induction false} HeldUntilFreed(cfg: Config, s: Store, log: seq<Event>, n: nat, x: JobId)
    requires Inv(s) && FreshLog(s, log) && Held(s, x) && HandsOutAt(cfg, s, log, n, x)
    ensures FreedWithin(cfg, s, log, n, x)
    decreases |log|
  {
    EventKeepsHeld(cfg, s, log[0], x);
    if n > 0 && !Frees(s, log[0], x) {
      StepsOn(cfg, s, log);
      HeldUntilFreed(cfg, Fire(cfg, s, log[0]), log[1..], n - 1, x);
    }
  }

  lemma HandOutHolds(cfg: Config, s: Store, e: Event, x: JobId)
    requires Enabled(cfg, s, e) && HandsOut(s, e, x)
    ensures Held(Fire(cfg, s, e), x)
  {
    assert Fire(cfg, s, e).jobs[e.index].env.id == x;
  }

  lemma {:induction false} TraceSeparates(cfg: Config, s: Store, log: seq<Event>, m: nat, n: nat, x: JobId)
    requires Inv(s) && FreshLog(s, log) && m < n
    requires HandsOutAt(cfg, s, log, m, x) && HandsOutAt(cfg, s, log, n, x)
    ensures FreedBetween(cfg, s, log, m, n, x)
    decreases |log|
  {
    var t := Fire(cfg, s, log[0]);
    StepsOn(cfg, s, log);
    if m == 0 {
      HandOutHolds(cfg, s, log[0], x);
      HeldUntilFreed(cfg, t, log[1..], n - 1, x);
    } else {
      TraceSeparates(cfg, t, log[1..], m - 1, n - 1, x);
    }
  }

  /** In every run, two hand-outs of one job are separated by an event that freed it. */
  lemma HandOutsSeparated(cfg: Config, calls: seq<Call>, outs: seq<Outcome>, m: nat, n: nat, x: JobId)
    requires IsRun(cfg, calls, outs) && ReceiptsFresh(calls) && m < n
    requires HandsOutAt(cfg, EMPTY_STORE, History(outs, 0, |calls|), m, x)
    requires HandsOutAt(cfg, EMPTY_STORE, History(outs, 0, |calls|), n, x)
    ensures FreedBetween(cfg, EMPTY_STORE, History(outs, 0, |calls|), m, n, x)
  {
    RunIsLogged(cfg, calls, outs);
    HistoryFresh(cfg, calls, outs, |calls|);
    TraceSeparates(cfg, EMPTY_STORE, History(outs, 0, |calls|), m, n, x);
  }
}
