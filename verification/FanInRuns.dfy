/**
 What the watcher's polls mean on a real broker. A dependency that is neither live nor
 dead-lettered counts as completed. Over runs this means acknowledged, exactly as long as
 none of its dead records was pruned or purged.
 */
module FanInRuns {
  import opened Types
  import opened Lists
  import opened Contract
  import opened Receipts
  import opened Accounting
  import opened FanIn

  lemma {:induction false} OccursIff(ids: seq<JobId>, x: JobId)
    ensures Occurs(ids, x) > 0 <==> x in ids
  {
    if ids != [] {
      OccursIff(ids[..|ids| - 1], x);
      assert ids == ids[..|ids| - 1] + [ids[|ids| - 1]];
    }
  }

  /** The broker's answer for a job, by where its records are. */
  lemma StateIff(s: Store, x: JobId)
    ensures StateOf(s, x).CompletedOrUnknown? <==> Alive(s, x) == 0 && Dead(s, x) == 0
    ensures StateOf(s, x).Live? <==> Alive(s, x) > 0
  {
    OccursIff(LiveIds(s.jobs), x);
    OccursIff(DeadIds(s.dead), x);
    if i :| 0 <= i < |s.jobs| && s.jobs[i].env.id == x {
      assert LiveIds(s.jobs)[i] == x;
    }
    if i :| 0 <= i < |s.dead| && s.dead[i].env.id == x {
      assert DeadIds(s.dead)[i] == x;
    }
  }

  /** The events up to call `n`, which form a trace. */
  ghost predicate Happened(cfg: Config, outs: seq<Outcome>, n: nat) {
    n <= |outs| && Trace(cfg, EMPTY_STORE, History(outs, 0, n))
  }

  ghost predicate WasAcked(cfg: Config, outs: seq<Outcome>, n: nat, x: JobId) {
    Happened(cfg, outs, n) && AckedIn(cfg, EMPTY_STORE, History(outs, 0, n), x) > 0
  }

  /** A dead record of the job was pruned or purged. */
  ghost predicate WasDropped(cfg: Config, outs: seq<Outcome>, n: nat, x: JobId) {
    Happened(cfg, outs, n) && DroppedIn(cfg, EMPTY_STORE, History(outs, 0, n), x) > 0
  }

  /** A job stored once that is neither live nor dead-lettered was acknowledged, if and only if it was not dropped. */
  lemma CompletedIff(cfg: Config, calls: seq<Call>, outs: seq<Outcome>, n: nat, x: JobId)
    requires IsRun(cfg, calls, outs) && n <= |calls| && Entries(History(outs, 0, n), x) == 1
    requires StateOf(At(outs, n), x).CompletedOrUnknown?
    ensures WasAcked(cfg, outs, n, x) <==> !WasDropped(cfg, outs, n, x)
  {
    Conservation(cfg, calls, outs, n, x);
    StateIff(At(outs, n), x);
  }

  // ------------------------------------------------------ when nothing is dropped

  /** Without bounds a burial prunes nothing. */
  lemma NothingPruned(cfg: Config, s: Store, i: nat, reason: Reason, now: nat, pos: nat, x: JobId)
    requires i < |s.jobs| && pos <= |s.dead| && cfg.retention == Retention(None, None)
    ensures Pruned(cfg, s, i, reason, now, pos, x) == 0
  {
    var dead := DeadWith(s, i, reason, now, pos);
    var gone := Negate(Kept(cfg.retention, dead, s.jobs[i].env.lane, now));
    if Pick(DeadIds(dead), gone) != [] {
      var k := PickFrom(DeadIds(dead), gone, 0);
    }
  }

  ghost predicate NonePurged(log: seq<Event>) {
    forall k :: 0 <= k < |log| ==> !log[k].Emptied?
  }

  lemma {:induction false} NothingDroppedIn(cfg: Config, s: Store, log: seq<Event>, x: JobId)
    requires Trace(cfg, s, log) && NonePurged(log) && cfg.retention == Retention(None, None)
    ensures DroppedIn(cfg, s, log, x) == 0
    decreases |log|
  {
    if log != [] {
      var e := log[0];
      if e.Buried? {
        NothingPruned(cfg, s, e.index, OverReason(cfg), e.at, e.pos, x);
      } else if e.Resolved? && e.how.Fail? {
        NothingPruned(cfg, s, e.index, Given(e.how.text), e.at, e.pos, x);
      }
      NothingDroppedIn(cfg, Fire(cfg, s, e), log[1..], x);
    }
  }

  lemma {:induction false} InsertAllPurgesNothing(s: Store, jobs: seq<NewJob>, now: nat)
    ensures NonePurged(InsertAll(s, jobs, now).log)
  {
    if jobs != [] {
      InsertAllPurgesNothing(s, jobs[..|jobs| - 1], now);
    }
  }

  /** Only a purge purges. */
  lemma StepPurgesNothing(cfg: Config, s: Store, op: Op, now: nat, o: Outcome)
    requires StepAny(cfg, s, op, now, o) && !op.PurgeDead?
    ensures NonePurged(o.log)
  {
    match op
    case EnqueueBatch(jobs) => InsertAllPurgesNothing(s, jobs, now);
    case _ =>
  }

  lemma {:induction false} HistoryPurgesNothing(cfg: Config, calls: seq<Call>, outs: seq<Outcome>, n: nat)
    requires IsRun(cfg, calls, outs) && n <= |calls| && forall k :: 0 <= k < n ==> !calls[k].op.PurgeDead?
    ensures NonePurged(History(outs, 0, n))
  {
    if n > 0 {
      HistoryPurgesNothing(cfg, calls, outs, n - 1);
      assert CallMade(cfg, calls, outs, n - 1);
      StepPurgesNothing(cfg, At(outs, n - 1), calls[n - 1].op, calls[n - 1].now, outs[n - 1]);
    }
  }

  /**
   With unbounded retention and no purge, a job stored once is neither live nor
   dead-lettered exactly when it was acknowledged.
   */
  lemma CompletedMeansAcked(cfg: Config, calls: seq<Call>, outs: seq<Outcome>, n: nat, x: JobId)
    requires IsRun(cfg, calls, outs) && n <= |calls| && Entries(History(outs, 0, n), x) == 1
    requires cfg.retention == Retention(None, None) && forall k :: 0 <= k < n ==> !calls[k].op.PurgeDead?
    ensures StateOf(At(outs, n), x).CompletedOrUnknown? <==> WasAcked(cfg, outs, n, x)
    ensures !WasDropped(cfg, outs, n, x)
  {
    Conservation(cfg, calls, outs, n, x);
    StateIff(At(outs, n), x);
    HistoryPurgesNothing(cfg, calls, outs, n);
    NothingDroppedIn(cfg, EMPTY_STORE, History(outs, 0, n), x);
  }

  /** A job that was never stored is not told apart from a completed one. */
  lemma UnknownLooksCompleted(cfg: Config, calls: seq<Call>, outs: seq<Outcome>, n: nat, x: JobId)
    requires IsRun(cfg, calls, outs) && n <= |calls| && Entries(History(outs, 0, n), x) == 0
    ensures StateOf(At(outs, n), x).CompletedOrUnknown?
  {
    Conservation(cfg, calls, outs, n, x);
    StateIff(At(outs, n), x);
  }

  // --------------------------------------------------------------- the chain

  /** Run `m` of the watcher polled the broker after call `when[m]`. */
  ghost predicate Polled(ws: seq<Watcher>, polls: seq<seq<Poll>>, outs: seq<Outcome>, when: seq<nat>, m: nat)
    requires m < |ws| == |polls| == |when|
  {
    && when[m] <= |outs| && |polls[m]| == |ws[m].deps|
    && forall i :: 0 <= i < |ws[m].deps| ==> polls[m][i].state == StateOf(At(outs, when[m]), ws[m].deps[i])
  }

  /** Every dependency was stored once before the watcher first ran, and no record of it was ever dropped. */
  ghost predicate DepsKept(cfg: Config, outs: seq<Outcome>, n: nat, deps: seq<JobId>) {
    forall i :: 0 <= i < |deps| ==>
      n <= |outs| && Entries(History(outs, 0, n), deps[i]) == 1 && !WasDropped(cfg, outs, n, deps[i])
  }

  /**
   A fired callback gets at index `i` bytes that some run of the chain read when
   dependency `i` had been acknowledged.
   */
  lemma CallbackAfterAcks(cfg: Config, calls: seq<Call>, outs: seq<Outcome>, ws: seq<Watcher>, polls: seq<seq<Poll>>,
                          when: seq<nat>, results: seq<Bytes>, i: nat)
    returns (m: nat)
    requires IsRun(cfg, calls, outs) && Chain(ws, polls) && |when| == |ws| && i < |ws[0].deps|
    requires RunsTo(ws[|ws| - 1], polls[|ws| - 1], Fired(results))
    requires forall k :: 0 <= k < |ws| ==> Polled(ws, polls, outs, when, k) && DepsKept(cfg, outs, when[k], ws[0].deps)
    ensures |results| == |ws[0].deps| && m < |ws| && SeenDone(ws, polls, m, i, results[i])
    ensures WasAcked(cfg, outs, when[m], ws[0].deps[i])
  {
    CallbackIsRight(ws, polls, results, i);
    m :| 0 <= m < |ws| && SeenDone(ws, polls, m, i, results[i]);
    ChainSound(ws, polls, m);
    assert Polled(ws, polls, outs, when, m) && DepsKept(cfg, outs, when[m], ws[0].deps);
    CompletedIff(cfg, calls, outs, when[m], ws[0].deps[i]);
  }

  // ------------------------------------------------- where the promise breaks

  lemma {:induction false} NoneAcked(cfg: Config, s: Store, log: seq<Event>, x: JobId)
    requires Trace(cfg, s, log) && forall k :: 0 <= k < |log| && log[k].Resolved? ==> !log[k].how.Ack?
    ensures AckedIn(cfg, s, log, x) == 0
    decreases |log|
  {
    if log != [] {
      NoneAcked(cfg, Fire(cfg, s, log[0]), log[1..], x);
    }
  }

  lemma {:induction false} EntriesJoin(a: seq<Event>, b: seq<Event>, x: JobId)
    ensures Entries(a + b, x) == Entries(a, x) + Entries(b, x)
  {
    if a == [] {
      assert a + b == b;
    } else {
      assert (a + b)[1..] == a[1..] + b;
      EntriesJoin(a[1..], b, x);
    }
  }

  /** The probe job, reserved. */
  function Running(cfg: Config, r: Receipt): Store {
    Put(Waiting(0), 0, LeaseJob(cfg, Waiting(0).jobs[0], r, 0))
  }

  /** A run with no acknowledgement that stored the probe job once, and has come to `s`. */
  ghost predicate Unacked(cfg: Config, calls: seq<Call>, outs: seq<Outcome>, s: Store) {
    && IsRun(cfg, calls, outs) && At(outs, |calls|) == s
    && var log := History(outs, 0, |calls|);
       && Entries(log, PROBE.id) == 1
       && forall k :: 0 <= k < |log| && log[k].Resolved? ==> !log[k].how.Ack?
  }

  lemma UnackedMore(cfg: Config, calls: seq<Call>, outs: seq<Outcome>, s: Store, op: Op)
    returns (calls': seq<Call>, outs': seq<Outcome>)
    requires Unacked(cfg, calls, outs, s) && Entries(Step(cfg, s, op, 0).log, PROBE.id) == 0
    requires var log := Step(cfg, s, op, 0).log; forall k :: 0 <= k < |log| && log[k].Resolved? ==> !log[k].how.Ack?
    ensures Unacked(cfg, calls', outs', Step(cfg, s, op, 0).store)
  {
    var o := Step(cfg, s, op, 0);
    StepIsAllowed(cfg, s, op, 0);
    RunExtends(cfg, calls, outs, op, 0, o);
    EntriesJoin(History(outs, 0, |calls|), o.log, PROBE.id);
    calls', outs' := calls + [Call(0, op)], outs + [o];
  }

  lemma FirstDelivery(cfg: Config, r: Receipt)
    requires cfg.maxDeliveries != Some(0)
    ensures var o := Step(cfg, Waiting(0), Reserve(0, r), 0);
            o.store == Running(cfg, r) && o.log == [Lapsed(0), Leased(0, 0, r, 0)] && Entries(o.log, PROBE.id) == 0
  {
    var s, log := Waiting(0), [Lapsed(0), Leased(0, 0, r, 0)];
    assert Release(s.jobs, 0) == s.jobs;
    assert IsFirst(s.jobs, 0, 0, 0);
    FirstUnique(s.jobs, 0, 0, 0, First(s.jobs, 0, 0).value);
    assert log[1..] == [Leased(0, 0, r, 0)] && log[1..][1..] == [];
    assert Entries(log[1..], PROBE.id) == 0;
  }

  /** Failing it leaves no live job, and dead records of its lane only. */
  lemma FailsIt(cfg: Config, r: Receipt)
    requires cfg.lease > 0
    ensures var o := Step(cfg, Running(cfg, r), Resolve(r, Fail(0)), 0);
            && o.store.jobs == [] && o.log == [Resolved(0, r, Fail(0), 0, 0)] && Entries(o.log, PROBE.id) == 0
            && forall k :: 0 <= k < |o.store.dead| ==> o.store.dead[k].env.lane == 0
  {
    var s := Running(cfg, r);
    assert Holder(s.jobs, r) == Some(0);
    var dead := DeadWith(s, 0, Given(0), 0, 0);
    var keep := Kept(cfg.retention, dead, 0, 0);
    forall k | 0 <= k < |Pick(dead, keep)| ensures Pick(dead, keep)[k].env.lane == 0 {
      var i := PickFrom(dead, keep, k);
    }
    assert [Resolved(0, r, Fail(0), 0, 0)][1..] == [];
  }

  lemma PurgesIt(cfg: Config, s: Store)
    requires s.jobs == [] && forall k :: 0 <= k < |s.dead| ==> s.dead[k].env.lane == 0
    ensures var o := Step(cfg, s, PurgeDead(0), 0);
            o.store.jobs == [] && o.store.dead == [] && o.log == [Emptied(0)] && Entries(o.log, PROBE.id) == 0
  {
    var keep := Negate(OnLane(s.dead, 0));
    if Pick(s.dead, keep) != [] {
      var i := PickFrom(s.dead, keep, 0);
    }
    assert [Emptied(0)][1..] == [];
  }

  lemma StoreIt(cfg: Config) returns (calls: seq<Call>, outs: seq<Outcome>)
    ensures Unacked(cfg, calls, outs, Waiting(0))
  {
    var o := Step(cfg, EMPTY_STORE, Enqueue(PROBE), 0);
    RunExtends(cfg, [], [], Enqueue(PROBE), 0, o);
    calls, outs := [] + [Call(0, Enqueue(PROBE))], [] + [o];
    assert o.log == [Stored(PROBE, 0)] && o.log[1..] == [];
    assert History(outs, 0, 1) == [] + o.log == o.log;
  }

  /** A dead-lettered dependency whose record is purged looks completed, though it never was. */
  lemma PurgedLooksCompleted(cfg: Config) returns (calls: seq<Call>, outs: seq<Outcome>)
    requires cfg.lease > 0 && cfg.maxDeliveries != Some(0)
    ensures IsRun(cfg, calls, outs) && Entries(History(outs, 0, |calls|), PROBE.id) == 1
    ensures StateOf(At(outs, |calls|), PROBE.id).CompletedOrUnknown?
    ensures !WasAcked(cfg, outs, |calls|, PROBE.id) && WasDropped(cfg, outs, |calls|, PROBE.id)
  {
    var r := 7;
    calls, outs := StoreIt(cfg);
    FirstDelivery(cfg, r);
    calls, outs := UnackedMore(cfg, calls, outs, Waiting(0), Reserve(0, r));
    FailsIt(cfg, r);
    calls, outs := UnackedMore(cfg, calls, outs, Running(cfg, r), Resolve(r, Fail(0)));
    PurgesIt(cfg, At(outs, |calls|));
    calls, outs := UnackedMore(cfg, calls, outs, At(outs, |calls|), PurgeDead(0));
    NeverAcked(cfg, calls, outs);
  }

  lemma NeverAcked(cfg: Config, calls: seq<Call>, outs: seq<Outcome>)
    requires |outs| == |calls| && Unacked(cfg, calls, outs, At(outs, |calls|))
    requires At(outs, |calls|).jobs == [] && At(outs, |calls|).dead == []
    ensures StateOf(At(outs, |calls|), PROBE.id).CompletedOrUnknown?
    ensures !WasAcked(cfg, outs, |calls|, PROBE.id) && WasDropped(cfg, outs, |calls|, PROBE.id)
  {
    Conservation(cfg, calls, outs, |calls|, PROBE.id);
    NoneAcked(cfg, EMPTY_STORE, History(outs, 0, |calls|), PROBE.id);
    StateIff(At(outs, |calls|), PROBE.id);
  }

  /**
   A fan-in over that dependency reads its state, and if a result of it is stored, left by a
   delivery that was never acknowledged, fires its callback with it. Without one it fails.
   */
  lemma PurgedFires(cfg: Config, bytes: Bytes)
    returns (calls: seq<Call>, outs: seq<Outcome>, w: Watcher, poll: Poll)
    requires cfg.lease > 0 && cfg.maxDeliveries != Some(0)
    ensures IsRun(cfg, calls, outs) && !WasAcked(cfg, outs, |calls|, PROBE.id)
    ensures w.deps == [PROBE.id] && Chain([w], [[poll]]) && Polled([w], [[poll]], outs, [|calls|], 0)
    ensures poll.result == Some(bytes) && RunsTo(w, [poll], Fired([bytes]))
    ensures RunsTo(w, [poll.(result := None)], Failed(MissingResult(PROBE.id)))
  {
    calls, outs := PurgedLooksCompleted(cfg);
    w := Watcher(true, true, true, [PROBE.id], 1, 1, []);
    poll := Poll(CompletedOrUnknown, Some(bytes));
    assert Captured(w.collected, PROBE.id).None?;
    assert FirstBlocked(w, [poll.(result := None)], 0);
  }
}
