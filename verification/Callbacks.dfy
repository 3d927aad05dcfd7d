/**
 How often a fan-in's callback is stored. Its unique key is the fan-in's own, so a second
 firing is absorbed exactly while the first callback is still live.
 */
module Callbacks {
  import opened Types
  import opened Lists
  import opened Contract
  import opened Invariant
  import opened Receipts

  /** Among all records, exactly those of job `x` carry the key. */
  ghost predicate Owns(s: Store, x: JobId, key: Key) {
    && (forall i :: 0 <= i < |s.jobs| ==> (s.jobs[i].env.id == x <==> s.jobs[i].key == Some(key)))
    && (forall k :: 0 <= k < |s.dead| ==> (s.dead[k].env.id == x <==> s.dead[k].key == Some(key)))
  }

  /** So far exactly job `x` was stored under the key. */
  ghost predicate OnlyUnder(log: seq<Event>, x: JobId, key: Key) {
    forall k :: 0 <= k < |log| && log[k].Stored? ==> (log[k].job.id == x <==> log[k].job.key == Some(key))
  }

  lemma BuryOwns(cfg: Config, s: Store, i: nat, reason: Reason, now: nat, pos: nat, x: JobId, key: Key)
    requires i < |s.jobs| && pos <= |s.dead| && Owns(s, x, key)
    ensures Owns(Bury(cfg, s, i, reason, now, pos), x, key)
  {
    var dead := DeadWith(s, i, reason, now, pos);
    PickOwns(dead, Kept(cfg.retention, dead, s.jobs[i].env.lane, now), x, key);
  }

  lemma PickOwns(dead: seq<DeadRec>, keep: seq<bool>, x: JobId, key: Key)
    requires |keep| == |dead| && forall k :: 0 <= k < |dead| ==> (dead[k].env.id == x <==> dead[k].key == Some(key))
    ensures forall k :: 0 <= k < |Pick(dead, keep)| ==>
              (Pick(dead, keep)[k].env.id == x <==> Pick(dead, keep)[k].key == Some(key))
  {
    forall k | 0 <= k < |Pick(dead, keep)|
      ensures Pick(dead, keep)[k].env.id == x <==> Pick(dead, keep)[k].key == Some(key)
    {
      var i := PickFrom(dead, keep, k);
    }
  }

  /** Every event keeps the key with its owner. */
  lemma EventOwns(cfg: Config, s: Store, e: Event, x: JobId, key: Key)
    requires Enabled(cfg, s, e) && Owns(s, x, key) && OnlyUnder([e], x, key)
    ensures Owns(Fire(cfg, s, e), x, key)
  {
    match e
    case Stored(job, _) => assert [e][0] == e;
    case Buried(_, i, at, pos) => BuryOwns(cfg, s, i, OverReason(cfg), at, pos, x, key);
    case Resolved(i, _, how, at, pos) =>
      if how.Fail? {
        BuryOwns(cfg, s, i, Given(how.text), at, pos, x, key);
      }
    case Emptied(lane) => PickOwns(s.dead, Negate(OnLane(s.dead, lane)), x, key);
    case _ =>
  }

  lemma {:induction false} TraceOwns(cfg: Config, s: Store, log: seq<Event>, x: JobId, key: Key)
    requires Trace(cfg, s, log) && Owns(s, x, key) && OnlyUnder(log, x, key)
    ensures Owns(Reach(cfg, s, log), x, key)
    decreases |log|
  {
    if log != [] {
      EventOwns(cfg, s, log[0], x, key);
      TraceOwns(cfg, Fire(cfg, s, log[0]), log[1..], x, key);
    }
  }

  /** The key is held exactly while its owner is live. */
  lemma HeldIff(s: Store, x: JobId, key: Key)
    requires Inv(s) && Owns(s, x, key)
    ensures key in s.unique <==> HasId(s.jobs, x)
    ensures key in s.unique ==> s.unique[key] == x
  {
    if HasId(s.jobs, x) {
      var i :| 0 <= i < |s.jobs| && s.jobs[i].env.id == x;
      assert s.jobs[i].key == Some(key);
    }
    if key in s.unique {
      assert HoldsKey(s.jobs, key);
      var i :| 0 <= i < |s.jobs| && s.jobs[i].key == Some(key);
      assert s.jobs[i].env.id == x;
    }
  }

  /**
   After job `x` alone was ever stored under the callback's key, a further firing with a new
   id stores a second callback, if and only if `x` is no longer live; else it answers `x`
   and changes nothing.
   */
  lemma SecondFiringIff(cfg: Config, calls: seq<Call>, outs: seq<Outcome>, n: nat, x: JobId, again: NewJob)
    requires IsRun(cfg, calls, outs) && ReceiptsFresh(calls) && n < |calls|
    requires calls[n].op == EnqueueBatch([again]) && again.key.Some? && again.id != x
    requires OnlyUnder(History(outs, 0, n), x, again.key.value) && !HasId(At(outs, n).jobs, again.id)
    ensures HasId(outs[n].store.jobs, again.id) <==> !StateOf(At(outs, n), x).Live?
    ensures if StateOf(At(outs, n), x).Live? then outs[n].reply == Ids([x]) && outs[n].store == At(outs, n)
            else outs[n].reply == Ids([again.id]) && outs[n].store == Place(At(outs, n), again, calls[n].now)
  {
    var s, key := At(outs, n), again.key.value;
    RunKeepsInvariant(cfg, calls, outs, n);
    RunIsLogged(cfg, calls, outs);
    RunLeads(cfg, calls, outs, 0, n);
    TraceOwns(cfg, EMPTY_STORE, History(outs, 0, n), x, key);
    HeldIff(s, x, key);
    assert CallMade(cfg, calls, outs, n);
    InsertsOne(s, again, calls[n].now);
    assert Place(s, again, calls[n].now).jobs[|s.jobs|].env.id == again.id;
  }

  lemma InsertsOne(s: Store, job: NewJob, now: nat)
    ensures var one, o := InsertAll(s, [job], now), Insert(s, job, now);
            one.store == o.store && one.reply == Ids([o.reply.id])
  {
    assert [job][..0] == [];
  }
}
