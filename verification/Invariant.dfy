/**
 What every event keeps: live ids distinct, a lease exactly when a receipt, current
 receipts distinct, and the unique-key map exactly the held keys.
 */
module Invariant {
  import opened Types
  import opened Contract

  ghost predicate DistinctIds(jobs: seq<Job>) {
    forall i, k :: 0 <= i < k < |jobs| ==> jobs[i].env.id != jobs[k].env.id
  }

  ghost predicate LeasesPaired(jobs: seq<Job>) {
    forall i :: 0 <= i < |jobs| ==> (jobs[i].leasedUntil.Some? <==> jobs[i].receipt.Some?)
  }

  ghost predicate DistinctReceipts(jobs: seq<Job>) {
    forall i, k :: 0 <= i < k < |jobs| && jobs[i].receipt.Some? ==> jobs[i].receipt != jobs[k].receipt
  }

  ghost predicate HeldKeysMapped(jobs: seq<Job>, unique: map<Key, JobId>) {
    forall i :: 0 <= i < |jobs| && jobs[i].key.Some? ==>
                  jobs[i].key.value in unique && unique[jobs[i].key.value] == jobs[i].env.id
  }

  ghost predicate HoldsKey(jobs: seq<Job>, key: Key) {
    exists i :: 0 <= i < |jobs| && jobs[i].key == Some(key)
  }

  ghost predicate MappedKeysHeld(jobs: seq<Job>, unique: map<Key, JobId>) {
    forall key :: key in unique ==> HoldsKey(jobs, key)
  }

  ghost predicate Inv(s: Store) {
    && DistinctIds(s.jobs)
    && LeasesPaired(s.jobs)
    && DistinctReceipts(s.jobs)
    && HeldKeysMapped(s.jobs, s.unique)
    && MappedKeysHeld(s.jobs, s.unique)
  }

  /** No current receipt equals `receipt`. */
  ghost predicate NotCurrent(jobs: seq<Job>, receipt: Receipt) {
    forall i :: 0 <= i < |jobs| ==> jobs[i].receipt != Some(receipt)
  }

  lemma KeysHeldOnce(s: Store, i: nat, k: nat)
    requires Inv(s) && i < |s.jobs| && k < |s.jobs| && i != k && s.jobs[i].key.Some?
    ensures s.jobs[i].key != s.jobs[k].key
  {
  }

  lemma ReleaseKeeps(s: Store, now: nat)
    requires Inv(s)
    ensures Inv(s.(jobs := Release(s.jobs, now)))
  {
    var jobs := Release(s.jobs, now);
    forall key | key in s.unique ensures HoldsKey(jobs, key) {
      var i :| 0 <= i < |s.jobs| && s.jobs[i].key == Some(key);
      assert jobs[i].key == Some(key);
    }
  }

  lemma WithoutKeeps(s: Store, i: nat)
    requires Inv(s) && i < |s.jobs|
    ensures Inv(Without(s, i))
  {
    var t := Without(s, i);
    assert forall k :: 0 <= k < |t.jobs| ==> t.jobs[k] == s.jobs[if k < i then k else k + 1];
    forall k | 0 <= k < |t.jobs| && t.jobs[k].key.Some?
      ensures t.jobs[k].key.value in t.unique && t.unique[t.jobs[k].key.value] == t.jobs[k].env.id
    {
      KeysHeldOnce(s, if k < i then k else k + 1, i);
    }
    forall key | key in t.unique ensures HoldsKey(t.jobs, key) {
      var k :| 0 <= k < |s.jobs| && s.jobs[k].key == Some(key);
      assert t.jobs[if k < i then k else k - 1].key == Some(key);
    }
  }

  lemma PutKeeps(s: Store, i: nat, j: Job)
    requires Inv(s) && i < |s.jobs|
    requires j.env.id == s.jobs[i].env.id && j.key == s.jobs[i].key
    requires j.leasedUntil.Some? <==> j.receipt.Some?
    requires j.receipt.Some? ==> j.receipt == s.jobs[i].receipt || NotCurrent(s.jobs, j.receipt.value)
    ensures Inv(s.(jobs := s.jobs[i := j]))
  {
    var jobs := s.jobs[i := j];
    forall key | key in s.unique ensures HoldsKey(jobs, key) {
      var k :| 0 <= k < |s.jobs| && s.jobs[k].key == Some(key);
      assert jobs[k].key == Some(key);
    }
  }

  lemma AppendKeeps(s: Store, j: Job)
    requires Inv(s) && !HasId(s.jobs, j.env.id)
    requires j.key.Some? ==> j.key.value !in s.unique
    requires j.leasedUntil.None? && j.receipt.None?
    ensures Inv(s.(jobs := s.jobs + [j], unique := ClaimKey(s.unique, j.key, j.env.id)))
  {
    var jobs := s.jobs + [j];
    var unique := ClaimKey(s.unique, j.key, j.env.id);
    forall key | key in unique ensures HoldsKey(jobs, key) {
      if key in s.unique {
        var k :| 0 <= k < |s.jobs| && s.jobs[k].key == Some(key);
        assert jobs[k].key == Some(key);
      } else {
        assert jobs[|s.jobs|].key == Some(key);
      }
    }
  }

  lemma UseKeeps(cfg: Config, s: Store, i: nat, how: How, now: nat, pos: nat)
    requires Inv(s) && i < |s.jobs| && pos <= |s.dead| && s.jobs[i].receipt.Some?
    ensures Inv(Use(cfg, s, i, how, now, pos))
  {
    if how.Ack? || how.Fail? {
      WithoutKeeps(s, i);
    } else {
      PutKeeps(s, i, Use(cfg, s, i, how, now, pos).jobs[i]);
    }
  }

  /** A receipt about to be issued must be new to the store. */
  ghost predicate FreshFor(s: Store, e: Event) {
    e.Leased? ==> NotCurrent(s.jobs, e.receipt)
  }

  /** Every event keeps the invariant. */
  lemma EventKeepsInv(cfg: Config, s: Store, e: Event)
    requires Inv(s) && Enabled(cfg, s, e) && FreshFor(s, e)
    ensures Inv(Fire(cfg, s, e))
  {
    match e
    case Stored(job, at) =>
      AppendKeeps(s, Job(FreshEnvelope(job), AddTime(at, job.delay), None, None, job.key, 0));
    case Lapsed(at) => ReleaseKeeps(s, at);
    case LapsedOne(i, _) => PutKeeps(s, i, Unleased(s.jobs[i]));
    case Buried(_, i, at, pos) => WithoutKeeps(s, i);
    case Leased(_, i, receipt, at) => PutKeeps(s, i, LeaseJob(cfg, s.jobs[i], receipt, at));
    case Resolved(i, _, how, at, pos) => UseKeeps(cfg, s, i, how, at, pos);
    case Revived(k, at) => AppendKeeps(s, Job(s.dead[k].env, at, None, None, s.dead[k].key, 0));
    case _ =>
  }
}
