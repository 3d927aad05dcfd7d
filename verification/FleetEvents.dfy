/**
 What a broker event can do to the three things a fleet relies on: the attempts
 stored with a job, the copy a worker holds of it, and the references to blobs.
 */
module FleetEvents {
  import opened Types
  import opened Lists
  import opened Contract
  import opened Accounting

  // ---------------------------------------------------------------- attempts

  /** The attempt budget: a stored job can always be tried once more. */
  predicate Spared(env: Envelope) {
    env.attempts < if env.maxAttempts > 1 then env.maxAttempts else 1
  }

  ghost predicate AllSpared(s: Store) {
    && (forall i :: 0 <= i < |s.jobs| ==> Spared(s.jobs[i].env))
    && (forall k :: 0 <= k < |s.dead| ==> Spared(s.dead[k].env))
  }

  /** A retry is only asked for while the budget allows one more attempt. */
  ghost predicate RetrySpared(s: Store, e: Event) {
    e.Resolved? && e.how.Retry? && e.index < |s.jobs| ==>
      Bump(s.jobs[e.index].env.attempts) < s.jobs[e.index].env.maxAttempts
  }

  lemma PickSpared(dead: seq<DeadRec>, keep: seq<bool>)
    requires |keep| == |dead| && forall k :: 0 <= k < |dead| ==> Spared(dead[k].env)
    ensures forall k :: 0 <= k < |Pick(dead, keep)| ==> Spared(Pick(dead, keep)[k].env)
  {
  }

  lemma BurySpares(cfg: Config, s: Store, i: nat, reason: Reason, now: nat, pos: nat)
    requires AllSpared(s) && i < |s.jobs| && pos <= |s.dead|
    ensures AllSpared(Bury(cfg, s, i, reason, now, pos))
  {
    var dead := DeadWith(s, i, reason, now, pos);
    PickSpared(dead, Kept(cfg.retention, dead, s.jobs[i].env.lane, now));
  }

  lemma EventSpares(cfg: Config, s: Store, e: Event)
    requires AllSpared(s) && Enabled(cfg, s, e) && RetrySpared(s, e)
    ensures AllSpared(Fire(cfg, s, e))
  {
    match e
    case Buried(_, i, at, pos) => BurySpares(cfg, s, i, OverReason(cfg), at, pos);
    case Resolved(i, _, how, at, pos) =>
      if how.Fail? {
        BurySpares(cfg, s, i, Given(how.text), at, pos);
      }
    case Emptied(lane) => PickSpared(s.dead, Negate(OnLane(s.dead, lane)));
    case _ =>
  }

  // ------------------------------------------------------------------ copies

  /** While `receipt` is current, the stored job is the copy handed out with it. */
  ghost predicate Copy(s: Store, env: Envelope, receipt: Receipt) {
    forall i :: 0 <= i < |s.jobs| && s.jobs[i].receipt == Some(receipt) ==> s.jobs[i].env == env
  }

  lemma EventKeepsCopy(cfg: Config, s: Store, e: Event, env: Envelope, receipt: Receipt)
    requires Copy(s, env, receipt) && Enabled(cfg, s, e) && !(e.Leased? && e.receipt == receipt)
    ensures Copy(Fire(cfg, s, e), env, receipt)
  {
  }

  /** Every current receipt is among the known ones. */
  ghost predicate ReceiptsIn(s: Store, known: set<Receipt>) {
    forall i :: 0 <= i < |s.jobs| && s.jobs[i].receipt.Some? ==> s.jobs[i].receipt.value in known
  }

  lemma EventReceiptsIn(cfg: Config, s: Store, e: Event, known: set<Receipt>)
    requires ReceiptsIn(s, known) && Enabled(cfg, s, e) && (e.Leased? ==> e.receipt in known)
    ensures ReceiptsIn(Fire(cfg, s, e), known)
  {
  }

  // -------------------------------------------------------------- references

  const NO_BLOB: int := -1

  function Tag(p: Payload): int {
    if p.Reference? then p.blob else NO_BLOB
  }

  function JobTags(jobs: seq<Job>): seq<int> {
    seq(|jobs|, i requires 0 <= i < |jobs| => Tag(jobs[i].env.payload))
  }

  function DeadTags(dead: seq<DeadRec>): seq<int> {
    seq(|dead|, i requires 0 <= i < |dead| => Tag(dead[i].env.payload))
  }

  /** How many live and dead records refer to blob `b`. */
  function Refs(s: Store, b: int): nat {
    Occurs(JobTags(s.jobs), b) + Occurs(DeadTags(s.dead), b)
  }

  function One(p: Payload, b: int): nat {
    if Tag(p) == b then 1 else 0
  }

  function StoredRef(e: Event, b: int): nat {
    if e.Stored? then One(e.job.payload, b) else 0
  }

  function AckedRef(s: Store, e: Event, b: int): nat {
    if e.Resolved? && e.how.Ack? && e.index < |s.jobs| then One(s.jobs[e.index].env.payload, b) else 0
  }

  lemma {:induction false} PickTags(dead: seq<DeadRec>, keep: seq<bool>, b: int)
    requires |dead| == |keep|
    ensures Occurs(DeadTags(Pick(dead, keep)), b) <= Occurs(DeadTags(dead), b)
  {
    if dead != [] {
      var n := |dead| - 1;
      PickTags(dead[..n], keep[..n], b);
      assert DeadTags(dead)[..n] == DeadTags(dead[..n]);
      var rest := Pick(dead[..n], keep[..n]);
      if keep[n] {
        assert DeadTags(rest + [dead[n]])[..|rest|] == DeadTags(rest);
      } else {
        assert Pick(dead, keep) == rest;
      }
    }
  }

  lemma RemoveTags(s: Store, i: nat, b: int)
    requires i < |s.jobs|
    ensures Occurs(JobTags(RemoveAt(s.jobs, i)), b) + One(s.jobs[i].env.payload, b) == Occurs(JobTags(s.jobs), b)
  {
    assert JobTags(RemoveAt(s.jobs, i)) == RemoveAt(JobTags(s.jobs), i);
    OccursRemove(JobTags(s.jobs), i, b);
  }

  lemma BuryRefs(cfg: Config, s: Store, i: nat, reason: Reason, now: nat, pos: nat, b: int)
    requires i < |s.jobs| && pos <= |s.dead|
    ensures Refs(Bury(cfg, s, i, reason, now, pos), b) <= Refs(s, b)
  {
    var dead := DeadWith(s, i, reason, now, pos);
    RemoveTags(s, i, b);
    assert DeadTags(dead) == InsertAt(DeadTags(s.dead), pos, Tag(s.jobs[i].env.payload));
    OccursInsert(DeadTags(s.dead), pos, Tag(s.jobs[i].env.payload), b);
    PickTags(dead, Kept(cfg.retention, dead, s.jobs[i].env.lane, now), b);
  }

  lemma ReviveRefs(s: Store, k: nat, now: nat, b: int)
    requires k < |s.dead|
    ensures Refs(Revive(s, k, now), b) == Refs(s, b)
  {
    var t, tag := Revive(s, k, now), Tag(s.dead[k].env.payload);
    assert JobTags(t.jobs) == JobTags(s.jobs) + [tag];
    OccursJoin(JobTags(s.jobs), [tag], b);
    assert DeadTags(t.dead) == RemoveAt(DeadTags(s.dead), k);
    OccursRemove(DeadTags(s.dead), k, b);
  }

  lemma UseRefs(cfg: Config, s: Store, i: nat, how: How, now: nat, pos: nat, b: int)
    requires i < |s.jobs| && pos <= |s.dead|
    ensures var acked := if how.Ack? then One(s.jobs[i].env.payload, b) else 0;
            Refs(Use(cfg, s, i, how, now, pos), b) + acked <= Refs(s, b)
  {
    if how.Fail? {
      BuryRefs(cfg, s, i, Given(how.text), now, pos, b);
    } else if how.Ack? {
      RemoveTags(s, i, b);
    } else {
      assert JobTags(Use(cfg, s, i, how, now, pos).jobs) == JobTags(s.jobs);
    }
  }

  /** References only appear with a stored job, and an acknowledgement takes its job's away. */
  lemma EventRefs(cfg: Config, s: Store, e: Event, b: int)
    requires Enabled(cfg, s, e)
    ensures Refs(Fire(cfg, s, e), b) + AckedRef(s, e, b) <= Refs(s, b) + StoredRef(e, b)
  {
    var t := Fire(cfg, s, e);
    match e
    case Stored(job, _) =>
      assert JobTags(t.jobs) == JobTags(s.jobs) + [Tag(job.payload)];
      OccursJoin(JobTags(s.jobs), [Tag(job.payload)], b);
    case Buried(_, i, at, pos) => BuryRefs(cfg, s, i, OverReason(cfg), at, pos, b);
    case Resolved(i, _, how, at, pos) => UseRefs(cfg, s, i, how, at, pos, b);
    case Revived(k, at) => ReviveRefs(s, k, at, b);
    case Emptied(lane) => PickTags(s.dead, Negate(OnLane(s.dead, lane)), b);
    case _ =>
      assert JobTags(t.jobs) == JobTags(s.jobs);
  }
}
