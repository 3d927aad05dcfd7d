/** Batches: the Postgres keyless fast path, batches as sequences, and shared keys. */
module Batches {
  import opened Types
  import opened Lists
  import opened Contract
  import opened Receipts

  /** No job of the batch carries a unique key: the condition for the fast path. */
  predicate Keyless(batch: seq<NewJob>) {
    forall k :: 0 <= k < |batch| ==> batch[k].key.None?
  }

  /** `ON CONFLICT (id) DO NOTHING` keeps a row whose id is neither stored nor earlier in the batch. */
  ghost predicate NewRow(jobs: seq<Job>, batch: seq<NewJob>, k: nat)
    requires k < |batch|
  {
    !HasId(jobs, batch[k].id) && forall m :: 0 <= m < k ==> batch[m].id != batch[k].id
  }

  ghost function NewRows(jobs: seq<Job>, batch: seq<NewJob>): seq<bool> {
    seq(|batch|, k requires 0 <= k < |batch| => NewRow(jobs, batch, k))
  }

  function ToJob(job: NewJob, now: nat): Job {
    Job(FreshEnvelope(job), AddTime(now, job.delay), None, None, job.key, 0)
  }

  function ToJobs(batch: seq<NewJob>, now: nat): seq<Job> {
    seq(|batch|, k requires 0 <= k < |batch| => ToJob(batch[k], now))
  }

  function JobIds(batch: seq<NewJob>): seq<JobId> {
    seq(|batch|, k requires 0 <= k < |batch| => batch[k].id)
  }

  /** The single multi-row insert: new rows in input order, every input id returned. */
  ghost function Unnest(s: Store, batch: seq<NewJob>, now: nat): Store {
    s.(jobs := s.jobs + Pick(ToJobs(batch, now), NewRows(s.jobs, batch)))
  }

  /** The ids now stored are the old ones and the batch's. */
  lemma UnnestIds(s: Store, batch: seq<NewJob>, now: nat, id: JobId)
    ensures HasId(Unnest(s, batch, now).jobs, id) <==> HasId(s.jobs, id) || id in JobIds(batch)
  {
    var rows, flags := ToJobs(batch, now), NewRows(s.jobs, batch);
    var all := Unnest(s, batch, now).jobs;
    if HasId(s.jobs, id) {
      var i :| 0 <= i < |s.jobs| && s.jobs[i].env.id == id;
      assert all[i].env.id == id;
    } else if id in JobIds(batch) {
      var k := FirstWith(batch, id);
      PickKeeps(rows, flags, k);
      assert all[|s.jobs| + Slot(flags, k)] == rows[k];
    }
    if HasId(all, id) && !HasId(s.jobs, id) {
      var i :| 0 <= i < |all| && all[i].env.id == id;
      var k := PickFrom(rows, flags, i - |s.jobs|);
      assert JobIds(batch)[k] == id;
    }
  }

  lemma {:induction false} FirstWith(batch: seq<NewJob>, id: JobId) returns (k: nat)
    requires id in JobIds(batch)
    ensures k < |batch| && batch[k].id == id && forall m :: 0 <= m < k ==> batch[m].id != id
  {
    var n := |batch| - 1;
    if id in JobIds(batch[..n]) {
      k := FirstWith(batch[..n], id);
    } else {
      assert forall m :: 0 <= m < n ==> JobIds(batch[..n])[m] == batch[m].id;
      k := n;
    }
  }

  /** The fast path stores the same rows in the same order, and answers the same, as row by row. */
  lemma {:induction false} UnnestIsRowByRow(s: Store, batch: seq<NewJob>, now: nat)
    requires Keyless(batch)
    ensures InsertAll(s, batch, now).store == Unnest(s, batch, now)
    ensures InsertAll(s, batch, now).reply == Ids(JobIds(batch))
  {
    if batch != [] {
      var n := |batch| - 1;
      var front := batch[..n];
      UnnestIsRowByRow(s, front, now);
      var t := Unnest(s, front, now);
      UnnestIds(s, front, now, batch[n].id);
      assert batch[n].id in JobIds(front) <==> exists m :: 0 <= m < n && JobIds(front)[m] == batch[n].id;
      assert HasId(t.jobs, batch[n].id) <==> !NewRow(s.jobs, batch, n) by {
        assert forall m :: 0 <= m < n ==> JobIds(front)[m] == batch[m].id;
      }
      UnnestLast(s, batch, now);
      assert JobIds(batch) == JobIds(front) + [batch[n].id];
    }
  }

  lemma UnnestLast(s: Store, batch: seq<NewJob>, now: nat)
    requires batch != []
    ensures var n := |batch| - 1;
            Unnest(s, batch, now).jobs ==
            Unnest(s, batch[..n], now).jobs + (if NewRow(s.jobs, batch, n) then [ToJob(batch[n], now)] else [])
  {
    var n := |batch| - 1;
    assert ToJobs(batch, now)[..n] == ToJobs(batch[..n], now);
    forall k | 0 <= k < n ensures NewRow(s.jobs, batch, k) == NewRow(s.jobs, batch[..n], k) {
    }
    assert NewRows(s.jobs, batch)[..n] == NewRows(s.jobs, batch[..n]);
  }

  /** A batch is its parts, one after the other, at one instant. */
  lemma {:induction false} BatchSplits(s: Store, a: seq<NewJob>, b: seq<NewJob>, now: nat)
    ensures var front := InsertAll(s, a, now);
            var back := InsertAll(front.store, b, now);
            && InsertAll(s, a + b, now).store == back.store
            && InsertAll(s, a + b, now).reply == Ids(front.reply.ids + back.reply.ids)
  {
    if b == [] {
      assert a + b == a;
    } else {
      var n := |b| - 1;
      BatchSplits(s, a, b[..n], now);
      assert (a + b)[..|a + b| - 1] == a + b[..n];
    }
  }

  /** A held key keeps its holder through a batch. */
  lemma {:induction false} KeyStays(s: Store, batch: seq<NewJob>, now: nat, key: Key)
    requires key in s.unique
    ensures key in InsertAll(s, batch, now).store.unique
    ensures InsertAll(s, batch, now).store.unique[key] == s.unique[key]
  {
    if batch != [] {
      KeyStays(s, batch[..|batch| - 1], now, key);
    }
  }

  /** The store a batch has reached before its job `k`. */
  ghost function Before(s: Store, batch: seq<NewJob>, now: nat, k: nat): Store
    requires k <= |batch|
  {
    InsertAll(s, batch[..k], now).store
  }

  lemma {:induction false} AnswerAt(s: Store, batch: seq<NewJob>, now: nat, k: nat)
    requires k < |batch|
    ensures Id(InsertAll(s, batch, now).reply.ids[k]) == Insert(Before(s, batch, now, k), batch[k], now).reply
  {
    var n := |batch| - 1;
    if k < n {
      AnswerAt(s, batch[..n], now, k);
      assert batch[..n][..k] == batch[..k];
    }
  }

  /** New jobs of one batch that share a key all get the id of the key's first holder. */
  lemma SharedKeyOneId(s: Store, batch: seq<NewJob>, now: nat, i: nat, k: nat)
    requires i < k < |batch| && batch[i].key.Some? && batch[k].key == batch[i].key
    requires !HasId(Before(s, batch, now, i).jobs, batch[i].id) && !HasId(Before(s, batch, now, k).jobs, batch[k].id)
    ensures var ids := InsertAll(s, batch, now).reply.ids;
            && ids[k] == ids[i]
            && ids[i] == if batch[i].key.value in Before(s, batch, now, i).unique
                         then Before(s, batch, now, i).unique[batch[i].key.value] else batch[i].id
  {
    var key := batch[i].key.value;
    AnswerAt(s, batch, now, i);
    AnswerAt(s, batch, now, k);
    var next := Before(s, batch, now, i + 1);
    assert batch[..i + 1][..i] == batch[..i];
    assert batch[..k] == batch[..i + 1] + batch[i + 1..k];
    BatchSplits(s, batch[..i + 1], batch[i + 1..k], now);
    KeyStays(next, batch[i + 1..k], now, key);
  }

  // ------------------------------------------------- one clock reading per job

  /** The batch's jobs inserted in turn, each at its own instant. */
  ghost function InsertEach(s: Store, batch: seq<NewJob>, nows: seq<nat>): (r: Outcome)
    requires |nows| == |batch|
    ensures r.reply.Ids? && |r.reply.ids| == |batch|
  {
    if batch == [] then Outcome(s, Ids([]), [])
    else
      var n := |batch| - 1;
      var front := InsertEach(s, batch[..n], nows[..n]);
      var last := Insert(front.store, batch[n], nows[n]);
      Outcome(last.store, Ids(front.reply.ids + [last.reply.id]), front.log + last.log)
  }

  lemma EachNext(s: Store, batch: seq<NewJob>, nows: seq<nat>, i: nat)
    requires |nows| == |batch| && i < |batch|
    ensures var front, more := InsertEach(s, batch[..i], nows[..i]), InsertEach(s, batch[..i + 1], nows[..i + 1]);
            var last := Insert(front.store, batch[i], nows[i]);
            more.store == last.store && more.reply.ids == front.reply.ids + [last.reply.id]
  {
    assert batch[..i + 1][..i] == batch[..i] && nows[..i + 1][..i] == nows[..i];
  }

  /** Equal but for the times at which jobs become visible. */
  ghost predicate SameButTimes(s: Store, t: Store) {
    && s == t.(jobs := s.jobs) && |s.jobs| == |t.jobs|
    && forall i :: 0 <= i < |s.jobs| ==> s.jobs[i] == t.jobs[i].(availableAt := s.jobs[i].availableAt)
  }

  lemma SameIds(s: Store, t: Store, id: JobId)
    requires SameButTimes(s, t)
    ensures HasId(s.jobs, id) <==> HasId(t.jobs, id)
  {
  }

  /** However the clock moves during a batch, its answers and its jobs are those of a single instant. */
  lemma {:induction false} InstantsDoNotMatter(s: Store, batch: seq<NewJob>, nows: seq<nat>, now: nat)
    requires |nows| == |batch|
    ensures var each, all := InsertEach(s, batch, nows), InsertAll(s, batch, now);
            && each.reply == all.reply && SameButTimes(each.store, all.store)
            && ((forall k :: 0 <= k < |nows| ==> nows[k] == now) ==> each == all)
  {
    if batch != [] {
      var n := |batch| - 1;
      InstantsDoNotMatter(s, batch[..n], nows[..n], now);
      SameIds(InsertEach(s, batch[..n], nows[..n]).store, InsertAll(s, batch[..n], now).store, batch[n].id);
    }
  }

  function EachCall(batch: seq<NewJob>, nows: seq<nat>): seq<Call>
    requires |nows| == |batch|
  {
    seq(|batch|, k requires 0 <= k < |batch| => Call(nows[k], Enqueue(batch[k])))
  }

  lemma EachCallNext(calls: seq<Call>, batch: seq<NewJob>, nows: seq<nat>)
    requires |nows| == |batch| > 0
    ensures var n := |batch| - 1;
            calls + EachCall(batch[..n], nows[..n]) + [Call(nows[n], Enqueue(batch[n]))] ==
            calls + EachCall(batch, nows)
  {
  }

  /** A batch inserted job by job continues a run as that many enqueues, with their states and answers. */
  lemma {:induction false} EachExtends(cfg: Config, calls: seq<Call>, outs: seq<Outcome>, batch: seq<NewJob>,
                                       nows: seq<nat>)
    returns (more: seq<Outcome>)
    requires IsRun(cfg, calls, outs) && |nows| == |batch|
    ensures |more| == |batch| && IsRun(cfg, calls + EachCall(batch, nows), outs + more)
    ensures var each := InsertEach(At(outs, |outs|), batch, nows);
            && At(outs + more, |outs| + |more|) == each.store
            && forall k :: 0 <= k < |batch| ==> more[k].reply == Id(each.reply.ids[k])
    decreases |batch|
  {
    if batch == [] {
      more := [];
      assert calls + EachCall(batch, nows) == calls && outs + more == outs;
    } else {
      var n := |batch| - 1;
      var front := EachExtends(cfg, calls, outs, batch[..n], nows[..n]);
      var start := calls + EachCall(batch[..n], nows[..n]);
      var last := Insert(At(outs + front, |start|), batch[n], nows[n]);
      RunExtends(cfg, start, outs + front, Enqueue(batch[n]), nows[n], last);
      more := front + [last];
      EachCallNext(calls, batch, nows);
      assert outs + front + [last] == outs + more;
    }
  }
}
