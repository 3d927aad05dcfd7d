/**
 The live half of the Redis key space: the job hashes and the four indexes kept
 beside them (per-priority ZSETs, active priorities, receipts, unique keys).

 A lane ZSET is a map from member to score. Its member is the text `<num>:<id>`;
 module `Encoding` proves that this text sorts by sequence and gives the id back.
 */
module RedisLive {
  import opened Types
  import opened Lists
  import opened Contract
  import opened Invariant

  datatype Member = Member(num: nat, id: JobId)

  datatype Hash = Hash(
    env: Envelope, lane: Lane, priority: nat, availableAt: nat,
    leasedUntil: Option<nat>, receipt: Option<Receipt>,
    attempts: nat, deliveries: nat, num: nat, key: Option<Key>)

  type Hashes = map<JobId, Hash>
  type ZSet = map<Member, nat>
  type LaneSets = map<(Lane, nat), ZSet>

  // ---------------------------------------------------------------- commands

  function ZOf(lanes: LaneSets, lane: Lane, p: nat): ZSet {
    if (lane, p) in lanes then lanes[(lane, p)] else map[]
  }

  function ZAdd(lanes: LaneSets, lane: Lane, p: nat, score: nat, m: Member): LaneSets {
    lanes[(lane, p) := ZOf(lanes, lane, p)[m := score]]
  }

  function ZRem(lanes: LaneSets, lane: Lane, p: nat, m: Member): LaneSets {
    lanes[(lane, p) := ZOf(lanes, lane, p) - {m}]
  }

  function PriosOf(prios: map<Lane, set<nat>>, lane: Lane): set<nat> {
    if lane in prios then prios[lane] else {}
  }

  function PrioAdd(prios: map<Lane, set<nat>>, lane: Lane, p: nat): map<Lane, set<nat>> {
    prios[lane := PriosOf(prios, lane) + {p}]
  }

  function FifoMember(job: Hashes, id: JobId): Member
    requires id in job
  {
    Member(job[id].num, id)
  }

  /** Next-visible time: when the lease ends, or when the job becomes available. */
  function Score(h: Hash): nat {
    if h.leasedUntil.Some? then h.leasedUntil.value else h.availableAt
  }

  // --------------------------------------------------------- index agreement

  ghost predicate Indexed(job: Hashes, lane: Lane, p: nat, m: Member) {
    m.id in job && job[m.id].num == m.num && job[m.id].lane == lane && job[m.id].priority == p
  }

  /** Each hash has exactly its own member, in its own ZSET, at its own score; nothing else is there. */
  ghost predicate LaneIndex(job: Hashes, lanes: LaneSets) {
    forall lane, p, m :: LaneEntry(job, lanes, lane, p, m)
  }

  ghost predicate LaneEntry(job: Hashes, lanes: LaneSets, lane: Lane, p: nat, m: Member) {
    && (m in ZOf(lanes, lane, p) <==> Indexed(job, lane, p, m))
    && (m in ZOf(lanes, lane, p) ==> ZOf(lanes, lane, p)[m] == Score(job[m.id]))
  }

  /** Every level in use is among the lane's active priorities. */
  ghost predicate PrioIndex(job: Hashes, prios: map<Lane, set<nat>>) {
    forall id :: id in job ==> job[id].priority in PriosOf(prios, job[id].lane)
  }

  ghost predicate ReceiptIndex(job: Hashes, rcpt: map<Receipt, JobId>) {
    && (forall id :: id in job && job[id].receipt.Some? ==>
                       job[id].receipt.value in rcpt && rcpt[job[id].receipt.value] == id)
    && (forall r :: r in rcpt ==> rcpt[r] in job && job[rcpt[r]].receipt == Some(r))
  }

  ghost predicate UniqueIndex(job: Hashes, unique: map<Key, JobId>) {
    && (forall id :: id in job && job[id].key.Some? ==>
                       job[id].key.value in unique && unique[job[id].key.value] == id)
    && (forall key :: key in unique ==> unique[key] in job && job[unique[key]].key == Some(key))
  }

  /** Sequence numbers are handed out once. */
  ghost predicate Sequenced(job: Hashes, counter: nat) {
    && (forall id :: id in job ==> job[id].num <= counter)
    && (forall a, b :: a in job && b in job && a != b ==> job[a].num != job[b].num)
  }

  lemma LaneIndexPut(job: Hashes, lanes: LaneSets, id: JobId, h: Hash)
    requires LaneIndex(job, lanes)
    requires id in job ==> job[id].num == h.num && job[id].lane == h.lane && job[id].priority == h.priority
    ensures LaneIndex(job[id := h], ZAdd(lanes, h.lane, h.priority, Score(h), Member(h.num, id)))
  {
    var job', lanes' := job[id := h], ZAdd(lanes, h.lane, h.priority, Score(h), Member(h.num, id));
    forall lane, p, m ensures LaneEntry(job', lanes', lane, p, m) {
      assert LaneEntry(job, lanes, lane, p, m);
    }
  }

  lemma LaneIndexDrop(job: Hashes, lanes: LaneSets, id: JobId)
    requires LaneIndex(job, lanes) && id in job
    ensures LaneIndex(job - {id}, ZRem(lanes, job[id].lane, job[id].priority, FifoMember(job, id)))
  {
    var job', lanes' := job - {id}, ZRem(lanes, job[id].lane, job[id].priority, FifoMember(job, id));
    forall lane, p, m ensures LaneEntry(job', lanes', lane, p, m) {
      assert LaneEntry(job, lanes, lane, p, m);
    }
  }

  function FreeReceipt(rcpt: map<Receipt, JobId>, r: Option<Receipt>): map<Receipt, JobId> {
    if r.Some? then rcpt - {r.value} else rcpt
  }

  function BindReceipt(rcpt: map<Receipt, JobId>, r: Option<Receipt>, id: JobId): map<Receipt, JobId> {
    if r.Some? then rcpt[r.value := id] else rcpt
  }

  lemma ReceiptIndexPut(job: Hashes, rcpt: map<Receipt, JobId>, id: JobId, h: Hash)
    requires ReceiptIndex(job, rcpt)
    requires h.receipt.Some? ==> h.receipt.value !in rcpt || (id in job && h.receipt == job[id].receipt)
    ensures ReceiptIndex(job[id := h],
                         BindReceipt(FreeReceipt(rcpt, if id in job then job[id].receipt else None), h.receipt, id))
  {
  }

  lemma ReceiptIndexDrop(job: Hashes, rcpt: map<Receipt, JobId>, id: JobId)
    requires ReceiptIndex(job, rcpt) && id in job
    ensures ReceiptIndex(job - {id}, FreeReceipt(rcpt, job[id].receipt))
  {
  }

  lemma UniqueIndexPut(job: Hashes, unique: map<Key, JobId>, id: JobId, h: Hash)
    requires UniqueIndex(job, unique)
    requires if id in job then h.key == job[id].key else h.key.Some? ==> h.key.value !in unique
    ensures UniqueIndex(job[id := h], if id in job then unique else ClaimKey(unique, h.key, id))
  {
  }

  lemma UniqueIndexDrop(job: Hashes, unique: map<Key, JobId>, id: JobId)
    requires UniqueIndex(job, unique) && id in job
    ensures UniqueIndex(job - {id}, FreeKey(unique, job[id].key))
  {
  }

  // ------------------------------------------------------ hashes as a job list

  /** Equal leases, up to one that has run out: it counts as no lease. */
  ghost predicate LeaseIs(h: Hash, j: Job, now: nat) {
    if h.leasedUntil.Some? && h.leasedUntil.value > now then
      j.leasedUntil.Some? && j.receipt == h.receipt && h.leasedUntil.value == Nanos(j.leasedUntil.value)
    else
      j.leasedUntil.Some? ==> j.leasedUntil.value <= now
  }

  /** The hash stores the job `j`, as far as anyone can tell from `now` on. */
  ghost predicate HashIs(h: Hash, j: Job, now: nat) {
    && h.env.(attempts := Capped(h.attempts)) == j.env
    && h.lane == j.env.lane && h.priority == j.env.priority && h.key == j.key
    && h.availableAt == Nanos(j.availableAt)
    && j.deliveries == h.deliveries
    && (h.leasedUntil.Some? <==> h.receipt.Some?)
    && (h.leasedUntil.Some? ==> h.availableAt <= now)
    && LeaseIs(h, j, now)
  }

  lemma HashLater(h: Hash, j: Job, t: nat, now: nat)
    requires HashIs(h, j, t) && t <= now < I64_MAX
    ensures HashIs(h, j, now)
  {
  }

  lemma HashReleased(h: Hash, j: Job, now: nat)
    requires HashIs(h, j, now) && now < I64_MAX
    ensures HashIs(h, ReleaseOne(j, now), now)
  {
  }

  ghost predicate JobStored(job: Hashes, jobs: seq<Job>, i: nat, now: nat)
    requires i < |jobs|
  {
    jobs[i].env.id in job && HashIs(job[jobs[i].env.id], jobs[i], now)
  }

  ghost predicate InOrder(job: Hashes, jobs: seq<Job>, i: nat, k: nat)
    requires i < |jobs| && k < |jobs|
  {
    && jobs[i].env.id in job && jobs[k].env.id in job
    && job[jobs[i].env.id].num < job[jobs[k].env.id].num
  }

  /** The hashes are exactly the jobs of the list, and their sequence numbers follow its order. */
  ghost predicate Listed(job: Hashes, jobs: seq<Job>, now: nat) {
    && (forall i :: 0 <= i < |jobs| ==> JobStored(job, jobs, i, now))
    && (forall i, k :: 0 <= i < k < |jobs| ==> InOrder(job, jobs, i, k))
    && (forall id :: id in job ==> HasId(jobs, id))
  }

  lemma ListsLater(job: Hashes, jobs: seq<Job>, t: nat, now: nat)
    requires Listed(job, jobs, t) && t <= now < I64_MAX
    ensures Listed(job, jobs, now)
  {
    forall i | 0 <= i < |jobs| ensures JobStored(job, jobs, i, now) {
      assert JobStored(job, jobs, i, t);
      HashLater(job[jobs[i].env.id], jobs[i], t, now);
    }
  }

  lemma ListsReleased(job: Hashes, jobs: seq<Job>, now: nat)
    requires Listed(job, jobs, now) && now < I64_MAX
    ensures Listed(job, Release(jobs, now), now)
  {
    var rel := Release(jobs, now);
    forall i | 0 <= i < |jobs| ensures JobStored(job, rel, i, now) {
      assert JobStored(job, jobs, i, now);
      HashReleased(job[jobs[i].env.id], jobs[i], now);
    }
    forall i, k | 0 <= i < k < |rel| ensures InOrder(job, rel, i, k) {
      assert InOrder(job, jobs, i, k);
    }
    forall id | id in job ensures HasId(rel, id) {
      var i :| 0 <= i < |jobs| && jobs[i].env.id == id;
      assert rel[i].env.id == id;
    }
  }

  lemma ListsPut(job: Hashes, jobs: seq<Job>, i: nat, h: Hash, j: Job, now: nat)
    requires Listed(job, jobs, now) && DistinctIds(jobs) && i < |jobs| && j.env.id == jobs[i].env.id
    requires j.env.id in job && h.num == job[j.env.id].num && HashIs(h, j, now)
    ensures Listed(job[j.env.id := h], jobs[i := j], now)
  {
    var job', jobs' := job[j.env.id := h], jobs[i := j];
    forall k | 0 <= k < |jobs'| ensures JobStored(job', jobs', k, now) {
      assert JobStored(job, jobs, k, now);
    }
    forall a, b | 0 <= a < b < |jobs'| ensures InOrder(job', jobs', a, b) {
      assert InOrder(job, jobs, a, b);
    }
    forall id | id in job' ensures HasId(jobs', id) {
      var k :| 0 <= k < |jobs| && jobs[k].env.id == id;
      assert jobs'[k].env.id == id;
    }
  }

  /** Only the list changes: its job now lacks a lease that had already run out. */
  lemma ListsSame(job: Hashes, jobs: seq<Job>, i: nat, j: Job, now: nat)
    requires Listed(job, jobs, now) && i < |jobs| && j.env.id == jobs[i].env.id
    requires j.env.id in job && HashIs(job[j.env.id], j, now)
    ensures Listed(job, jobs[i := j], now)
  {
    var jobs' := jobs[i := j];
    forall k | 0 <= k < |jobs'| ensures JobStored(job, jobs', k, now) {
      assert JobStored(job, jobs, k, now);
    }
    forall a, b | 0 <= a < b < |jobs'| ensures InOrder(job, jobs', a, b) {
      assert InOrder(job, jobs, a, b);
    }
    forall id | id in job ensures HasId(jobs', id) {
      var k :| 0 <= k < |jobs| && jobs[k].env.id == id;
      assert jobs'[k].env.id == id;
    }
  }

  lemma ListsAdd(job: Hashes, jobs: seq<Job>, h: Hash, j: Job, counter: nat, now: nat)
    requires Listed(job, jobs, now) && Sequenced(job, counter)
    requires j.env.id !in job && h.num == counter + 1 && HashIs(h, j, now)
    ensures Listed(job[j.env.id := h], jobs + [j], now)
  {
    var job', jobs' := job[j.env.id := h], jobs + [j];
    forall k | 0 <= k < |jobs'| ensures JobStored(job', jobs', k, now) {
      if k < |jobs| {
        assert JobStored(job, jobs, k, now);
      }
    }
    forall a, b | 0 <= a < b < |jobs'| ensures InOrder(job', jobs', a, b) {
      assert JobStored(job, jobs, a, now);
      if b < |jobs| {
        assert InOrder(job, jobs, a, b);
      }
    }
    forall id | id in job' ensures HasId(jobs', id) {
      if id in job {
        var k :| 0 <= k < |jobs| && jobs[k].env.id == id;
        assert jobs'[k].env.id == id;
      } else {
        assert jobs'[|jobs|].env.id == id;
      }
    }
  }

  lemma ListsDrop(job: Hashes, jobs: seq<Job>, i: nat, now: nat)
    requires Listed(job, jobs, now) && DistinctIds(jobs) && i < |jobs|
    ensures Listed(job - {jobs[i].env.id}, RemoveAt(jobs, i), now)
  {
    var job', jobs' := job - {jobs[i].env.id}, RemoveAt(jobs, i);
    assert forall k :: 0 <= k < |jobs'| ==> jobs'[k] == jobs[if k < i then k else k + 1];
    forall k | 0 <= k < |jobs'| ensures JobStored(job', jobs', k, now) {
      assert JobStored(job, jobs, if k < i then k else k + 1, now);
    }
    forall a, b | 0 <= a < b < |jobs'| ensures InOrder(job', jobs', a, b) {
      assert InOrder(job, jobs, if a < i then a else a + 1, if b < i then b else b + 1);
    }
    forall id | id in job' ensures HasId(jobs', id) {
      var k :| 0 <= k < |jobs| && jobs[k].env.id == id;
      assert jobs'[if k < i then k else k - 1].env.id == id;
    }
  }
}
