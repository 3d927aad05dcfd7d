/** The live indexes together, in step with the contract's store. */
module RedisState {
  import opened Types
  import opened Contract
  import opened Invariant
  import opened RedisLive

  datatype Keys = Keys(
    job: Hashes, lanes: LaneSets, prios: map<Lane, set<nat>>,
    rcpt: map<Receipt, JobId>, unique: map<Key, JobId>, counter: nat)

  ghost predicate Agree(l: Keys) {
    && LaneIndex(l.job, l.lanes)
    && PrioIndex(l.job, l.prios)
    && ReceiptIndex(l.job, l.rcpt)
    && UniqueIndex(l.job, l.unique)
    && Sequenced(l.job, l.counter)
  }

  /** The key space, seen at `now`, is the live half of `s`. */
  ghost predicate Tracks(l: Keys, s: Store, now: nat) {
    Listed(l.job, s.jobs, now) && l.unique == s.unique && Inv(s)
  }

  /** The list position of a stored job. */
  lemma PositionOf(l: Keys, s: Store, now: nat, id: JobId) returns (i: nat)
    requires Tracks(l, s, now) && id in l.job
    ensures i < |s.jobs| && s.jobs[i].env.id == id && HashIs(l.job[id], s.jobs[i], now)
  {
    i :| 0 <= i < |s.jobs| && s.jobs[i].env.id == id;
    assert JobStored(l.job, s.jobs, i, now);
  }

  lemma StoredAt(l: Keys, s: Store, now: nat, i: nat)
    requires Tracks(l, s, now) && i < |s.jobs|
    ensures s.jobs[i].env.id in l.job && HashIs(l.job[s.jobs[i].env.id], s.jobs[i], now)
  {
    assert JobStored(l.job, s.jobs, i, now);
  }

  lemma HasIdIff(l: Keys, s: Store, now: nat, id: JobId)
    requires Tracks(l, s, now)
    ensures id in l.job <==> HasId(s.jobs, id)
  {
    if HasId(s.jobs, id) {
      var i :| 0 <= i < |s.jobs| && s.jobs[i].env.id == id;
      StoredAt(l, s, now, i);
    }
  }

  lemma StoredEnv(l: Keys, s: Store, now: nat, id: JobId)
    requires Tracks(l, s, now) && id in l.job
    ensures l.job[id].env.id == id
  {
    var i := PositionOf(l, s, now, id);
  }

  lemma KeyHolder(l: Keys, s: Store, now: nat, key: Key)
    requires Agree(l) && Tracks(l, s, now) && key in l.unique
    ensures l.unique[key] in l.job && l.job[l.unique[key]].env.id == l.unique[key]
  {
    StoredEnv(l, s, now, l.unique[key]);
  }

  lemma TracksLater(l: Keys, s: Store, t: nat, now: nat)
    requires Tracks(l, s, t) && t <= now < I64_MAX
    ensures Tracks(l, s, now)
  {
    ListsLater(l.job, s.jobs, t, now);
  }

  lemma TracksLapsed(l: Keys, s: Store, now: nat)
    requires Tracks(l, s, now) && now < I64_MAX
    ensures Tracks(l, Lapse(s, now), now)
  {
    ListsReleased(l.job, s.jobs, now);
    ReleaseKeeps(s, now);
  }

  // --------------------------------------------------------------- new hash

  function WithNew(l: Keys, id: JobId, h: Hash): Keys {
    Keys(l.job[id := h],
         ZAdd(l.lanes, h.lane, h.priority, Score(h), Member(h.num, id)),
         PrioAdd(l.prios, h.lane, h.priority),
         l.rcpt, ClaimKey(l.unique, h.key, id), h.num)
  }

  lemma AgreeNew(l: Keys, id: JobId, h: Hash)
    requires Agree(l) && id !in l.job && h.num == l.counter + 1
    requires h.receipt.None? && (h.key.Some? ==> h.key.value !in l.unique)
    ensures Agree(WithNew(l, id, h))
  {
    LaneIndexPut(l.job, l.lanes, id, h);
    ReceiptIndexPut(l.job, l.rcpt, id, h);
    UniqueIndexPut(l.job, l.unique, id, h);
  }

  lemma TracksNew(l: Keys, s: Store, h: Hash, j: Job, now: nat)
    requires Agree(l) && Tracks(l, s, now) && j.env.id !in l.job && h.num == l.counter + 1
    requires HashIs(h, j, now) && j.leasedUntil.None? && j.receipt.None?
    requires j.key.Some? ==> j.key.value !in l.unique
    ensures Tracks(WithNew(l, j.env.id, h),
                   s.(jobs := s.jobs + [j], unique := ClaimKey(s.unique, j.key, j.env.id)), now)
  {
    HasIdIff(l, s, now, j.env.id);
    ListsAdd(l.job, s.jobs, h, j, l.counter, now);
    AppendKeeps(s, j);
  }

  // ----------------------------------------------------------- changed hash

  /** Same job, another lease, receipt or time: its score and receipt entries move along. */
  ghost predicate Moves(old_: Hash, new_: Hash) {
    new_.num == old_.num && new_.lane == old_.lane && new_.priority == old_.priority && new_.key == old_.key
  }

  function WithMoved(l: Keys, id: JobId, h: Hash): Keys
    requires id in l.job
  {
    Keys(l.job[id := h],
         ZAdd(l.lanes, h.lane, h.priority, Score(h), Member(h.num, id)),
         l.prios,
         BindReceipt(FreeReceipt(l.rcpt, l.job[id].receipt), h.receipt, id), l.unique, l.counter)
  }

  lemma AgreeMoved(l: Keys, id: JobId, h: Hash)
    requires Agree(l) && id in l.job && Moves(l.job[id], h)
    requires h.receipt.Some? ==> h.receipt.value !in l.rcpt || h.receipt == l.job[id].receipt
    ensures Agree(WithMoved(l, id, h))
  {
    LaneIndexPut(l.job, l.lanes, id, h);
    ReceiptIndexPut(l.job, l.rcpt, id, h);
    UniqueIndexPut(l.job, l.unique, id, h);
  }

  lemma TracksMoved(l: Keys, s: Store, i: nat, h: Hash, j: Job, now: nat)
    requires Tracks(l, s, now) && i < |s.jobs| && j.env.id == s.jobs[i].env.id && j.key == s.jobs[i].key
    requires j.env.id in l.job && Moves(l.job[j.env.id], h) && HashIs(h, j, now)
    requires j.leasedUntil.Some? <==> j.receipt.Some?
    requires j.receipt.Some? ==> j.receipt == s.jobs[i].receipt || NotCurrent(s.jobs, j.receipt.value)
    ensures Tracks(WithMoved(l, j.env.id, h), Put(s, i, j), now)
  {
    ListsPut(l.job, s.jobs, i, h, j, now);
    PutKeeps(s, i, j);
  }

  /** The list forgets a lease that had run out; the hash still carries it. */
  lemma TracksForgotten(l: Keys, s: Store, i: nat, now: nat)
    requires Tracks(l, s, now) && i < |s.jobs| && Expired(s.jobs[i], now) && now < I64_MAX
    ensures Tracks(l, Put(s, i, Unleased(s.jobs[i])), now)
  {
    StoredAt(l, s, now, i);
    HashReleased(l.job[s.jobs[i].env.id], s.jobs[i], now);
    ListsSame(l.job, s.jobs, i, Unleased(s.jobs[i]), now);
    PutKeeps(s, i, Unleased(s.jobs[i]));
  }

  // ----------------------------------------------------------- dropped hash

  function WithoutHash(l: Keys, id: JobId): Keys
    requires id in l.job
  {
    var h := l.job[id];
    Keys(l.job - {id},
         ZRem(l.lanes, h.lane, h.priority, RedisLive.FifoMember(l.job, id)),
         l.prios, FreeReceipt(l.rcpt, h.receipt), FreeKey(l.unique, h.key), l.counter)
  }

  lemma AgreeDropped(l: Keys, id: JobId)
    requires Agree(l) && id in l.job
    ensures Agree(WithoutHash(l, id))
  {
    LaneIndexDrop(l.job, l.lanes, id);
    ReceiptIndexDrop(l.job, l.rcpt, id);
    UniqueIndexDrop(l.job, l.unique, id);
  }

  lemma TracksDropped(l: Keys, s: Store, i: nat, now: nat)
    requires Tracks(l, s, now) && i < |s.jobs|
    ensures s.jobs[i].env.id in l.job
    ensures Tracks(WithoutHash(l, s.jobs[i].env.id), Without(s, i), now)
  {
    StoredAt(l, s, now, i);
    ListsDrop(l.job, s.jobs, i, now);
    WithoutKeeps(s, i);
  }

  // ------------------------------------------------------------------ guard

  /** The receipt check every resolve script begins with. */
  predicate Guarded(l: Keys, receipt: Receipt, now: nat) {
    && receipt in l.rcpt && l.rcpt[receipt] in l.job
    && var h := l.job[l.rcpt[receipt]];
       h.receipt == Some(receipt) && h.leasedUntil.Some? && h.leasedUntil.value > now
  }

  /** The check passes exactly when the contract's holder of the receipt has a running lease. */
  lemma GuardFinds(l: Keys, s: Store, receipt: Receipt, now: nat)
    requires Agree(l) && Tracks(l, s, now)
    ensures var at := Holder(s.jobs, receipt);
            Guarded(l, receipt, now) <==> at.Some? && !Expired(s.jobs[at.value], now)
    ensures Guarded(l, receipt, now) ==> s.jobs[Holder(s.jobs, receipt).value].env.id == l.rcpt[receipt]
  {
    var at := Holder(s.jobs, receipt);
    if Guarded(l, receipt, now) {
      var i := PositionOf(l, s, now, l.rcpt[receipt]);
      assert s.jobs[i].receipt == Some(receipt);
    }
    if at.Some? && !Expired(s.jobs[at.value], now) {
      StoredAt(l, s, now, at.value);
    }
  }

  /** A receipt unknown to the index is not current in the list either. */
  lemma FreshReceipt(l: Keys, s: Store, receipt: Receipt, now: nat)
    requires Agree(l) && Tracks(l, s, now) && NoneExpired(s.jobs, now) && receipt !in l.rcpt
    ensures NotCurrent(s.jobs, receipt)
  {
    forall i | 0 <= i < |s.jobs| ensures s.jobs[i].receipt != Some(receipt) {
      StoredAt(l, s, now, i);
    }
  }

  // ------------------------------------------------------------- visibility

  /** A hash is due when its score has come. */
  predicate Due(h: Hash, lane: Lane, now: nat) {
    h.lane == lane && Score(h) <= now
  }

  /** Once expired leases are cleared, due and visible are the same. */
  lemma DueIsVisible(l: Keys, s: Store, now: nat, i: nat, lane: Lane)
    requires Tracks(l, s, now) && i < |s.jobs| && !Expired(s.jobs[i], now) && now < I64_MAX
    ensures s.jobs[i].env.id in l.job
    ensures Due(l.job[s.jobs[i].env.id], lane, now) <==> Visible(s.jobs[i], lane, now)
  {
    StoredAt(l, s, now, i);
  }
}
