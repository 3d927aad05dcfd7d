/** Moving a job from the live to the dead half of the key space, and back. */
module RedisBury {
  import opened Types
  import opened Lists
  import opened Contract
  import opened DeadLanes
  import opened RedisLive
  import opened RedisState
  import opened RedisDead

  ghost predicate DeadTracks(dj: DeadHashes, dz: DeadSets, s: Store) {
    DeadIndexed(dj, dz) && Mirrored(dj, dz, s.dead)
  }

  /** No id is both live and dead. */
  ghost predicate Apart(job: Hashes, dj: DeadHashes) {
    forall id :: id in job ==> id !in dj
  }

  function BuriedHash(h: Hash, id: JobId, reason: Reason, now: nat): DeadHash {
    DeadHash(h.env, reason, h.lane, h.priority, h.attempts, now, Member(h.num, id), h.key)
  }

  /** The lane's ZSET with the new entry, before retention. */
  function Ranked1(dz: DeadSets, lane: Lane, now: nat, m: Member): seq<Entry> {
    ZInsert(DOf(dz, lane), Entry(now, m))
  }

  function DeadSetsAfter(ret: Retention, dz: DeadSets, lane: Lane, now: nat, m: Member): DeadSets {
    var z := Ranked1(dz, lane, now, m);
    dz[lane := z[CutOff(ret, z, now)..]]
  }

  function DeadJobsAfter(ret: Retention, dj: DeadHashes, dz: DeadSets, id: JobId, h: DeadHash): DeadHashes {
    var z := Ranked1(dz, h.lane, h.deadAt, h.member);
    dj[id := h] - MemberIds(z[..CutOff(ret, z, h.deadAt)])
  }

  /** Where the dead ZSET files the job: behind the lane's records of earlier instants and smaller members. */
  function FileRank(l: Keys, dz: DeadSets, j: Job, now: nat): nat
    requires j.env.id in l.job
  {
    Rank(DOf(dz, l.job[j.env.id].lane), Entry(now, Member(l.job[j.env.id].num, j.env.id)))
  }

  /** What a burial does to both halves is what the contract's burial does. */
  lemma BuryTracks(cfg: Config, l: Keys, dj: DeadHashes, dz: DeadSets, s: Store, i: nat, reason: Reason, now: nat)
    returns (pos: nat)
    requires Agree(l) && Tracks(l, s, now) && DeadTracks(dj, dz, s) && Apart(l.job, dj)
    requires i < |s.jobs| && now <= I64_MAX
    ensures s.jobs[i].env.id in l.job
    ensures TiePosition(s.dead, s.jobs[i].env.lane, now, pos)
    ensures PlacedAt(s.dead, pos, DeadRec(s.jobs[i].env, reason, s.jobs[i].key, now), FileRank(l, dz, s.jobs[i], now))
    ensures var id := s.jobs[i].env.id;
            var h := BuriedHash(l.job[id], id, reason, now);
            var t := Bury(cfg, s, i, reason, now, pos);
            && Agree(WithoutHash(l, id)) && Tracks(WithoutHash(l, id), t, now)
            && DeadTracks(DeadJobsAfter(cfg.retention, dj, dz, id, h),
                          DeadSetsAfter(cfg.retention, dz, h.lane, now, h.member), t)
            && Apart(l.job - {id}, DeadJobsAfter(cfg.retention, dj, dz, id, h))
  {
    StoredAt(l, s, now, i);
    var id := s.jobs[i].env.id;
    var h := BuriedHash(l.job[id], id, reason, now);
    pos := DeadAdd(dj, dz, s.dead, id, h);
    assert InsertAt(s.dead, pos, ToRec(h)) == DeadWith(s, i, reason, now, pos);
    BuryPrunes(cfg.retention, dj, dz, DeadWith(s, i, reason, now, pos), id, h);
    AgreeDropped(l, id);
    TracksDropped(l, s, i, now);
    TracksFrame(WithoutHash(l, id), Without(s, i), Bury(cfg, s, i, reason, now, pos), now);
  }

  lemma TracksFrame(l: Keys, s: Store, t: Store, now: nat)
    requires Tracks(l, s, now) && t.jobs == s.jobs && t.unique == s.unique
    ensures Tracks(l, t, now)
  {
  }

  lemma BuryPrunes(ret: Retention, dj: DeadHashes, dz: DeadSets, dead: seq<DeadRec>, id: JobId, h: DeadHash)
    requires h.deadAt <= I64_MAX
    requires var dz1 := dz[h.lane := Ranked1(dz, h.lane, h.deadAt, h.member)];
             DeadIndexed(dj[id := h], dz1) && Mirrored(dj[id := h], dz1, dead)
    ensures var dj', dz' := DeadJobsAfter(ret, dj, dz, id, h), DeadSetsAfter(ret, dz, h.lane, h.deadAt, h.member);
            DeadIndexed(dj', dz') && Mirrored(dj', dz', Prune(ret, dead, h.lane, h.deadAt))
  {
    var z := Ranked1(dz, h.lane, h.deadAt, h.member);
    var dz1 := dz[h.lane := z];
    DeadPrune(ret, dj[id := h], dz1, dead, h.lane, h.deadAt);
    assert dz1[h.lane := z[CutOff(ret, z, h.deadAt)..]] == DeadSetsAfter(ret, dz, h.lane, h.deadAt, h.member);
  }

  /** Age first, then count: together they cut `CutOff` entries. */
  lemma CutInTwo(ret: Retention, z: seq<Entry>, now: nat)
    requires ret.maxCount.Some?
    ensures var n := AgedOut(ret, z, now);
            var ex := Excess(|z| - n, ret.maxCount.value);
            && CutOff(ret, z, now) == n + ex
            && z[n..][ex..] == z[n + ex..]
            && MemberIds(z[..n]) + MemberIds(z[n..][..ex]) == MemberIds(z[..n + ex])
  {
    var n := AgedOut(ret, z, now);
    var ex := Excess(|z| - n, ret.maxCount.value);
    IdsJoin(z[..n], z[n..][..ex]);
    assert z[..n] + z[n..][..ex] == z[..n + ex];
  }

  lemma IdsJoin(a: seq<Entry>, b: seq<Entry>)
    ensures MemberIds(a + b) == MemberIds(a) + MemberIds(b)
  {
    forall x ensures x in MemberIds(a + b) <==> x in MemberIds(a) || x in MemberIds(b) {
      if x in MemberIds(a) {
        var i :| 0 <= i < |a| && a[i].member.id == x;
        assert (a + b)[i].member.id == x;
      }
      if x in MemberIds(b) {
        var i :| 0 <= i < |b| && b[i].member.id == x;
        assert (a + b)[|a| + i].member.id == x;
      }
    }
  }

  // ----------------------------------------------------------------- revival

  function RevivedHash(h: DeadHash, now: nat, num: nat): Hash {
    Hash(h.env, h.lane, h.priority, now, None, None, h.attempts, 0, num, h.key)
  }

  /** A requeue moves exactly the record of `id`, under a fresh sequence number. */
  lemma ReviveTracks(l: Keys, dj: DeadHashes, dz: DeadSets, s: Store, id: JobId, now: nat) returns (k: nat, i: nat)
    requires Agree(l) && Tracks(l, s, now) && DeadTracks(dj, dz, s) && Apart(l.job, dj)
    requires id in dj && (dj[id].key.Some? ==> dj[id].key.value !in l.unique) && now < I64_MAX
    ensures DeadIndex(s.dead, id) == Some(k) && k < |s.dead| && s.dead[k].key == dj[id].key
    ensures i < |DOf(dz, dj[id].lane)| && DOf(dz, dj[id].lane)[i].member == dj[id].member
    ensures var h := RevivedHash(dj[id], now, l.counter + 1);
            var t := Revive(s, k, now);
            && Agree(WithNew(l, id, h)) && Tracks(WithNew(l, id, h), t, now)
            && DeadTracks(dj - {id}, dz[dj[id].lane := RemoveAt(DOf(dz, dj[id].lane), i)], t)
            && Apart(l.job[id := h], dj - {id})
  {
    k, i := Locate(dj, dz, s.dead, id);
    var h, rec := RevivedHash(dj[id], now, l.counter + 1), s.dead[k];
    var j := Job(rec.env, now, None, None, rec.key, 0);
    assert LaneFiled(dj, dz, dj[id].lane);
    AgreeNew(l, id, h);
    TracksNew(l, s, h, j, now);
    DeadRemove(dj, dz, s.dead, k, dj[id].lane, i);
    TracksFrame(WithNew(l, id, h), s.(jobs := s.jobs + [j], unique := ClaimKey(s.unique, j.key, id)),
                Revive(s, k, now), now);
  }
}
