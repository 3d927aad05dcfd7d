/**
 Which of the allowed positions Redis takes at a tie.

 A dead ZSET ranks records of one instant by the sequence number of the job, which is
 the order of enqueueing; the in-memory and SQL brokers file a failure behind all others.
 */
module RedisTies {
  import opened Types
  import opened Contract
  import opened DeadLanes
  import opened RedisLive
  import opened RedisState
  import opened RedisDead
  import opened RedisBury
  import opened RedisSound
  import opened Ties

  /** A record of the job's lane failed at this very instant and was enqueued later. */
  ghost predicate Outranked(w: World, j: Job)
    requires j.env.id in w.live.job
  {
    exists id :: id in w.dj && w.dj[id].lane == j.env.lane && w.dj[id].deadAt == w.now
                 && w.dj[id].member.num > w.live.job[j.env.id].num
  }

  /** An entry of the lane's ZSET that does not sort below the new one is a later sibling. */
  lemma NotBelow(w: World, j: Job, k: nat)
    requires Sound(w) && j.env.id in w.live.job && k < |DOf(w.dz, j.env.lane)|
    ensures var e := DOf(w.dz, j.env.lane)[k];
            && e.member.id in w.dj && w.dj[e.member.id].lane == j.env.lane
            && (!Below(e, Entry(w.now, Member(w.live.job[j.env.id].num, j.env.id))) <==>
                  w.dj[e.member.id].deadAt == w.now && w.dj[e.member.id].member.num > w.live.job[j.env.id].num)
  {
    Parts(w);
    assert LaneFiled(w.dj, w.dz, j.env.lane);
  }

  /** Redis files the record last exactly when no later sibling is there. */
  lemma FiledLastIff(w: World, i: nat)
    requires Sound(w) && i < |w.store.jobs|
    ensures var j := w.store.jobs[i];
            && j.env.id in w.live.job
            && (FileRank(w.live, w.dz, j, w.now) == |OfLane(w.store.dead, j.env.lane)| <==> !Outranked(w, j))
  {
    Parts(w);
    StoredAt(w.live, w.store, w.now, i);
    var j := w.store.jobs[i];
    var z := DOf(w.dz, j.env.lane);
    var r := FileRank(w.live, w.dz, j, w.now);
    DeadCount(w, j.env.lane);
    if r < |z| {
      NotBelow(w, j, r);
    }
    if Outranked(w, j) {
      var id :| id in w.dj && w.dj[id].lane == j.env.lane && w.dj[id].deadAt == w.now
                && w.dj[id].member.num > w.live.job[j.env.id].num;
      assert Ranks(w.dj, w.dz, id);
      var k :| 0 <= k < |z| && z[k].member == w.dj[id].member;
      NotBelow(w, j, k);
    }
  }

  /**
   After a Redis burial the lane keeps what it keeps in memory,
   exactly when the record was filed last, or nothing is kept at all.
   */
  lemma SameOrderIff(cfg: Config, w: World, i: nat, reason: Reason, pos: nat)
    requires Sound(w) && i < |w.store.jobs| && w.store.jobs[i].env.id in w.live.job
    requires PlacedAt(w.store.dead, pos, DeadRec(w.store.jobs[i].env, reason, w.store.jobs[i].key, w.now),
                      FileRank(w.live, w.dz, w.store.jobs[i], w.now))
    ensures SameOrder(cfg, w.store, i, reason, w.now, pos) <==>
            !Outranked(w, w.store.jobs[i]) || cfg.retention.maxCount == Some(0)
  {
    var s, lane := w.store, w.store.jobs[i].env.lane;
    var rec := DeadRec(s.jobs[i].env, reason, s.jobs[i].key, w.now);
    FiledLastIff(w, i);
    if cfg.retention.maxCount == Some(0) {
      NoneSurvives(cfg.retention, DeadWith(s, i, reason, w.now, pos), lane, w.now);
      NoneSurvives(cfg.retention, DeadWith(s, i, reason, w.now, |s.dead|), lane, w.now);
    } else if Outranked(w, s.jobs[i]) {
      LastIsLate(w, i, rec);
      AheadDiffers(cfg.retention, s.dead, pos, rec, w.now, FileRank(w.live, w.dz, s.jobs[i], w.now));
    } else {
      OfLaneInsert(s.dead, |s.dead|, rec, lane);
      assert s.dead[..|s.dead|] == s.dead && s.dead[|s.dead|..] == [];
      PruneByLane(cfg.retention, DeadWith(s, i, reason, w.now, pos), DeadWith(s, i, reason, w.now, |s.dead|),
                  lane, w.now, lane);
    }
  }

  lemma LateEntry(z: seq<Entry>, e: Entry)
    requires Ranked(z) && Rank(z, e) < |z|
    ensures z[|z| - 1].score >= e.score
  {
    var r := Rank(z, e);
    assert r < |z| - 1 ==> Below(z[r], z[|z| - 1]);
  }

  /** Rank by rank, the store's list of the lane has the ZSET's times, and ids that are not live. */
  lemma RecordAt(w: World, lane: Lane, k: nat)
    requires Sound(w) && k < |DOf(w.dz, lane)|
    ensures k < |OfLane(w.store.dead, lane)|
    ensures OfLane(w.store.dead, lane)[k].deadAt == DOf(w.dz, lane)[k].score
    ensures OfLane(w.store.dead, lane)[k].env.id !in w.live.job
  {
    Parts(w);
    assert LaneFiled(w.dj, w.dz, lane) && LaneMirrored(w.dj, w.dz, w.store.dead, lane);
    assert Filed(w.dj, lane, DOf(w.dz, lane)[k]);
  }

  lemma LastIsLate(w: World, i: nat, rec: DeadRec)
    requires Sound(w) && i < |w.store.jobs| && rec.env.id == w.store.jobs[i].env.id
    requires w.store.jobs[i].env.id in w.live.job && Outranked(w, w.store.jobs[i])
    ensures var list := OfLane(w.store.dead, w.store.jobs[i].env.lane);
            list != [] && list[|list| - 1].deadAt >= w.now && list[|list| - 1] != rec
  {
    FiledLastIff(w, i);
    StoredLane(w, i);
    var j := w.store.jobs[i];
    DeadCount(w, j.env.lane);
    LateEntry(DOf(w.dz, j.env.lane), Entry(w.now, Member(w.live.job[j.env.id].num, j.env.id)));
    RecordAt(w, j.env.lane, |DOf(w.dz, j.env.lane)| - 1);
  }

  lemma StoredLane(w: World, i: nat)
    requires Sound(w) && i < |w.store.jobs| && w.store.jobs[i].env.id in w.live.job
    ensures w.live.job[w.store.jobs[i].env.id].lane == w.store.jobs[i].env.lane
    ensures Ranked(DOf(w.dz, w.store.jobs[i].env.lane))
  {
    Parts(w);
    StoredAt(w.live, w.store, w.now, i);
    assert LaneFiled(w.dj, w.dz, w.store.jobs[i].env.lane);
  }

  // ---------------------------------------------------------------- witness

  /** With room for one record, memory keeps the job that failed last. */
  lemma MemoryKeepsNewest(cfg: Config, s: Store, i: nat, reason: Reason, now: nat)
    requires i < |s.jobs| && cfg.retention.maxCount == Some(1)
    ensures OfLane(Bury(cfg, s, i, reason, now, |s.dead|).dead, s.jobs[i].env.lane) ==
            [DeadRec(s.jobs[i].env, reason, s.jobs[i].key, now)]
  {
    var lane := s.jobs[i].env.lane;
    var rec := DeadRec(s.jobs[i].env, reason, s.jobs[i].key, now);
    OfLaneInsert(s.dead, |s.dead|, rec, lane);
    assert s.dead[..|s.dead|] == s.dead && s.dead[|s.dead|..] == [];
    assert OfLane(DeadWith(s, i, reason, now, |s.dead|), lane) == OfLane(s.dead, lane) + [rec];
    LastSurvives(cfg.retention, DeadWith(s, i, reason, now, |s.dead|), lane, now, OfLane(s.dead, lane), rec);
  }

  lemma OneEntry(ret: Retention, now: nat, m: Member)
    requires ret.maxCount == Some(1)
    ensures var z := ZInsert([], Entry(now, m)); z[CutOff(ret, z, now)..] == [Entry(now, m)]
  {
  }

  lemma TwoEntries(ret: Retention, now: nat, m: Member, n: Member)
    requires ret.maxCount == Some(1) && m.num < n.num
    ensures var z := ZInsert([Entry(now, n)], Entry(now, m)); z[CutOff(ret, z, now)..] == [Entry(now, n)]
  {
  }

  /** A lane whose dead ZSET has one entry holds that record alone. */
  lemma OneKept(w: World, lane: Lane, e: Entry)
    requires Sound(w) && DOf(w.dz, lane) == [e]
    ensures var kept := OfLane(w.store.dead, lane); |kept| == 1 && kept[0].env.id == e.member.id
  {
    Parts(w);
    assert LaneFiled(w.dj, w.dz, lane) && LaneMirrored(w.dj, w.dz, w.store.dead, lane);
  }
}
