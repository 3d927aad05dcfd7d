/** What the reading scripts count and list is what a full scan of the contract's store finds. */
module RedisReads {
  import opened Types
  import opened Lists
  import opened Contract
  import opened Invariant
  import opened DeadLanes
  import opened RedisLive
  import opened RedisState
  import opened RedisDead
  import opened RedisSound
  import opened Encoding

  /** The jobs of a lane at the given levels. */
  function IdsAt(job: Hashes, lane: Lane, levels: set<nat>): set<JobId> {
    set id | id in job && job[id].lane == lane && job[id].priority in levels
  }

  /** ZCARD of a lane ZSET counts the jobs of that level. */
  lemma LevelCount(w: World, lane: Lane, p: nat)
    requires Sound(w)
    ensures |ZOf(w.live.lanes, lane, p)| == |IdsAt(w.live.job, lane, {p})|
  {
    Parts(w);
    var job, z := w.live.job, ZOf(w.live.lanes, lane, p);
    forall m | m in z.Keys ensures Indexed(job, lane, p, m) {
      assert LaneEntry(job, w.live.lanes, lane, p, m);
    }
    forall id | id in IdsAt(job, lane, {p}) ensures Member(job[id].num, id) in z.Keys {
      assert LaneEntry(job, w.live.lanes, lane, p, Member(job[id].num, id));
    }
    SameSize(job, z.Keys, IdsAt(job, lane, {p}));
  }

  /** Ids and members pair up. */
  lemma {:induction false} SameSize(job: Hashes, members: set<Member>, ids: set<JobId>)
    requires forall m :: m in members ==> m.id in ids && m.id in job && job[m.id].num == m.num
    requires forall id :: id in ids ==> id in job && Member(job[id].num, id) in members
    ensures |members| == |ids|
  {
    if m :| m in members {
      assert forall k :: k in members && k.id == m.id ==> k == m;
      SameSize(job, members - {m}, ids - {m.id});
    } else {
      assert forall id :: id in ids ==> Member(job[id].num, id) in members;
      assert members == {} && ids == {};
    }
  }

  lemma LevelsAdd(job: Hashes, lane: Lane, levels: set<nat>, p: nat)
    requires p !in levels
    ensures |IdsAt(job, lane, levels + {p})| == |IdsAt(job, lane, levels)| + |IdsAt(job, lane, {p})|
  {
    assert IdsAt(job, lane, levels + {p}) == IdsAt(job, lane, levels) + IdsAt(job, lane, {p});
    assert IdsAt(job, lane, levels) !! IdsAt(job, lane, {p});
  }

  function LaneIds(jobs: seq<Job>, lane: Lane): set<JobId> {
    set i | 0 <= i < |jobs| && jobs[i].env.lane == lane :: jobs[i].env.id
  }

  lemma {:induction false} TallyIds(jobs: seq<Job>, lane: Lane)
    requires DistinctIds(jobs)
    ensures |LaneIds(jobs, lane)| == Tally(JobsOnLane(jobs, lane))
  {
    if jobs != [] {
      var n := |jobs| - 1;
      TallyIds(jobs[..n], lane);
      assert JobsOnLane(jobs, lane)[..n] == JobsOnLane(jobs[..n], lane);
      if jobs[n].env.lane == lane {
        LaneIdsLast(jobs, lane);
      } else {
        assert LaneIds(jobs, lane) == LaneIds(jobs[..n], lane);
      }
    }
  }

  lemma LaneIdsLast(jobs: seq<Job>, lane: Lane)
    requires DistinctIds(jobs) && jobs != [] && jobs[|jobs| - 1].env.lane == lane
    ensures LaneIds(jobs, lane) == LaneIds(jobs[..|jobs| - 1], lane) + {jobs[|jobs| - 1].env.id}
    ensures jobs[|jobs| - 1].env.id !in LaneIds(jobs[..|jobs| - 1], lane)
  {
  }

  /** The active levels hold every job of the lane. */
  lemma AllLevels(w: World, lane: Lane)
    requires Sound(w)
    ensures |IdsAt(w.live.job, lane, PriosOf(w.live.prios, lane))| == Tally(JobsOnLane(w.store.jobs, lane))
  {
    Parts(w);
    var job, jobs := w.live.job, w.store.jobs;
    var ids := IdsAt(job, lane, PriosOf(w.live.prios, lane));
    forall id | id in ids ensures id in LaneIds(jobs, lane) {
      var i := PositionOf(w.live, w.store, w.now, id);
    }
    forall id | id in LaneIds(jobs, lane) ensures id in ids {
      var i :| 0 <= i < |jobs| && jobs[i].env.lane == lane && jobs[i].env.id == id;
      StoredAt(w.live, w.store, w.now, i);
    }
    assert ids == LaneIds(jobs, lane);
    TallyIds(jobs, lane);
  }

  function LetterOf(rec: DeadRec): Letter {
    Letter(rec.env, rec.reason)
  }

  /** The letters of those ids that have a dead record, in the order asked for. */
  function Found(dead: seq<DeadRec>, ids: seq<JobId>): seq<Letter> {
    if ids == [] then []
    else
      var n := |ids| - 1;
      var at := DeadIndex(dead, ids[n]);
      Found(dead, ids[..n]) + (if at.Some? then [LetterOf(dead[at.value])] else [])
  }

  function EntryIds(z: seq<Entry>): seq<JobId> {
    seq(|z|, i requires 0 <= i < |z| => z[i].member.id)
  }

  /** The ids in rank order are those of the lane's records in the store's order. */
  lemma MembersAre(w: World, lane: Lane, limit: nat)
    requires Sound(w)
    ensures EntryIds(Take(DOf(w.dz, lane), limit)) == DeadIds(Take(OfLane(w.store.dead, lane), limit))
  {
    Parts(w);
    DeadCount(w, lane);
    assert LaneFiled(w.dj, w.dz, lane) && LaneMirrored(w.dj, w.dz, w.store.dead, lane);
  }

  lemma EntryRecord(w: World, lane: Lane, i: nat)
    requires Sound(w) && i < |DOf(w.dz, lane)|
    ensures i < |OfLane(w.store.dead, lane)|
    ensures var at := DeadIndex(w.store.dead, DOf(w.dz, lane)[i].member.id);
            at.Some? && w.store.dead[at.value] == OfLane(w.store.dead, lane)[i]
  {
    Parts(w);
    assert LaneMirrored(w.dj, w.dz, w.store.dead, lane);
    DeadIff(w, DOf(w.dz, lane)[i].member.id);
  }

  /** Asking for records one by one gives the list of them. */
  lemma {:induction false} FoundInOrder(dead: seq<DeadRec>, ids: seq<JobId>, list: seq<DeadRec>)
    requires |ids| == |list|
    requires forall i :: 0 <= i < |ids| ==>
               DeadIndex(dead, ids[i]).Some? && dead[DeadIndex(dead, ids[i]).value] == list[i]
    ensures Found(dead, ids) == ToLetters(list)
  {
    if ids != [] {
      var n := |ids| - 1;
      FoundInOrder(dead, ids[..n], list[..n]);
      assert ToLetters(list) == ToLetters(list[..n]) + [LetterOf(list[n])];
    }
  }

  /** The dead ZSET in rank order, up to the limit, is the contract's listing. */
  lemma LettersAre(w: World, lane: Lane, limit: nat)
    requires Sound(w)
    ensures Found(w.store.dead, EntryIds(Take(DOf(w.dz, lane), limit))) ==
            Take(ToLetters(Pick(w.store.dead, OnLane(w.store.dead, lane))), limit)
  {
    var z, list := DOf(w.dz, lane), OfLane(w.store.dead, lane);
    var n := |Take(z, limit)|;
    assert Take(z, limit) == z[..n];
    DeadCount(w, lane);
    forall i | 0 <= i < n
      ensures var at := DeadIndex(w.store.dead, EntryIds(z[..n])[i]); at.Some? && w.store.dead[at.value] == list[..n][i]
    {
      EntryRecord(w, lane, i);
    }
    FoundInOrder(w.store.dead, EntryIds(z[..n]), list[..n]);
    OfLanePick(w.store.dead, lane);
    assert Take(ToLetters(list), limit) == ToLetters(list[..n]);
  }

  // -------------------------------------------------------------- watermarks

  lemma MarkIff(w: World, sid: ScheduleId, occurrence: int)
    requires Sound(w) && IsI64(occurrence)
    ensures sid in w.texts <==> sid in w.store.schedules
    ensures sid in w.texts ==> (Less(w.texts[sid], Watermark(occurrence)) <==> w.store.schedules[sid] < occurrence)
  {
    assert Holds(Watermarks, w);
    assert WatermarkIs(w.texts, w.store.schedules, sid);
    if sid in w.texts {
      WatermarkOrder(w.store.schedules[sid], occurrence);
    }
  }

  lemma SoundMarked(w: World, sid: ScheduleId, occurrence: int)
    requires Sound(w) && IsI64(occurrence)
    ensures Sound(w.(texts := w.texts[sid := Watermark(occurrence)],
                     store := w.store.(schedules := w.store.schedules[sid := occurrence])))
  {
    var v := w.(texts := w.texts[sid := Watermark(occurrence)],
                store := w.store.(schedules := w.store.schedules[sid := occurrence]));
    forall aspect ensures Holds(aspect, v) {
      assert Holds(aspect, w);
      if aspect.Watermarks? {
        forall other ensures WatermarkIs(v.texts, v.store.schedules, other) {
          assert WatermarkIs(w.texts, w.store.schedules, other);
        }
      }
    }
  }

  lemma SoundUnmarked(w: World, sid: ScheduleId)
    requires Sound(w)
    ensures Sound(w.(texts := w.texts - {sid}, store := w.store.(schedules := w.store.schedules - {sid})))
  {
    var v := w.(texts := w.texts - {sid}, store := w.store.(schedules := w.store.schedules - {sid}));
    forall aspect ensures Holds(aspect, v) {
      assert Holds(aspect, w);
      if aspect.Watermarks? {
        forall other ensures WatermarkIs(v.texts, v.store.schedules, other) {
          assert WatermarkIs(w.texts, w.store.schedules, other);
        }
      }
    }
  }
}
