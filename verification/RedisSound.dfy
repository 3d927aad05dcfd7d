/**
 The whole key space at one clock reading, beside the contract's store it stands
 for, and what each kind of script step does to the pair.
 */
module RedisSound {
  import opened Types
  import opened Lists
  import opened Contract
  import opened Invariant
  import opened DeadLanes
  import opened RedisLive
  import opened RedisState
  import opened RedisDead
  import opened RedisBury
  import opened Encoding

  datatype World = World(
    live: Keys, dj: DeadHashes, dz: DeadSets, texts: map<ScheduleId, string>,
    store: Store, now: nat)

  ghost predicate WatermarkIs(texts: map<ScheduleId, string>, marks: map<ScheduleId, int>, sid: ScheduleId) {
    && (sid in texts <==> sid in marks)
    && (sid in marks ==> IsI64(marks[sid]) && texts[sid] == Watermark(marks[sid]))
  }

  /** The aspects of a sound key space. */
  datatype Aspect = Indexes | LiveJobs | DeadLetters | Disjoint | Watermarks | Clock | Sequence

  ghost predicate Holds(aspect: Aspect, w: World) {
    match aspect
    case Indexes => Agree(w.live)
    case LiveJobs => Tracks(w.live, w.store, w.now)
    case DeadLetters => DeadTracks(w.dj, w.dz, w.store)
    case Disjoint => Apart(w.live.job, w.dj)
    case Watermarks => forall sid :: WatermarkIs(w.texts, w.store.schedules, sid)
    case Clock => w.now < I64_MAX && NoneLater(w.dj, w.now)
    case Sequence => Numbered(w.live, w.dj)
  }

  /** A dead record keeps the sequence number of its job, which no live job carries. */
  ghost predicate Numbered(l: Keys, dj: DeadHashes) {
    && (forall id :: id in dj ==> dj[id].member.num <= l.counter)
    && (forall a, b :: a in l.job && b in dj ==> l.job[a].num != dj[b].member.num)
  }

  /** Nothing failed in the future. */
  ghost predicate NoneLater(dj: DeadHashes, now: nat) {
    forall id :: id in dj ==> dj[id].deadAt <= now
  }

  /** All indexes agree with each other and with the contract's store. */
  ghost predicate Sound(w: World) {
    forall aspect :: Holds(aspect, w)
  }

  lemma Parts(w: World)
    requires Sound(w)
    ensures Agree(w.live) && Tracks(w.live, w.store, w.now)
    ensures DeadTracks(w.dj, w.dz, w.store) && Apart(w.live.job, w.dj) && w.now < I64_MAX && NoneLater(w.dj, w.now)
    ensures Numbered(w.live, w.dj)
  {
    assert Holds(Sequence, w);
    assert Holds(Indexes, w) && Holds(LiveJobs, w) && Holds(DeadLetters, w) && Holds(Disjoint, w) && Holds(Clock, w);
  }

  /** A sound world stays sound when its live and dead halves do and its schedules are left alone. */
  lemma Assemble(v: World, w: World)
    requires Sound(v) && w.texts == v.texts && w.store.schedules == v.store.schedules && w.now < I64_MAX
    requires Agree(w.live) && Tracks(w.live, w.store, w.now)
    requires DeadTracks(w.dj, w.dz, w.store) && Apart(w.live.job, w.dj) && NoneLater(w.dj, w.now) &&
             Numbered(w.live, w.dj)
    ensures Sound(w)
  {
    forall aspect ensures Holds(aspect, w) {
      assert Holds(aspect, v);
    }
  }

  lemma SoundEmpty(now: nat)
    requires now < I64_MAX
    ensures Sound(World(Keys(map[], map[], map[], map[], map[], 0), map[], map[], map[], EMPTY_STORE, now))
  {
  }

  // ----------------------------------------------------------- script steps

  lemma SoundLater(w: World, now: nat)
    requires Sound(w) && w.now <= now < I64_MAX
    ensures Sound(w.(now := now))
  {
    Parts(w);
    TracksLater(w.live, w.store, w.now, now);
    Assemble(w, w.(now := now));
  }

  lemma SoundLapsed(w: World)
    requires Sound(w)
    ensures Sound(w.(store := Lapse(w.store, w.now))) && NoneExpired(Lapse(w.store, w.now).jobs, w.now)
  {
    Parts(w);
    TracksLapsed(w.live, w.store, w.now);
    Assemble(w, w.(store := Lapse(w.store, w.now)));
  }

  lemma SoundForgotten(w: World, i: nat)
    requires Sound(w) && i < |w.store.jobs| && Expired(w.store.jobs[i], w.now)
    ensures Sound(w.(store := Put(w.store, i, Unleased(w.store.jobs[i]))))
  {
    Parts(w);
    TracksForgotten(w.live, w.store, i, w.now);
    Assemble(w, w.(store := Put(w.store, i, Unleased(w.store.jobs[i]))));
  }

  lemma SoundMoved(w: World, i: nat, h: Hash, j: Job)
    requires Sound(w) && i < |w.store.jobs| && j.env.id == w.store.jobs[i].env.id && j.key == w.store.jobs[i].key
    requires j.env.id in w.live.job && Moves(w.live.job[j.env.id], h) && HashIs(h, j, w.now)
    requires j.leasedUntil.Some? <==> j.receipt.Some?
    requires j.receipt.Some? ==> j.receipt == w.store.jobs[i].receipt || NotCurrent(w.store.jobs, j.receipt.value)
    requires h.receipt.Some? ==> h.receipt.value !in w.live.rcpt || h.receipt == w.live.job[j.env.id].receipt
    ensures Sound(w.(live := WithMoved(w.live, j.env.id, h), store := Put(w.store, i, j)))
  {
    Parts(w);
    AgreeMoved(w.live, j.env.id, h);
    TracksMoved(w.live, w.store, i, h, j, w.now);
    Assemble(w, w.(live := WithMoved(w.live, j.env.id, h), store := Put(w.store, i, j)));
  }

  lemma SoundDropped(w: World, i: nat)
    requires Sound(w) && i < |w.store.jobs| && w.store.jobs[i].env.id in w.live.job
    ensures Sound(w.(live := WithoutHash(w.live, w.store.jobs[i].env.id), store := Without(w.store, i)))
  {
    Parts(w);
    AgreeDropped(w.live, w.store.jobs[i].env.id);
    TracksDropped(w.live, w.store, i, w.now);
    Assemble(w, w.(live := WithoutHash(w.live, w.store.jobs[i].env.id), store := Without(w.store, i)));
  }

  lemma SoundNew(w: World, h: Hash, j: Job)
    requires Sound(w) && j.env.id !in w.live.job && j.env.id !in w.dj && h.num == w.live.counter + 1
    requires HashIs(h, j, w.now) && j.leasedUntil.None? && j.receipt.None? && h.receipt.None?
    requires j.key.Some? ==> j.key.value !in w.live.unique
    ensures Sound(w.(live := WithNew(w.live, j.env.id, h),
                     store := w.store.(jobs := w.store.jobs + [j],
                                       unique := ClaimKey(w.store.unique, j.key, j.env.id))))
  {
    Parts(w);
    AgreeNew(w.live, j.env.id, h);
    TracksNew(w.live, w.store, h, j, w.now);
    Assemble(w, w.(live := WithNew(w.live, j.env.id, h),
                   store := w.store.(jobs := w.store.jobs + [j],
                                     unique := ClaimKey(w.store.unique, j.key, j.env.id))));
  }

  function BuriedWorld(cfg: Config, w: World, id: JobId, reason: Reason, t: Store): World
    requires id in w.live.job
  {
    var h := BuriedHash(w.live.job[id], id, reason, w.now);
    w.(live := WithoutHash(w.live, id),
       dj := DeadJobsAfter(cfg.retention, w.dj, w.dz, id, h),
       dz := DeadSetsAfter(cfg.retention, w.dz, h.lane, w.now, h.member),
       store := t)
  }

  lemma BuriedNumbered(cfg: Config, w: World, id: JobId, reason: Reason)
    requires Agree(w.live) && NoneLater(w.dj, w.now) && Numbered(w.live, w.dj) && id in w.live.job
    ensures var h := BuriedHash(w.live.job[id], id, reason, w.now);
            var dj' := DeadJobsAfter(cfg.retention, w.dj, w.dz, id, h);
            NoneLater(dj', w.now) && Numbered(WithoutHash(w.live, id), dj')
  {
  }

  lemma SoundBuried(cfg: Config, w: World, i: nat, reason: Reason) returns (pos: nat)
    requires Sound(w) && i < |w.store.jobs|
    ensures w.store.jobs[i].env.id in w.live.job
    ensures TiePosition(w.store.dead, w.store.jobs[i].env.lane, w.now, pos)
    ensures PlacedAt(w.store.dead, pos, DeadRec(w.store.jobs[i].env, reason, w.store.jobs[i].key, w.now),
                     FileRank(w.live, w.dz, w.store.jobs[i], w.now))
    ensures Sound(BuriedWorld(cfg, w, w.store.jobs[i].env.id, reason,
                              Contract.Bury(cfg, w.store, i, reason, w.now, pos)))
  {
    Parts(w);
    pos := BuryTracks(cfg, w.live, w.dj, w.dz, w.store, i, reason, w.now);
    BuriedNumbered(cfg, w, w.store.jobs[i].env.id, reason);
    Assemble(w, BuriedWorld(cfg, w, w.store.jobs[i].env.id, reason,
                            Contract.Bury(cfg, w.store, i, reason, w.now, pos)));
  }

  function RevivedWorld(w: World, id: JobId, i: nat, t: Store): World
    requires id in w.dj && i < |DOf(w.dz, w.dj[id].lane)|
  {
    w.(live := WithNew(w.live, id, RevivedHash(w.dj[id], w.now, w.live.counter + 1)),
       dj := w.dj - {id},
       dz := w.dz[w.dj[id].lane := RemoveAt(DOf(w.dz, w.dj[id].lane), i)],
       store := t)
  }

  lemma RevivedNumbered(w: World, id: JobId)
    requires Agree(w.live) && NoneLater(w.dj, w.now) && Numbered(w.live, w.dj) && id in w.dj
    ensures var l := WithNew(w.live, id, RevivedHash(w.dj[id], w.now, w.live.counter + 1));
            NoneLater(w.dj - {id}, w.now) && Numbered(l, w.dj - {id})
  {
  }

  lemma RevivedSound(w: World, id: JobId, i: nat, t: Store)
    requires Sound(w) && id in w.dj && i < |DOf(w.dz, w.dj[id].lane)| && t.schedules == w.store.schedules
    requires var v := RevivedWorld(w, id, i, t);
             && Agree(v.live) && Tracks(v.live, t, w.now) && DeadTracks(v.dj, v.dz, t) && Apart(v.live.job, v.dj)
    ensures Sound(RevivedWorld(w, id, i, t))
  {
    Parts(w);
    RevivedNumbered(w, id);
    Assemble(w, RevivedWorld(w, id, i, t));
  }

  lemma SoundRevived(w: World, id: JobId) returns (k: nat, i: nat)
    requires Sound(w) && id in w.dj && (w.dj[id].key.Some? ==> w.dj[id].key.value !in w.live.unique)
    ensures DeadIndex(w.store.dead, id) == Some(k) && k < |w.store.dead| && w.store.dead[k].key == w.dj[id].key
    ensures i < |DOf(w.dz, w.dj[id].lane)| && DOf(w.dz, w.dj[id].lane)[i].member == w.dj[id].member
    ensures Sound(RevivedWorld(w, id, i, Revive(w.store, k, w.now)))
  {
    Parts(w);
    k, i := ReviveTracks(w.live, w.dj, w.dz, w.store, id, w.now);
    var h, lane := RevivedHash(w.dj[id], w.now, w.live.counter + 1), w.dj[id].lane;
    var v := RevivedWorld(w, id, i, Revive(w.store, k, w.now));
    assert v.live == WithNew(w.live, id, h) && v.live.job == w.live.job[id := h];
    assert v.dj == w.dj - {id} && v.dz == w.dz[lane := RemoveAt(DOf(w.dz, lane), i)];
    RevivedSound(w, id, i, Revive(w.store, k, w.now));
  }

  /** A dead ZSET lists a record's member once. */
  lemma OnlyEntry(w: World, id: JobId, i: nat)
    requires Sound(w) && id in w.dj && i < |DOf(w.dz, w.dj[id].lane)|
    requires DOf(w.dz, w.dj[id].lane)[i].member == w.dj[id].member
    ensures var z := DOf(w.dz, w.dj[id].lane);
            forall k :: 0 <= k < |z| && k != i ==> z[k].member != w.dj[id].member
  {
    Parts(w);
    var lane := w.dj[id].lane;
    forall k | 0 <= k < |DOf(w.dz, lane)| && DOf(w.dz, lane)[k].member == w.dj[id].member ensures k == i {
      IdsDiffer(w.dj, w.dz, lane, k, lane, i);
    }
  }

  /** A purge drops the whole lane. */
  lemma SoundEmptied(w: World, lane: Lane)
    requires Sound(w)
    ensures var z := DOf(w.dz, lane);
            Sound(w.(dj := w.dj - MemberIds(z), dz := w.dz[lane := []], store := Empty(w.store, lane)))
    ensures |DOf(w.dz, lane)| == Tally(OnLane(w.store.dead, lane))
  {
    Parts(w);
    var z, t := DOf(w.dz, lane), Empty(w.store, lane);
    DeadCount(w, lane);
    EmptyOfLane(w.store.dead, lane, lane);
    forall other | other != lane ensures OfLane(t.dead, other) == OfLane(w.store.dead, other) {
      EmptyOfLane(w.store.dead, lane, other);
    }
    OfLanePick(w.store.dead, lane);
    PickLength(w.store.dead, OnLane(w.store.dead, lane));
    DeadCut(w.dj, w.dz, w.store.dead, t.dead, lane, |z|);
    assert z[..|z|] == z && z[|z|..] == [];
    TracksFrame(w.live, w.store, t, w.now);
    Assemble(w, w.(dj := w.dj - MemberIds(z), dz := w.dz[lane := []], store := t));
  }

  /** ZCARD of a dead ZSET is a full count of the lane's dead letters. */
  lemma DeadCount(w: World, lane: Lane)
    requires Sound(w)
    ensures |DOf(w.dz, lane)| == Tally(OnLane(w.store.dead, lane)) == |OfLane(w.store.dead, lane)|
  {
    Parts(w);
    RecordTimes(w.dj, w.dz, w.store.dead, lane);
    OfLanePick(w.store.dead, lane);
    PickLength(w.store.dead, OnLane(w.store.dead, lane));
  }

  // ---------------------------------------------------------------- lookups

  lemma LiveIff(w: World, id: JobId)
    requires Sound(w)
    ensures id in w.live.job <==> HasId(w.store.jobs, id)
    ensures id in w.live.job ==> w.live.job[id].env.id == id && id !in w.dj
  {
    Parts(w);
    HasIdIff(w.live, w.store, w.now, id);
    if id in w.live.job {
      StoredEnv(w.live, w.store, w.now, id);
    }
  }

  lemma KeyIff(w: World, key: Key)
    requires Sound(w)
    ensures w.live.unique == w.store.unique
    ensures key in w.live.unique ==>
              w.live.unique[key] in w.live.job && w.live.job[w.live.unique[key]].env.id == w.live.unique[key]
  {
    Parts(w);
    if key in w.live.unique {
      KeyHolder(w.live, w.store, w.now, key);
    }
  }

  lemma DeadIff(w: World, id: JobId)
    requires Sound(w)
    ensures id in w.dj <==> HasDead(w.store.dead, id)
    ensures id in w.dj <==> DeadIndex(w.store.dead, id).Some?
    ensures id in w.dj ==> DeadIndex(w.store.dead, id).Some? &&
                             w.store.dead[DeadIndex(w.store.dead, id).value] == ToRec(w.dj[id])
  {
    Parts(w);
    HasDeadIff(w.dj, w.dz, w.store.dead, id);
    if id in w.dj {
      var k, i := Locate(w.dj, w.dz, w.store.dead, id);
    }
  }

  /** The contract accepts the receipt held at `i`. */
  ghost predicate Accepts(s: Store, receipt: Receipt, now: nat, i: nat) {
    i < |s.jobs| && Holder(s.jobs, receipt) == Some(i) && !Expired(s.jobs[i], now)
  }

  lemma GuardIff(w: World, receipt: Receipt)
    requires Sound(w)
    ensures var at := Holder(w.store.jobs, receipt);
            && (Guarded(w.live, receipt, w.now) <==> at.Some? && Accepts(w.store, receipt, w.now, at.value))
            && (at.Some? && !Guarded(w.live, receipt, w.now) ==> Expired(w.store.jobs[at.value], w.now))
            && (Guarded(w.live, receipt, w.now) ==>
                  var id := w.live.rcpt[receipt];
                  && w.store.jobs[at.value].env.id == id && HashIs(w.live.job[id], w.store.jobs[at.value], w.now))
  {
    Parts(w);
    GuardFinds(w.live, w.store, receipt, w.now);
    if Guarded(w.live, receipt, w.now) {
      StoredAt(w.live, w.store, w.now, Holder(w.store.jobs, receipt).value);
    }
  }

  lemma Unused(w: World, receipt: Receipt)
    requires Sound(w) && NoneExpired(w.store.jobs, w.now) && receipt !in w.live.rcpt
    ensures NotCurrent(w.store.jobs, receipt)
  {
    Parts(w);
    FreshReceipt(w.live, w.store, receipt, w.now);
  }

  // ---------------------------------------------------------------- reserve

  /** No hash of the lane carries a lease that has run out. */
  ghost predicate NoStaleLease(job: Hashes, lane: Lane, now: nat) {
    forall id :: id in job && job[id].lane == lane && job[id].leasedUntil.Some? ==> job[id].leasedUntil.value > now
  }

  /** ZSET order: score, then member. */
  predicate Sooner(z: ZSet, a: Member, b: Member)
    requires a in z && b in z
  {
    Below(Entry(z[a], a), Entry(z[b], b))
  }

  /** What `ZRANGEBYSCORE -inf now LIMIT 0 1` returns. */
  predicate LeastDue(z: ZSet, now: nat, m: Member) {
    && m in z && z[m] <= now
    && forall q :: q in z && z[q] <= now && q != m ==> Sooner(z, m, q)
  }

  lemma {:induction false} SomeLeastDue(z: ZSet, now: nat)
    requires exists m :: m in z && z[m] <= now
    ensures exists m :: LeastDue(z, now, m)
    decreases |z|
  {
    var m :| m in z && z[m] <= now;
    var rest := z - {m};
    assert |rest.Keys| < |z.Keys| by {
      assert rest.Keys == z.Keys - {m};
    }
    if q :| q in rest && rest[q] <= now {
      SomeLeastDue(rest, now);
      var least :| LeastDue(rest, now, least);
      if Sooner(z, m, least) {
        forall q | q in z && z[q] <= now && q != m ensures Sooner(z, m, q) {
          assert q in rest;
          assert q == least || Sooner(rest, least, q);
        }
        assert LeastDue(z, now, m);
      } else {
        forall q | q in z && z[q] <= now && q != least ensures Sooner(z, least, q) {
          assert q == m || Sooner(rest, least, q);
        }
        assert LeastDue(z, now, least);
      }
    } else {
      assert forall q :: q in z && z[q] <= now ==> q == m || q in rest;
      assert LeastDue(z, now, m);
    }
  }

  lemma {:induction false} SomeMax(ps: set<nat>)
    requires ps != {}
    ensures exists p :: p in ps && forall q :: q in ps ==> q <= p
  {
    var p :| p in ps;
    var rest := ps - {p};
    if rest != {} {
      SomeMax(rest);
      var m :| m in rest && forall q :: q in rest ==> q <= m;
      var top := if p > m then p else m;
      assert forall q :: q in ps ==> q == p || q in rest;
      assert top in ps && forall q :: q in ps ==> q <= top;
    } else {
      assert ps == {p};
    }
  }

  /** Every due job of the lane is at one of these levels. */
  ghost predicate DueWithin(job: Hashes, lane: Lane, now: nat, levels: set<nat>) {
    forall id :: id in job && Due(job[id], lane, now) ==> job[id].priority in levels
  }

  /** A due member of the highest level in play belongs to a visible job of top priority. */
  lemma DueIsTop(w: World, lane: Lane, p: nat, levels: set<nat>, m: Member) returns (i: nat)
    requires Sound(w) && NoneExpired(w.store.jobs, w.now)
    requires DueWithin(w.live.job, lane, w.now, levels + {p}) && forall q :: q in levels ==> q <= p
    requires m in ZOf(w.live.lanes, lane, p) && ZOf(w.live.lanes, lane, p)[m] <= w.now
    ensures m.id in w.live.job && Score(w.live.job[m.id]) <= w.now
    ensures i < |w.store.jobs| && w.store.jobs[i].env.id == m.id && HashIs(w.live.job[m.id], w.store.jobs[i], w.now)
    ensures IsTop(w.store.jobs, lane, w.now, i) && w.store.jobs[i].env.priority == p
  {
    Parts(w);
    var l, s := w.live, w.store;
    assert LaneEntry(l.job, l.lanes, lane, p, m);
    i := PositionOf(l, s, w.now, m.id);
    DueIsVisible(l, s, w.now, i, lane);
    forall k | 0 <= k < |s.jobs| && Visible(s.jobs[k], lane, w.now) ensures s.jobs[k].env.priority <= p {
      DueIsVisible(l, s, w.now, k, lane);
      StoredAt(l, s, w.now, k);
    }
  }

  lemma LeastGoesFirst(w: World, lane: Lane, p: nat, m: Member, i: nat, k: nat)
    requires Sound(w) && NoneExpired(w.store.jobs, w.now) && NoStaleLease(w.live.job, lane, w.now)
    requires LeastDue(ZOf(w.live.lanes, lane, p), w.now, m)
    requires i < |w.store.jobs| && k < |w.store.jobs| && i != k && w.store.jobs[i].env.id == m.id
    requires Visible(w.store.jobs[i], lane, w.now) && Visible(w.store.jobs[k], lane, w.now)
    requires w.store.jobs[i].env.priority == p == w.store.jobs[k].env.priority
    ensures Ahead(w.store.jobs, i, k)
  {
    Parts(w);
    var l, s := w.live, w.store;
    StoredAt(l, s, w.now, i);
    StoredAt(l, s, w.now, k);
    DueIsVisible(l, s, w.now, i, lane);
    DueIsVisible(l, s, w.now, k, lane);
    var z, q := ZOf(l.lanes, lane, p), RedisLive.FifoMember(l.job, s.jobs[k].env.id);
    assert LaneEntry(l.job, l.lanes, lane, p, m);
    assert LaneEntry(l.job, l.lanes, lane, p, q);
    assert Sooner(z, m, q);
    assert z[m] == s.jobs[i].availableAt && z[q] == s.jobs[k].availableAt;
    if k < i {
      assert InOrder(l.job, s.jobs, k, i);
    }
  }

  /** Without stale leases on the lane, the least due member is exactly the contract's first job. */
  lemma LeastDueIsFirst(w: World, lane: Lane, p: nat, m: Member, i: nat)
    requires Sound(w) && NoneExpired(w.store.jobs, w.now) && NoStaleLease(w.live.job, lane, w.now)
    requires LeastDue(ZOf(w.live.lanes, lane, p), w.now, m)
    requires IsTop(w.store.jobs, lane, w.now, i) && w.store.jobs[i].env.id == m.id && w.store.jobs[i].env.priority == p
    ensures IsFirst(w.store.jobs, lane, w.now, i)
  {
    forall k | 0 <= k < |w.store.jobs| && k != i && Visible(w.store.jobs[k], lane, w.now)
      ensures Ahead(w.store.jobs, i, k)
    {
      if w.store.jobs[k].env.priority == p {
        LeastGoesFirst(w, lane, p, m, i, k);
      }
    }
  }

  lemma NothingDue(w: World, lane: Lane)
    requires Sound(w) && NoneExpired(w.store.jobs, w.now) && DueWithin(w.live.job, lane, w.now, {})
    ensures !AnyVisible(w.store.jobs, lane, w.now)
  {
    Parts(w);
    forall i | 0 <= i < |w.store.jobs| ensures !Visible(w.store.jobs[i], lane, w.now) {
      DueIsVisible(w.live, w.store, w.now, i, lane);
    }
  }

  /** A level whose due members are gone leaves play. */
  lemma LevelDone(w: World, lane: Lane, p: nat, levels: set<nat>)
    requires Sound(w) && DueWithin(w.live.job, lane, w.now, levels + {p})
    requires forall m :: m in ZOf(w.live.lanes, lane, p) ==> ZOf(w.live.lanes, lane, p)[m] > w.now
    ensures DueWithin(w.live.job, lane, w.now, levels)
  {
    Parts(w);
    var l := w.live;
    forall id | id in l.job && Due(l.job[id], lane, w.now) ensures l.job[id].priority in levels {
      assert LaneEntry(l.job, l.lanes, lane, p, RedisLive.FifoMember(l.job, id));
    }
  }

  lemma PrunePrios(w: World, lane: Lane, p: nat)
    requires Sound(w) && ZOf(w.live.lanes, lane, p) == map[]
    ensures Sound(w.(live := w.live.(prios := w.live.prios[lane := PriosOf(w.live.prios, lane) - {p}])))
  {
    Parts(w);
    var l := w.live;
    forall id | id in l.job && l.job[id].lane == lane ensures l.job[id].priority != p {
      assert LaneEntry(l.job, l.lanes, lane, p, RedisLive.FifoMember(l.job, id));
    }
    Assemble(w, w.(live := l.(prios := l.prios[lane := PriosOf(l.prios, lane) - {p}])));
  }

  lemma AllDueWithin(w: World, lane: Lane)
    requires Sound(w)
    ensures DueWithin(w.live.job, lane, w.now, PriosOf(w.live.prios, lane))
  {
    Parts(w);
  }

  /** The script's delivery argument: 0 stands for "no bound". */
  function MaxArg(settings: Settings): nat {
    if settings.maxDeliveries.Some? then settings.maxDeliveries.value else 0
  }

  predicate ScriptOver(max: nat, deliveries: nat) {
    max > 0 && deliveries + 1 > max
  }

  /** The script's delivery test is the contract's, under the bound the script reads. */
  lemma OverIff(settings: Settings, h: Hash, j: Job, now: nat)
    requires HashIs(h, j, now)
    ensures ScriptOver(MaxArg(settings), h.deliveries) <==> Over(RedisConfig(settings), j)
    ensures Over(RedisConfig(settings), j) ==> OverReason(RedisConfig(settings)) == OverDelivered(MaxArg(settings))
  {
  }

  /** The script's count argument: 0 stands for "no bound". */
  function CountArg(settings: Settings): nat {
    if settings.retention.maxCount.Some? then Nanos(settings.retention.maxCount.value) else 0
  }

  function ScriptExcess(max: nat, n: nat): nat {
    if max > 0 && n > max then n - max else 0
  }

  /** What RESERVE answers: the stored envelope, and the attempt count as a plain number. */
  datatype Raw = Raw(env: Envelope, attempts: nat)

  /** The job it hands out, as far as a `u32` can tell. */
  function Handed(raw: Raw): Envelope {
    raw.env.(attempts := Capped(raw.attempts))
  }

  /** Every hash here is also there, unchanged. */
  ghost predicate Among(job: Hashes, all: Hashes) {
    forall id :: id in job ==> id in all && job[id] == all[id]
  }

  /** The answer comes from a hash that was there when the script began. */
  ghost predicate RawOf(raw: Raw, all: Hashes) {
    raw.env.id in all && raw == Raw(all[raw.env.id].env, all[raw.env.id].attempts)
  }

  /** The hash RESERVE writes stores the job the contract leases. */
  lemma LeaseHash(cfg: Config, h: Hash, j: Job, receipt: Receipt, now: nat)
    requires HashIs(h, j, now) && Score(h) <= now < I64_MAX && cfg.wide
    ensures HashIs(h.(deliveries := h.deliveries + 1, leasedUntil := Some(Nanos(AddTime(now, cfg.lease))),
                      receipt := Some(receipt)),
                   LeaseJob(cfg, j, receipt, now), now)
  {
  }

  lemma RemoveKeepsNoneExpired(jobs: seq<Job>, i: nat, now: nat)
    requires NoneExpired(jobs, now) && i < |jobs|
    ensures NoneExpired(RemoveAt(jobs, i), now)
  {
  }

  // -------------------------------------------------------- allowed outcomes

  lemma ResolveAllowed(cfg: Config, s: Store, receipt: Receipt, how: How, now: nat, pos: nat)
    requires PlaceAllowed(s, receipt, now, pos)
    ensures var o := ResolveStep(cfg, s, receipt, how, now, pos);
            Allowed(cfg, s, Resolve(receipt, how), now, o.store, o.reply)
  {
  }

  ghost predicate RejectsUse(cfg: Config, s: Store, receipt: Receipt, how: How, now: nat, t: Store) {
    Allowed(cfg, s, Resolve(receipt, how), now, t, Stale)
  }

  /** The contract answers every use of the receipt with a rejection, leaving `t`. */
  ghost predicate Rejects(cfg: Config, s: Store, receipt: Receipt, now: nat, t: Store) {
    forall how :: RejectsUse(cfg, s, receipt, how, now, t)
  }

  /** The store a rejection leaves: an expired lease of the holder is cleared. */
  function Rejected(s: Store, receipt: Receipt): Store {
    var at := Holder(s.jobs, receipt);
    if at.Some? then Put(s, at.value, Unleased(s.jobs[at.value])) else s
  }

  lemma RejectsAll(cfg: Config, s: Store, receipt: Receipt, now: nat)
    requires var at := Holder(s.jobs, receipt); at.Some? ==> Expired(s.jobs[at.value], now)
    ensures Rejects(cfg, s, receipt, now, Rejected(s, receipt))
  {
    forall how ensures RejectsUse(cfg, s, receipt, how, now, Rejected(s, receipt)) {
      ResolveAllowed(cfg, s, receipt, how, now, |s.dead|);
    }
  }

  lemma UseAllowed(cfg: Config, s: Store, receipt: Receipt, how: How, now: nat, i: nat, pos: nat)
    requires Accepts(s, receipt, now, i) && TiePosition(s.dead, s.jobs[i].env.lane, now, pos)
    ensures Allowed(cfg, s, Resolve(receipt, how), now, Use(cfg, s, i, how, now, pos), Done)
  {
    ResolveAllowed(cfg, s, receipt, how, now, pos);
  }

  /** The receipt's job was buried at `pos`, which is its rank in the lane's dead ZSET. */
  ghost predicate FiledByRank(cfg: Config, l: Keys, dz: DeadSets, s: Store, receipt: Receipt, text: int, now: nat,
                              t: Store, pos: nat) {
    var at := Holder(s.jobs, receipt);
    && at.Some? && at.value < |s.jobs| && s.jobs[at.value].env.id in l.job
    && var j := s.jobs[at.value];
       && PlacedAt(s.dead, pos, DeadRec(j.env, Given(text), j.key, now), FileRank(l, dz, j, now))
       && t == Contract.Bury(cfg, s, at.value, Given(text), now, pos)
  }

  /** An accepted failure whose record was filed at its rank is a step the contract allows. */
  lemma FailAllowed(cfg: Config, l: Keys, dz: DeadSets, s: Store, receipt: Receipt, text: int, now: nat, i: nat,
                    pos: nat)
    requires Accepts(s, receipt, now, i) && TiePosition(s.dead, s.jobs[i].env.lane, now, pos)
    requires s.jobs[i].env.id in l.job
    requires PlacedAt(s.dead, pos, DeadRec(s.jobs[i].env, Given(text), s.jobs[i].key, now),
                      FileRank(l, dz, s.jobs[i], now))
    ensures var t := Contract.Bury(cfg, s, i, Given(text), now, pos);
            && Allowed(cfg, s, Resolve(receipt, Fail(text)), now, t, Done)
            && FiledByRank(cfg, l, dz, s, receipt, text, now, t, pos)
  {
    UseAllowed(cfg, s, receipt, Fail(text), now, i, pos);
  }

  /** Burying `bs` one after the other leads from `s` to `t`. */
  ghost predicate Swept(cfg: Config, s: Store, lane: Lane, now: nat, bs: seq<Event>, t: Store) {
    Burials(lane, now, bs) && Leads(cfg, s, bs, t)
  }

  lemma SweptExtends(cfg: Config, s: Store, lane: Lane, now: nat, bs: seq<Event>, t: Store, i: nat, pos: nat)
    requires Swept(cfg, s, lane, now, bs, t) && Enabled(cfg, t, Buried(lane, i, now, pos))
    ensures Swept(cfg, s, lane, now, bs + [Buried(lane, i, now, pos)],
                  Contract.Bury(cfg, t, i, OverReason(cfg), now, pos))
  {
    var e := Buried(lane, i, now, pos);
    LeadsOne(cfg, t, e);
    LeadsJoin(cfg, s, bs, t, [e], Fire(cfg, t, e));
  }

  /** The sweep, having reached `t`, leased its job `i`. */
  ghost predicate Picked(cfg: Config, s: Store, lane: Lane, receipt: Receipt, now: nat, bs: seq<Event>,
                         t: Store, i: nat, u: Store, got: Reservation) {
    && Swept(cfg, s, lane, now, bs, t) && |bs| < MAX_DEAD_LETTER_SWEEP
    && Enabled(cfg, t, Leased(lane, i, receipt, now))
    && u == Put(t, i, LeaseJob(cfg, t.jobs[i], receipt, now))
    && got == Reservation(t.jobs[i].env, receipt, cfg.lease)
  }

  lemma PickedAllowed(cfg: Config, s: Store, lane: Lane, receipt: Receipt, now: nat, bs: seq<Event>,
                      t: Store, i: nat, u: Store, got: Reservation)
    requires Picked(cfg, Lapse(s, now), lane, receipt, now, bs, t, i, u, got)
    ensures Allowed(cfg, s, Reserve(lane, receipt), now, u, Reserved(Some(got)))
  {
    var leased := LeaseOutcome(cfg, t, lane, i, receipt, now);
    var swept := Outcome(leased.store, leased.reply, bs + leased.log);
    assert SweepAny(cfg, Lapse(s, now), lane, receipt, now, MAX_DEAD_LETTER_SWEEP, bs, Some(i), swept);
    assert StepAny(cfg, s, Reserve(lane, receipt), now, Outcome(swept.store, swept.reply, [Lapsed(now)] + swept.log));
  }

  lemma SweptAllowed(cfg: Config, s: Store, lane: Lane, receipt: Receipt, now: nat, bs: seq<Event>, t: Store)
    requires Swept(cfg, Lapse(s, now), lane, now, bs, t) && |bs| <= MAX_DEAD_LETTER_SWEEP
    requires |bs| == MAX_DEAD_LETTER_SWEEP || !AnyVisible(t.jobs, lane, now)
    ensures Allowed(cfg, s, Reserve(lane, receipt), now, t, Reserved(None))
  {
    var swept := Outcome(t, Reserved(None), bs);
    assert SweepAny(cfg, Lapse(s, now), lane, receipt, now, MAX_DEAD_LETTER_SWEEP, bs, None, swept);
    assert StepAny(cfg, s, Reserve(lane, receipt), now, Outcome(swept.store, swept.reply, [Lapsed(now)] + swept.log));
  }

  // ---------------------------------------------------- in the contract's order

  /** Burying `bs` leads from `s` to `t`, and every burial takes the first visible job of its moment. */
  ghost predicate FirstSweep(cfg: Config, s: Store, lane: Lane, now: nat, bs: seq<Event>, t: Store)
    decreases |bs|
  {
    if bs == [] then s == t
    else
      && bs[0].Buried? && bs[0].at == now && Enabled(cfg, s, bs[0]) && IsFirst(s.jobs, lane, now, bs[0].index)
      && FirstSweep(cfg, Fire(cfg, s, bs[0]), lane, now, bs[1..], t)
  }

  lemma {:induction false} FirstSweepExtends(cfg: Config, s: Store, lane: Lane, now: nat, bs: seq<Event>, t: Store,
                                             e: Event)
    requires FirstSweep(cfg, s, lane, now, bs, t)
    requires e.Buried? && e.at == now && Enabled(cfg, t, e) && IsFirst(t.jobs, lane, now, e.index)
    ensures FirstSweep(cfg, s, lane, now, bs + [e], Fire(cfg, t, e))
    decreases |bs|
  {
    var all := bs + [e];
    if bs == [] {
      assert all[1..] == [];
    } else {
      assert all[1..] == bs[1..] + [e];
      FirstSweepExtends(cfg, Fire(cfg, s, bs[0]), lane, now, bs[1..], t, e);
    }
  }

  /** No lease of the lane is stale, and the sweep so far took first jobs only. */
  ghost predicate OnCourse(cfg: Config, job: Hashes, s: Store, lane: Lane, now: nat, bs: seq<Event>, t: Store) {
    NoStaleLease(job, lane, now) && FirstSweep(cfg, s, lane, now, bs, t)
  }

  /** How a sweep that reached `t` after `bs` may end. */
  ghost predicate EndsFirst(cfg: Config, t: Store, lane: Lane, now: nat, room: nat, bs: seq<Event>, got: Option<nat>) {
    if got.Some? then
      |bs| < room && IsFirst(t.jobs, lane, now, got.value) && !Over(cfg, t.jobs[got.value])
    else
      |bs| <= room && (|bs| == room || !AnyVisible(t.jobs, lane, now))
  }

  /** The jobs and the answer it then leaves. */
  ghost predicate EndsAs(cfg: Config, t: Store, receipt: Receipt, now: nat, got: Option<nat>, o: Outcome)
    requires got.Some? ==> got.value < |t.jobs|
  {
    if got.Some? then
      && o.reply == Reserved(Some(Reservation(t.jobs[got.value].env, receipt, cfg.lease)))
      && o.store.jobs == t.jobs[got.value := LeaseJob(cfg, t.jobs[got.value], receipt, now)]
    else
      o.reply == Reserved(None) && o.store.jobs == t.jobs
  }

  lemma FirstIs(jobs: seq<Job>, lane: Lane, now: nat, i: nat)
    requires IsFirst(jobs, lane, now, i)
    ensures First(jobs, lane, now) == Some(i)
  {
    FirstUnique(jobs, lane, now, i, First(jobs, lane, now).value);
  }

  lemma EndsAtOnce(cfg: Config, m: Store, lane: Lane, receipt: Receipt, now: nat, room: nat, got: Option<nat>)
    requires room > 0 && EndsFirst(cfg, m, lane, now, room, [], got)
    ensures EndsAs(cfg, m, receipt, now, got, Sweep(cfg, m, lane, receipt, now, room))
  {
    if got.Some? {
      FirstIs(m.jobs, lane, now, got.value);
    }
  }

  lemma EndsAfterOne(cfg: Config, m: Store, lane: Lane, receipt: Receipt, now: nat, room: nat, i: nat,
                     t: Store, got: Option<nat>, o: Outcome)
    requires room > 0 && First(m.jobs, lane, now) == Some(i) && Over(cfg, m.jobs[i])
    requires var next := Contract.Bury(cfg, m, i, OverReason(cfg), now, |m.dead|);
             o == if room == 1 then Outcome(next, Reserved(None), [])
                  else Sweep(cfg, next, lane, receipt, now, room - 1)
    requires (got.Some? ==> got.value < |t.jobs|) && EndsAs(cfg, t, receipt, now, got, o)
    ensures EndsAs(cfg, t, receipt, now, got, Sweep(cfg, m, lane, receipt, now, room))
  {
    SweepUnfolds(cfg, m, lane, receipt, now, room, i, o);
  }

  /** One burial on, both queues have lost the same first job. */
  lemma SameBurial(cfg: Config, s: Store, m: Store, lane: Lane, now: nat, bs: seq<Event>, t: Store)
    returns (i: nat, rest: Store, next: Store)
    requires bs != [] && FirstSweep(cfg, s, lane, now, bs, t) && s.jobs == m.jobs
    ensures First(m.jobs, lane, now) == Some(i) && i < |m.jobs| && Over(cfg, m.jobs[i])
    ensures next == Contract.Bury(cfg, m, i, OverReason(cfg), now, |m.dead|) && rest.jobs == next.jobs
    ensures FirstSweep(cfg, rest, lane, now, bs[1..], t)
  {
    FirstIs(m.jobs, lane, now, bs[0].index);
    i, rest := bs[0].index, Fire(cfg, s, bs[0]);
    next := Contract.Bury(cfg, m, i, OverReason(cfg), now, |m.dead|);
  }

  /** The burial that uses up the room ends the sweep. */
  lemma LastFollows(cfg: Config, s: Store, m: Store, lane: Lane, receipt: Receipt, now: nat,
                    bs: seq<Event>, t: Store, got: Option<nat>)
    requires s.jobs == m.jobs && bs != []
    requires FirstSweep(cfg, s, lane, now, bs, t) && EndsFirst(cfg, t, lane, now, 1, bs, got)
    ensures EndsAs(cfg, t, receipt, now, got, Sweep(cfg, m, lane, receipt, now, 1))
  {
    var i, rest, next := SameBurial(cfg, s, m, lane, now, bs, t);
    assert bs[1..] == [];
    EndsAfterOne(cfg, m, lane, receipt, now, 1, i, t, got, Outcome(next, Reserved(None), []));
  }

  /** A sweep that takes first jobs only does to the queue what the in-memory sweep does. */
  lemma {:induction false} SweepFollows(cfg: Config, s: Store, m: Store, lane: Lane, receipt: Receipt, now: nat,
                                        room: nat, bs: seq<Event>, t: Store, got: Option<nat>)
    requires s.jobs == m.jobs && room > 0
    requires FirstSweep(cfg, s, lane, now, bs, t) && EndsFirst(cfg, t, lane, now, room, bs, got)
    ensures EndsAs(cfg, t, receipt, now, got, Sweep(cfg, m, lane, receipt, now, room))
    decreases |bs|, 1
  {
    if bs == [] {
      EndsAtOnce(cfg, m, lane, receipt, now, room, got);
    } else if room == 1 {
      LastFollows(cfg, s, m, lane, receipt, now, bs, t, got);
    } else {
      NextFollows(cfg, s, m, lane, receipt, now, room, bs, t, got);
    }
  }

  lemma {:induction false} NextFollows(cfg: Config, s: Store, m: Store, lane: Lane, receipt: Receipt, now: nat,
                                       room: nat, bs: seq<Event>, t: Store, got: Option<nat>)
    requires s.jobs == m.jobs && room > 1 && bs != []
    requires FirstSweep(cfg, s, lane, now, bs, t) && EndsFirst(cfg, t, lane, now, room, bs, got)
    ensures EndsAs(cfg, t, receipt, now, got, Sweep(cfg, m, lane, receipt, now, room))
    decreases |bs|, 0
  {
    var i, rest, next := SameBurial(cfg, s, m, lane, now, bs, t);
    SweepFollows(cfg, rest, next, lane, receipt, now, room - 1, bs[1..], t, got);
    EndsAfterOne(cfg, m, lane, receipt, now, room, i, t, got, Sweep(cfg, next, lane, receipt, now, room - 1));
  }

  /** The whole reserve, on course to its end, is the in-memory one as far as queue and answer go. */
  lemma ReserveFollows(cfg: Config, s: Store, lane: Lane, receipt: Receipt, now: nat, bs: seq<Event>, t: Store,
                       got: Option<nat>)
    requires FirstSweep(cfg, Lapse(s, now), lane, now, bs, t) &&
             EndsFirst(cfg, t, lane, now, MAX_DEAD_LETTER_SWEEP, bs, got)
    ensures EndsAs(cfg, t, receipt, now, got, Step(cfg, s, Reserve(lane, receipt), now))
  {
    SweepFollows(cfg, Lapse(s, now), Lapse(s, now), lane, receipt, now, MAX_DEAD_LETTER_SWEEP, bs, t, got);
  }
}
