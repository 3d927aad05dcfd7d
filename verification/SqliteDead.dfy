/** The dead-letter table: retention by SQL, burial, requeue and purge. */
module SqliteDead {
  import opened Types
  import opened Lists
  import opened Contract
  import opened Invariant
  import opened RetentionLaws
  import opened SqliteTables

  // ------------------------------------------------------------------- picks

  lemma {:induction false} PickMatches(rows: seq<DeadRow>, dead: seq<DeadRec>, keep: seq<bool>)
    requires DeadMatch(rows, dead) && |keep| == |rows|
    ensures DeadMatch(Pick(rows, keep), Pick(dead, keep))
  {
    if rows != [] {
      var n := |rows| - 1;
      PickMatches(rows[..n], dead[..n], keep[..n]);
    }
  }

  lemma PickAscends(rows: seq<DeadRow>, keep: seq<bool>)
    requires DeadAscends(rows) && |keep| == |rows|
    ensures DeadAscends(Pick(rows, keep))
  {
    forall i, k | 0 <= i < k < |Pick(rows, keep)| ensures Pick(rows, keep)[i].num < Pick(rows, keep)[k].num {
      var a := PickFrom(rows, keep, i);
      var b := PickFrom(rows, keep, k);
      if b <= a {
        TallySplit(keep, b, a);
      }
    }
  }

  lemma {:induction false} PickAllBut<T>(s: seq<T>, keep: seq<bool>, i: nat)
    requires |keep| == |s| && i < |s|
    requires forall k :: 0 <= k < |s| ==> (keep[k] <==> k != i)
    ensures Pick(s, keep) == RemoveAt(s, i)
  {
    var n := |s| - 1;
    if i == n {
      PickAll(s[..n], keep[..n]);
    } else {
      PickAllBut(s[..n], keep[..n], i);
      assert RemoveAt(s, i) == RemoveAt(s[..n], i) + [s[n]];
    }
  }

  /** Deleting records leaves the ids apart. */
  lemma PickApart(s: Store, keep: seq<bool>)
    requires IdsApart(s) && |keep| == |s.dead|
    ensures IdsApart(s.(dead := Pick(s.dead, keep)))
  {
    var dead := Pick(s.dead, keep);
    forall i | 0 <= i < |s.jobs| ensures !HasDead(dead, s.jobs[i].env.id) {
      if HasDead(dead, s.jobs[i].env.id) {
        var k :| 0 <= k < |dead| && dead[k].env.id == s.jobs[i].env.id;
        var a := PickFrom(s.dead, keep, k);
        assert HasDead(s.dead, s.jobs[i].env.id);
      }
    }
    forall i, k | 0 <= i < k < |dead| ensures dead[i].env.id != dead[k].env.id {
      var a := PickFrom(s.dead, keep, i);
      var b := PickFrom(s.dead, keep, k);
    }
  }

  // --------------------------------------------------------------- retention

  function AgeRows(ret: Retention, rows: seq<DeadRow>, lane: Lane, now: nat): seq<DeadRow> {
    if ret.maxAge.Some? then Pick(rows, YoungRows(rows, lane, SignedCutoff(now, ret.maxAge.value))) else rows
  }

  function CountRows(ret: Retention, rows: seq<DeadRow>, lane: Lane): seq<DeadRow> {
    if ret.maxCount.Some? then Pick(rows, NewestRows(rows, lane, ret.maxCount.value)) else rows
  }

  lemma AgeMatches(ret: Retention, rows: seq<DeadRow>, dead: seq<DeadRec>, lane: Lane, now: nat)
    requires DeadMatch(rows, dead) && DeadAscends(rows) && now <= I64_MAX
    ensures DeadMatch(AgeRows(ret, rows, lane, now), AgePass(ret, dead, lane, now))
    ensures DeadAscends(AgeRows(ret, rows, lane, now))
  {
    var flags := AgeFlags(ret, dead, lane, now);
    if ret.maxAge.Some? {
      forall k | 0 <= k < |rows|
        ensures YoungRows(rows, lane, SignedCutoff(now, ret.maxAge.value))[k] == flags[k]
      {
        CutoffsAgree(ret, dead[k], now);
      }
      assert YoungRows(rows, lane, SignedCutoff(now, ret.maxAge.value)) == flags;
      PickMatches(rows, dead, flags);
      PickAscends(rows, flags);
    } else {
      PickAll(dead, flags);
    }
  }

  lemma NumsSplit(rows: seq<DeadRow>, lane: Lane, k: nat)
    requires DeadAscends(rows) && k < |rows|
    ensures NumsFrom(rows, lane, rows[k].num) ==
            (if rows[k].rec.env.lane == lane then {rows[k].num} else {})
            + (if k + 1 < |rows| then NumsFrom(rows, lane, rows[k + 1].num) else {})
  {
  }

  /** Counting the lane's keys from a row's own is counting its records from there on. */
  lemma {:induction false} NumsCount(rows: seq<DeadRow>, dead: seq<DeadRec>, lane: Lane, k: nat)
    requires DeadMatch(rows, dead) && DeadAscends(rows) && k < |rows|
    ensures |NumsFrom(rows, lane, rows[k].num)| == LaneFrom(dead, lane, k)
    decreases |rows| - k
  {
    NumsSplit(rows, lane, k);
    if k + 1 < |rows| {
      NumsCount(rows, dead, lane, k + 1);
      assert rows[k].num !in NumsFrom(rows, lane, rows[k + 1].num);
    }
  }

  lemma CountMatches(ret: Retention, rows: seq<DeadRow>, dead: seq<DeadRec>, lane: Lane)
    requires DeadMatch(rows, dead) && DeadAscends(rows)
    ensures DeadMatch(CountRows(ret, rows, lane), CountPass(ret, dead, lane))
    ensures DeadAscends(CountRows(ret, rows, lane))
  {
    if ret.maxCount.Some? {
      var flags := CountFlags(ret.maxCount.value, dead, lane);
      forall k | 0 <= k < |rows| ensures NewestRows(rows, lane, ret.maxCount.value)[k] == flags[k] {
        NumsCount(rows, dead, lane, k);
      }
      assert NewestRows(rows, lane, ret.maxCount.value) == flags;
      PickMatches(rows, dead, flags);
      PickAscends(rows, flags);
    }
  }

  function PruneRows(ret: Retention, rows: seq<DeadRow>, lane: Lane, now: nat): seq<DeadRow> {
    CountRows(ret, AgeRows(ret, rows, lane, now), lane)
  }

  /** The two DELETE statements are the contract's prune. */
  lemma PruneMatches(ret: Retention, rows: seq<DeadRow>, dead: seq<DeadRec>, lane: Lane, now: nat)
    requires DeadMatch(rows, dead) && DeadAscends(rows) && now <= I64_MAX
    ensures DeadMatch(PruneRows(ret, rows, lane, now), Prune(ret, dead, lane, now))
    ensures DeadAscends(PruneRows(ret, rows, lane, now))
  {
    AgeMatches(ret, rows, dead, lane, now);
    CountMatches(ret, AgeRows(ret, rows, lane, now), AgePass(ret, dead, lane, now), lane);
    TwoPassesPrune(ret, dead, lane, now);
  }

  // ------------------------------------------------------------------ burial

  /** `unique_keys` knows the key of a row, if its job holds one. */
  lemma KeyOfRow(d: Db, i: nat, key: Key)
    requires Sound(d) && i < |d.jobs| && i < |d.store.jobs|
    ensures d.store.jobs[i].key == Some(key) <==> key in d.unique && d.unique[key] == d.jobs[i].num
  {
    Parts(d);
    assert KeyAt(d.unique, d.jobs, d.store.jobs, i);
    if key in d.unique && d.unique[key] == d.jobs[i].num {
      var k :| 0 <= k < |d.store.jobs| && d.store.jobs[k].key == Some(key);
      assert KeyAt(d.unique, d.jobs, d.store.jobs, k);
    }
  }

  function DeadAfter(ret: Retention, rows: seq<DeadRow>, rec: DeadRec, now: nat): seq<DeadRow> {
    PruneRows(ret, rows + [DeadRow(NextDeadNum(rows), rec)], rec.env.lane, now)
  }

  lemma BuriedIds(s: Store, i: nat, rec: DeadRec)
    requires IdsApart(s) && Inv(s) && i < |s.jobs| && rec.env == s.jobs[i].env
    ensures IdsApart(Without(s, i).(dead := s.dead + [rec]))
  {
  }

  lemma SoundBuried(cfg: Config, d: Db, i: nat, reason: Reason)
    requires Sound(d) && i < |d.jobs| && i < |d.store.jobs|
    ensures var rec := DeadRec(d.jobs[i].env, reason, d.store.jobs[i].key, d.now);
            Sound(d.(jobs := DeleteJob(d.jobs, d.jobs[i].num), unique := FreeNum(d.unique, d.jobs[i].num),
                     dead := DeadAfter(cfg.retention, d.dead, rec, d.now),
                     store := Bury(cfg, d.store, i, reason, d.now, |d.store.dead|)))
  {
    Parts(d);
    assert RowAt(d.jobs, d.store.jobs, i, d.now);
    var rec := DeadRec(d.jobs[i].env, reason, d.store.jobs[i].key, d.now);
    var rows, dead := d.dead + [DeadRow(NextDeadNum(d.dead), rec)], d.store.dead + [rec];
    assert dead == DeadWith(d.store, i, reason, d.now, |d.store.dead|);
    PruneMatches(cfg.retention, rows, dead, rec.env.lane, d.now);
    BuriedIds(d.store, i, rec);
    PickApart(Without(d.store, i).(dead := dead), Kept(cfg.retention, dead, rec.env.lane, d.now));
    SoundWithout(d, i);
    SoundDead(d.(jobs := DeleteJob(d.jobs, d.jobs[i].num), unique := FreeNum(d.unique, d.jobs[i].num),
                 store := Without(d.store, i)),
              DeadAfter(cfg.retention, d.dead, rec, d.now), Prune(cfg.retention, dead, rec.env.lane, d.now));
  }

  /** Only the dead letters change, in the table and in the store. */
  lemma SoundDead(d: Db, rows: seq<DeadRow>, dead: seq<DeadRec>)
    requires Sound(d) && DeadMatch(rows, dead) && DeadAscends(rows) && IdsApart(d.store.(dead := dead))
    ensures Sound(d.(dead := rows, store := d.store.(dead := dead)))
  {
    Parts(d);
    Assemble(d.(dead := rows, store := d.store.(dead := dead)));
  }

  // --------------------------------------------------------- requeue and purge

  function NotId(rows: seq<DeadRow>, id: JobId): seq<bool> {
    seq(|rows|, k requires 0 <= k < |rows| => rows[k].rec.env.id != id)
  }

  function NotLane(rows: seq<DeadRow>, lane: Lane): seq<bool> {
    seq(|rows|, k requires 0 <= k < |rows| => rows[k].rec.env.lane != lane)
  }

  /** `SELECT ... FROM dead WHERE id = id`. */
  function FindDead(rows: seq<DeadRow>, id: JobId): (r: Option<nat>)
    ensures r.Some? ==> r.value < |rows| && rows[r.value].rec.env.id == id
    ensures r.None? ==> forall k :: 0 <= k < |rows| ==> rows[k].rec.env.id != id
  {
    if rows == [] then None
    else if rows[|rows| - 1].rec.env.id == id then Some(|rows| - 1)
    else FindDead(rows[..|rows| - 1], id)
  }

  lemma FindDeadIs(d: Db, id: JobId)
    requires Sound(d)
    ensures FindDead(d.dead, id) == DeadIndex(d.store.dead, id)
  {
    Parts(d);
  }

  /** The revived job enters `jobs` under the next key, and its record leaves `dead`. */
  lemma SoundRevived(d: Db, k: nat)
    requires Sound(d) && k < |d.dead| && k < |d.store.dead|
    requires !HasId(d.store.jobs, d.dead[k].rec.env.id) && KeyFree(d.store, d.dead[k].rec.key)
    ensures var rec := d.dead[k].rec;
            var row := Row(NextNum(d.jobs), rec.env, rec.env.lane, rec.env.priority, d.now, None, None, 0);
            Sound(d.(jobs := d.jobs + [row], unique := ClaimNum(d.unique, rec.key, row.num),
                     dead := Pick(d.dead, NotId(d.dead, rec.env.id)), store := Revive(d.store, k, d.now)))
  {
    Parts(d);
    var rec := d.dead[k].rec;
    var row := Row(NextNum(d.jobs), rec.env, rec.env.lane, rec.env.priority, d.now, None, None, 0);
    var keep := NotId(d.dead, rec.env.id);
    PickAllBut(d.dead, keep, k);
    PickAllBut(d.store.dead, keep, k);
    PickMatches(d.dead, d.store.dead, keep);
    PickAscends(d.dead, keep);
    PickApart(d.store, keep);
    SoundDead(d, Pick(d.dead, keep), Pick(d.store.dead, keep));
    var e := d.(dead := Pick(d.dead, keep), store := d.store.(dead := RemoveAt(d.store.dead, k)));
    assert !HasDead(e.store.dead, rec.env.id);
    SoundNew(e, row, Job(rec.env, d.now, None, None, rec.key, 0));
  }

  lemma SoundPurged(d: Db, lane: Lane)
    requires Sound(d)
    ensures Sound(d.(dead := Pick(d.dead, NotLane(d.dead, lane)), store := Empty(d.store, lane)))
  {
    Parts(d);
    var keep := NotLane(d.dead, lane);
    assert keep == Negate(OnLane(d.store.dead, lane));
    PickMatches(d.dead, d.store.dead, keep);
    PickAscends(d.dead, keep);
    PickApart(d.store, keep);
    SoundDead(d, Pick(d.dead, keep), Pick(d.store.dead, keep));
  }

  // ---------------------------------------------------------------- schedules

  lemma SoundMarked(d: Db, schedules: map<ScheduleId, int>)
    requires Sound(d)
    ensures Sound(d.(schedules := schedules, store := d.store.(schedules := schedules)))
  {
    Parts(d);
    Assemble(d.(schedules := schedules, store := d.store.(schedules := schedules)));
  }
}
