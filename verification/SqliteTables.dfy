/**
 The SQLite tables and the contract's store they stand for.

 A table is the sequence of its rows in primary-key order. `seq` has no
 AUTOINCREMENT, so a new row takes the largest key plus one, and the key of a
 deleted last row is used again.
 */
module SqliteTables {
  import opened Types
  import opened Lists
  import opened Contract
  import opened Invariant

  datatype Row = Row(
    num: nat, env: Envelope, lane: Lane, priority: nat, availableAt: nat,
    leasedUntil: Option<nat>, receipt: Option<Receipt>, deliveries: nat)

  datatype DeadRow = DeadRow(num: nat, rec: DeadRec)

  /** The tables at one clock reading, beside the store they stand for. */
  datatype Db = Db(
    jobs: seq<Row>, unique: map<Key, nat>, dead: seq<DeadRow>, schedules: map<ScheduleId, int>,
    store: Store, now: nat)

  // -------------------------------------------------------------- statements

  /** The key of the next inserted job row. */
  function NextNum(rows: seq<Row>): nat {
    if rows == [] then 1 else rows[|rows| - 1].num + 1
  }

  function NextDeadNum(rows: seq<DeadRow>): nat {
    if rows == [] then 1 else rows[|rows| - 1].num + 1
  }

  /** Primary-key lookup. */
  function Seek(rows: seq<Row>, num: nat): (r: Option<nat>)
    ensures r.Some? ==> r.value < |rows| && rows[r.value].num == num
    ensures r.None? ==> forall i :: 0 <= i < |rows| ==> rows[i].num != num
  {
    if rows == [] then None
    else if rows[|rows| - 1].num == num then Some(|rows| - 1)
    else Seek(rows[..|rows| - 1], num)
  }

  /** `DELETE FROM jobs WHERE seq = num`. */
  function DeleteJob(rows: seq<Row>, num: nat): seq<Row> {
    var at := Seek(rows, num);
    if at.Some? then RemoveAt(rows, at.value) else rows
  }

  /** `UPDATE jobs SET ... WHERE seq = row.num`. */
  function UpdateJob(rows: seq<Row>, row: Row): seq<Row> {
    var at := Seek(rows, row.num);
    if at.Some? then rows[at.value := row] else rows
  }

  /** `DELETE FROM unique_keys WHERE seq = num`. */
  function FreeNum(unique: map<Key, nat>, num: nat): map<Key, nat> {
    map key | key in unique && unique[key] != num :: unique[key]
  }

  function ClaimNum(unique: map<Key, nat>, key: Option<Key>, num: nat): map<Key, nat> {
    if key.Some? then unique[key.value := num] else unique
  }

  /** A row is reservable when it is available and unleased or past its lease. */
  predicate Reservable(row: Row, lane: Lane, now: nat) {
    && row.lane == lane && row.availableAt <= now
    && (row.leasedUntil.Some? ==> row.leasedUntil.value <= now)
  }

  /** `ORDER BY priority DESC, available_at ASC, seq ASC`. */
  predicate Sorts(a: Row, b: Row) {
    || a.priority > b.priority
    || (a.priority == b.priority && a.availableAt < b.availableAt)
    || (a.priority == b.priority && a.availableAt == b.availableAt && a.num < b.num)
  }

  /** `DELETE FROM dead WHERE lane = lane AND dead_at < cutoff`, as the rows it keeps. */
  function YoungRows(rows: seq<DeadRow>, lane: Lane, cutoff: int): seq<bool> {
    seq(|rows|, k requires 0 <= k < |rows| => !(rows[k].rec.env.lane == lane && rows[k].rec.deadAt < cutoff))
  }

  /** The keys of the lane's rows from `num` on. */
  function NumsFrom(rows: seq<DeadRow>, lane: Lane, num: nat): set<nat> {
    set i | 0 <= i < |rows| && rows[i].rec.env.lane == lane && rows[i].num >= num :: rows[i].num
  }

  /** The lane's rows among its `keep` largest keys, and every row of another lane. */
  function NewestRows(rows: seq<DeadRow>, lane: Lane, keep: nat): seq<bool> {
    seq(|rows|, k requires 0 <= k < |rows| =>
      rows[k].rec.env.lane == lane ==> |NumsFrom(rows, lane, rows[k].num)| <= keep)
  }

  // ---------------------------------------------------------------- coupling

  /** The row stores `j`, as far as anyone can tell from `now` on: a lease that has run out is none. */
  ghost predicate RowIs(row: Row, j: Job, now: nat) {
    && row.env == j.env && row.lane == j.env.lane && row.priority == j.env.priority
    && row.availableAt == Nanos(j.availableAt)
    && j.deliveries == row.deliveries
    && (row.leasedUntil.Some? <==> row.receipt.Some?)
    && (if row.leasedUntil.Some? && row.leasedUntil.value > now then
          j.leasedUntil.Some? && j.receipt == row.receipt && row.leasedUntil.value == Nanos(j.leasedUntil.value)
        else
          j.leasedUntil.Some? ==> j.leasedUntil.value <= now)
  }

  ghost predicate RowsMatch(rows: seq<Row>, jobs: seq<Job>, now: nat) {
    |rows| == |jobs| && forall i :: 0 <= i < |rows| ==> RowAt(rows, jobs, i, now)
  }

  ghost predicate RowAt(rows: seq<Row>, jobs: seq<Job>, i: nat, now: nat)
    requires i < |rows| == |jobs|
  {
    RowIs(rows[i], jobs[i], now)
  }

  ghost predicate Ascends(rows: seq<Row>) {
    forall i, k :: 0 <= i < k < |rows| ==> rows[i].num < rows[k].num
  }

  ghost predicate DeadAscends(rows: seq<DeadRow>) {
    forall i, k :: 0 <= i < k < |rows| ==> rows[i].num < rows[k].num
  }

  /** No receipt is stored twice, current or not. */
  ghost predicate ReceiptsOnce(rows: seq<Row>) {
    forall i, k :: 0 <= i < k < |rows| && rows[i].receipt.Some? ==> rows[i].receipt != rows[k].receipt
  }

  ghost predicate KeyAt(unique: map<Key, nat>, rows: seq<Row>, jobs: seq<Job>, i: nat)
    requires i < |jobs| == |rows|
  {
    jobs[i].key.Some? ==> jobs[i].key.value in unique && unique[jobs[i].key.value] == rows[i].num
  }

  /** `unique_keys` holds exactly the held keys, each with its holder's row. */
  ghost predicate KeysMatch(unique: map<Key, nat>, rows: seq<Row>, jobs: seq<Job>) {
    && |rows| == |jobs|
    && (forall i :: 0 <= i < |jobs| ==> KeyAt(unique, rows, jobs, i))
    && (forall key :: key in unique ==> HoldsKey(jobs, key))
  }

  ghost predicate DeadMatch(rows: seq<DeadRow>, dead: seq<DeadRec>) {
    |rows| == |dead| && forall i :: 0 <= i < |rows| ==> rows[i].rec == dead[i]
  }

  /** No id is both live and dead, and no id is dead twice. */
  ghost predicate IdsApart(s: Store) {
    && (forall i :: 0 <= i < |s.jobs| ==> !HasDead(s.dead, s.jobs[i].env.id))
    && (forall i, k :: 0 <= i < k < |s.dead| ==> s.dead[i].env.id != s.dead[k].env.id)
  }

  datatype Aspect = Jobs | JobNums | Receipts | Keys | Dead | DeadNums | IdSets | Rest

  ghost predicate Holds(aspect: Aspect, d: Db) {
    match aspect
    case Jobs => RowsMatch(d.jobs, d.store.jobs, d.now)
    case JobNums => Ascends(d.jobs)
    case Receipts => ReceiptsOnce(d.jobs)
    case Keys => KeysMatch(d.unique, d.jobs, d.store.jobs)
    case Dead => DeadMatch(d.dead, d.store.dead)
    case DeadNums => DeadAscends(d.dead)
    case IdSets => IdsApart(d.store)
    case Rest => Inv(d.store) && d.schedules == d.store.schedules && d.now < I64_MAX
  }

  /** The tables agree with each other and with the store. */
  ghost predicate Sound(d: Db) {
    forall aspect :: Holds(aspect, d)
  }

  lemma Parts(d: Db)
    requires Sound(d)
    ensures RowsMatch(d.jobs, d.store.jobs, d.now) && Ascends(d.jobs) && ReceiptsOnce(d.jobs)
    ensures KeysMatch(d.unique, d.jobs, d.store.jobs) && DeadMatch(d.dead, d.store.dead) && DeadAscends(d.dead)
    ensures IdsApart(d.store) && Inv(d.store) && d.schedules == d.store.schedules && d.now < I64_MAX
  {
    assert Holds(Jobs, d) && Holds(JobNums, d) && Holds(Receipts, d) && Holds(Keys, d);
    assert Holds(Dead, d) && Holds(DeadNums, d) && Holds(IdSets, d) && Holds(Rest, d);
  }

  lemma Assemble(d: Db)
    requires RowsMatch(d.jobs, d.store.jobs, d.now) && Ascends(d.jobs) && ReceiptsOnce(d.jobs)
    requires KeysMatch(d.unique, d.jobs, d.store.jobs) && DeadMatch(d.dead, d.store.dead) && DeadAscends(d.dead)
    requires IdsApart(d.store) && Inv(d.store) && d.schedules == d.store.schedules && d.now < I64_MAX
    ensures Sound(d)
  {
  }

  lemma SoundEmpty(now: nat)
    requires now < I64_MAX
    ensures Sound(Db([], map[], [], map[], EMPTY_STORE, now))
  {
  }

  // --------------------------------------------------- the store alone changes

  lemma SoundLater(d: Db, now: nat)
    requires Sound(d) && d.now <= now < I64_MAX
    ensures Sound(d.(now := now))
  {
    Parts(d);
    forall i | 0 <= i < |d.jobs| ensures RowAt(d.jobs, d.store.jobs, i, now) {
      assert RowAt(d.jobs, d.store.jobs, i, d.now);
    }
    Assemble(d.(now := now));
  }

  /** The store drops leases that have run out, on some jobs or on all. */
  lemma SoundCleared(d: Db, jobs: seq<Job>)
    requires Sound(d) && |jobs| == |d.store.jobs| && Inv(d.store.(jobs := jobs))
    requires forall i :: 0 <= i < |jobs| ==> jobs[i] == d.store.jobs[i] || jobs[i] == ReleaseOne(d.store.jobs[i], d.now)
    ensures Sound(d.(store := d.store.(jobs := jobs)))
  {
    Parts(d);
    forall i | 0 <= i < |jobs| ensures RowAt(d.jobs, jobs, i, d.now) && KeyAt(d.unique, d.jobs, jobs, i) {
      assert RowAt(d.jobs, d.store.jobs, i, d.now) && KeyAt(d.unique, d.jobs, d.store.jobs, i);
    }
    forall key | key in d.unique ensures HoldsKey(jobs, key) {
      var i :| 0 <= i < |d.store.jobs| && d.store.jobs[i].key == Some(key);
      assert jobs[i].key == Some(key);
    }
    assert IdsApart(d.store.(jobs := jobs));
    Assemble(d.(store := d.store.(jobs := jobs)));
  }

  lemma SoundLapsed(d: Db)
    requires Sound(d)
    ensures Sound(d.(store := Lapse(d.store, d.now)))
  {
    Parts(d);
    ReleaseKeeps(d.store, d.now);
    SoundCleared(d, Release(d.store.jobs, d.now));
  }

  lemma SoundForgotten(d: Db, i: nat)
    requires Sound(d) && i < |d.store.jobs| && Expired(d.store.jobs[i], d.now)
    ensures Sound(d.(store := Put(d.store, i, Unleased(d.store.jobs[i]))))
  {
    Parts(d);
    PutKeeps(d.store, i, Unleased(d.store.jobs[i]));
    SoundCleared(d, d.store.jobs[i := Unleased(d.store.jobs[i])]);
  }

  // ------------------------------------------------------------- one row moves

  lemma SeekFinds(rows: seq<Row>, i: nat)
    requires Ascends(rows) && i < |rows|
    ensures Seek(rows, rows[i].num) == Some(i)
  {
  }

  /** A job and its row change together: lease, receipt, time, attempts or deliveries. */
  lemma SoundPut(d: Db, i: nat, row: Row, j: Job)
    requires Sound(d) && i < |d.jobs| && i < |d.store.jobs| && row.num == d.jobs[i].num && RowIs(row, j, d.now)
    requires j.env.id == d.store.jobs[i].env.id && j.key == d.store.jobs[i].key
    requires row.receipt.Some? ==> row.receipt == d.jobs[i].receipt || UnusedReceipt(d.jobs, row.receipt.value)
    requires j.leasedUntil.Some? <==> j.receipt.Some?
    requires j.receipt.Some? ==> j.receipt == d.store.jobs[i].receipt || NotCurrent(d.store.jobs, j.receipt.value)
    ensures Sound(d.(jobs := UpdateJob(d.jobs, row), store := Put(d.store, i, j)))
  {
    Parts(d);
    SeekFinds(d.jobs, i);
    var rows, jobs := d.jobs[i := row], d.store.jobs[i := j];
    forall k | 0 <= k < |rows| ensures RowAt(rows, jobs, k, d.now) && KeyAt(d.unique, rows, jobs, k) {
      assert RowAt(d.jobs, d.store.jobs, k, d.now) && KeyAt(d.unique, d.jobs, d.store.jobs, k);
    }
    forall key | key in d.unique ensures HoldsKey(jobs, key) {
      var k :| 0 <= k < |d.store.jobs| && d.store.jobs[k].key == Some(key);
      assert jobs[k].key == Some(key);
    }
    PutKeeps(d.store, i, j);
    assert IdsApart(d.store.(jobs := jobs));
    Assemble(d.(jobs := rows, store := Put(d.store, i, j)));
  }

  /** No row carries the receipt. */
  ghost predicate UnusedReceipt(rows: seq<Row>, receipt: Receipt) {
    forall i :: 0 <= i < |rows| ==> rows[i].receipt != Some(receipt)
  }

  lemma UnusedNotCurrent(d: Db, receipt: Receipt)
    requires Sound(d) && UnusedReceipt(d.jobs, receipt)
    requires forall i :: 0 <= i < |d.store.jobs| ==> !Expired(d.store.jobs[i], d.now)
    ensures NotCurrent(d.store.jobs, receipt)
  {
    Parts(d);
    forall i | 0 <= i < |d.store.jobs| ensures d.store.jobs[i].receipt != Some(receipt) {
      assert RowAt(d.jobs, d.store.jobs, i, d.now);
    }
  }

  /** A new row at the end of the table. */
  lemma SoundNew(d: Db, row: Row, j: Job)
    requires Sound(d) && row.num == NextNum(d.jobs) && RowIs(row, j, d.now) && row.receipt.None?
    requires j.leasedUntil.None? && j.receipt.None?
    requires !HasId(d.store.jobs, j.env.id) && !HasDead(d.store.dead, j.env.id) && KeyFree(d.store, j.key)
    ensures Sound(d.(jobs := d.jobs + [row], unique := ClaimNum(d.unique, j.key, row.num),
                     store := d.store.(jobs := d.store.jobs + [j],
                                       unique := ClaimKey(d.store.unique, j.key, j.env.id))))
  {
    Parts(d);
    var rows, jobs, unique := d.jobs + [row], d.store.jobs + [j], ClaimNum(d.unique, j.key, row.num);
    forall k | 0 <= k < |rows| ensures RowAt(rows, jobs, k, d.now) && KeyAt(unique, rows, jobs, k) {
      if k < |d.jobs| {
        assert RowAt(d.jobs, d.store.jobs, k, d.now) && KeyAt(d.unique, d.jobs, d.store.jobs, k);
      }
    }
    forall key | key in unique ensures HoldsKey(jobs, key) {
      if key in d.unique {
        var k :| 0 <= k < |d.store.jobs| && d.store.jobs[k].key == Some(key);
        assert jobs[k].key == Some(key);
      } else {
        assert jobs[|d.jobs|].key == Some(key);
      }
    }
    AppendKeeps(d.store, j);
    Assemble(d.(jobs := rows, unique := unique,
                store := d.store.(jobs := jobs, unique := ClaimKey(d.store.unique, j.key, j.env.id))));
  }

  /** `unique_keys` rows of a deleted job go; all others stay. */
  lemma FreedKeys(d: Db, i: nat)
    requires Sound(d) && i < |d.jobs| && i < |d.store.jobs|
    ensures KeysMatch(FreeNum(d.unique, d.jobs[i].num), RemoveAt(d.jobs, i), RemoveAt(d.store.jobs, i))
  {
    Parts(d);
    var rows, jobs, unique := RemoveAt(d.jobs, i), RemoveAt(d.store.jobs, i), FreeNum(d.unique, d.jobs[i].num);
    forall k | 0 <= k < |jobs| ensures KeyAt(unique, rows, jobs, k) {
      assert KeyAt(d.unique, d.jobs, d.store.jobs, if k < i then k else k + 1);
    }
    forall key | key in unique ensures HoldsKey(jobs, key) {
      var k :| 0 <= k < |d.store.jobs| && d.store.jobs[k].key == Some(key);
      assert KeyAt(d.unique, d.jobs, d.store.jobs, k);
      assert jobs[if k < i then k else k - 1].key == Some(key);
    }
  }

  lemma SoundWithout(d: Db, i: nat)
    requires Sound(d) && i < |d.jobs| && i < |d.store.jobs|
    ensures Sound(d.(jobs := DeleteJob(d.jobs, d.jobs[i].num), unique := FreeNum(d.unique, d.jobs[i].num),
                     store := Without(d.store, i)))
  {
    Parts(d);
    SeekFinds(d.jobs, i);
    FreedKeys(d, i);
    WithoutKeeps(d.store, i);
    var rows, jobs := RemoveAt(d.jobs, i), RemoveAt(d.store.jobs, i);
    forall k | 0 <= k < |rows| ensures RowAt(rows, jobs, k, d.now) {
      assert RowAt(d.jobs, d.store.jobs, if k < i then k else k + 1, d.now);
    }
    Assemble(d.(jobs := rows, unique := FreeNum(d.unique, d.jobs[i].num), store := Without(d.store, i)));
  }
}
