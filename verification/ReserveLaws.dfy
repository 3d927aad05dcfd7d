/**
 What one reserve does to the queue it finds: which jobs the poison sweep takes,
 which job is handed out, and when nothing is.
 */
module ReserveLaws {
  import opened Types
  import opened Lists
  import opened Contract

  /** Job `i` is visible, within its delivery budget, and ahead of every other such job. */
  ghost predicate FirstWithinBudget(cfg: Config, jobs: seq<Job>, lane: Lane, now: nat, i: nat) {
    && i < |jobs| && Visible(jobs[i], lane, now) && !Over(cfg, jobs[i])
    && forall k :: 0 <= k < |jobs| && k != i && Visible(jobs[k], lane, now) && !Over(cfg, jobs[k]) ==> Ahead(jobs, i, k)
  }

  /** A swept job was visible, over budget, and ahead of every visible job that stayed. */
  ghost predicate SweptRightly(cfg: Config, jobs: seq<Job>, lane: Lane, now: nat, gone: seq<bool>, b: nat)
    requires b < |jobs| == |gone|
  {
    gone[b] ==>
      && Visible(jobs[b], lane, now) && Over(cfg, jobs[b])
      && forall k :: 0 <= k < |jobs| && !gone[k] && Visible(jobs[k], lane, now) ==> Ahead(jobs, b, k)
  }

  /** What is handed out, given what was swept. */
  ghost predicate HandsOut(cfg: Config, jobs: seq<Job>, lane: Lane, now: nat, room: nat, gone: seq<bool>,
                           got: Option<nat>)
    requires |jobs| == |gone|
  {
    if got.Some? then
      FirstWithinBudget(cfg, jobs, lane, now, got.value) && !gone[got.value] && Tally(gone) < room
    else
      || Tally(gone) == room
      || forall k :: 0 <= k < |jobs| && Visible(jobs[k], lane, now) ==> gone[k]
  }

  ghost predicate SweepMeets(cfg: Config, jobs: seq<Job>, lane: Lane, now: nat, room: nat, gone: seq<bool>,
                             got: Option<nat>) {
    && |gone| == |jobs| && Tally(gone) <= room
    && (forall b :: 0 <= b < |jobs| ==> SweptRightly(cfg, jobs, lane, now, gone, b))
    && HandsOut(cfg, jobs, lane, now, room, gone, got)
  }

  /** The queue a reserve leaves: the swept jobs are gone, the handed-out one is leased, the rest is untouched. */
  ghost predicate Leaves(cfg: Config, jobs: seq<Job>, receipt: Receipt, now: nat, gone: seq<bool>, got: Option<nat>,
                         o: Outcome)
    requires |gone| == |jobs| && (got.Some? ==> got.value < |jobs|)
  {
    if got.Some? then
      && o.reply == Reserved(Some(Reservation(jobs[got.value].env, receipt, cfg.lease)))
      && o.store.jobs == Pick(jobs[got.value := LeaseJob(cfg, jobs[got.value], receipt, now)], Negate(gone))
    else
      o.reply == Reserved(None) && o.store.jobs == Pick(jobs, Negate(gone))
  }

  // ---------------------------------------------------- putting one job back

  lemma {:induction false} TallyInsert(keep: seq<bool>, b: nat)
    requires b <= |keep|
    ensures Tally(InsertAt(keep, b, true)) == Tally(keep) + 1
  {
    var all, n := InsertAt(keep, b, true), |keep|;
    if b == n {
      assert all[..n] == keep;
    } else {
      TallyInsert(keep[..n - 1], b);
      assert all[..n] == InsertAt(keep[..n - 1], b, true);
    }
  }

  lemma {:induction false} PickSkips(jobs: seq<Job>, gone: seq<bool>, b: nat)
    requires b < |jobs| == |gone| + 1
    ensures Pick(jobs, Negate(InsertAt(gone, b, true))) == Pick(RemoveAt(jobs, b), Negate(gone))
  {
    var keep, n := Negate(InsertAt(gone, b, true)), |jobs| - 1;
    if b == n {
      assert jobs[..n] == RemoveAt(jobs, b) && keep[..n] == Negate(gone);
    } else {
      PickSkips(jobs[..n], gone[..n - 1], b);
      assert keep[..n] == Negate(InsertAt(gone[..n - 1], b, true));
      assert RemoveAt(jobs, b)[..n - 1] == RemoveAt(jobs[..n], b) && Negate(gone)[..n - 1] == Negate(gone[..n - 1]);
    }
  }

  /** Position in the longer list. */
  function Up(b: nat, k: nat): nat {
    if k < b then k else k + 1
  }

  lemma AheadUp(jobs: seq<Job>, b: nat, i: nat, k: nat)
    requires b < |jobs| && i < |jobs| - 1 && k < |jobs| - 1
    ensures Ahead(RemoveAt(jobs, b), i, k) <==> Ahead(jobs, Up(b, i), Up(b, k))
  {
  }

  /** Sweeping the first job and then `gone` from the rest is one longer sweep. */
  lemma SweptUp(cfg: Config, jobs: seq<Job>, lane: Lane, now: nat, b: nat, gone: seq<bool>, k: nat)
    requires IsFirst(jobs, lane, now, b) && Over(cfg, jobs[b]) && |gone| == |jobs| - 1 && k < |jobs|
    requires k != b ==> SweptRightly(cfg, RemoveAt(jobs, b), lane, now, gone, if k < b then k else k - 1)
    ensures SweptRightly(cfg, jobs, lane, now, InsertAt(gone, b, true), k)
  {
  }

  function UpOption(b: nat, got: Option<nat>): Option<nat> {
    if got.Some? then Some(Up(b, got.value)) else None
  }

  lemma HandsOutUp(cfg: Config, jobs: seq<Job>, lane: Lane, now: nat, room: nat, b: nat, gone: seq<bool>,
                   got: Option<nat>)
    requires IsFirst(jobs, lane, now, b) && Over(cfg, jobs[b]) && |gone| == |jobs| - 1
    requires HandsOut(cfg, RemoveAt(jobs, b), lane, now, room, gone, got)
    ensures HandsOut(cfg, jobs, lane, now, room + 1, InsertAt(gone, b, true), UpOption(b, got))
  {
    var all, rest := InsertAt(gone, b, true), RemoveAt(jobs, b);
    TallyInsert(gone, b);
    if got.Some? {
      var i := Up(b, got.value);
      forall k | 0 <= k < |jobs| && k != i && Visible(jobs[k], lane, now) && !Over(cfg, jobs[k])
        ensures Ahead(jobs, i, k)
      {
        var e := if k < b then k else k - 1;
        assert rest[e] == jobs[k];
        AheadUp(jobs, b, got.value, e);
      }
    } else if Tally(gone) != room {
      forall k | 0 <= k < |jobs| && Visible(jobs[k], lane, now) ensures all[k] {
        if k != b {
          var e := if k < b then k else k - 1;
          assert rest[e] == jobs[k] && gone[e];
        }
      }
    }
  }

  lemma LeavesUp(cfg: Config, jobs: seq<Job>, receipt: Receipt, now: nat, b: nat, gone: seq<bool>, got: Option<nat>,
                 o: Outcome)
    requires b < |jobs| && |gone| == |jobs| - 1 && (got.Some? ==> got.value < |gone|)
    requires Leaves(cfg, RemoveAt(jobs, b), receipt, now, gone, got, o)
    ensures Leaves(cfg, jobs, receipt, now, InsertAt(gone, b, true), UpOption(b, got), o)
  {
    if got.Some? {
      var leased := LeaseJob(cfg, RemoveAt(jobs, b)[got.value], receipt, now);
      var all := jobs[Up(b, got.value) := leased];
      assert RemoveAt(all, b) == RemoveAt(jobs, b)[got.value := leased];
      PickSkips(all, gone, b);
    } else {
      PickSkips(jobs, gone, b);
    }
  }

  // -------------------------------------------------------------- the law

  /** No job is swept: the first visible one, if there is one, is handed out. */
  lemma NoSweep(cfg: Config, s: Store, lane: Lane, receipt: Receipt, now: nat, room: nat)
    requires room > 0 && var best := First(s.jobs, lane, now); best.Some? ==> !Over(cfg, s.jobs[best.value])
    ensures var gone := seq(|s.jobs|, _ => false);
            && SweepMeets(cfg, s.jobs, lane, now, room, gone, First(s.jobs, lane, now))
            && Leaves(cfg, s.jobs, receipt, now, gone, First(s.jobs, lane, now),
                      Sweep(cfg, s, lane, receipt, now, room))
  {
    var gone := seq(|s.jobs|, _ => false);
    var best := First(s.jobs, lane, now);
    NoneTallied(gone);
    if best.Some? {
      PickAll(s.jobs[best.value := LeaseJob(cfg, s.jobs[best.value], receipt, now)], Negate(gone));
    } else {
      PickAll(s.jobs, Negate(gone));
    }
  }

  lemma {:induction false} NoneTallied(keep: seq<bool>)
    requires forall k :: 0 <= k < |keep| ==> !keep[k]
    ensures Tally(keep) == 0
  {
    if keep != [] {
      NoneTallied(keep[..|keep| - 1]);
    }
  }

  lemma MeetsUp(cfg: Config, jobs: seq<Job>, lane: Lane, now: nat, room: nat, b: nat, gone: seq<bool>, got: Option<nat>)
    requires IsFirst(jobs, lane, now, b) && Over(cfg, jobs[b])
    requires SweepMeets(cfg, RemoveAt(jobs, b), lane, now, room, gone, got)
    ensures SweepMeets(cfg, jobs, lane, now, room + 1, InsertAt(gone, b, true), UpOption(b, got))
  {
    forall k | 0 <= k < |jobs| ensures SweptRightly(cfg, jobs, lane, now, InsertAt(gone, b, true), k) {
      SweptUp(cfg, jobs, lane, now, b, gone, k);
    }
    TallyInsert(gone, b);
    HandsOutUp(cfg, jobs, lane, now, room, b, gone, got);
  }

  /** Room for one burial only: nothing else is swept, nothing handed out. */
  lemma NoRoom(cfg: Config, s: Store, lane: Lane, receipt: Receipt, now: nat)
    ensures var gone := seq(|s.jobs|, _ => false);
            && SweepMeets(cfg, s.jobs, lane, now, 0, gone, None)
            && Leaves(cfg, s.jobs, receipt, now, gone, None, Outcome(s, Reserved(None), []))
  {
    var gone := seq(|s.jobs|, _ => false);
    NoneTallied(gone);
    PickAll(s.jobs, Negate(gone));
  }

  /** The sweep takes the first job, then goes on as `o` does. */
  lemma SweepOnce(cfg: Config, s: Store, lane: Lane, receipt: Receipt, now: nat, room: nat, b: nat,
                  gone: seq<bool>, got: Option<nat>, o: Outcome)
    requires room > 0 && First(s.jobs, lane, now) == Some(b) && Over(cfg, s.jobs[b])
    requires var next := Bury(cfg, s, b, OverReason(cfg), now, |s.dead|);
             o == if room == 1 then Outcome(next, Reserved(None), [])
                  else Sweep(cfg, next, lane, receipt, now, room - 1)
    requires SweepMeets(cfg, RemoveAt(s.jobs, b), lane, now, room - 1, gone, got)
    requires Leaves(cfg, RemoveAt(s.jobs, b), receipt, now, gone, got, o)
    ensures var all, at := InsertAt(gone, b, true), UpOption(b, got);
            && SweepMeets(cfg, s.jobs, lane, now, room, all, at)
            && Leaves(cfg, s.jobs, receipt, now, all, at, Sweep(cfg, s, lane, receipt, now, room))
  {
    SweepUnfolds(cfg, s, lane, receipt, now, room, b, o);
    MeetsUp(cfg, s.jobs, lane, now, room - 1, b, gone, got);
    LeavesUp(cfg, s.jobs, receipt, now, b, gone, got, o);
  }

  lemma {:induction false} SweepIsRight(cfg: Config, s: Store, lane: Lane, receipt: Receipt, now: nat, room: nat)
    returns (gone: seq<bool>, got: Option<nat>)
    requires room > 0
    ensures SweepMeets(cfg, s.jobs, lane, now, room, gone, got)
    ensures Leaves(cfg, s.jobs, receipt, now, gone, got, Sweep(cfg, s, lane, receipt, now, room))
    decreases room
  {
    var best := First(s.jobs, lane, now);
    if best.None? || !Over(cfg, s.jobs[best.value]) {
      gone, got := seq(|s.jobs|, _ => false), best;
      NoSweep(cfg, s, lane, receipt, now, room);
      return;
    }
    var b := best.value;
    var next := Bury(cfg, s, b, OverReason(cfg), now, |s.dead|);
    if room == 1 {
      gone, got := seq(|next.jobs|, _ => false), None;
      NoRoom(cfg, next, lane, receipt, now);
      SweepOnce(cfg, s, lane, receipt, now, room, b, gone, got, Outcome(next, Reserved(None), []));
    } else {
      gone, got := SweepIsRight(cfg, next, lane, receipt, now, room - 1);
      SweepOnce(cfg, s, lane, receipt, now, room, b, gone, got, Sweep(cfg, next, lane, receipt, now, room - 1));
    }
    gone, got := InsertAt(gone, b, true), UpOption(b, got);
  }

  /**
   A reserve hands out the first visible job within its delivery budget. It sweeps
   only jobs that were visible, over budget and ahead of every visible job left. It
   hands out nothing only if no visible job is left or it swept its fill.
   */
  lemma ReserveIsRight(cfg: Config, s: Store, lane: Lane, receipt: Receipt, now: nat)
    returns (gone: seq<bool>, got: Option<nat>)
    ensures SweepMeets(cfg, Release(s.jobs, now), lane, now, MAX_DEAD_LETTER_SWEEP, gone, got)
    ensures Leaves(cfg, Release(s.jobs, now), receipt, now, gone, got, Step(cfg, s, Reserve(lane, receipt), now))
  {
    gone, got := SweepIsRight(cfg, Lapse(s, now), lane, receipt, now, MAX_DEAD_LETTER_SWEEP);
  }
}
