/**
 The fan-in watcher: a job that polls its dependencies, carries what it captured in
 its own payload from one generation to the next, and fires a callback with every
 dependency's output once all are in.
 */
module FanIn {
  import opened Types

  type Bytes = int

  datatype Watcher = Watcher(
    hasId: bool, hasKind: bool, laneParses: bool,
    deps: seq<JobId>, generation: nat, maxGenerations: nat,
    collected: seq<(JobId, Bytes)>)

  datatype Malformed =
    | EmptyId | NoDependencies | ZeroGeneration | GenerationOverMax | EmptyKind | BadLane
    | DuplicateDependency(id: JobId) | UnknownCaptured(id: JobId) | DuplicateCaptured(id: JobId)

  /** Why a dependency can never be captured. */
  datatype Cause = WasDeadLettered(id: JobId) | MissingResult(id: JobId)

  datatype Finding = Produced(bytes: Bytes) | Impossible(cause: Cause)

  datatype Decision =
    | Pending(slots: seq<Option<Bytes>>)
    | Ready(results: seq<Bytes>)
    | Doomed(cause: Cause)

  /** What one run finds out about a dependency: its state, then its stored result. */
  datatype Poll = Poll(state: JobState, result: Option<Bytes>)

  datatype Verdict =
    | Refused(error: Malformed)
    | Failed(cause: Cause)
    | Exhausted
    | Rescheduled(next: Watcher)
    | Fired(results: seq<Bytes>)

  // -------------------------------------------------------------- vocabulary

  ghost predicate Distinct(ids: seq<JobId>) {
    forall i, k :: 0 <= i < k < |ids| ==> ids[i] != ids[k]
  }

  ghost predicate DistinctCaptures(collected: seq<(JobId, Bytes)>) {
    forall i, k :: 0 <= i < k < |collected| ==> collected[i].0 != collected[k].0
  }

  /** Captured ids are dependencies, each captured once. */
  ghost predicate Consistent(deps: seq<JobId>, collected: seq<(JobId, Bytes)>) {
    && (forall k :: 0 <= k < |collected| ==> collected[k].0 in deps)
    && DistinctCaptures(collected)
  }

  ghost predicate WellFormed(w: Watcher) {
    && w.hasId && w.hasKind && w.laneParses && w.deps != []
    && 1 <= w.generation <= w.maxGenerations
    && Distinct(w.deps) && Consistent(w.deps, w.collected)
  }

  /** The first position of `id`. */
  function Position(ids: seq<JobId>, id: JobId): (r: Option<nat>)
    ensures r.Some? ==> r.value < |ids| && ids[r.value] == id && forall k :: 0 <= k < r.value ==> ids[k] != id
    ensures r.None? ==> id !in ids
  {
    if ids == [] then None
    else
      var n := |ids| - 1;
      var r := Position(ids[..n], id);
      if r.Some? then r else if ids[n] == id then Some(n) else None
  }

  /** The value captured for `id`. */
  function Captured(collected: seq<(JobId, Bytes)>, id: JobId): (r: Option<Bytes>)
    ensures r.Some? ==> exists k :: 0 <= k < |collected| && collected[k] == (id, r.value)
    ensures r.None? ==> forall k :: 0 <= k < |collected| ==> collected[k].0 != id
  {
    if collected == [] then None
    else
      var n := |collected| - 1;
      var r := Captured(collected[..n], id);
      if r.Some? then
        var k :| 0 <= k < n && collected[..n][k] == (id, r.value);
        assert collected[k] == (id, r.value);
        r
      else if collected[n].0 == id then Some(collected[n].1)
      else None
  }

  /** What was captured, dependency by dependency. */
  function Slots(deps: seq<JobId>, collected: seq<(JobId, Bytes)>): seq<Option<Bytes>> {
    seq(|deps|, i requires 0 <= i < |deps| => Captured(collected, deps[i]))
  }

  // --------------------------------------------------------------- validate

  /** What each complaint says of the payload. */
  ghost predicate Diagnosed(w: Watcher, error: Malformed) {
    match error
    case EmptyId => !w.hasId
    case NoDependencies => w.deps == []
    case ZeroGeneration => w.generation == 0
    case GenerationOverMax => w.generation > w.maxGenerations
    case EmptyKind => !w.hasKind
    case BadLane => !w.laneParses
    case DuplicateDependency(id) => exists i, k :: 0 <= i < k < |w.deps| && w.deps[i] == w.deps[k] == id
    case UnknownCaptured(id) => id !in w.deps && Listed(w.collected, id)
    case DuplicateCaptured(id) =>
      exists i, k :: 0 <= i < k < |w.collected| && w.collected[i].0 == w.collected[k].0 == id
  }

  method Validate(w: Watcher) returns (error: Option<Malformed>)
    ensures error.None? <==> WellFormed(w)
    ensures error.Some? ==> Diagnosed(w, error.value)
  {
    if !w.hasId { return Some(EmptyId); }
    if w.deps == [] { return Some(NoDependencies); }
    if w.generation == 0 { return Some(ZeroGeneration); }
    if w.maxGenerations == 0 || w.generation > w.maxGenerations { return Some(GenerationOverMax); }
    if !w.hasKind { return Some(EmptyKind); }
    if !w.laneParses { return Some(BadLane); }

    var dependencies: set<JobId> := {};
    for i := 0 to |w.deps|
      invariant forall id :: id in dependencies <==> id in w.deps[..i]
      invariant Distinct(w.deps[..i])
    {
      if w.deps[i] in dependencies {
        ghost var first :| 0 <= first < i && w.deps[..i][first] == w.deps[i];
        assert w.deps[first] == w.deps[i];
        return Some(DuplicateDependency(w.deps[i]));
      }
      dependencies := dependencies + {w.deps[i]};
      assert w.deps[..i + 1] == w.deps[..i] + [w.deps[i]];
    }
    assert w.deps[..|w.deps|] == w.deps;

    var captured: set<JobId> := {};
    for k := 0 to |w.collected|
      invariant forall id :: id in captured <==> exists m :: 0 <= m < k && w.collected[m].0 == id
      invariant Consistent(w.deps, w.collected[..k])
    {
      if w.collected[k].0 !in dependencies {
        return Some(UnknownCaptured(w.collected[k].0));
      }
      if w.collected[k].0 in captured {
        return Some(DuplicateCaptured(w.collected[k].0));
      }
      captured := captured + {w.collected[k].0};
    }
    assert w.collected[..|w.collected|] == w.collected;
    error := None;
  }

  // ---------------------------------------------------- restore and checkpoint

  /** At a dependency's first position sits the value captured for it. */
  ghost predicate SlotIs(deps: seq<JobId>, part: seq<(JobId, Bytes)>, slot: Option<Bytes>, i: nat)
    requires i < |deps|
  {
    Position(deps, deps[i]) == Some(i) ==> slot == Captured(part, deps[i])
  }

  ghost predicate Restored(deps: seq<JobId>, part: seq<(JobId, Bytes)>, filled: seq<Option<Bytes>>) {
    |filled| == |deps| && forall i :: 0 <= i < |deps| ==> SlotIs(deps, part, filled[i], i)
  }

  lemma RestoreOne(deps: seq<JobId>, part: seq<(JobId, Bytes)>, filled: seq<Option<Bytes>>, entry: (JobId, Bytes),
                   index: nat)
    requires Restored(deps, part, filled) && Position(deps, entry.0) == Some(index)
    ensures filled[index].Some? <==> Listed(part, entry.0)
    ensures filled[index].None? ==> Restored(deps, part + [entry], filled[index := Some(entry.1)])
  {
  }

  lemma RestoredAll(deps: seq<JobId>, collected: seq<(JobId, Bytes)>, filled: seq<Option<Bytes>>)
    requires Restored(deps, collected, filled) && Distinct(deps)
    ensures filled == Slots(deps, collected)
  {
  }

  /** `restore_fan_in_assembly`: fails exactly on an unknown or repeated capture. */
  method Restore(deps: seq<JobId>, collected: seq<(JobId, Bytes)>) returns (slots: Option<seq<Option<Bytes>>>)
    ensures slots.Some? <==> Consistent(deps, collected)
    ensures slots.Some? && Distinct(deps) ==> slots.value == Slots(deps, collected)
  {
    var filled: seq<Option<Bytes>> := seq(|deps|, _ => None);
    for k := 0 to |collected|
      invariant Consistent(deps, collected[..k]) && Restored(deps, collected[..k], filled)
    {
      var entry := collected[k];
      assert collected[..k + 1] == collected[..k] + [entry];
      var index := Position(deps, entry.0);
      if index.None? {
        return None;
      }
      RestoreOne(deps, collected[..k], filled, entry, index.value);
      if filled[index.value].Some? {
        ghost var m :| 0 <= m < k && collected[..k][m].0 == entry.0;
        assert collected[m].0 == collected[k].0;
        return None;
      }
      filled := filled[index.value := Some(entry.1)];
    }
    assert collected[..|collected|] == collected;
    if Distinct(deps) {
      RestoredAll(deps, collected, filled);
    }
    slots := Some(filled);
  }

  /** `checkpoint` lists exactly the filled slots, each once. */
  ghost predicate Lists(deps: seq<JobId>, slots: seq<Option<Bytes>>, checkpoint: seq<(JobId, Bytes)>)
    requires |slots| == |deps|
  {
    && DistinctCaptures(checkpoint)
    && (forall k :: 0 <= k < |checkpoint| ==> Fills(deps, slots, checkpoint[k]))
    && (forall i :: 0 <= i < |deps| && slots[i].Some? ==> Listed(checkpoint, deps[i]))
  }

  ghost predicate Fills(deps: seq<JobId>, slots: seq<Option<Bytes>>, entry: (JobId, Bytes))
    requires |slots| == |deps|
  {
    exists i :: 0 <= i < |deps| && deps[i] == entry.0 && slots[i] == Some(entry.1)
  }

  ghost predicate Listed(collected: seq<(JobId, Bytes)>, id: JobId) {
    exists k :: 0 <= k < |collected| && collected[k].0 == id
  }

  /** Restoring a checkpoint gives the slots back. */
  lemma RoundTrip(deps: seq<JobId>, slots: seq<Option<Bytes>>, checkpoint: seq<(JobId, Bytes)>)
    requires Distinct(deps) && |slots| == |deps| && Lists(deps, slots, checkpoint)
    ensures Consistent(deps, checkpoint) && Slots(deps, checkpoint) == slots
  {
  }

  /** Entries after the first `n` follow the order of the dependencies. */
  ghost predicate DepOrder(deps: seq<JobId>, collected: seq<(JobId, Bytes)>, n: nat) {
    forall a, b :: n <= a < b < |collected| ==> Before(deps, collected[a].0, collected[b].0)
  }

  ghost predicate Before(deps: seq<JobId>, a: JobId, b: JobId) {
    exists i, k :: 0 <= i < k < |deps| && deps[i] == a && deps[k] == b
  }

  /** `checkpoint_fan_in_assembly`: earlier captures first in their old order, new ones after in dependency order. */
  method Checkpoint(deps: seq<JobId>, previous: seq<(JobId, Bytes)>, slots: seq<Option<Bytes>>)
    returns (checkpoint: Option<seq<(JobId, Bytes)>>)
    requires Distinct(deps) && |slots| == |deps|
    ensures checkpoint.Some? <==>
              DistinctCaptures(previous) && forall k :: 0 <= k < |previous| ==> HasSlot(deps, slots, previous[k].0)
    ensures checkpoint.Some? ==>
              && Lists(deps, slots, checkpoint.value) && |previous| <= |checkpoint.value|
              && (forall k :: 0 <= k < |previous| ==> checkpoint.value[k].0 == previous[k].0)
              && DepOrder(deps, checkpoint.value, |previous|)
  {
    var left, out: seq<(JobId, Bytes)> := slots, [];
    for k := 0 to |previous|
      invariant |left| == |deps| && |out| == k
      invariant forall m :: 0 <= m < k ==> HasSlot(deps, slots, previous[m].0) && out[m].0 == previous[m].0
      invariant forall m :: 0 <= m < k ==> Fills(deps, slots, out[m])
      invariant DistinctCaptures(previous[..k])
      invariant forall i :: 0 <= i < |deps| ==> left[i] == if Listed(out, deps[i]) then None else slots[i]
    {
      var index := Position(deps, previous[k].0);
      if index.None? {
        assert !HasSlot(deps, slots, previous[k].0);
        return None;
      }
      if left[index.value].None? {
        SlotTaken(deps, slots, previous, out, k, index.value);
        return None;
      }
      DistinctMore(previous, out, k);
      var entry := (previous[k].0, left[index.value].value);
      assert Fills(deps, slots, entry);
      left := left[index.value := None];
      ListedMore(out, entry);
      out := out + [entry];
    }
    assert previous[..|previous|] == previous;
    var tail := Leftover(deps, left);
    ghost var kept := out;
    out := out + tail;
    LeftoverLists(deps, slots, left, kept, tail);
    checkpoint := Some(out);
  }

  /** A slot that is empty, or was emptied by an earlier capture, has nothing for this one. */
  lemma SlotTaken(deps: seq<JobId>, slots: seq<Option<Bytes>>, previous: seq<(JobId, Bytes)>,
                  out: seq<(JobId, Bytes)>, k: nat, i: nat)
    requires Distinct(deps) && |slots| == |deps| && i < |deps| && |out| == k < |previous| && deps[i] == previous[k].0
    requires forall m :: 0 <= m < k ==> out[m].0 == previous[m].0
    requires Listed(out, deps[i]) || slots[i].None?
    ensures !(DistinctCaptures(previous) && HasSlot(deps, slots, previous[k].0))
  {
    if Listed(out, deps[i]) {
      var m :| 0 <= m < k && out[m].0 == previous[k].0;
      assert previous[m].0 == previous[k].0;
    }
  }

  lemma DistinctMore(previous: seq<(JobId, Bytes)>, out: seq<(JobId, Bytes)>, k: nat)
    requires |out| == k < |previous| && DistinctCaptures(previous[..k]) && !Listed(out, previous[k].0)
    requires forall m :: 0 <= m < k ==> out[m].0 == previous[m].0
    ensures DistinctCaptures(previous[..k + 1])
  {
    assert forall m :: 0 <= m < k ==> previous[m].0 == out[m].0 != previous[k].0;
    assert previous[..k + 1] == previous[..k] + [previous[k]];
  }

  ghost predicate HasSlot(deps: seq<JobId>, slots: seq<Option<Bytes>>, id: JobId)
    requires |slots| == |deps|
  {
    exists i :: 0 <= i < |deps| && deps[i] == id && slots[i].Some?
  }

  lemma ListedMore(out: seq<(JobId, Bytes)>, entry: (JobId, Bytes))
    ensures forall id :: Listed(out + [entry], id) <==> Listed(out, id) || id == entry.0
  {
    forall id ensures Listed(out + [entry], id) <==> Listed(out, id) || id == entry.0 {
      if Listed(out, id) {
        var k :| 0 <= k < |out| && out[k].0 == id;
        assert (out + [entry])[k].0 == id;
      }
      if id == entry.0 {
        assert (out + [entry])[|out|].0 == id;
      }
    }
  }

  /** `zip` the dependencies with the remaining slots and keep the filled ones. */
  function Leftover(deps: seq<JobId>, left: seq<Option<Bytes>>): seq<(JobId, Bytes)>
    requires |left| == |deps|
  {
    if deps == [] then []
    else
      var n := |deps| - 1;
      Leftover(deps[..n], left[..n]) + (if left[n].Some? then [(deps[n], left[n].value)] else [])
  }

  /** An entry that fills a slot of the front fills it in the whole, and comes before the last dependency. */
  lemma FillsMore(deps: seq<JobId>, left: seq<Option<Bytes>>, entry: (JobId, Bytes))
    requires |left| == |deps| > 0 && Fills(deps[..|deps| - 1], left[..|deps| - 1], entry)
    ensures Fills(deps, left, entry) && Before(deps, entry.0, deps[|deps| - 1])
  {
    var n := |deps| - 1;
    var i :| 0 <= i < n && deps[..n][i] == entry.0 && left[..n][i] == Some(entry.1);
    assert deps[i] == entry.0 && left[i] == Some(entry.1);
  }

  lemma BeforeMore(deps: seq<JobId>, a: JobId, b: JobId)
    requires deps != [] && Before(deps[..|deps| - 1], a, b)
    ensures Before(deps, a, b)
  {
    var n := |deps| - 1;
    var i, k :| 0 <= i < k < n && deps[..n][i] == a && deps[..n][k] == b;
    assert deps[i] == a && deps[k] == b;
  }

  lemma ListedFront(front: seq<(JobId, Bytes)>, all: seq<(JobId, Bytes)>, id: JobId)
    requires front <= all && Listed(front, id)
    ensures Listed(all, id)
  {
    var k :| 0 <= k < |front| && front[k].0 == id;
    assert all[k].0 == id;
  }

  lemma {:induction false} LeftoverIs(deps: seq<JobId>, left: seq<Option<Bytes>>)
    requires |left| == |deps| && Distinct(deps)
    ensures Lists(deps, left, Leftover(deps, left)) && DepOrder(deps, Leftover(deps, left), 0)
  {
    if deps != [] {
      LeftoverIs(deps[..|deps| - 1], left[..|deps| - 1]);
      LeftoverFills(deps, left);
      LeftoverOrder(deps, left);
    }
  }

  lemma LeftoverFills(deps: seq<JobId>, left: seq<Option<Bytes>>)
    requires |left| == |deps| > 0 && Distinct(deps)
    requires Lists(deps[..|deps| - 1], left[..|deps| - 1], Leftover(deps[..|deps| - 1], left[..|deps| - 1]))
    ensures Lists(deps, left, Leftover(deps, left))
  {
    var n := |deps| - 1;
    var front, all := Leftover(deps[..n], left[..n]), Leftover(deps, left);
    forall k | 0 <= k < |all| ensures Fills(deps, left, all[k]) {
      if k < |front| {
        FillsMore(deps, left, front[k]);
      }
    }
    forall i | 0 <= i < |deps| && left[i].Some? ensures Listed(all, deps[i]) {
      LeftoverListed(deps, left, i);
    }
    forall k | 0 <= k < |front| ensures front[k].0 != deps[n] {
      FrontDiffers(deps, left, front[k]);
    }
  }

  lemma LeftoverListed(deps: seq<JobId>, left: seq<Option<Bytes>>, i: nat)
    requires |left| == |deps| && i < |deps| && left[i].Some?
    requires var n := |deps| - 1; i < n ==> Listed(Leftover(deps[..n], left[..n]), deps[..n][i])
    ensures Listed(Leftover(deps, left), deps[i])
  {
    var n := |deps| - 1;
    var front, all := Leftover(deps[..n], left[..n]), Leftover(deps, left);
    if i < n {
      ListedFront(front, all, deps[i]);
    } else {
      assert all[|front|].0 == deps[i];
    }
  }

  lemma FrontDiffers(deps: seq<JobId>, left: seq<Option<Bytes>>, entry: (JobId, Bytes))
    requires |left| == |deps| > 0 && Distinct(deps) && Fills(deps[..|deps| - 1], left[..|deps| - 1], entry)
    ensures entry.0 != deps[|deps| - 1]
  {
    var n := |deps| - 1;
    var i :| 0 <= i < n && deps[..n][i] == entry.0 && left[..n][i] == Some(entry.1);
  }

  lemma LeftoverOrder(deps: seq<JobId>, left: seq<Option<Bytes>>)
    requires |left| == |deps| > 0
    requires var n := |deps| - 1;
             var front := Leftover(deps[..n], left[..n]);
             DepOrder(deps[..n], front, 0) && forall k :: 0 <= k < |front| ==> Fills(deps[..n], left[..n], front[k])
    ensures DepOrder(deps, Leftover(deps, left), 0)
  {
    var n := |deps| - 1;
    var front, all := Leftover(deps[..n], left[..n]), Leftover(deps, left);
    forall a, b | 0 <= a < b < |all| ensures Before(deps, all[a].0, all[b].0) {
      if b < |front| {
        BeforeMore(deps, front[a].0, front[b].0);
      } else {
        FillsMore(deps, left, front[a]);
      }
    }
  }

  lemma LeftoverLists(deps: seq<JobId>, slots: seq<Option<Bytes>>, left: seq<Option<Bytes>>,
                      kept: seq<(JobId, Bytes)>, tail: seq<(JobId, Bytes)>)
    requires |slots| == |deps| == |left| && Distinct(deps) && DistinctCaptures(kept) && tail == Leftover(deps, left)
    requires forall m :: 0 <= m < |kept| ==> Fills(deps, slots, kept[m])
    requires forall i :: 0 <= i < |deps| ==> left[i] == if Listed(kept, deps[i]) then None else slots[i]
    ensures Lists(deps, slots, kept + tail) && DepOrder(deps, kept + tail, |kept|)
  {
    var all := kept + tail;
    LeftoverIs(deps, left);
    forall k | 0 <= k < |tail| ensures Fills(deps, slots, tail[k]) && !Listed(kept, tail[k].0) {
      assert Fills(deps, left, tail[k]);
    }
    forall k | 0 <= k < |all| ensures Fills(deps, slots, all[k]) {
      if k >= |kept| {
        assert Fills(deps, slots, tail[k - |kept|]);
      }
    }
    forall i | 0 <= i < |deps| && slots[i].Some? ensures Listed(all, deps[i]) {
      if Listed(kept, deps[i]) {
        var k :| 0 <= k < |kept| && kept[k].0 == deps[i];
        assert all[k].0 == deps[i];
      } else {
        assert Listed(tail, deps[i]);
        var k :| 0 <= k < |tail| && tail[k].0 == deps[i];
        assert all[|kept| + k].0 == deps[i];
      }
    }
    forall a, b | |kept| <= a < b < |all| ensures Before(deps, all[a].0, all[b].0) {
      assert Before(deps, tail[a - |kept|].0, tail[b - |kept|].0);
    }
  }

  // ---------------------------------------------------------------- one run

  /** Slot `i` is still open and its dependency can no longer deliver. */
  function Blocked(w: Watcher, polls: seq<Poll>, i: nat): Option<Cause>
    requires i < |w.deps| == |polls|
  {
    if Captured(w.collected, w.deps[i]).Some? then None
    else match polls[i].state
      case DeadLettered => Some(WasDeadLettered(w.deps[i]))
      case Live => None
      case CompletedOrUnknown => if polls[i].result.None? then Some(MissingResult(w.deps[i])) else None
  }

  /** Slot `i` after the run's polls: an old capture stays, a completed dependency fills it. */
  function Filled(w: Watcher, polls: seq<Poll>, i: nat): Option<Bytes>
    requires i < |w.deps| == |polls|
  {
    var old_ := Captured(w.collected, w.deps[i]);
    if old_.Some? then old_
    else if polls[i].state.CompletedOrUnknown? then polls[i].result
    else None
  }

  function AllFilled(w: Watcher, polls: seq<Poll>): seq<Option<Bytes>>
    requires |w.deps| == |polls|
  {
    seq(|w.deps|, i requires 0 <= i < |w.deps| => Filled(w, polls, i))
  }

  ghost predicate FirstBlocked(w: Watcher, polls: seq<Poll>, i: nat) {
    && i < |w.deps| == |polls|
    && Blocked(w, polls, i).Some?
    && forall k :: 0 <= k < i ==> Blocked(w, polls, k).None?
  }

  ghost predicate NoneBlocked(w: Watcher, polls: seq<Poll>) {
    |w.deps| == |polls| && forall k :: 0 <= k < |w.deps| ==> Blocked(w, polls, k).None?
  }

  ghost predicate Complete(slots: seq<Option<Bytes>>) {
    forall i :: 0 <= i < |slots| ==> slots[i].Some?
  }

  /** The payload of the next generation. */
  ghost predicate Continues(w: Watcher, polls: seq<Poll>, next: Watcher)
    requires |w.deps| == |polls|
  {
    && next == w.(generation := w.generation + 1, collected := next.collected)
    && w.collected <= next.collected
    && Lists(w.deps, AllFilled(w, polls), next.collected)
    && DepOrder(w.deps, next.collected, |w.collected|)
  }

  /** What a run of watcher `w` that polls `polls` comes to. */
  ghost predicate RunsTo(w: Watcher, polls: seq<Poll>, v: Verdict) {
    && |polls| == |w.deps|
    && match v
       case Refused(error) => !WellFormed(w) && Diagnosed(w, error)
       case Failed(cause) =>
         WellFormed(w) && exists i :: FirstBlocked(w, polls, i) && Blocked(w, polls, i) == Some(cause)
       case Fired(results) =>
         && WellFormed(w) && NoneBlocked(w, polls) && |results| == |w.deps|
         && forall i :: 0 <= i < |w.deps| ==> Filled(w, polls, i) == Some(results[i])
       case Exhausted =>
         && WellFormed(w) && NoneBlocked(w, polls) && !Complete(AllFilled(w, polls))
         && w.generation == w.maxGenerations
       case Rescheduled(next) =>
         && WellFormed(w) && NoneBlocked(w, polls) && !Complete(AllFilled(w, polls))
         && w.generation < w.maxGenerations && Continues(w, polls, next)
  }

  /** The assembly's decision: an impossible finding wins, then produced values fill their slots. */
  function Adjudicate(slots: seq<Option<Bytes>>, findings: seq<(nat, Finding)>): Decision
    requires forall k :: 0 <= k < |findings| ==> findings[k].0 < |slots|
  {
    var cause := FirstImpossible(findings);
    if cause.Some? then Doomed(cause.value)
    else
      var filled := Fill(slots, findings);
      if forall i :: 0 <= i < |filled| ==> filled[i].Some? then
        Ready(seq(|filled|, i requires 0 <= i < |filled| => filled[i].value))
      else Pending(filled)
  }

  function FirstImpossible(findings: seq<(nat, Finding)>): (r: Option<Cause>)
    ensures r.None? <==> forall k :: 0 <= k < |findings| ==> findings[k].1.Produced?
    ensures r.Some? ==> exists k :: 0 <= k < |findings| && findings[k].1 == Impossible(r.value)
  {
    if findings == [] then None
    else
      var n := |findings| - 1;
      var r := FirstImpossible(findings[..n]);
      if r.Some? then
        var k :| 0 <= k < n && findings[..n][k].1 == Impossible(r.value);
        assert findings[k].1 == Impossible(r.value);
        r
      else if findings[n].1.Impossible? then Some(findings[n].1.cause)
      else None
  }

  function Fill(slots: seq<Option<Bytes>>, findings: seq<(nat, Finding)>): (r: seq<Option<Bytes>>)
    requires forall k :: 0 <= k < |findings| ==> findings[k].0 < |slots|
    ensures |r| == |slots|
  {
    if findings == [] then slots
    else
      var n := |findings| - 1;
      var r := Fill(slots, findings[..n]);
      if findings[n].1.Produced? then r[findings[n].0 := Some(findings[n].1.bytes)] else r
  }

  // ------------------------------------------------------- the run, step by step

  /** The findings about the first `n` slots, none of them impossible. */
  ghost predicate FoundSoFar(w: Watcher, polls: seq<Poll>, n: nat, findings: seq<(nat, Finding)>) {
    && n <= |w.deps| == |polls|
    && (forall k :: 0 <= k < |findings| ==> findings[k].0 < n && findings[k].1.Produced?)
    && (forall k :: 0 <= k < n ==> Blocked(w, polls, k).None?)
    && forall i :: 0 <= i < |w.deps| ==>
         FilledTo(w, polls, Fill(Slots(w.deps, w.collected), findings)[i], n, i)
  }

  ghost predicate FilledTo(w: Watcher, polls: seq<Poll>, slot: Option<Bytes>, n: nat, i: nat)
    requires i < |w.deps| == |polls|
  {
    slot == if i < n then Filled(w, polls, i) else Captured(w.collected, w.deps[i])
  }

  /** An open slot whose dependency is still live, or an old capture: nothing to add. */
  lemma FindNothing(w: Watcher, polls: seq<Poll>, n: nat, findings: seq<(nat, Finding)>)
    requires FoundSoFar(w, polls, n, findings) && n < |w.deps|
    requires Captured(w.collected, w.deps[n]).Some? || polls[n].state.Live?
    ensures FoundSoFar(w, polls, n + 1, findings)
  {
  }

  lemma FindValue(w: Watcher, polls: seq<Poll>, n: nat, findings: seq<(nat, Finding)>)
    requires FoundSoFar(w, polls, n, findings) && n < |w.deps|
    requires Captured(w.collected, w.deps[n]).None? && polls[n].state.CompletedOrUnknown? && polls[n].result.Some?
    ensures FoundSoFar(w, polls, n + 1, findings + [(n, Produced(polls[n].result.value))])
  {
  }

  /** All slots polled: the decision rests on exactly what was found. */
  lemma FoundAll(w: Watcher, polls: seq<Poll>, findings: seq<(nat, Finding)>)
    requires FoundSoFar(w, polls, |w.deps|, findings)
    ensures NoneBlocked(w, polls) && FirstImpossible(findings).None?
    ensures Fill(Slots(w.deps, w.collected), findings) == AllFilled(w, polls)
  {
  }

  lemma FoundDoom(findings: seq<(nat, Finding)>, i: nat, cause: Cause)
    requires forall k :: 0 <= k < |findings| ==> findings[k].1.Produced?
    ensures FirstImpossible(findings + [(i, Impossible(cause))]) == Some(cause)
  {
  }

  /** Old captures still have their slots after the polls, with their values. */
  lemma KeptSlots(w: Watcher, polls: seq<Poll>, k: nat)
    requires WellFormed(w) && |w.deps| == |polls| && k < |w.collected|
    ensures HasSlot(w.deps, AllFilled(w, polls), w.collected[k].0)
    ensures forall e: (JobId, Bytes) :: e.0 == w.collected[k].0 && Fills(w.deps, AllFilled(w, polls), e) ==>
              e == w.collected[k]
  {
  }

  /** The checkpoint of this run's slots continues the watcher. */
  lemma CheckpointContinues(w: Watcher, polls: seq<Poll>, cp: seq<(JobId, Bytes)>)
    requires WellFormed(w) && |w.deps| == |polls| && |w.collected| <= |cp|
    requires Lists(w.deps, AllFilled(w, polls), cp) && DepOrder(w.deps, cp, |w.collected|)
    requires forall k :: 0 <= k < |w.collected| ==> cp[k].0 == w.collected[k].0
    ensures Continues(w, polls, w.(generation := w.generation + 1, collected := cp))
  {
  }

  method Collect(w: Watcher, polls: seq<Poll>, slots: seq<Option<Bytes>>) returns (findings: seq<(nat, Finding)>)
    requires |polls| == |w.deps| && slots == Slots(w.deps, w.collected)
    ensures forall k :: 0 <= k < |findings| ==> findings[k].0 < |slots|
    ensures FirstImpossible(findings).None? ==> FoundSoFar(w, polls, |w.deps|, findings)
    ensures FirstImpossible(findings).Some? ==>
              exists i :: FirstBlocked(w, polls, i) && Blocked(w, polls, i) == FirstImpossible(findings)
  {
    findings := [];
    for i := 0 to |slots|
      invariant FoundSoFar(w, polls, i, findings)
    {
      if slots[i].Some? {
        FindNothing(w, polls, i, findings);
        continue;
      }
      match polls[i].state
      case DeadLettered =>
        FoundDoom(findings, i, WasDeadLettered(w.deps[i]));
        findings := findings + [(i, Impossible(WasDeadLettered(w.deps[i])))];
        assert FirstBlocked(w, polls, i);
        return;
      case Live =>
        FindNothing(w, polls, i, findings);
      case CompletedOrUnknown =>
        if polls[i].result.Some? {
          FindValue(w, polls, i, findings);
          findings := findings + [(i, Produced(polls[i].result.value))];
        } else {
          FoundDoom(findings, i, MissingResult(w.deps[i]));
          findings := findings + [(i, Impossible(MissingResult(w.deps[i])))];
          assert FirstBlocked(w, polls, i);
          return;
        }
    }
  }

  /** The verdict of a run, by the assembly's decision. */
  method Judge(w: Watcher, polls: seq<Poll>) returns (v: Verdict)
    requires |polls| == |w.deps|
    ensures RunsTo(w, polls, v)
  {
    var error := Validate(w);
    if error.Some? {
      return Refused(error.value);
    }
    var restored := Restore(w.deps, w.collected);
    var slots := restored.value;
    var findings := Collect(w, polls, slots);
    if FirstImpossible(findings).None? {
      FoundAll(w, polls, findings);
    }
    match Adjudicate(slots, findings)
    case Doomed(cause) => return Failed(cause);
    case Ready(results) => return Fired(results);
    case Pending(filled) =>
      if w.generation >= w.maxGenerations {
        return Exhausted;
      }
      forall k | 0 <= k < |w.collected| ensures HasSlot(w.deps, filled, w.collected[k].0) {
        KeptSlots(w, polls, k);
      }
      var checkpoint := Checkpoint(w.deps, w.collected, filled);
      CheckpointContinues(w, polls, checkpoint.value);
      return Rescheduled(w.(generation := w.generation + 1, collected := checkpoint.value));
  }

  // ------------------------------------------------------------- the verdicts

  /** No run so far has captured dependency `i`. */
  ghost predicate Uncaptured(w: Watcher, i: nat)
    requires i < |w.deps|
  {
    forall k :: 0 <= k < |w.collected| ==> w.collected[k].0 != w.deps[i]
  }

  /** An uncaptured dependency was polled dead-lettered, or completed with no result to be had. */
  ghost predicate Stuck(w: Watcher, polls: seq<Poll>, i: nat) {
    && i < |w.deps| == |polls| && Uncaptured(w, i)
    && (polls[i].state == DeadLettered || (polls[i].state == CompletedOrUnknown && polls[i].result == None))
  }

  /** An uncaptured dependency was polled live. */
  ghost predicate Awaited(w: Watcher, polls: seq<Poll>, i: nat) {
    i < |w.deps| == |polls| && Uncaptured(w, i) && polls[i].state == Live
  }

  /** Dependency `i` has the value `bytes`: captured before, or polled completed with that result. */
  ghost predicate Delivers(w: Watcher, polls: seq<Poll>, i: nat, bytes: Bytes) {
    && i < |w.deps| == |polls|
    && if Uncaptured(w, i) then polls[i] == Poll(CompletedOrUnknown, Some(bytes))
       else (w.deps[i], bytes) in w.collected
  }

  ghost predicate NoneStuck(w: Watcher, polls: seq<Poll>) {
    forall i :: !Stuck(w, polls, i)
  }

  ghost predicate SomeAwaited(w: Watcher, polls: seq<Poll>) {
    exists i :: Awaited(w, polls, i)
  }

  lemma CapturedIff(w: Watcher, i: nat)
    requires i < |w.deps|
    ensures Captured(w.collected, w.deps[i]).None? <==> Uncaptured(w, i)
    ensures Captured(w.collected, w.deps[i]).Some? ==>
              (w.deps[i], Captured(w.collected, w.deps[i]).value) in w.collected
  {
  }

  /** Slot by slot, what blocks a run and what fills its slots. */
  lemma PollDecides(w: Watcher, polls: seq<Poll>, i: nat)
    requires i < |w.deps| == |polls|
    ensures Blocked(w, polls, i).Some? <==> Stuck(w, polls, i)
    ensures Stuck(w, polls, i) ==>
              Blocked(w, polls, i).value ==
              if polls[i].state == DeadLettered then WasDeadLettered(w.deps[i]) else MissingResult(w.deps[i])
    ensures Filled(w, polls, i).Some? ==> Delivers(w, polls, i, Filled(w, polls, i).value)
    ensures !Stuck(w, polls, i) ==> (Filled(w, polls, i).None? <==> Awaited(w, polls, i))
  {
    CapturedIff(w, i);
  }

  /** The dependency at `i` dooms the run, and none before it does. */
  ghost predicate Dooms(w: Watcher, polls: seq<Poll>, i: nat, cause: Cause) {
    && Stuck(w, polls, i) && (forall k :: 0 <= k < i ==> !Stuck(w, polls, k))
    && cause == if polls[i].state == DeadLettered then WasDeadLettered(w.deps[i]) else MissingResult(w.deps[i])
  }

  lemma SlotsAre(w: Watcher, polls: seq<Poll>)
    requires |w.deps| == |polls|
    ensures NoneBlocked(w, polls) <==> NoneStuck(w, polls)
    ensures NoneStuck(w, polls) ==> (Complete(AllFilled(w, polls)) <==> !SomeAwaited(w, polls))
  {
    forall i: nat | i < |w.deps|
      ensures Blocked(w, polls, i).Some? <==> Stuck(w, polls, i)
      ensures !Stuck(w, polls, i) ==> (AllFilled(w, polls)[i].None? <==> Awaited(w, polls, i))
    {
      PollDecides(w, polls, i);
    }
    if SomeAwaited(w, polls) && NoneStuck(w, polls) {
      var i: nat :| Awaited(w, polls, i);
      assert AllFilled(w, polls)[i].None?;
    }
  }

  /**
   A run of a well-formed watcher fails exactly when some dependency is stuck, naming the first and
   why; it fires exactly when none is stuck or awaited; else it goes on to the next generation or,
   at the last, gives up.
   */
  lemma VerdictIs(w: Watcher, polls: seq<Poll>, v: Verdict)
    requires WellFormed(w) && RunsTo(w, polls, v)
    ensures v.Failed? <==> !NoneStuck(w, polls)
    ensures v.Failed? ==> exists i: nat :: Dooms(w, polls, i, v.cause)
    ensures v.Fired? <==> NoneStuck(w, polls) && !SomeAwaited(w, polls)
    ensures v.Exhausted? <==> NoneStuck(w, polls) && SomeAwaited(w, polls) && w.generation == w.maxGenerations
    ensures v.Rescheduled? <==> NoneStuck(w, polls) && SomeAwaited(w, polls) && w.generation < w.maxGenerations
  {
    SlotsAre(w, polls);
    match v
    case Failed(cause) =>
      var i: nat :| FirstBlocked(w, polls, i) && Blocked(w, polls, i) == Some(cause);
      forall k: nat | k <= i ensures Blocked(w, polls, k).Some? <==> Stuck(w, polls, k) {
        PollDecides(w, polls, k);
      }
      PollDecides(w, polls, i);
      assert Dooms(w, polls, i, cause);
    case Fired(results) =>
      assert Complete(AllFilled(w, polls));
    case _ =>
  }

  /** `FanInWatcherJob::run`. */
  method Run(w: Watcher, polls: seq<Poll>) returns (v: Verdict)
    requires |polls| == |w.deps|
    ensures RunsTo(w, polls, v) && (v.Refused? <==> !WellFormed(w))
    ensures v.Failed? <==> WellFormed(w) && !NoneStuck(w, polls)
    ensures v.Failed? ==> exists i: nat :: Dooms(w, polls, i, v.cause)
    ensures v.Fired? <==> WellFormed(w) && NoneStuck(w, polls) && !SomeAwaited(w, polls)
  {
    v := Judge(w, polls);
    if WellFormed(w) {
      VerdictIs(w, polls, v);
    }
  }

  /** What a fired callback gets, and what the next generation has captured, dependency by dependency. */
  lemma VerdictCarries(w: Watcher, polls: seq<Poll>, v: Verdict, i: nat)
    requires WellFormed(w) && RunsTo(w, polls, v) && i < |w.deps|
    ensures v.Fired? ==> |v.results| == |w.deps| && Delivers(w, polls, i, v.results[i])
    ensures v.Rescheduled? ==>
              && v.next == w.(generation := w.generation + 1, collected := v.next.collected)
              && (Uncaptured(v.next, i) <==> Awaited(w, polls, i))
              && forall b :: (w.deps[i], b) in v.next.collected ==> Delivers(w, polls, i, b)
  {
    SlotsAre(w, polls);
    PollDecides(w, polls, i);
    if v.Rescheduled? {
      NextIsSound(w, polls, v.next);
      CapturedIff(v.next, i);
      assert Slots(v.next.deps, v.next.collected)[i] == Filled(w, polls, i);
      forall b | (w.deps[i], b) in v.next.collected ensures Delivers(w, polls, i, b) {
        var k :| 0 <= k < |v.next.collected| && v.next.collected[k] == (w.deps[i], b);
        assert Captured(v.next.collected, w.deps[i]) == Some(b);
      }
    }
  }

  // --------------------------------------------------------------- the chain

  /** Watcher `n` of the chain ran and rescheduled itself as watcher `n + 1`. */
  ghost predicate Link(ws: seq<Watcher>, polls: seq<seq<Poll>>, n: nat)
    requires n + 1 < |ws| && n < |polls|
  {
    RunsTo(ws[n], polls[n], Rescheduled(ws[n + 1]))
  }

  /** A chain of generations, from a payload as the client submits it. */
  ghost predicate Chain(ws: seq<Watcher>, polls: seq<seq<Poll>>) {
    && 0 < |ws| == |polls|
    && ws[0].generation == 1 && ws[0].collected == []
    && forall n :: 0 <= n < |ws| - 1 ==> Link(ws, polls, n)
  }

  /** A rescheduled payload passes `validate`, restores to this run's slots, and keeps every capture. */
  lemma NextIsSound(w: Watcher, polls: seq<Poll>, next: Watcher)
    requires RunsTo(w, polls, Rescheduled(next))
    ensures WellFormed(next) && next.deps == w.deps && next.generation == w.generation + 1
    ensures next.maxGenerations == w.maxGenerations && w.collected <= next.collected
    ensures Slots(next.deps, next.collected) == AllFilled(w, polls)
  {
    RoundTrip(w.deps, AllFilled(w, polls), next.collected);
  }

  lemma {:induction false} ChainSound(ws: seq<Watcher>, polls: seq<seq<Poll>>, n: nat)
    requires Chain(ws, polls) && n < |ws|
    ensures n > 0 ==> WellFormed(ws[n])
    ensures ws[n].deps == ws[0].deps && ws[n].maxGenerations == ws[0].maxGenerations
    ensures ws[n].generation == n + 1
  {
    if n > 0 {
      ChainSound(ws, polls, n - 1);
      assert Link(ws, polls, n - 1);
      NextIsSound(ws[n - 1], polls[n - 1], ws[n]);
    }
  }

  /** A fan-in polls at most `max_generations` times. */
  lemma ChainBounded(ws: seq<Watcher>, polls: seq<seq<Poll>>)
    requires Chain(ws, polls) && ws[0].maxGenerations >= 1
    ensures |ws| <= ws[0].maxGenerations
  {
    ChainSound(ws, polls, |ws| - 1);
  }

  /** Captured values never change and never disappear. */
  lemma {:induction false} CapturesStay(ws: seq<Watcher>, polls: seq<seq<Poll>>, m: nat, n: nat)
    requires Chain(ws, polls) && m <= n < |ws|
    ensures ws[m].collected <= ws[n].collected
  {
    if m < n {
      CapturesStay(ws, polls, m, n - 1);
      assert Link(ws, polls, n - 1);
      NextIsSound(ws[n - 1], polls[n - 1], ws[n]);
    }
  }

  /** In run `m`, dependency `i` was classified as completed and its stored result was `bytes`. */
  ghost predicate SeenDone(ws: seq<Watcher>, polls: seq<seq<Poll>>, m: nat, i: nat, bytes: Bytes)
    requires m < |polls|
  {
    i < |polls[m]| && polls[m][i] == Poll(CompletedOrUnknown, Some(bytes))
  }

  /** The next payload captures for each dependency what this run had in its slot. */
  lemma SlotCarries(w: Watcher, polls: seq<Poll>, next: Watcher, i: nat)
    requires RunsTo(w, polls, Rescheduled(next)) && i < |w.deps|
    ensures next.deps == w.deps && |polls| == |w.deps| && Captured(next.collected, next.deps[i]) == Filled(w, polls, i)
  {
    NextIsSound(w, polls, next);
    assert Slots(next.deps, next.collected)[i] == AllFilled(w, polls)[i];
  }

  /** Whatever is in a slot was seen done, with that value, in an earlier run. */
  lemma {:induction false} CaptureWasSeen(ws: seq<Watcher>, polls: seq<seq<Poll>>, n: nat, i: nat)
    requires Chain(ws, polls) && n < |ws| && i < |ws[0].deps| && i < |ws[n].deps|
    requires Captured(ws[n].collected, ws[n].deps[i]).Some?
    ensures exists m :: 0 <= m < n && SeenDone(ws, polls, m, i, Captured(ws[n].collected, ws[n].deps[i]).value)
  {
    if n > 0 {
      var w, p := ws[n - 1], polls[n - 1];
      assert Link(ws, polls, n - 1);
      SlotCarries(w, p, ws[n], i);
      if Captured(w.collected, w.deps[i]).Some? {
        CaptureWasSeen(ws, polls, n - 1, i);
      } else {
        assert SeenDone(ws, polls, n - 1, i, p[i].result.value);
      }
    }
  }

  /**
   A fired callback receives, at index `i`, the bytes some run of the chain read for
   dependency `i` after seeing it completed.
   */
  lemma CallbackIsRight(ws: seq<Watcher>, polls: seq<seq<Poll>>, results: seq<Bytes>, i: nat)
    requires Chain(ws, polls) && RunsTo(ws[|ws| - 1], polls[|ws| - 1], Fired(results)) && i < |ws[0].deps|
    ensures |results| == |ws[0].deps|
    ensures exists m :: 0 <= m < |ws| && SeenDone(ws, polls, m, i, results[i])
  {
    var n := |ws| - 1;
    ChainSound(ws, polls, n);
    assert Filled(ws[n], polls[n], i) == Some(results[i]);
    if Captured(ws[n].collected, ws[n].deps[i]).Some? {
      CaptureWasSeen(ws, polls, n, i);
    } else {
      assert SeenDone(ws, polls, n, i, results[i]);
    }
  }
}
