/**
 A fleet on a broker: the calls its clients and workers make are a run of that broker, with fresh
 receipts, so every law over runs holds of what a fleet does.
 */
module FleetRuns {
  import opened Types
  import opened Contract
  import opened Receipts
  import opened Fleet
  import opened FleetLaws

  /** The broker call an act makes, if any. */
  ghost function CallOf(f: Fleet, a: Act): seq<Call>
    requires a.Submit? || a.SubmitLost? || a.Finish? || a.Beat? ==> a.t < |f.tasks|
    requires a.Submit? || a.SubmitLost? ==> f.tasks[a.t].Submitting?
    requires a.Finish? || a.Beat? ==> f.tasks[a.t].Running?
  {
    match a
    case Submit(t, now) => [Call(now, Enqueue(f.tasks[t].job))]
    case SubmitLost(t, now) => [Call(now, Enqueue(f.tasks[t].job))]
    case Take(_, lane, receipt, now, _) => [Call(now, Reserve(lane, receipt))]
    case Finish(t, how, now, _) => [Call(now, Resolve(f.tasks[t].receipt, how))]
    case Beat(t, now, _) => [Call(now, Resolve(f.tasks[t].receipt, Extend))]
    case Admin(op, now, _) => [Call(now, op)]
    case _ => []
  }

  /** What the broker made of it. */
  ghost function OutcomeOf(cfg: Config, f: Fleet, a: Act): (outs: seq<Outcome>)
    requires Can(cfg, f, a)
    ensures |outs| == |CallOf(f, a)|
  {
    match a
    case Submit(t, now) => [Step(cfg, f.store, Enqueue(f.tasks[t].job), now)]
    case SubmitLost(t, now) => [Step(cfg, f.store, Enqueue(f.tasks[t].job), now)]
    case Take(_, _, _, _, o) => [o]
    case Finish(_, _, _, o) => [o]
    case Beat(_, _, o) => [o]
    case Admin(_, _, o) => [o]
    case _ => []
  }

  ghost function CallsOf(cfg: Config, f: Fleet, acts: seq<Act>): seq<Call>
    requires Run(cfg, f, acts)
    decreases |acts|
  {
    if acts == [] then [] else CallOf(f, acts[0]) + CallsOf(cfg, After(cfg, f, acts[0]), acts[1..])
  }

  ghost function OutcomesOf(cfg: Config, f: Fleet, acts: seq<Act>): seq<Outcome>
    requires Run(cfg, f, acts)
    decreases |acts|
  {
    if acts == [] then [] else OutcomeOf(cfg, f, acts[0]) + OutcomesOf(cfg, After(cfg, f, acts[0]), acts[1..])
  }

  /** The reserves so far used receipts the fleet knows, each once. */
  ghost predicate Minted(calls: seq<Call>, known: set<Receipt>) {
    ReceiptsFresh(calls) && forall k :: 0 <= k < |calls| && calls[k].op.Reserve? ==> calls[k].op.receipt in known
  }

  /** One act further the broker's run has come to the fleet's store. */
  lemma ActExtends(cfg: Config, f: Fleet, a: Act, calls: seq<Call>, outs: seq<Outcome>)
    requires Can(cfg, f, a) && IsRun(cfg, calls, outs) && At(outs, |outs|) == f.store && Minted(calls, f.receipts)
    ensures var calls', outs', g := calls + CallOf(f, a), outs + OutcomeOf(cfg, f, a), After(cfg, f, a);
            IsRun(cfg, calls', outs') && At(outs', |outs'|) == g.store && Minted(calls', g.receipts)
  {
    if CallOf(f, a) == [] {
      assert calls + CallOf(f, a) == calls && outs + OutcomeOf(cfg, f, a) == outs;
    } else {
      var call, o := CallOf(f, a)[0], OutcomeOf(cfg, f, a)[0];
      RunExtends(cfg, calls, outs, call.op, call.now, o);
    }
  }

  lemma Regroup<T>(a: seq<T>, b: seq<T>, c: seq<T>)
    ensures a + b + c == a + (b + c)
  {
  }

  lemma NoFront<T>(a: seq<T>)
    ensures [] + a == a
  {
  }

  lemma {:induction false} ActsExtend(cfg: Config, f: Fleet, acts: seq<Act>, calls: seq<Call>, outs: seq<Outcome>)
    requires Run(cfg, f, acts) && IsRun(cfg, calls, outs) && At(outs, |outs|) == f.store && Minted(calls, f.receipts)
    ensures var calls', outs' := calls + CallsOf(cfg, f, acts), outs + OutcomesOf(cfg, f, acts);
            && IsRun(cfg, calls', outs') && At(outs', |outs'|) == End(cfg, f, acts).store
            && Minted(calls', End(cfg, f, acts).receipts)
    decreases |acts|
  {
    if acts == [] {
      assert calls + CallsOf(cfg, f, acts) == calls && outs + OutcomesOf(cfg, f, acts) == outs;
    } else {
      var g := After(cfg, f, acts[0]);
      ActExtends(cfg, f, acts[0], calls, outs);
      var calls1, outs1 := calls + CallOf(f, acts[0]), outs + OutcomeOf(cfg, f, acts[0]);
      ActsExtend(cfg, g, acts[1..], calls1, outs1);
      Regroup(calls, CallOf(f, acts[0]), CallsOf(cfg, g, acts[1..]));
      Regroup(outs, OutcomeOf(cfg, f, acts[0]), OutcomesOf(cfg, g, acts[1..]));
    }
  }

  /** In every interleaving the calls made are a run of the broker, on fresh receipts, to the fleet's store. */
  lemma FleetIsRun(cfg: Config, acts: seq<Act>)
    requires Run(cfg, EMPTY_FLEET, acts)
    ensures var calls, outs := CallsOf(cfg, EMPTY_FLEET, acts), OutcomesOf(cfg, EMPTY_FLEET, acts);
            && IsRun(cfg, calls, outs) && ReceiptsFresh(calls)
            && At(outs, |outs|) == End(cfg, EMPTY_FLEET, acts).store
  {
    ActsExtend(cfg, EMPTY_FLEET, acts, [], []);
    NoFront(CallsOf(cfg, EMPTY_FLEET, acts));
    NoFront(OutcomesOf(cfg, EMPTY_FLEET, acts));
  }

  /** An act changes one task at most; a crashed one is idle, a heartbeat or an operator's call changes none. */
  lemma ActTasks(cfg: Config, f: Fleet, a: Act)
    requires Can(cfg, f, a)
    ensures var g := After(cfg, f, a);
            match a
            case Spawn => g == f.(tasks := f.tasks + [Idle])
            case KeepInline(t, job) => g == f.(tasks := f.tasks[t := Submitting(job)])
            case Crash(t) => g == f.(tasks := f.tasks[t := Idle])
            case Beat(_, _, _) => g == f.(store := g.store)
            case Admin(_, _, _) => g == f.(store := g.store)
            case _ => |g.tasks| == |f.tasks| && forall u :: 0 <= u < |f.tasks| && u != a.t ==> g.tasks[u] == f.tasks[u]
  {
  }
}
