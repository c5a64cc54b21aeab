/** How many VMs there can be: the limits of the pool configuration under concurrency. */
module PoolBounds {
  import opened Common
  import opened Protocol
  import opened GuestLoader
  import opened GuestAgent
  import opened HostLink
  import opened MicroVms
  import opened Pool
  import opened PoolSafety

  /** VMs in the pool's care: active, warm, and those that an acquire or release holds or is creating. VMs that
      shutdown_all has drained are on their way out and are not counted. */
  function Total(s: State): nat {
    |s.active| + |s.warm| + Sum(Weight, s.tasks)
  }

  predicate Warming(pc: Pc) {
    pc.WarmCount? || pc.WarmBoot? || pc.WarmPush?
  }

  ghost predicate NoneWarming(s: State) {
    forall t :: 0 <= t < |s.tasks| ==> !Warming(s.tasks[t])
  }

  ghost predicate NoWarmUp(run: Run) {
    forall i :: 0 <= i < |run| ==> !(run[i].1.Start? && run[i].1.op.WarmUp?)
  }

  lemma {:induction false} SumAtMost(m: Measure, n: Measure, tasks: seq<Pc>)
    requires m == Weight || m == Passing || m == Releasing
    requires forall pc :: W(m, pc) <= W(n, pc)
    ensures Sum(m, tasks) <= |tasks| && Sum(m, tasks) <= Sum(n, tasks)
  {
    if tasks != [] {
      SumAtMost(m, n, tasks[1..]);
    }
  }

  lemma RemoveOne(m: map<nat, Vm>, id: nat)
    requires id in m
    ensures |m - {id}| == |m| - 1
  {
    assert (m - {id}).Keys == m.Keys - {id};
    assert |m| == |m.Keys| && |m - {id}| == |(m - {id}).Keys|;
  }

  lemma PutOne(m: map<nat, Vm>, id: nat, vm: Vm)
    ensures |m[id := vm]| == if id in m then |m| else |m| + 1
  {
    assert m[id := vm].Keys == m.Keys + {id};
    assert |m| == |m.Keys| && |m[id := vm]| == |m[id := vm].Keys|;
  }

  lemma InsertTotal(cfg: Config, s: State, pc: Pc, io: Io)
    requires pc.AcqMove? || pc.AcqInsert?
    ensures var (s1, pc1) := Quiet(cfg, s, pc, io);
      s1.warm == s.warm && |s1.active| <= |s.active| + 1 && W(Weight, pc1) == 0
  {
    PutOne(s.active, pc.vm.id, pc.vm);
  }

  lemma UseTotal(cfg: Config, s: State, pc: Pc, io: Io)
    requires pc.UseCall?
    ensures var (s1, pc1) := Quiet(cfg, s, pc, io);
      s1.warm == s.warm && s1.active.Keys == s.active.Keys && |s1.active| == |s.active| && pc1.Idle?
  {
    hide MicroVms.Call;
    var s1 := Quiet(cfg, s, pc, io).0;
    assert s1.active.Keys == s.active.Keys;
    assert |s1.active| == |s1.active.Keys| && |s.active| == |s.active.Keys|;
  }

  lemma TakeTotal(cfg: Config, s: State, pc: Pc, io: Io)
    requires pc.RelTake? || pc.ShutTakeActive?
    ensures var (s1, pc1) := Quiet(cfg, s, pc, io);
      s1.warm == s.warm && |s1.active| + W(Weight, pc1) <= |s.active|
  {
    if pc.RelTake? && pc.id in s.active {
      RemoveOne(s.active, pc.id);
    }
  }

  lemma ActiveTotal(cfg: Config, s: State, pc: Pc, io: Io)
    requires TouchesActive(pc)
    ensures var (s1, pc1) := Quiet(cfg, s, pc, io);
      s1.warm == s.warm && |s1.active| + W(Weight, pc1) <= |s.active| + W(Weight, pc)
  {
    hide Quiet;
    if pc.UseCall? {
      UseTotal(cfg, s, pc, io);
    } else if pc.RelTake? || pc.ShutTakeActive? {
      TakeTotal(cfg, s, pc, io);
    } else {
      InsertTotal(cfg, s, pc, io);
    }
  }

  lemma WarmTotal(cfg: Config, s: State, pc: Pc, io: Io)
    requires TouchesWarm(pc) && !Warming(pc)
    ensures var (s1, pc1) := Quiet(cfg, s, pc, io);
      s1.active == s.active && |s1.warm| + W(Weight, pc1) <= |s.warm| + W(Weight, pc)
  {
    hide MicroVms.Call;
  }

  /** A step raises the total only by letting an acquire start creating, below the limit. */
  predicate Paid(cfg: Config, s: State, pc: Pc, s1: State, pc1: Pc) {
    || |s1.active| + |s1.warm| + W(Weight, pc1) <= |s.active| + |s.warm| + W(Weight, pc)
    || (|s1.active| + |s1.warm| < cfg.maxTotal && W(Weight, pc) == 0)
  }

  lemma OtherTotal(cfg: Config, s: State, pc: Pc, io: Io)
    requires Awaiting(pc) && !TouchesActive(pc) && !TouchesWarm(pc)
    ensures Paid(cfg, s, pc, Quiet(cfg, s, pc, io).0, Quiet(cfg, s, pc, io).1)
  {
    hide MicroVms.Call;
    assert Quiet(cfg, s, pc, io).0.active == s.active && Quiet(cfg, s, pc, io).0.warm == s.warm;
  }

  lemma QuietTotal(cfg: Config, s: State, pc: Pc, io: Io)
    requires Awaiting(pc) && !Warming(pc)
    ensures Paid(cfg, s, pc, Quiet(cfg, s, pc, io).0, Quiet(cfg, s, pc, io).1)
  {
    hide Quiet, W;
    if TouchesActive(pc) {
      ActiveTotal(cfg, s, pc, io);
    } else if TouchesWarm(pc) {
      WarmTotal(cfg, s, pc, io);
    } else {
      OtherTotal(cfg, s, pc, io);
    }
  }

  lemma NoisyTotal(cfg: Config, s: State, pc: Pc, m: Move)
    requires Body(cfg, s, pc, m).Some? && !Warming(pc) && !Awaiting(pc)
    ensures Paid(cfg, s, pc, Body(cfg, s, pc, m).value.0, Body(cfg, s, pc, m).value.1)
  {
    hide Quiet, Clean;
    var (s1, pc1) := Body(cfg, s, pc, m).value;
    assert s1.active == s.active && s1.warm == s.warm && W(Weight, pc1) <= W(Weight, pc);
  }

  lemma BodyTotal(cfg: Config, s: State, pc: Pc, m: Move)
    requires Body(cfg, s, pc, m).Some? && !Warming(pc)
    ensures Paid(cfg, s, pc, Body(cfg, s, pc, m).value.0, Body(cfg, s, pc, m).value.1)
  {
    hide Quiet, Paid, FreshVm;
    if Awaiting(pc) {
      QuietTotal(cfg, s, pc, m.io);
    } else {
      NoisyTotal(cfg, s, pc, m);
    }
  }

  lemma BodyWarming(cfg: Config, s: State, pc: Pc, m: Move)
    requires Body(cfg, s, pc, m).Some? && !Warming(pc) && !(m.Start? && m.op.WarmUp?)
    ensures !Warming(Body(cfg, s, pc, m).value.1)
  {
    hide MicroVms.Call, Clean;
  }

  /** What n allows with k tasks that look before any of them acts: nothing if n is 0, and otherwise n + k - 1. */
  function Limit(n: nat, k: nat): nat {
    if n == 0 then 0 else n + k - 1
  }

  lemma TotalStep(cfg: Config, s: State, t: nat, m: Move)
    requires t < |s.tasks| && NoneWarming(s) && !(m.Start? && m.op.WarmUp?)
    requires Total(s) <= Limit(cfg.maxTotal, |s.tasks|) && Next(cfg, s, t, m).Some?
    ensures var s1 := Next(cfg, s, t, m).value;
      NoneWarming(s1) && |s1.tasks| == |s.tasks| && Total(s1) <= Limit(cfg.maxTotal, |s.tasks|)
  {
    hide Body, W, Sum, Warming, Relock;
    var pc := s.tasks[t];
    var (s2, pc1) := Body(cfg, s, pc, m).value;
    BodyTotal(cfg, s, pc, m);
    BodyWarming(cfg, s, pc, m);
    SumUpdate(Weight, s.tasks, t, pc1);
    SumAtMost(Weight, Weight, s.tasks[t := pc1]);
  }

  lemma {:induction false} TotalRun(cfg: Config, s: State, run: Run)
    requires NoneWarming(s) && NoWarmUp(run) && Exec(cfg, s, run).Some?
    requires Total(s) <= Limit(cfg.maxTotal, |s.tasks|)
    ensures var s1 := Exec(cfg, s, run).value;
      |s1.tasks| == |s.tasks| && Total(s1) <= Limit(cfg.maxTotal, |s.tasks|)
    decreases |run|
  {
    hide Body, NoneWarming, Total;
    if run != [] {
      TotalStep(cfg, s, run[0].0, run[0].1);
      TotalRun(cfg, Next(cfg, s, run[0].0, run[0].1).value, run[1..]);
    }
  }

  /** Bounded overshoot. Without warm_up, K tasks never have more than max_total + K - 1 VMs in care, and none if
      max_total is 0: the check of the limit and the insertion are in different lock scopes, and this is all
      that can go wrong. */
  lemma BoundedOvershoot(cfg: Config, k: nat, run: Run)
    requires NoWarmUp(run) && Exec(cfg, Init(k), run).Some?
    ensures Total(Exec(cfg, Init(k), run).value) <= Limit(cfg.maxTotal, k)
  {
    IdleSum(Weight, k);
    assert Init(k).tasks == seq(k, _ => Idle(Nothing));
    TotalRun(cfg, Init(k), run);
  }

  // ---- the warm pool ----

  /** At most r releases are in flight in every state of the run. */
  predicate ReleasesAtMost(cfg: Config, s: State, run: Run, r: nat)
    decreases |run|
  {
    && Sum(Releasing, s.tasks) <= r
    && (run != [] && run[0].0 < |s.tasks| && Next(cfg, s, run[0].0, run[0].1).Some? ==>
          ReleasesAtMost(cfg, Next(cfg, s, run[0].0, run[0].1).value, run[1..], r))
  }

  lemma BodyWarm(cfg: Config, s: State, pc: Pc, m: Move)
    requires Body(cfg, s, pc, m).Some? && !Warming(pc)
    ensures var (s1, pc1) := Body(cfg, s, pc, m).value;
      || |s1.warm| + W(Passing, pc1) <= |s.warm| + W(Passing, pc)
      || (|s1.warm| < cfg.maxWarm && W(Passing, pc) == 0)
  {
    hide MicroVms.Call, Clean;
  }

  lemma {:induction false} WarmRun(cfg: Config, s: State, run: Run, r: nat)
    requires NoneWarming(s) && NoWarmUp(run) && Exec(cfg, s, run).Some?
    requires ReleasesAtMost(cfg, s, run, r)
    requires |s.warm| + Sum(Passing, s.tasks) <= Limit(cfg.maxWarm, r)
    ensures var s1 := Exec(cfg, s, run).value;
      |s1.warm| + Sum(Passing, s1.tasks) <= Limit(cfg.maxWarm, r)
    decreases |run|
  {
    hide Body, W, Sum, Warming;
    if run != [] {
      var (t, m) := run[0];
      var pc := s.tasks[t];
      var pc1 := Body(cfg, s, pc, m).value.1;
      var s1 := Next(cfg, s, t, m).value;
      BodyWarm(cfg, s, pc, m);
      BodyWarming(cfg, s, pc, m);
      SumUpdate(Passing, s.tasks, t, pc1);
      PassingIsReleasing(s1.tasks);
      WarmRun(cfg, s1, run[1..], r);
    }
  }

  lemma PassingIsReleasing(tasks: seq<Pc>)
    ensures Sum(Passing, tasks) <= Sum(Releasing, tasks) <= |tasks|
  {
    SumAtMost(Passing, Releasing, tasks);
    SumAtMost(Releasing, Releasing, tasks);
  }

  /** Warm-pool bound. Without warm_up, with at most r releases in flight at any time, the warm VMs and those
      about to be pushed never exceed max_warm + r - 1; with releases that do not overlap, max_warm; and with
      max_warm 0 there are none. */
  lemma WarmBound(cfg: Config, k: nat, run: Run, r: nat)
    requires NoWarmUp(run) && Exec(cfg, Init(k), run).Some?
    requires ReleasesAtMost(cfg, Init(k), run, r)
    ensures var s := Exec(cfg, Init(k), run).value;
      |s.warm| + Sum(Passing, s.tasks) <= Limit(cfg.maxWarm, r)
  {
    IdleSum(Passing, k);
    assert Init(k).tasks == seq(k, _ => Idle(Nothing));
    WarmRun(cfg, Init(k), run, r);
  }

  lemma {:induction false} AtMostTasks(cfg: Config, s: State, run: Run, k: nat)
    requires |s.tasks| <= k
    ensures ReleasesAtMost(cfg, s, run, k)
    decreases |run|
  {
    hide Body;
    PassingIsReleasing(s.tasks);
    if run != [] && run[0].0 < |s.tasks| && Next(cfg, s, run[0].0, run[0].1).Some? {
      AtMostTasks(cfg, Next(cfg, s, run[0].0, run[0].1).value, run[1..], k);
    }
  }

  function Smaller(cfg: Config): nat {
    if cfg.maxWarm < cfg.maxTotal then cfg.maxWarm else cfg.maxTotal
  }

  lemma {:induction false} PassingHasWeight(tasks: seq<Pc>)
    ensures Sum(Passing, tasks) <= Sum(Weight, tasks)
  {
    if tasks != [] {
      PassingHasWeight(tasks[1..]);
    }
  }

  /** Both limits together: without warm_up, K tasks keep the warm VMs and those about to be pushed within
      min(max_warm, max_total) + K - 1, and have none if that minimum is 0. */
  lemma WarmWithinBoth(cfg: Config, k: nat, run: Run)
    requires NoWarmUp(run) && Exec(cfg, Init(k), run).Some?
    ensures var s := Exec(cfg, Init(k), run).value;
      |s.warm| + Sum(Passing, s.tasks) <= Limit(Smaller(cfg), k)
  {
    AtMostTasks(cfg, Init(k), run, k);
    WarmBound(cfg, k, run, k);
    BoundedOvershoot(cfg, k, run);
    PassingHasWeight(Exec(cfg, Init(k), run).value.tasks);
  }
}
