/** How many VMs run at once, those included that shutdown_all has drained and not shut down yet. */
module PoolDrain {
  import opened Common
  import opened Protocol
  import opened HostLink
  import opened MicroVms
  import opened Pool
  import opened PoolSafety
  import opened PoolBounds
  import opened PoolRuns

  /** What a task has drained and still has to shut down. */
  function Batch(pc: Pc): nat {
    if pc.ShutActive? then |pc.rest| else if pc.ShutWarm? then |pc.vms| else 0
  }

  predicate Draining(pc: Pc) {
    pc.ShutActive? || pc.ShutWarm?
  }

  function Batches(tasks: seq<Pc>): nat {
    if tasks == [] then 0 else Batch(tasks[0]) + Batches(tasks[1..])
  }

  /** All VMs that run. */
  function Running(s: State): nat {
    Total(s) + Batches(s.tasks)
  }

  /** (n + k - 1) + (n + k - 2) + ..., m terms. */
  function Ladder(n: nat, k: nat, m: nat): nat
    requires m <= k
  {
    if m == 0 then 0 else Ladder(n, k, m - 1) + (n + k - m)
  }

  /** k n + k (k - 1) / 2, for k tasks. */
  lemma {:induction false} LadderSum(n: nat, k: nat, m: nat)
    requires m <= k
    ensures 2 * Ladder(n, k, m) == m * (2 * n + 2 * k - 1 - m)
  {
    if m > 0 {
      LadderSum(n, k, m - 1);
      LadderStep(m, 2 * n + 2 * k);
    }
  }

  lemma LadderStep(m: int, x: int)
    ensures (m - 1) * (x - 1 - (m - 1)) + x - 2 * m == m * (x - 1 - m)
  {
    assert (m - 1) * (x - m) == m * (x - m) - (x - m);
    assert m * (x - 1 - m) == m * (x - m) - m;
  }

  lemma {:induction false} LadderGrows(n: nat, k: nat, a: nat, b: nat)
    requires a <= b <= k
    ensures Ladder(n, k, a) <= Ladder(n, k, b)
  {
    if a < b {
      LadderGrows(n, k, a, b - 1);
    }
  }

  // ---- some of the tasks ----

  /** Which tasks to look at. */
  type Mask = seq<bool>

  function Count(mask: Mask): nat {
    if mask == [] then 0 else (if mask[0] then 1 else 0) + Count(mask[1..])
  }

  function Masked(mask: Mask, tasks: seq<Pc>): nat
    requires |mask| == |tasks|
  {
    if mask == [] then 0 else (if mask[0] then Batch(tasks[0]) else 0) + Masked(mask[1..], tasks[1..])
  }

  lemma {:induction false} MaskedUpdate(mask: Mask, tasks: seq<Pc>, t: nat, pc: Pc)
    requires |mask| == |tasks| && t < |tasks|
    ensures Masked(mask, tasks[t := pc]) ==
      Masked(mask, tasks) + if mask[t] then Batch(pc) - Batch(tasks[t]) else 0
  {
    hide Batch;
    if t == 0 {
      assert tasks[t := pc][1..] == tasks[1..];
    } else {
      assert tasks[t := pc][1..] == tasks[1..][t - 1 := pc];
      MaskedUpdate(mask[1..], tasks[1..], t - 1, pc);
    }
  }

  lemma {:induction false} Unmask(mask: Mask, tasks: seq<Pc>, t: nat)
    requires |mask| == |tasks| && t < |tasks| && mask[t]
    ensures Count(mask[t := false]) == Count(mask) - 1
    ensures Masked(mask[t := false], tasks) == Masked(mask, tasks) - Batch(tasks[t])
  {
    hide Batch;
    if t == 0 {
      assert mask[t := false][1..] == mask[1..];
    } else {
      assert mask[t := false][1..] == mask[1..][t - 1 := false];
      Unmask(mask[1..], tasks[1..], t - 1);
    }
  }

  /** Only the draining tasks of a mask count. */
  function Holders(mask: Mask, tasks: seq<Pc>): (m: Mask)
    requires |mask| == |tasks|
    ensures |m| == |mask|
  {
    if mask == [] then [] else [mask[0] && Draining(tasks[0])] + Holders(mask[1..], tasks[1..])
  }

  lemma {:induction false} HoldersMasked(mask: Mask, tasks: seq<Pc>)
    requires |mask| == |tasks|
    ensures Masked(Holders(mask, tasks), tasks) == Masked(mask, tasks)
    ensures Count(Holders(mask, tasks)) <= Count(mask) <= |mask|
    ensures Count(Holders(mask, tasks)) + Sum(Weight, tasks) <= |tasks|
  {
    if mask != [] {
      assert Holders(mask, tasks)[1..] == Holders(mask[1..], tasks[1..]);
      HoldersMasked(mask[1..], tasks[1..]);
    }
  }

  function All(k: nat): Mask {
    seq(k, _ => true)
  }

  lemma {:induction false} AllMasked(tasks: seq<Pc>)
    ensures Masked(All(|tasks|), tasks) == Batches(tasks) && Count(All(|tasks|)) == |tasks|
  {
    if tasks != [] {
      assert All(|tasks|)[1..] == All(|tasks[1..]|);
      AllMasked(tasks[1..]);
    }
  }

  // ---- the invariant ----

  function Next1(m: nat, k: nat): nat {
    if m < k then m + 1 else k
  }

  /** Any m batches stay within m rungs of the ladder, and with the VMs in care within one rung more. */
  ghost predicate MaskOk(n: nat, s: State, mask: Mask)
    requires |mask| == |s.tasks|
  {
    && Count(mask) <= |mask|
    && Masked(mask, s.tasks) <= Ladder(n, |mask|, Count(mask))
    && Masked(mask, s.tasks) + Total(s) <= Ladder(n, |mask|, Next1(Count(mask), |mask|))
  }

  ghost predicate Laddered(n: nat, s: State) {
    forall mask: Mask :: |mask| == |s.tasks| ==> MaskOk(n, s, mask)
  }

  function Care(s: State): nat {
    |s.active| + |s.warm|
  }

  /** How a step changes what is drained and what is in care: it lowers both, or drains, or starts a creation. */
  predicate Moves(n: nat, s: State, pc: Pc, s1: State, pc1: Pc) {
    || (Batch(pc1) <= Batch(pc) && Care(s1) + W(Weight, pc1) <= Care(s) + W(Weight, pc))
    || (Batch(pc) == 0 && Batch(pc1) + Care(s1) + W(Weight, pc1) <= Care(s) + W(Weight, pc))
    || (Batch(pc) == 0 && Batch(pc1) == 0 && Care(s1) < n && W(Weight, pc1) >= 1)
  }

  lemma QuietBatch(cfg: Config, s: State, pc: Pc, io: Io)
    requires Awaiting(pc)
    ensures pc.ShutTakeActive? || pc.ShutTakeWarm? || Batch(Quiet(cfg, s, pc, io).1) <= Batch(pc)
  {
    hide MicroVms.Call;
  }

  lemma KillBatch(cfg: Config, s: State, pc: Pc, m: Move)
    requires pc.ShutActive? && Body(cfg, s, pc, m).Some?
    ensures Batch(Body(cfg, s, pc, m).value.1) <= Batch(pc)
  {
    hide Quiet, FreshVm;
    if m.Kill? {
      RemoveOne(pc.rest, m.id);
    }
  }

  lemma NoisyBatch(cfg: Config, s: State, pc: Pc, m: Move)
    requires !Awaiting(pc) && !pc.ShutActive? && Body(cfg, s, pc, m).Some?
    ensures Batch(Body(cfg, s, pc, m).value.1) == 0
  {
    hide Quiet, FreshVm;
  }

  lemma BodyBatch(cfg: Config, s: State, pc: Pc, m: Move)
    requires Body(cfg, s, pc, m).Some?
    ensures pc.ShutTakeActive? || pc.ShutTakeWarm? || Batch(Body(cfg, s, pc, m).value.1) <= Batch(pc)
  {
    hide Quiet, FreshVm, Batch;
    if Awaiting(pc) {
      QuietBatch(cfg, s, pc, m.io);
    } else if pc.ShutActive? {
      KillBatch(cfg, s, pc, m);
    } else {
      NoisyBatch(cfg, s, pc, m);
    }
  }

  lemma QuietNoGain(cfg: Config, s: State, pc: Pc, io: Io)
    requires Awaiting(pc) && !Warming(pc) && W(Weight, pc) == 0
    ensures Care(Quiet(cfg, s, pc, io).0) <= Care(s)
  {
    hide Quiet;
    if TouchesActive(pc) {
      ActiveTotal(cfg, s, pc, io);
    } else if TouchesWarm(pc) {
      WarmTotal(cfg, s, pc, io);
    } else {
      OtherStores(cfg, s, pc, io);
    }
  }

  lemma OtherStores(cfg: Config, s: State, pc: Pc, io: Io)
    requires Awaiting(pc) && !TouchesActive(pc) && !TouchesWarm(pc)
    ensures Quiet(cfg, s, pc, io).0.active == s.active && Quiet(cfg, s, pc, io).0.warm == s.warm
  {
    hide MicroVms.Call;
  }

  /** Only a task that has a VM in its hands puts one into a container. */
  lemma NoGain(cfg: Config, s: State, pc: Pc, m: Move)
    requires Body(cfg, s, pc, m).Some? && !Warming(pc) && W(Weight, pc) == 0
    ensures Care(Body(cfg, s, pc, m).value.0) <= Care(s)
  {
    hide Quiet, FreshVm;
    if Awaiting(pc) {
      QuietNoGain(cfg, s, pc, m.io);
    }
  }

  lemma BodyDrainMoves(cfg: Config, s: State, pc: Pc, m: Move)
    requires Body(cfg, s, pc, m).Some? && !Warming(pc)
    ensures var (s1, pc1) := Body(cfg, s, pc, m).value; Moves(cfg.maxTotal, s, pc, s1, pc1)
  {
    hide Quiet, FreshVm, W, Batch;
    BodyBatch(cfg, s, pc, m);
    if pc.ShutTakeActive? || pc.ShutTakeWarm? {
      DrainMoves(cfg, s, pc, m);
    } else {
      BodyTotal(cfg, s, pc, m);
      if Batch(pc) > 0 {
        DrainingNeverCreates(cfg, s, pc, m);
      }
      if W(Weight, pc) == 0 {
        NoGain(cfg, s, pc, m);
      }
    }
  }

  lemma DrainMoves(cfg: Config, s: State, pc: Pc, m: Move)
    requires Body(cfg, s, pc, m).Some? && (pc.ShutTakeActive? || pc.ShutTakeWarm?)
    ensures var (s1, pc1) := Body(cfg, s, pc, m).value; Moves(cfg.maxTotal, s, pc, s1, pc1)
  {
  }

  lemma DrainingNeverCreates(cfg: Config, s: State, pc: Pc, m: Move)
    requires Body(cfg, s, pc, m).Some? && Batch(pc) > 0
    ensures var (s1, pc1) := Body(cfg, s, pc, m).value;
      Care(s1) + W(Weight, pc1) <= Care(s) + W(Weight, pc)
  {
    hide FreshVm, Clean, MicroVms.Call;
    if pc.ShutWarm? {
      assert Body(cfg, s, pc, m).value == Quiet(cfg, s, pc, m.io);
    }
  }

  lemma MaskStep(n: nat, s: State, s1: State, t: nat, pc1: Pc, mask: Mask)
    requires t < |s.tasks| && |mask| == |s.tasks| && Laddered(n, s)
    requires s1.tasks == s.tasks[t := pc1] && Moves(n, s, s.tasks[t], s1, pc1)
    ensures MaskOk(n, s1, mask)
  {
    hide W, Batch, Sum, Masked, Count, Ladder;
    var pc, k := s.tasks[t], |mask|;
    assert MaskOk(n, s, mask);
    SumUpdate(Weight, s.tasks, t, pc1);
    MaskedUpdate(mask, s.tasks, t, pc1);
    if Batch(pc1) <= Batch(pc) && Care(s1) + W(Weight, pc1) <= Care(s) + W(Weight, pc) {
    } else if Batch(pc) == 0 && Batch(pc1) + Care(s1) + W(Weight, pc1) <= Care(s) + W(Weight, pc) {
      if mask[t] {
        Unmask(mask, s.tasks, t);
        assert MaskOk(n, s, mask[t := false]);
        LadderGrows(n, k, Count(mask), Next1(Count(mask), k));
      }
    } else {
      Created(n, s, s1, t, pc1, mask);
    }
  }

  /** After a creation has started: the VMs in care are within the limit and the tasks that do not drain. */
  lemma Created(n: nat, s: State, s1: State, t: nat, pc1: Pc, mask: Mask)
    requires t < |s.tasks| && |mask| == |s.tasks| && Laddered(n, s)
    requires s1.tasks == s.tasks[t := pc1] && Batch(s.tasks[t]) == 0 == Batch(pc1)
    requires Care(s1) < n && W(Weight, pc1) >= 1
    ensures MaskOk(n, s1, mask)
  {
    hide W, Batch, Sum, Masked, Count;
    var k := |mask|;
    var held := Holders(mask, s1.tasks);
    HoldersMasked(mask, s1.tasks);
    MaskedUpdate(mask, s.tasks, t, pc1);
    MaskedUpdate(held, s.tasks, t, pc1);
    assert MaskOk(n, s, mask) && MaskOk(n, s, held);
    var h := Count(held);
    SumUpdate(Weight, s1.tasks, t, pc1);
    LadderGrows(n, k, Next1(h, k), Next1(Count(mask), k));
    assert Total(s1) <= n - 1 + (k - h);
  }

  lemma LadderedStep(cfg: Config, s: State, t: nat, m: Move)
    requires t < |s.tasks| && Laddered(cfg.maxTotal, s) && NoneWarming(s)
    requires Next(cfg, s, t, m).Some?
    ensures Laddered(cfg.maxTotal, Next(cfg, s, t, m).value)
  {
    hide Body, Relock, MaskOk, Warming, Moves;
    var (s2, pc1) := Body(cfg, s, s.tasks[t], m).value;
    var s1 := Next(cfg, s, t, m).value;
    BodyDrainMoves(cfg, s, s.tasks[t], m);
    SameMoves(cfg.maxTotal, s, s.tasks[t], s2, s1, pc1);
    forall mask: Mask | |mask| == |s1.tasks| ensures MaskOk(cfg.maxTotal, s1, mask) {
      MaskStep(cfg.maxTotal, s, s1, t, pc1, mask);
    }
  }

  lemma SameMoves(n: nat, s: State, pc: Pc, s1: State, s2: State, pc1: Pc)
    requires Moves(n, s, pc, s1, pc1) && s1.active == s2.active && s1.warm == s2.warm
    ensures Moves(n, s, pc, s2, pc1)
  {
  }

  lemma WarmingStep(cfg: Config, s: State, t: nat, m: Move)
    requires t < |s.tasks| && NoneWarming(s) && !(m.Start? && m.op.WarmUp?) && Next(cfg, s, t, m).Some?
    ensures NoneWarming(Next(cfg, s, t, m).value) && |Next(cfg, s, t, m).value.tasks| == |s.tasks|
  {
    hide Body, Relock, Warming;
    BodyWarming(cfg, s, s.tasks[t], m);
  }

  lemma {:induction false} LadderedRun(cfg: Config, s: State, run: Run)
    requires Laddered(cfg.maxTotal, s) && NoneWarming(s) && NoWarmUp(run)
    requires Exec(cfg, s, run).Some?
    ensures Laddered(cfg.maxTotal, Exec(cfg, s, run).value) && |Exec(cfg, s, run).value.tasks| == |s.tasks|
    decreases |run|
  {
    hide Next, Laddered, NoneWarming;
    if run != [] {
      LadderedStep(cfg, s, run[0].0, run[0].1);
      WarmingStep(cfg, s, run[0].0, run[0].1);
      LadderedRun(cfg, Next(cfg, s, run[0].0, run[0].1).value, run[1..]);
    }
  }

  lemma {:induction false} IdleMasked(mask: Mask, tasks: seq<Pc>)
    requires |mask| == |tasks| && forall t :: 0 <= t < |tasks| ==> tasks[t].Idle?
    ensures Masked(mask, tasks) == 0 && Count(mask) <= |mask|
  {
    if mask != [] {
      IdleMasked(mask[1..], tasks[1..]);
    }
  }

  lemma LadderedInit(cfg: Config, k: nat)
    ensures Laddered(cfg.maxTotal, Init(k))
  {
    forall mask: Mask | |mask| == k ensures MaskOk(cfg.maxTotal, Init(k), mask) {
      IdleMasked(mask, Init(k).tasks);
      IdleSum(Weight, k);
      assert Init(k).tasks == seq(k, _ => Idle(Nothing));
    }
  }

  lemma {:induction false} BatchesUpdate(tasks: seq<Pc>, t: nat, pc: Pc)
    requires t < |tasks|
    ensures Batches(tasks[t := pc]) == Batches(tasks) - Batch(tasks[t]) + Batch(pc)
    ensures Batch(tasks[t]) <= Batches(tasks)
  {
    hide Batch;
    if t == 0 {
      assert tasks[t := pc][1..] == tasks[1..];
    } else {
      assert tasks[t := pc][1..] == tasks[1..][t - 1 := pc];
      BatchesUpdate(tasks[1..], t - 1, pc);
    }
  }

  lemma NothingStep(cfg: Config, s: State, t: nat, m: Move)
    requires cfg.maxTotal == 0 && t < |s.tasks| && NoneWarming(s) && Running(s) == 0 && Next(cfg, s, t, m).Some?
    ensures Running(Next(cfg, s, t, m).value) == 0
  {
    hide Body, Relock, W, Sum, Batch, Batches, Warming;
    var (s2, pc1) := Body(cfg, s, s.tasks[t], m).value;
    BodyDrainMoves(cfg, s, s.tasks[t], m);
    SumUpdate(Weight, s.tasks, t, pc1);
    BatchesUpdate(s.tasks, t, pc1);
  }

  lemma {:induction false} NothingRun(cfg: Config, s: State, run: Run)
    requires cfg.maxTotal == 0 && NoneWarming(s) && Running(s) == 0 && NoWarmUp(run) && Exec(cfg, s, run).Some?
    ensures Running(Exec(cfg, s, run).value) == 0
    decreases |run|
  {
    hide Next, Running, NoneWarming;
    if run != [] {
      NothingStep(cfg, s, run[0].0, run[0].1);
      WarmingStep(cfg, s, run[0].0, run[0].1);
      NothingRun(cfg, Next(cfg, s, run[0].0, run[0].1).value, run[1..]);
    }
  }

  lemma {:induction false} IdleBatches(tasks: seq<Pc>)
    requires forall t :: 0 <= t < |tasks| ==> tasks[t].Idle?
    ensures Batches(tasks) == 0
  {
    if tasks != [] {
      IdleBatches(tasks[1..]);
    }
  }

  lemma NothingAtFirst(k: nat)
    ensures Running(Init(k)) == 0 && NoneWarming(Init(k))
  {
    IdleBatches(Init(k).tasks);
    IdleSum(Weight, k);
    assert Init(k).tasks == seq(k, _ => Idle(Nothing));
  }

  /** Without warm_up, and with shutdown_all at any time, K tasks never have more than K max_total + K (K - 1) / 2
      VMs running: each task may be shutting down a batch that it drained, and all others fill up again. With
      max_total 0 nothing runs. */
  lemma RunningBound(cfg: Config, k: nat, run: Run)
    requires NoWarmUp(run) && Exec(cfg, Init(k), run).Some?
    ensures 2 * Running(Exec(cfg, Init(k), run).value) <=
      if cfg.maxTotal == 0 then 0 else k * (2 * cfg.maxTotal + k - 1)
  {
    hide Exec, NoWarmUp, Total, Batches, MaskOk, Running;
    if cfg.maxTotal == 0 {
      NothingAtFirst(k);
      NothingRun(cfg, Init(k), run);
    } else {
      LadderBound(cfg, k, run);
    }
  }

  lemma LadderBound(cfg: Config, k: nat, run: Run)
    requires NoWarmUp(run) && Exec(cfg, Init(k), run).Some?
    ensures 2 * Running(Exec(cfg, Init(k), run).value) <= k * (2 * cfg.maxTotal + k - 1)
  {
    hide Exec, NoWarmUp, Total, Batches, MaskOk;
    var s := Exec(cfg, Init(k), run).value;
    LadderedInit(cfg, k);
    LadderedRun(cfg, Init(k), run);
    AllMasked(s.tasks);
    assert MaskOk(cfg.maxTotal, s, All(k));
    AllOk(cfg.maxTotal, s, All(k));
    LadderSum(cfg.maxTotal, k, k);
  }

  lemma AllOk(n: nat, s: State, mask: Mask)
    requires |mask| == |s.tasks| && Count(mask) == |mask| && MaskOk(n, s, mask)
    ensures Masked(mask, s.tasks) + Total(s) <= Ladder(n, |mask|, |mask|)
  {
  }

  // ---- a run that reaches the bound ----

  /** No lock taken, none warm, `size` active; ids from n on are unused. */
  ghost predicate Stage(g: State, k: nat, size: nat, n: nat) {
    && g.locks == map[] && g.warm == [] && |g.tasks| == k && |g.active| == size
    && (forall id :: id in g.created ==> id < n)
    && g.active.Keys <= g.created
  }

  lemma StageGrows(g: State, k: nat, size: nat, n: nat, t: nat, pc: Pc)
    requires Stage(g, k, size, n) && t < k
    ensures Stage(g.(tasks := g.tasks[t := pc]), k, size, n)
    ensures var filed := g.(active := g.active[n := BlankVm(n)], created := g.created + {n});
      Stage(At(filed, t, pc, map[]), k, size + 1, n + 1)
  {
    PutOne(g.active, n, BlankVm(n));
  }

  lemma Finish(cfg: Config, k: nat, run: Run, g: State, t: nat, size: nat, n: nat) returns (more: Run, g1: State)
    requires Stage(g, k, size, n) && t < k && g.tasks[t].AcqBoot? && NoWarmUp(run) && Exec(cfg, Init(k), run) == Some(g)
    ensures NoWarmUp(more) && Exec(cfg, Init(k), more) == Some(g1)
    ensures Stage(g1, k, size + 1, n + 1) && g1.tasks == g.tasks[t := Idle(Acquired(n))]
  {
    hide Exec, NoWarmUp, Clean;
    BlankIsClean();
    assert g == At(g, t, AcqBoot, map[]);
    more := FinishBoot(cfg, Init(k), run, g, t, BlankVm(n));
    g1 := At(g.(active := g.active[n := BlankVm(n)], created := g.created + {n}), t, Idle(Acquired(n)), map[]);
    StageGrows(g, k, size, n, t, Idle(Acquired(n)));
  }

  lemma Pass(cfg: Config, k: nat, run: Run, g: State, t: nat, size: nat, n: nat) returns (more: Run, g1: State)
    requires Stage(g, k, size, n) && t < k && g.tasks[t].Idle? && size < cfg.maxTotal
    requires NoWarmUp(run) && Exec(cfg, Init(k), run) == Some(g)
    ensures NoWarmUp(more) && Exec(cfg, Init(k), more) == Some(g1)
    ensures Stage(g1, k, size, n) && g1.tasks == g.tasks[t := AcqBoot]
  {
    hide Exec, NoWarmUp;
    more := PassCheck(cfg, Init(k), run, g, t);
    g1 := g.(tasks := g.tasks[t := AcqBoot]);
    assert g1 == At(g, t, AcqBoot, map[]);
    StageGrows(g, k, size, n, t, AcqBoot);
  }

  /** The tasks before j stand where they stood. */
  ghost predicate Kept(g: State, g1: State, j: nat) {
    |g.tasks| == |g1.tasks| && forall u :: 0 <= u < |g.tasks| && u < j ==> g1.tasks[u] == g.tasks[u]
  }

  predicate IdleFrom(g: State, j: nat) {
    forall u :: 0 <= u < |g.tasks| && j <= u ==> g.tasks[u].Idle?
  }

  /** Task j fills the pool up to one VM less than allowed. */
  lemma FillAgain(cfg: Config, k: nat, run: Run, g: State, j: nat, n: nat) returns (more: Run, g1: State)
    requires Stage(g, k, 0, n) && j < k && IdleFrom(g, j) && cfg.maxTotal >= 1
    requires NoWarmUp(run) && Exec(cfg, Init(k), run) == Some(g)
    ensures NoWarmUp(more) && Exec(cfg, Init(k), more) == Some(g1)
    ensures Stage(g1, k, cfg.maxTotal - 1, n + cfg.maxTotal - 1) && Kept(g, g1, j) && IdleFrom(g1, j)
  {
    hide Exec, NoWarmUp, Stage;
    StageTasks(g, k, 0, n);
    more, g1 := run, g;
    for i := 0 to cfg.maxTotal - 1
      invariant NoWarmUp(more) && Exec(cfg, Init(k), more) == Some(g1) && |g1.tasks| == k
      invariant Stage(g1, k, i, n + i) && Kept(g, g1, j) && IdleFrom(g1, j)
    {
      more, g1 := Pass(cfg, k, more, g1, j, i, n + i);
      more, g1 := Finish(cfg, k, more, g1, j, i, n + i);
    }
  }

  lemma StageTasks(g: State, k: nat, size: nat, n: nat)
    requires Stage(g, k, size, n)
    ensures |g.tasks| == k
  {
  }

  /** All tasks from j on pass the check, and then all of them create. */
  lemma OvershootAgain(cfg: Config, k: nat, run: Run, g: State, j: nat, n: nat) returns (more: Run, g1: State)
    requires cfg.maxTotal >= 1 && Stage(g, k, cfg.maxTotal - 1, n) && j < k && IdleFrom(g, j)
    requires NoWarmUp(run) && Exec(cfg, Init(k), run) == Some(g)
    ensures NoWarmUp(more) && Exec(cfg, Init(k), more) == Some(g1)
    ensures Stage(g1, k, cfg.maxTotal - 1 + (k - j), n + (k - j)) && Kept(g, g1, j) && IdleFrom(g1, j)
  {
    hide Exec, NoWarmUp, Stage;
    StageTasks(g, k, cfg.maxTotal - 1, n);
    more, g1 := run, g;
    for t := j to k
      invariant NoWarmUp(more) && Exec(cfg, Init(k), more) == Some(g1) && Kept(g, g1, j)
      invariant Stage(g1, k, cfg.maxTotal - 1, n)
      invariant forall u :: j <= u < k ==> if u < t then g1.tasks[u].AcqBoot? else g1.tasks[u].Idle?
    {
      more, g1 := Pass(cfg, k, more, g1, t, cfg.maxTotal - 1, n);
    }
    for t := j to k
      invariant NoWarmUp(more) && Exec(cfg, Init(k), more) == Some(g1) && Kept(g, g1, j)
      invariant Stage(g1, k, cfg.maxTotal - 1 + (t - j), n + (t - j))
      invariant forall u :: j <= u < k ==> if u < t then g1.tasks[u].Idle? else g1.tasks[u].AcqBoot?
    {
      more, g1 := Finish(cfg, k, more, g1, t, cfg.maxTotal - 1 + (t - j), n + (t - j));
    }
  }

  /** Task j drains what is active. */
  lemma Drain(cfg: Config, k: nat, run: Run, g: State, j: nat, size: nat, n: nat) returns (more: Run, g1: State)
    requires Stage(g, k, size, n) && j < k && g.tasks[j].Idle? && NoWarmUp(run) && Exec(cfg, Init(k), run) == Some(g)
    ensures NoWarmUp(more) && Exec(cfg, Init(k), more) == Some(g1)
    ensures Stage(g1, k, 0, n) && g1.tasks == g.tasks[j := ShutActive(g.active)]
  {
    hide Exec, NoWarmUp, Next;
    assert g == At(g, j, g.tasks[j], map[]);
    StepAlone(cfg, g, j, g.tasks[j], map[], Start(ShutdownAll), g, ShutTakeActive, map[]);
    more := Hop(cfg, Init(k), run, g, j, Start(ShutdownAll), At(g, j, ShutTakeActive, map[]));
    var h := g.(active := map[]);
    StepAlone(cfg, g, j, ShutTakeActive, map[], Go(Fine), At(h, j, ShutTakeActive, map[]), ShutActive(g.active), map[]);
    g1 := At(h, j, ShutActive(g.active), map[]);
    more := Hop(cfg, Init(k), more, At(g, j, ShutTakeActive, map[]), j, Go(Fine), g1);
  }

  predicate Rungs(cfg: Config, g: State, j: nat) {
    |g.tasks| >= j && forall u :: 0 <= u < j ==> Batch(g.tasks[u]) == cfg.maxTotal + |g.tasks| - 1 - u
  }

  lemma {:induction false} RungsSum(cfg: Config, tasks: seq<Pc>, j: nat)
    requires j <= |tasks| && forall u :: 0 <= u < j ==> Batch(tasks[u]) == cfg.maxTotal + |tasks| - 1 - u
    ensures Batches(tasks[..j]) == Ladder(cfg.maxTotal, |tasks|, j)
  {
    hide Batch;
    if j > 0 {
      RungsSum(cfg, tasks, j - 1);
      assert tasks[..j] == tasks[..j - 1] + [tasks[j - 1]];
      BatchesSnoc(tasks[..j - 1], tasks[j - 1]);
    }
  }

  lemma {:induction false} BatchesSnoc(tasks: seq<Pc>, pc: Pc)
    ensures Batches(tasks + [pc]) == Batches(tasks) + Batch(pc)
  {
    hide Batch;
    if tasks == [] {
      assert tasks + [pc] == [pc];
    } else {
      assert (tasks + [pc])[1..] == tasks[1..] + [pc];
      BatchesSnoc(tasks[1..], pc);
    }
  }

  /** One round: the tasks from j on fill up again as far as they can, and task j drains it all. */
  lemma Round(cfg: Config, k: nat, run: Run, g: State, j: nat, n: nat) returns (more: Run, g1: State, n1: nat)
    requires Stage(g, k, 0, n) && j < k && IdleFrom(g, j) && cfg.maxTotal >= 1 && Rungs(cfg, g, j)
    requires NoWarmUp(run) && Exec(cfg, Init(k), run) == Some(g)
    ensures NoWarmUp(more) && Exec(cfg, Init(k), more) == Some(g1)
    ensures Stage(g1, k, 0, n1) && IdleFrom(g1, j + 1) && Rungs(cfg, g1, j + 1)
  {
    hide Exec, NoWarmUp;
    more, g1 := FillAgain(cfg, k, run, g, j, n);
    n1 := n + cfg.maxTotal - 1;
    more, g1 := OvershootAgain(cfg, k, more, g1, j, n1);
    n1 := n1 + (k - j);
    more, g1 := Drain(cfg, k, more, g1, j, cfg.maxTotal - 1 + (k - j), n1);
  }

  /** The bound is reached: task after task drains all that the remaining ones can fill. */
  lemma RunningReached(cfg: Config, k: nat) returns (run: Run)
    requires cfg.maxTotal >= 1
    ensures NoWarmUp(run) && Exec(cfg, Init(k), run).Some?
    ensures 2 * Running(Exec(cfg, Init(k), run).value) == k * (2 * cfg.maxTotal + k - 1)
  {
    hide Exec, NoWarmUp;
    var g, n := Init(k), 0;
    run := NoSteps(cfg, k);
    for j := 0 to k
      invariant NoWarmUp(run) && Exec(cfg, Init(k), run) == Some(g)
      invariant Stage(g, k, 0, n) && IdleFrom(g, j) && Rungs(cfg, g, j)
    {
      run, g, n := Round(cfg, k, run, g, j, n);
    }
    assert g.tasks[..k] == g.tasks;
    RungsSum(cfg, g.tasks, k);
    LadderSum(cfg.maxTotal, k, k);
    RunningBound(cfg, k, run);
  }

  lemma NoSteps(cfg: Config, k: nat) returns (run: Run)
    ensures run == [] && NoWarmUp(run) && Exec(cfg, Init(k), run) == Some(Init(k))
  {
    run := [];
  }
}
