/** Runs of the pool that reach the bounds of PoolBounds, built step by step. */
module PoolRuns {
  import opened Common
  import opened Protocol
  import opened GuestLoader
  import opened GuestAgent
  import opened HostLink
  import opened MicroVms
  import opened Pool
  import opened PoolSafety
  import opened PoolBounds

  /** A VM that has just booted, inside which nothing ever answers. */
  function Blank(): Session {
    Session(map[], Link(NewGuest(_ => Kernel(None, false, false, "", 0, {})), [], [], true))
  }

  lemma BlankIsClean()
    ensures Clean(Blank())
  {
  }

  function BlankVm(id: nat): Vm {
    Vm(id, Blank())
  }

  /** VMs number 0 to n - 1, as an active map and as a warm pool. */
  function Fleet(n: nat): map<nat, Vm> {
    if n == 0 then map[] else Fleet(n - 1)[n - 1 := BlankVm(n - 1)]
  }

  function Row(n: nat): seq<Vm> {
    if n == 0 then [] else Row(n - 1) + [BlankVm(n - 1)]
  }

  lemma {:induction false} FleetSize(n: nat)
    ensures |Fleet(n)| == |Row(n)| == n
    ensures forall i :: i in Fleet(n) <==> 0 <= i < n
  {
    if n > 0 {
      FleetSize(n - 1);
      PutOne(Fleet(n - 1), n - 1, BlankVm(n - 1));
    }
  }

  /** n active VMs, none warm, no lock taken. */
  function Grown(n: nat, tasks: seq<Pc>): State {
    State(Fleet(n), [], tasks, map[], Fleet(n).Keys, {})
  }

  /** Extending a run by one step. */
  lemma Hop(cfg: Config, s: State, run: Run, from: State, t: nat, m: Move, to: State) returns (more: Run)
    requires Exec(cfg, s, run) == Some(from) && t < |from.tasks| && Next(cfg, from, t, m) == Some(to)
    ensures Exec(cfg, s, more) == Some(to)
    ensures NoWarmUp(run) && !(m.Start? && m.op.WarmUp?) ==> NoWarmUp(more)
  {
    hide Next;
    more := run + [(t, m)];
    assert [(t, m)][1..] == [];
    assert Exec(cfg, from, [(t, m)]) == Some(to);
    ExecConcat(cfg, s, run, [(t, m)]);
  }

  /** The state in which nothing but task t's position and the locks differs. */
  function At(s: State, t: nat, pc: Pc, locks: map<Lock, nat>): State
    requires t < |s.tasks|
  {
    s.(tasks := s.tasks[t := pc], locks := locks)
  }

  /** How the locks come out of a step of task t, when no other task holds any. */
  lemma RelockAlone(cfg: Config, locks: map<Lock, nat>, t: nat, pc: Pc)
    requires forall l :: l in locks ==> locks[l] == t
    ensures Relock(cfg, locks, t, pc) == map l | l in Owns(cfg, pc) :: t
  {
    hide Owns;
  }

  /** An unblocked step of a task, when no other task holds any lock. */
  lemma StepAlone(cfg: Config, s: State, t: nat, pc: Pc, locks: map<Lock, nat>, m: Move,
        s1: State, pc1: Pc, locks1: map<Lock, nat>)
    requires t < |s.tasks| && Body(cfg, At(s, t, pc, locks), pc, m) == Some((s1, pc1))
    requires forall l :: l in locks ==> locks[l] == t
    requires Wants(cfg, pc).None? || Wants(cfg, pc).value !in locks
    requires locks1 == map l | l in Owns(cfg, pc1) :: t
    ensures Next(cfg, At(s, t, pc, locks), t, m) == Some(s1.(tasks := s.tasks[t := pc1], locks := locks1))
  {
    hide Body, Owns, Wants, Relock;
    RelockAlone(cfg, locks, t, pc1);
    assert s.tasks[t := pc][t := pc1] == s.tasks[t := pc1];
  }

  /** With fewer VMs than the limit and none warm, an idle task gets as far as creating a VM. */
  lemma PassCheck(cfg: Config, s: State, run: Run, g: State, t: nat) returns (more: Run)
    requires Exec(cfg, s, run) == Some(g) && NoWarmUp(run) && g.locks == map[] && g.warm == []
    requires t < |g.tasks| && g.tasks[t].Idle? && |g.active| < cfg.maxTotal
    ensures Exec(cfg, s, more) == Some(At(g, t, AcqBoot, map[])) && NoWarmUp(more)
  {
    hide Exec, NoWarmUp, Next;
    assert g == At(g, t, g.tasks[t], map[]);
    StepAlone(cfg, g, t, g.tasks[t], map[], Start(Acquire), g, AcqPop, map[]);
    more := Hop(cfg, s, run, g, t, Start(Acquire), At(g, t, AcqPop, map[]));
    more := PopEmpty(cfg, s, more, g, t);
    more := CheckBoth(cfg, s, more, g, t);
  }

  lemma PopEmpty(cfg: Config, s: State, run: Run, g: State, t: nat) returns (more: Run)
    requires t < |g.tasks| && g.warm == [] && NoWarmUp(run) && Exec(cfg, s, run) == Some(At(g, t, AcqPop, map[]))
    ensures Exec(cfg, s, more) == Some(At(g, t, AcqCheck1, map[])) && NoWarmUp(more)
  {
    hide Exec, NoWarmUp, Next;
    StepAlone(cfg, g, t, AcqPop, map[], Go(Fine), At(g, t, AcqPop, map[]), AcqCheck1, map[]);
    more := Hop(cfg, s, run, At(g, t, AcqPop, map[]), t, Go(Fine), At(g, t, AcqCheck1, map[]));
  }

  lemma CheckBoth(cfg: Config, s: State, run: Run, g: State, t: nat) returns (more: Run)
    requires t < |g.tasks| && NoWarmUp(run) && Exec(cfg, s, run) == Some(At(g, t, AcqCheck1, map[]))
    requires |g.active| + |g.warm| < cfg.maxTotal
    ensures Exec(cfg, s, more) == Some(At(g, t, AcqBoot, map[])) && NoWarmUp(more)
  {
    hide Exec, NoWarmUp, Next;
    var held := map[First(cfg) := t];
    StepAlone(cfg, g, t, AcqCheck1, map[], Go(Fine), At(g, t, AcqCheck1, map[]), AcqCheck2, held);
    more := Hop(cfg, s, run, At(g, t, AcqCheck1, map[]), t, Go(Fine), At(g, t, AcqCheck2, held));
    StepAlone(cfg, g, t, AcqCheck2, held, Go(Fine), At(g, t, AcqCheck2, held), AcqBoot, map[]);
    more := Hop(cfg, s, more, At(g, t, AcqCheck2, held), t, Go(Fine), At(g, t, AcqBoot, map[]));
  }

  /** A task that is creating a VM succeeds and hands it out. */
  lemma FinishBoot(cfg: Config, s: State, run: Run, g: State, t: nat, vm: Vm) returns (more: Run)
    requires t < |g.tasks| && FreshVm(g, vm) && NoWarmUp(run)
    requires Exec(cfg, s, run) == Some(At(g, t, AcqBoot, map[]))
    ensures NoWarmUp(more) && Exec(cfg, s, more) == Some(
      At(g.(active := g.active[vm.id := vm], created := g.created + {vm.id}), t, Idle(Acquired(vm.id)), map[]))
  {
    hide Exec, NoWarmUp, Next, Clean;
    var born := g.(created := g.created + {vm.id});
    var a, b := At(g, t, AcqBoot, map[]), At(born, t, AcqInsert(vm), map[]);
    StepAlone(cfg, g, t, AcqBoot, map[], Boot(Some(vm)), a.(created := born.created), AcqInsert(vm), map[]);
    more := Hop(cfg, s, run, a, t, Boot(Some(vm)), b);
    var filed := born.(active := g.active[vm.id := vm]);
    var last := Idle(Acquired(vm.id));
    StepAlone(cfg, born, t, AcqInsert(vm), map[], Go(Fine), b.(active := filed.active), last, map[]);
    more := Hop(cfg, s, more, b, t, Go(Fine), At(filed, t, last, map[]));
  }

  /** The n-th VM of the fleet. */
  lemma FinishNth(cfg: Config, s: State, run: Run, n: nat, tasks: seq<Pc>, t: nat) returns (more: Run)
    requires t < |tasks| && tasks[t].AcqBoot? && NoWarmUp(run) && Exec(cfg, s, run) == Some(Grown(n, tasks))
    ensures NoWarmUp(more) && Exec(cfg, s, more) == Some(Grown(n + 1, tasks[t := Idle(Acquired(n))]))
  {
    hide Exec, NoWarmUp;
    FleetSize(n);
    var g := Grown(n, tasks);
    assert g == At(g, t, AcqBoot, map[]);
    more := FinishBoot(cfg, s, run, g, t, BlankVm(n));
    assert Fleet(n + 1).Keys == Fleet(n).Keys + {n};
  }

  lemma InitIsGrown(k: nat)
    ensures Init(k) == Grown(0, Init(k).tasks)
  {
    assert Fleet(0).Keys == {};
  }

  /** Task 0 acquires n VMs one after the other. */
  lemma {:induction false} FillUp(cfg: Config, k: nat, n: nat) returns (run: Run, tasks: seq<Pc>)
    requires k >= 1 && n <= cfg.maxTotal
    ensures Exec(cfg, Init(k), run) == Some(Grown(n, tasks)) && NoWarmUp(run)
    ensures |tasks| == k && forall t :: 0 <= t < k ==> tasks[t].Idle?
  {
    hide Next, Fleet;
    if n == 0 {
      run, tasks := [], Init(k).tasks;
      InitIsGrown(k);
    } else {
      run, tasks := FillUp(cfg, k, n - 1);
      FleetSize(n - 1);
      run := PassCheck(cfg, Init(k), run, Grown(n - 1, tasks), 0);
      run := FinishNth(cfg, Init(k), run, n - 1, tasks[0 := AcqBoot], 0);
      tasks := tasks[0 := AcqBoot][0 := Idle(Acquired(n - 1))];
    }
  }

  /** All tasks pass the check before any of them creates its VM; then all of them create one. */
  lemma Overshoot(cfg: Config, k: nat) returns (run: Run, tasks: seq<Pc>)
    requires k >= 1 && cfg.maxTotal >= 1
    ensures NoWarmUp(run) && Exec(cfg, Init(k), run) == Some(Grown(cfg.maxTotal + k - 1, tasks))
    ensures |tasks| == k && forall t :: 0 <= t < k ==> tasks[t].Idle?
  {
    hide Exec, NoWarmUp, Fleet, Next;
    var n := cfg.maxTotal - 1;
    run, tasks := FillUp(cfg, k, n);
    for t := 0 to k
      invariant Exec(cfg, Init(k), run) == Some(Grown(n, tasks)) && NoWarmUp(run) && |tasks| == k
      invariant forall u :: 0 <= u < k ==> if u < t then tasks[u] == AcqBoot else tasks[u].Idle?
    {
      FleetSize(n);
      run := PassCheck(cfg, Init(k), run, Grown(n, tasks), t);
      tasks := tasks[t := AcqBoot];
    }
    for t := 0 to k
      invariant Exec(cfg, Init(k), run) == Some(Grown(n + t, tasks)) && NoWarmUp(run) && |tasks| == k
      invariant forall u :: 0 <= u < k ==> if u < t then tasks[u].Idle? else tasks[u] == AcqBoot
    {
      run := FinishNth(cfg, Init(k), run, n + t, tasks, t);
      tasks := tasks[t := Idle(Acquired(n + t))];
    }
  }

  /** The bound on the total is sharp. */
  lemma OvershootReached(cfg: Config, k: nat) returns (run: Run)
    requires k >= 1 && cfg.maxTotal >= 1
    ensures NoWarmUp(run) && Exec(cfg, Init(k), run).Some?
    ensures |Exec(cfg, Init(k), run).value.active| == Limit(cfg.maxTotal, k)
  {
    hide Exec, NoWarmUp, Fleet;
    var tasks;
    run, tasks := Overshoot(cfg, k);
    FleetSize(cfg.maxTotal + k - 1);
  }

  // ---- releases ----

  /** Task t takes its VM out of the active map and passes the check of the warm pool's size. */
  lemma ReleaseChecked(cfg: Config, s: State, run: Run, g: State, t: nat, id: nat) returns (more: Run)
    requires t < |g.tasks| && g.tasks[t].Idle? && g.locks == map[] && NoWarmUp(run) && Exec(cfg, s, run) == Some(g)
    requires id in g.active && |g.warm| < cfg.maxWarm
    ensures NoWarmUp(more)
    ensures Exec(cfg, s, more) == Some(At(g.(active := g.active - {id}), t, RelReset(g.active[id]), map[]))
  {
    hide Exec, NoWarmUp, Next;
    var vm, h := g.active[id], g.(active := g.active - {id});
    assert g == At(g, t, g.tasks[t], map[]);
    StepAlone(cfg, g, t, g.tasks[t], map[], Start(Release(id)), g, RelTake(id), map[]);
    more := Hop(cfg, s, run, g, t, Start(Release(id)), At(g, t, RelTake(id), map[]));
    StepAlone(cfg, g, t, RelTake(id), map[], Go(Fine), At(h, t, RelTake(id), map[]), RelCheck(vm), map[]);
    more := Hop(cfg, s, more, At(g, t, RelTake(id), map[]), t, Go(Fine), At(h, t, RelCheck(vm), map[]));
    StepAlone(cfg, h, t, RelCheck(vm), map[], Go(Fine), At(h, t, RelCheck(vm), map[]), RelReset(vm), map[]);
    more := Hop(cfg, s, more, At(h, t, RelCheck(vm), map[]), t, Go(Fine), At(h, t, RelReset(vm), map[]));
  }

  function Cleaned(cfg: Config, vm: Vm): Vm {
    vm.(session := MicroVms.Call(cfg.codec, vm.session, Reset, Fine).0)
  }

  /** A task past the check resets its VM and pushes it, without looking at the size again. */
  lemma ReleasePushed(cfg: Config, s: State, run: Run, h: State, t: nat, vm: Vm) returns (more: Run)
    requires t < |h.tasks| && NoWarmUp(run) && Exec(cfg, s, run) == Some(At(h, t, RelReset(vm), map[]))
    requires cfg.codec.Valid() && Aligned(vm.session.link)
    ensures NoWarmUp(more)
    ensures Exec(cfg, s, more) == Some(At(h.(warm := h.warm + [Cleaned(cfg, vm)]), t, Idle(Done), map[]))
  {
    hide Exec, NoWarmUp, Next, MicroVms.Call, Aligned;
    ResetWorks(cfg.codec, vm.session);
    var reset := Cleaned(cfg, vm);
    StepAlone(cfg, h, t, RelReset(vm), map[], Go(Fine), At(h, t, RelReset(vm), map[]), RelPush(reset), map[]);
    more := Hop(cfg, s, run, At(h, t, RelReset(vm), map[]), t, Go(Fine), At(h, t, RelPush(reset), map[]));
    var w := h.(warm := h.warm + [reset]);
    StepAlone(cfg, h, t, RelPush(reset), map[], Go(Fine), At(w, t, RelPush(reset), map[]), Idle(Done), map[]);
    more := Hop(cfg, s, more, At(h, t, RelPush(reset), map[]), t, Go(Fine), At(w, t, Idle(Done), map[]));
  }

  /** Task t releases its VM to the warm pool. */
  lemma ReleaseWarm(cfg: Config, s: State, run: Run, g: State, t: nat, id: nat) returns (more: Run)
    requires t < |g.tasks| && g.tasks[t].Idle? && g.locks == map[] && NoWarmUp(run) && Exec(cfg, s, run) == Some(g)
    requires id in g.active && cfg.codec.Valid() && Aligned(g.active[id].session.link) && |g.warm| < cfg.maxWarm
    ensures NoWarmUp(more)
    ensures Exec(cfg, s, more) ==
      Some(At(g.(active := g.active - {id}, warm := g.warm + [Cleaned(cfg, g.active[id])]), t, Idle(Done), map[]))
  {
    hide Exec, NoWarmUp, Next, Aligned, Cleaned;
    more := ReleaseChecked(cfg, s, run, g, t, id);
    more := ReleasePushed(cfg, s, more, g.(active := g.active - {id}), t, g.active[id]);
  }

  /** VMs number from to n - 1 are active, with their guests waiting; no lock is taken. */
  ghost predicate Stocked(g: State, from: nat, n: nat) {
    && g.locks == map[]
    && forall id :: from <= id < n ==> id in g.active && Aligned(g.active[id].session.link)
  }

  lemma {:induction false} FleetIsStocked(n: nat, tasks: seq<Pc>)
    ensures Stocked(Grown(n, tasks), 0, n)
  {
    if n > 0 {
      FleetIsStocked(n - 1, tasks);
      FleetSize(n - 1);
      assert Grown(n - 1, tasks).active == Fleet(n - 1);
      BlankIsClean();
    }
  }

  /** From as many active VMs as there can be, `free` of them are released one after the other. */
  lemma FillWarm(cfg: Config, k: nat, free: nat) returns (run: Run, g: State)
    requires k >= 1 && cfg.maxTotal >= 1 && free < cfg.maxWarm && free < cfg.maxTotal && cfg.codec.Valid()
    ensures NoWarmUp(run) && Exec(cfg, Init(k), run) == Some(g)
    ensures |g.tasks| == k && (forall t :: 0 <= t < k ==> g.tasks[t].Idle?)
    ensures |g.warm| == free && Stocked(g, free, cfg.maxTotal + k - 1)
  {
    hide Exec, NoWarmUp, Next, Fleet, Aligned, Cleaned;
    var tasks;
    run, tasks := Overshoot(cfg, k);
    g := Grown(cfg.maxTotal + k - 1, tasks);
    FleetIsStocked(cfg.maxTotal + k - 1, tasks);
    for i := 0 to free
      invariant Exec(cfg, Init(k), run) == Some(g) && NoWarmUp(run)
      invariant |g.tasks| == k && (forall t :: 0 <= t < k ==> g.tasks[t].Idle?)
      invariant |g.warm| == i && Stocked(g, i, cfg.maxTotal + k - 1)
    {
      run := ReleaseWarm(cfg, Init(k), run, g, 0, i);
      g := At(g.(active := g.active - {i}, warm := g.warm + [Cleaned(cfg, g.active[i])]), 0, Idle(Done), map[]);
    }
  }

  /** The bound on the warm pool is sharp as well, in every configuration: with one place left, K releases pass
      the check before any of them pushes, and then all of them push. */
  lemma WarmBoundReached(cfg: Config, k: nat) returns (run: Run)
    requires k >= 1 && cfg.maxWarm >= 1 && cfg.maxTotal >= 1 && cfg.codec.Valid()
    ensures NoWarmUp(run) && Exec(cfg, Init(k), run).Some? && ReleasesAtMost(cfg, Init(k), run, k)
    ensures |Exec(cfg, Init(k), run).value.warm| == Limit(Smaller(cfg), k)
  {
    hide Exec, NoWarmUp, Next, Aligned, Cleaned, ReleasesAtMost;
    var free, n := Smaller(cfg) - 1, cfg.maxTotal + k - 1;
    var g;
    run, g := FillWarm(cfg, k, free);
    for t := 0 to k
      invariant Exec(cfg, Init(k), run) == Some(g) && NoWarmUp(run)
      invariant |g.tasks| == k && |g.warm| == free && Stocked(g, free + t, n)
      invariant forall u :: 0 <= u < t ==> g.tasks[u].RelReset? && Aligned(g.tasks[u].vm.session.link)
      invariant forall u :: t <= u < k ==> g.tasks[u].Idle?
    {
      run := ReleaseChecked(cfg, Init(k), run, g, t, free + t);
      g := At(g.(active := g.active - {free + t}), t, RelReset(g.active[free + t]), map[]);
    }
    for t := 0 to k
      invariant Exec(cfg, Init(k), run) == Some(g) && NoWarmUp(run)
      invariant |g.tasks| == k && |g.warm| == free + t && g.locks == map[]
      invariant forall u :: t <= u < k ==> g.tasks[u].RelReset? && Aligned(g.tasks[u].vm.session.link)
    {
      var vm := g.tasks[t].vm;
      assert g == At(g, t, RelReset(vm), map[]);
      run := ReleasePushed(cfg, Init(k), run, g, t, vm);
      g := At(g.(warm := g.warm + [Cleaned(cfg, vm)]), t, Idle(Done), map[]);
    }
    AtMostTasks(cfg, Init(k), run, k);
  }

  /** n warm VMs and one task. */
  function Warmed(n: nat): State {
    State(map[], Row(n), [Idle(Nothing)], map[], Fleet(n).Keys, {})
  }

  /** warm_up looks at no limit: one call fills the pool with as many VMs as it is asked for. */
  lemma WarmUpIgnoresLimits(cfg: Config, n: nat) returns (run: Run)
    ensures Exec(cfg, Init(1), run).Some? && |Exec(cfg, Init(1), run).value.warm| == n
  {
    hide Exec, Next, NoWarmUp, Row, Fleet;
    FleetSize(n);
    run := WarmUpStarts(cfg, n);
    for i := 0 to n
      invariant Exec(cfg, Init(1), run) == Some(At(Warmed(i), 0, if i < n then WarmBoot(n - i) else Idle(Done), map[]))
    {
      run := WarmOne(cfg, run, i, n - i);
    }
  }

  lemma WarmUpStarts(cfg: Config, n: nat) returns (run: Run)
    ensures Exec(cfg, Init(1), run) == Some(At(Warmed(0), 0, if 0 < n then WarmBoot(n) else Idle(Done), map[]))
  {
    hide Exec, Next, Row, Fleet, NoWarmUp;
    FleetSize(0);
    var g := Warmed(0);
    run := ExecStart(cfg);
    StepAlone(cfg, g, 0, Idle(Nothing), map[], Start(WarmUp(n)), g, WarmCount(n), map[]);
    run := Hop(cfg, Init(1), run, g, 0, Start(WarmUp(n)), At(g, 0, WarmCount(n), map[]));
    var pc := if n == 0 then Idle(Done) else WarmBoot(n);
    StepAlone(cfg, g, 0, WarmCount(n), map[], Go(Fine), At(g, 0, WarmCount(n), map[]), pc, map[]);
    run := Hop(cfg, Init(1), run, At(g, 0, WarmCount(n), map[]), 0, Go(Fine), At(g, 0, pc, map[]));
  }

  lemma ExecStart(cfg: Config) returns (run: Run)
    ensures Exec(cfg, Init(1), run) == Some(Warmed(0)) && Warmed(0) == At(Warmed(0), 0, Idle(Nothing), map[])
  {
    run := [];
    assert Fleet(0).Keys == {};
    assert Init(1).tasks == [Idle(Nothing)];
  }

  lemma WarmOne(cfg: Config, run: Run, i: nat, left: nat) returns (more: Run)
    requires left >= 1 && Exec(cfg, Init(1), run) == Some(At(Warmed(i), 0, WarmBoot(left), map[]))
    ensures Exec(cfg, Init(1), more) ==
      Some(At(Warmed(i + 1), 0, if left == 1 then Idle(Done) else WarmBoot(left - 1), map[]))
  {
    hide Exec, Next, NoWarmUp, Clean, Blank;
    FleetSize(i);
    BlankIsClean();
    var g, vm := Warmed(i), BlankVm(i);
    var a := At(g, 0, WarmBoot(left), map[]);
    var born := g.(created := g.created + {i});
    StepAlone(cfg, g, 0, WarmBoot(left), map[], Boot(Some(vm)), a.(created := born.created), WarmPush(vm, left), map[]);
    var b := At(born, 0, WarmPush(vm, left), map[]);
    more := Hop(cfg, Init(1), run, a, 0, Boot(Some(vm)), b);
    assert Fleet(i + 1).Keys == Fleet(i).Keys + {i};
    more := WarmPushed(cfg, more, born, vm, left);
    assert Row(i + 1) == Row(i) + [vm];
  }

  lemma WarmPushed(cfg: Config, run: Run, g: State, vm: Vm, left: nat) returns (more: Run)
    requires left >= 1 && |g.tasks| == 1
    requires Exec(cfg, Init(1), run) == Some(At(g, 0, WarmPush(vm, left), map[]))
    ensures Exec(cfg, Init(1), more) ==
      Some(At(g.(warm := g.warm + [vm]), 0, if left == 1 then Idle(Done) else WarmBoot(left - 1), map[]))
  {
    hide Exec, Next, NoWarmUp;
    var pc := if left == 1 then Idle(Done) else WarmBoot(left - 1);
    var b := At(g, 0, WarmPush(vm, left), map[]);
    StepAlone(cfg, g, 0, WarmPush(vm, left), map[], Go(Fine), b.(warm := g.warm + [vm]), pc, map[]);
    more := Hop(cfg, Init(1), run, b, 0, Go(Fine), At(g.(warm := g.warm + [vm]), 0, pc, map[]));
  }
}
