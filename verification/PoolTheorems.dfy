/** What the pool promises its users, in every reachable state of every interleaving. */
module PoolTheorems {
  import opened Common
  import opened Protocol
  import opened HostLink
  import opened MicroVms
  import opened Pool
  import opened PoolSafety

  /** Only two steps hand out a VM: the one that moves a popped VM over, and the one that files a new one. */
  lemma HandOutStep(cfg: Config, s: State, t: nat, m: Move, id: nat)
    requires t < |s.tasks| && !s.tasks[t].Idle?
    requires Next(cfg, s, t, m).Some? && Next(cfg, s, t, m).value.tasks[t] == Idle(Acquired(id))
    ensures var (pc, s1) := (s.tasks[t], Next(cfg, s, t, m).value);
      && (pc.AcqMove? || pc.AcqInsert?) && pc.vm.id == id
      && s1.active == s.active[id := pc.vm] && s1.warm == s.warm
  {
    hide MicroVms.Call, Clean, Relock;
  }

  /** Clean hand-out. When acquire returns an id, the VM filed under it is clean: empty mirror, empty guest
      table, no trace text, no bytes in flight; it overwrites no live VM, and no other VM changes. */
  lemma CleanHandOut(cfg: Config, k: nat, s: State, t: nat, m: Move, id: nat)
    requires cfg.codec.Valid() && Reachable(cfg, k, s) && t < |s.tasks| && !s.tasks[t].Idle?
    requires Next(cfg, s, t, m).Some? && Next(cfg, s, t, m).value.tasks[t] == Idle(Acquired(id))
    ensures var s1 := Next(cfg, s, t, m).value;
      && id !in s.active
      && id in s1.active && s1.active[id].id == id && Clean(s1.active[id].session)
      && s1.active - {id} == s.active && s1.warm == s.warm
  {
    hide Next, Clean, Reachable, Usable;
    ReachableIsSafe(cfg, k, s);
    HandOutStep(cfg, s, t, m, id);
    var pc := s.tasks[t];
    assert PcContents(cfg, pc);
    assert Copies(s, id) == Born(s, id);
    SumUpdate(Holding(id), s.tasks, t, pc);
  }

  /** ... and so is every VM that waits in the warm pool, whoever used it before. */
  lemma WarmIsClean(cfg: Config, k: nat, s: State, i: nat)
    requires cfg.codec.Valid() && Reachable(cfg, k, s) && i < |s.warm|
    ensures Clean(s.warm[i].session)
  {
    hide Clean, Reachable, Usable;
    ReachableIsSafe(cfg, k, s);
  }

  /** Conservation. Every VM ever created is in exactly one place (active, warm, one task's hands, or shut
      down), no other id is anywhere, and each active VM is filed under its own id. */
  lemma OnePlaceEach(cfg: Config, k: nat, s: State, id: nat)
    requires cfg.codec.Valid() && Reachable(cfg, k, s)
    ensures (if id in s.active then 1 else 0) + CountIn(s.warm, id) + Sum(Holding(id), s.tasks)
      + (if id in s.dead then 1 else 0) == if id in s.created then 1 else 0
    ensures id in s.active ==> s.active[id].id == id
  {
    hide Reachable, Contents;
    ReachableIsSafe(cfg, k, s);
    assert Copies(s, id) == Born(s, id);
  }

  /** The stages of shutdown_all, for a task that runs alone. */
  ghost predicate ShuttingDownAlone(s: State, t: nat) {
    && t < |s.tasks|
    && (forall u :: 0 <= u < |s.tasks| && u != t ==> s.tasks[u].Idle?)
    && match s.tasks[t] {
        case ShutTakeActive => true
        case ShutActive(_) => s.active == map[]
        case ShutTakeWarm => s.active == map[]
        case ShutWarm(_) => s.active == map[] && s.warm == []
        case Idle(_) => s.active == map[] && s.warm == []
        case _ => false
      }
  }

  predicate OnlyGo(run: Run, t: nat) {
    forall i :: 0 <= i < |run| ==> run[i].0 == t && !run[i].1.Start?
  }

  lemma ShutdownStep(cfg: Config, s: State, t: nat, m: Move)
    requires ShuttingDownAlone(s, t) && !m.Start? && Next(cfg, s, t, m).Some?
    ensures ShuttingDownAlone(Next(cfg, s, t, m).value, t)
  {
    hide MicroVms.Call, Relock, Clean;
  }

  lemma {:induction false} ShutdownRun(cfg: Config, s: State, t: nat, run: Run)
    requires ShuttingDownAlone(s, t) && OnlyGo(run, t) && Exec(cfg, s, run).Some?
    ensures ShuttingDownAlone(Exec(cfg, s, run).value, t)
    decreases |run|
  {
    hide Next, ShuttingDownAlone;
    if run != [] {
      assert run[0].0 == t;
      ShutdownStep(cfg, s, t, run[0].1);
      ShutdownRun(cfg, Next(cfg, s, t, run[0].1).value, t, run[1..]);
    }
  }

  lemma {:induction false} AllIdleHoldNone(tasks: seq<Pc>, id: nat)
    requires forall t :: 0 <= t < |tasks| ==> tasks[t].Idle?
    ensures Sum(Holding(id), tasks) == 0
  {
    if tasks != [] {
      AllIdleHoldNone(tasks[1..], id);
    }
  }

  /** A shutdown_all that nothing runs beside leaves both containers empty, and every VM ever created dead. */
  lemma ShutdownAllEmpties(cfg: Config, k: nat, s: State, t: nat, run: Run)
    requires cfg.codec.Valid() && Reachable(cfg, k, s)
    requires t < |s.tasks| && s.tasks[t] == ShutTakeActive
    requires forall u :: 0 <= u < |s.tasks| && u != t ==> s.tasks[u].Idle?
    requires OnlyGo(run, t) && Exec(cfg, s, run).Some?
    requires t < |Exec(cfg, s, run).value.tasks| && Exec(cfg, s, run).value.tasks[t].Idle?
    ensures var s1 := Exec(cfg, s, run).value;
      s1.active == map[] && s1.warm == [] && s1.dead == s1.created
  {
    hide Reachable, Exec, Contents, LocksAgree;
    ReachableIsSafe(cfg, k, s);
    SafeRun(cfg, s, run);
    ShutdownRun(cfg, s, t, run);
    var s1 := Exec(cfg, s, run).value;
    forall id ensures id in s1.dead <==> id in s1.created {
      AllIdleHoldNone(s1.tasks, id);
      assert Copies(s1, id) == Born(s1, id);
    }
  }
}
