/** MicroVmManager as an object (manager.rs:402-593). Each method, when no other task runs beside it, is one
    schedule of the step machine, so whatever holds in every reachable state of the machine holds here. */
module PoolManager {
  import opened Common
  import opened Protocol
  import opened HostLink
  import opened MicroVms
  import opened Pool
  import opened PoolSafety
  import PoolBounds
  import PoolRuns

  /** Some schedule takes the machine from s to s1. */
  ghost predicate Leads(cfg: Config, s: State, s1: State) {
    exists run: Run :: Exec(cfg, s, run) == Some(s1)
  }

  /** One task, in no call. */
  predicate Resting(s: State) {
    |s.tasks| == 1 && s.tasks[0].Idle? && s.locks == map[]
  }

  /** The one task at `pc`, holding the locks that `pc` holds. */
  function Alone(cfg: Config, s: State, pc: Pc): State {
    s.(tasks := [pc], locks := map l | l in Owns(cfg, pc) :: 0)
  }

  /** The schedule goes one step further. */
  lemma Forward(cfg: Config, s0: State, s: State, pc: Pc, m: Move, s1: State, pc1: Pc)
    requires Leads(cfg, s0, Alone(cfg, s, pc))
    requires Wants(cfg, pc).None? || Wants(cfg, pc).value !in Owns(cfg, pc)
    requires Body(cfg, Alone(cfg, s, pc), pc, m) == Some((s1.(tasks := [pc], locks := Alone(cfg, s, pc).locks), pc1))
    ensures Leads(cfg, s0, Alone(cfg, s1, pc1))
  {
    hide Exec, Body, Owns, Wants;
    var run: Run :| Exec(cfg, s0, run) == Some(Alone(cfg, s, pc));
    var from, locks1 := Alone(cfg, s, pc), map l | l in Owns(cfg, pc1) :: 0;
    var mid := s1.(tasks := [pc], locks := from.locks);
    assert from == PoolRuns.At(from, 0, pc, from.locks);
    PoolRuns.StepAlone(cfg, from, 0, pc, from.locks, m, mid, pc1, locks1);
    assert [pc][0 := pc1] == [pc1];
    var _ := PoolRuns.Hop(cfg, s0, run, from, 0, m, Alone(cfg, s1, pc1));
  }

  lemma AtRest(cfg: Config, s: State, o: Outcome)
    ensures Alone(cfg, s, Idle(o)) == s.(tasks := [Idle(o)], locks := map[])
  {
  }

  /** A call is made. */
  lemma Begin(cfg: Config, s: State, op: Op)
    requires Resting(s) && (op.Use? ==> UserCommand(op.cmd))
    ensures Leads(cfg, s, Alone(cfg, s, Entry(op)))
  {
    AtRest(cfg, s, s.tasks[0].last);
    assert s == Alone(cfg, s, s.tasks[0]);
    assert Exec(cfg, s, []) == Some(s);
    Forward(cfg, s, s, s.tasks[0], Start(op), s, Entry(op));
  }

  lemma ReachableOn(cfg: Config, s: State, s1: State)
    requires Reachable(cfg, 1, s) && Leads(cfg, s, s1)
    ensures Reachable(cfg, 1, s1)
  {
    hide Exec;
    var before: Run :| Exec(cfg, Init(1), before) == Some(s);
    var run: Run :| Exec(cfg, s, run) == Some(s1);
    ExecConcat(cfg, Init(1), before, run);
    assert Exec(cfg, Init(1), before + run) == Some(s1);
  }

  // ---- acquire ----

  lemma AcquireWarm(cfg: Config, s: State)
    requires Resting(s) && s.warm != []
    ensures var vm := s.warm[|s.warm| - 1];
      Leads(cfg, s, s.(active := s.active[vm.id := vm], warm := s.warm[..|s.warm| - 1], tasks := [Idle(Acquired(vm.id))]))
  {
    hide Leads;
    var vm, popped := s.warm[|s.warm| - 1], s.(warm := s.warm[..|s.warm| - 1]);
    Begin(cfg, s, Acquire);
    Forward(cfg, s, s, AcqPop, Go(Fine), popped, AcqMove(vm));
    Forward(cfg, s, popped, AcqMove(vm), Go(Fine), popped.(active := s.active[vm.id := vm]), Idle(Acquired(vm.id)));
    AtRest(cfg, popped.(active := s.active[vm.id := vm]), Acquired(vm.id));
  }

  lemma AcquireChecks(cfg: Config, s: State)
    requires Resting(s) && s.warm == []
    ensures Leads(cfg, s, Alone(cfg, s, if |s.active| >= cfg.maxTotal then Idle(PoolExhausted) else AcqBoot))
  {
    hide Leads;
    Begin(cfg, s, Acquire);
    Forward(cfg, s, s, AcqPop, Go(Fine), s, AcqCheck1);
    Forward(cfg, s, s, AcqCheck1, Go(Fine), s, AcqCheck2);
    Forward(cfg, s, s, AcqCheck2, Go(Fine), s, if |s.active| >= cfg.maxTotal then Idle(PoolExhausted) else AcqBoot);
    AtRest(cfg, s, PoolExhausted);
  }

  lemma AcquireFails(cfg: Config, s: State)
    requires Resting(s) && s.warm == []
    ensures Leads(cfg, s, s.(tasks := [Idle(if |s.active| >= cfg.maxTotal then PoolExhausted else CreateFailed)]))
  {
    hide Leads;
    AcquireChecks(cfg, s);
    AtRest(cfg, s, PoolExhausted);
    if |s.active| < cfg.maxTotal {
      Forward(cfg, s, s, AcqBoot, Boot(None), s, Idle(CreateFailed));
      AtRest(cfg, s, CreateFailed);
    }
  }

  lemma AcquireCreates(cfg: Config, s: State, vm: Vm)
    requires Resting(s) && s.warm == [] && |s.active| < cfg.maxTotal && FreshVm(s, vm)
    ensures Leads(cfg, s,
      s.(active := s.active[vm.id := vm], created := s.created + {vm.id}, tasks := [Idle(Acquired(vm.id))]))
  {
    hide Leads, Clean;
    var born := s.(created := s.created + {vm.id});
    AcquireChecks(cfg, s);
    Forward(cfg, s, s, AcqBoot, Boot(Some(vm)), born, AcqInsert(vm));
    Forward(cfg, s, born, AcqInsert(vm), Go(Fine), born.(active := s.active[vm.id := vm]), Idle(Acquired(vm.id)));
    AtRest(cfg, born.(active := s.active[vm.id := vm]), Acquired(vm.id));
  }

  /** What is about to be handed out is clean, and not active yet. */
  lemma Promised(cfg: Config, s: State, boot: Option<Vm>)
    requires cfg.codec.Valid() && Reachable(cfg, 1, s) && (boot.Some? ==> FreshVm(s, boot.value))
    ensures s.warm != [] ==>
      Clean(s.warm[|s.warm| - 1].session) && s.warm[|s.warm| - 1].id !in s.active
    ensures boot.Some? ==> Clean(boot.value.session) && boot.value.id !in s.active
  {
    hide Clean, Reachable, Usable;
    ReachableIsSafe(cfg, 1, s);
    if s.warm != [] {
      var n := |s.warm| - 1;
      assert Copies(s, s.warm[n].id) == Born(s, s.warm[n].id);
      assert s.warm == s.warm[..n] + [s.warm[n]];
      CountLast(s.warm[..n], s.warm[n], s.warm[n].id);
    }
    if boot.Some? {
      assert Copies(s, boot.value.id) == Born(s, boot.value.id);
    }
  }

  // ---- release ----

  lemma ReleaseMissing(cfg: Config, s: State, id: nat)
    requires Resting(s) && id !in s.active
    ensures Leads(cfg, s, s.(tasks := [Idle(VmNotFound)]))
  {
    hide Leads;
    Begin(cfg, s, Release(id));
    Forward(cfg, s, s, RelTake(id), Go(Fine), s, Idle(VmNotFound));
    AtRest(cfg, s, VmNotFound);
  }

  lemma ReleaseTakes(cfg: Config, s: State, id: nat)
    requires Resting(s) && id in s.active
    ensures var vm := s.active[id];
      Leads(cfg, s, Alone(cfg, s.(active := s.active - {id}),
        if |s.warm| < cfg.maxWarm then RelReset(vm) else RelKill(vm)))
  {
    hide Leads;
    var vm, taken := s.active[id], s.(active := s.active - {id});
    Begin(cfg, s, Release(id));
    Forward(cfg, s, s, RelTake(id), Go(Fine), taken, RelCheck(vm));
    Forward(cfg, s, taken, RelCheck(vm), Go(Fine), taken, if |s.warm| < cfg.maxWarm then RelReset(vm) else RelKill(vm));
  }

  lemma ReleaseKeeps(cfg: Config, s: State, id: nat, io: Io)
    requires Resting(s) && id in s.active && |s.warm| < cfg.maxWarm
    requires MicroVms.Call(cfg.codec, s.active[id].session, Reset, io).1.Ok?
    ensures var vm := s.active[id].(session := MicroVms.Call(cfg.codec, s.active[id].session, Reset, io).0);
      Leads(cfg, s, s.(active := s.active - {id}, warm := s.warm + [vm], tasks := [Idle(Done)]))
  {
    hide Leads, MicroVms.Call;
    var vm := s.active[id].(session := MicroVms.Call(cfg.codec, s.active[id].session, Reset, io).0);
    var taken := s.(active := s.active - {id});
    ReleaseTakes(cfg, s, id);
    Forward(cfg, s, taken, RelReset(s.active[id]), Go(io), taken, RelPush(vm));
    Forward(cfg, s, taken, RelPush(vm), Go(Fine), taken.(warm := s.warm + [vm]), Idle(Done));
    AtRest(cfg, taken.(warm := s.warm + [vm]), Done);
  }

  lemma ReleaseKills(cfg: Config, s: State, id: nat, io: Io)
    requires Resting(s) && id in s.active
    requires |s.warm| < cfg.maxWarm ==> MicroVms.Call(cfg.codec, s.active[id].session, Reset, io).1.Err?
    ensures Leads(cfg, s, s.(active := s.active - {id}, dead := s.dead + {s.active[id].id}, tasks := [Idle(Done)]))
  {
    hide Leads, MicroVms.Call;
    var vm, taken := s.active[id], s.(active := s.active - {id});
    ReleaseTakes(cfg, s, id);
    if |s.warm| < cfg.maxWarm {
      vm := vm.(session := MicroVms.Call(cfg.codec, vm.session, Reset, io).0);
      Forward(cfg, s, taken, RelReset(s.active[id]), Go(io), taken, RelKill(vm));
    }
    Forward(cfg, s, taken, RelKill(vm), Go(Fine), taken.(dead := s.dead + {vm.id}), Idle(Done));
    AtRest(cfg, taken.(dead := s.dead + {vm.id}), Done);
  }

  // ---- load_program and its like, stats ----

  lemma UseActive(cfg: Config, s: State, id: nat, cmd: GuestCommand, io: Io)
    requires Resting(s) && UserCommand(cmd) && id in s.active
    ensures var vm := s.active[id].(session := MicroVms.Call(cfg.codec, s.active[id].session, cmd, io).0);
      Leads(cfg, s, s.(active := s.active[id := vm], tasks := [Idle(Done)]))
  {
    hide Leads, MicroVms.Call;
    var vm := s.active[id].(session := MicroVms.Call(cfg.codec, s.active[id].session, cmd, io).0);
    Begin(cfg, s, Use(id, cmd));
    Forward(cfg, s, s, UseTake(id, cmd), Go(Fine), s, UseCall(id, cmd));
    Forward(cfg, s, s, UseCall(id, cmd), Go(io), s.(active := s.active[id := vm]), Idle(Done));
    AtRest(cfg, s.(active := s.active[id := vm]), Done);
  }

  lemma UseMissing(cfg: Config, s: State, id: nat, cmd: GuestCommand)
    requires Resting(s) && UserCommand(cmd) && id !in s.active
    ensures Leads(cfg, s, s.(tasks := [Idle(VmNotFound)]))
  {
    hide Leads;
    Begin(cfg, s, Use(id, cmd));
    Forward(cfg, s, s, UseTake(id, cmd), Go(Fine), s, Idle(VmNotFound));
    AtRest(cfg, s, VmNotFound);
  }

  lemma StatsCounts(cfg: Config, s: State)
    requires Resting(s)
    ensures Leads(cfg, s, s.(tasks := [Idle(Counted(|s.active|, |s.warm|))]))
  {
    hide Leads;
    Begin(cfg, s, Stats);
    Forward(cfg, s, s, Stats1, Go(Fine), s, Stats2);
    Forward(cfg, s, s, Stats2, Go(Fine), s, Idle(Counted(|s.active|, |s.warm|)));
    AtRest(cfg, s, Counted(|s.active|, |s.warm|));
  }

  // ---- warm_up ----

  /** The VMs of the boots before the first that fails. */
  function Booted(boots: seq<Option<Vm>>): seq<Vm> {
    if boots == [] || boots[0].None? then [] else [boots[0].value] + Booted(boots[1..])
  }

  /** The boots up to the first that fails, all of them and no others. */
  lemma {:induction false} BootedMeans(boots: seq<Option<Vm>>)
    ensures var n := |Booted(boots)|;
      && n <= |boots|
      && (forall i :: 0 <= i < n ==> boots[i] == Some(Booted(boots)[i]))
      && (n < |boots| ==> boots[n].None?)
  {
    if boots != [] && boots[0].Some? {
      BootedMeans(boots[1..]);
      var rest := Booted(boots[1..]);
      assert forall i :: 0 < i < |boots| ==> boots[i] == boots[1..][i - 1];
      assert forall i :: 0 < i < |Booted(boots)| ==> Booted(boots)[i] == rest[i - 1];
    }
  }

  /** After i boots, none of which failed, these VMs have booted. */
  ghost predicate BootedTo(boots: seq<Option<Vm>>, i: nat, done: seq<Vm>) {
    i <= |boots| && |done| == i && Booted(boots) == done + Booted(boots[i..])
  }

  lemma BootsStart(boots: seq<Option<Vm>>)
    ensures BootedTo(boots, 0, [])
  {
    assert boots[0..] == boots;
  }

  lemma BootedNext(boots: seq<Option<Vm>>)
    requires boots != []
    ensures Booted(boots) == if boots[0].None? then [] else [boots[0].value] + Booted(boots[1..])
  {
  }

  lemma Regroup(a: seq<Vm>, vm: Vm, b: seq<Vm>)
    ensures a + ([vm] + b) == (a + [vm]) + b
  {
  }

  lemma BootsGoOn(boots: seq<Option<Vm>>, i: nat, done: seq<Vm>)
    requires BootedTo(boots, i, done) && i < |boots|
    ensures boots[i].None? ==> Booted(boots) == done
    ensures boots[i].Some? ==> BootedTo(boots, i + 1, done + [boots[i].value])
  {
    hide Booted;
    BootedNext(boots[i..]);
    assert boots[i..][1..] == boots[i + 1..];
    if boots[i].Some? {
      Regroup(done, boots[i].value, Booted(boots[i + 1..]));
    } else {
      assert done + [] == done;
    }
  }

  lemma BootsEnd(boots: seq<Option<Vm>>, done: seq<Vm>)
    requires BootedTo(boots, |boots|, done)
    ensures Booted(boots) == done
  {
  }

  function Missing(count: nat, warm: nat): nat {
    if count <= warm then 0 else count - warm
  }

  function WarmPc(left: nat): Pc {
    if left == 0 then Idle(Done) else WarmBoot(left)
  }

  lemma NoneLeft()
    ensures WarmPc(0) == Idle(Done)
  {
  }

  lemma WarmStarts(cfg: Config, s: State, count: nat)
    requires Resting(s)
    ensures Leads(cfg, s, Alone(cfg, s, WarmPc(Missing(count, |s.warm|))))
  {
    hide Leads;
    Begin(cfg, s, WarmUp(count));
    Forward(cfg, s, s, WarmCount(count), Go(Fine), s, WarmPc(Missing(count, |s.warm|)));
  }

  lemma WarmGrows(cfg: Config, s0: State, s: State, left: nat, vm: Vm)
    requires left > 0 && FreshVm(s, vm) && Leads(cfg, s0, Alone(cfg, s, WarmPc(left)))
    ensures Leads(cfg, s0, Alone(cfg, s.(warm := s.warm + [vm], created := s.created + {vm.id}), WarmPc(left - 1)))
  {
    hide Leads, Clean;
    var born := s.(created := s.created + {vm.id});
    Forward(cfg, s0, s, WarmBoot(left), Boot(Some(vm)), born, WarmPush(vm, left));
    Forward(cfg, s0, born, WarmPush(vm, left), Go(Fine), born.(warm := s.warm + [vm]), WarmPc(left - 1));
  }

  lemma WarmStops(cfg: Config, s0: State, s: State, left: nat)
    requires left > 0 && Leads(cfg, s0, Alone(cfg, s, WarmPc(left)))
    ensures Leads(cfg, s0, s.(tasks := [Idle(CreateFailed)], locks := map[]))
  {
    hide Leads;
    Forward(cfg, s0, s, WarmBoot(left), Boot(None), s, Idle(CreateFailed));
    AtRest(cfg, s, CreateFailed);
  }

  /** The ids of the VMs that boot are new and all different. */
  ghost predicate NewVms(s: State, boots: seq<Option<Vm>>) {
    && (forall i :: 0 <= i < |boots| && boots[i].Some? ==> FreshVm(s, boots[i].value))
    && (forall i, j :: 0 <= i < j < |boots| && boots[i].Some? && boots[j].Some? ==>
          boots[i].value.id != boots[j].value.id)
  }

  lemma FirstIsNew(s: State, boots: seq<Option<Vm>>)
    requires boots != [] && boots[0].Some? && NewVms(s, boots)
    ensures var vm := boots[0].value;
      FreshVm(s, vm) && NewVms(s.(warm := s.warm + [vm], created := s.created + {vm.id}), boots[1..])
  {
    hide Clean;
  }

  // ---- shutdown_all ----

  function Ids(vms: seq<Vm>): set<nat> {
    if vms == [] then {} else {vms[0].id} + Ids(vms[1..])
  }

  lemma OneLess(rest: map<nat, Vm>, id: nat)
    requires id in rest
    ensures rest.Keys == {id} + (rest - {id}).Keys && |rest - {id}| < |rest|
  {
    PoolBounds.RemoveOne(rest, id);
  }

  lemma ShutBegins(cfg: Config, s: State)
    requires Resting(s)
    ensures Leads(cfg, s, Alone(cfg, s.(active := map[]), ShutActive(s.active)))
  {
    hide Leads;
    Begin(cfg, s, ShutdownAll);
    Forward(cfg, s, s, ShutTakeActive, Go(Fine), s.(active := map[]), ShutActive(s.active));
  }

  lemma ShutOneActive(cfg: Config, s0: State, s: State, rest: map<nat, Vm>, id: nat)
    requires id in rest && Leads(cfg, s0, Alone(cfg, s, ShutActive(rest)))
    ensures Leads(cfg, s0, Alone(cfg, s.(dead := s.dead + {id}), ShutActive(rest - {id})))
  {
    hide Leads;
    Forward(cfg, s0, s, ShutActive(rest), Kill(id), s.(dead := s.dead + {id}), ShutActive(rest - {id}));
  }

  lemma ShutTurns(cfg: Config, s0: State, s: State)
    requires Leads(cfg, s0, Alone(cfg, s, ShutActive(map[])))
    ensures Leads(cfg, s0, Alone(cfg, s.(warm := []), ShutWarm(s.warm)))
  {
    hide Leads;
    Forward(cfg, s0, s, ShutActive(map[]), Go(Fine), s, ShutTakeWarm);
    Forward(cfg, s0, s, ShutTakeWarm, Go(Fine), s.(warm := []), ShutWarm(s.warm));
  }

  lemma ShutOneWarm(cfg: Config, s0: State, s: State, vms: seq<Vm>)
    requires vms != [] && Leads(cfg, s0, Alone(cfg, s, ShutWarm(vms)))
    ensures Leads(cfg, s0, Alone(cfg, s.(dead := s.dead + {vms[0].id}), ShutWarm(vms[1..])))
  {
    hide Leads;
    Forward(cfg, s0, s, ShutWarm(vms), Go(Fine), s.(dead := s.dead + {vms[0].id}), ShutWarm(vms[1..]));
  }

  lemma ShutEnds(cfg: Config, s0: State, s: State)
    requires Leads(cfg, s0, Alone(cfg, s, ShutWarm([])))
    ensures Leads(cfg, s0, s.(tasks := [Idle(Done)], locks := map[]))
  {
    hide Leads;
    Forward(cfg, s0, s, ShutWarm([]), Go(Fine), s, Idle(Done));
    AtRest(cfg, s, Done);
  }

  // ---- the object ----

  class MicroVmManager {
    const cfg: Config
    var activeVms: map<nat, Vm>
    var warmPool: seq<Vm>
    ghost var model: State   // the machine's state between calls

    ghost predicate Valid()
      reads this
    {
      && model.active == activeVms && model.warm == warmPool
      && Resting(model) && Reachable(cfg, 1, model)
    }

    constructor (cfg: Config)
      ensures Valid() && this.cfg == cfg && activeVms == map[] && warmPool == []
    {
      this.cfg, activeVms, warmPool, model := cfg, map[], [], Init(1);
      new;
      assert Exec(cfg, Init(1), []) == Some(Init(1));
    }

    /** `boot` is the VM that create() would return. */
    method Acquire(boot: Option<Vm>) returns (outcome: Outcome)
      requires Valid() && (boot.Some? ==> FreshVm(model, boot.value))
      modifies this
      ensures Valid() && Leads(cfg, old(model), model) && model.tasks == [Idle(outcome)]
      ensures outcome ==
        if old(warmPool) != [] then Acquired(old(warmPool)[|old(warmPool)| - 1].id)
        else if |old(activeVms)| >= cfg.maxTotal then PoolExhausted
        else if boot.None? then CreateFailed
        else Acquired(boot.value.id)
      ensures !outcome.Acquired? ==> activeVms == old(activeVms) && warmPool == old(warmPool)
      ensures outcome.Acquired? ==>
        var vm := if old(warmPool) != [] then old(warmPool)[|old(warmPool)| - 1] else boot.value;
        && activeVms == old(activeVms)[vm.id := vm]
        && old(warmPool) == (if old(warmPool) != [] then warmPool + [vm] else warmPool)
        && (cfg.codec.Valid() ==> vm.id !in old(activeVms) && Clean(vm.session))
    {
      hide Reachable, Leads, Clean;
      if cfg.codec.Valid() {
        Promised(cfg, model, boot);
      }
      ghost var s := model;
      if warmPool != [] {
        AcquireWarm(cfg, s);
        var vm := warmPool[|warmPool| - 1];
        warmPool := warmPool[..|warmPool| - 1];
        activeVms := activeVms[vm.id := vm];
        outcome := Acquired(vm.id);
      } else if |activeVms| + |warmPool| >= cfg.maxTotal {
        AcquireFails(cfg, s);
        outcome := PoolExhausted;
      } else if boot.None? {
        AcquireFails(cfg, s);
        outcome := CreateFailed;
      } else {
        AcquireCreates(cfg, s, boot.value);
        s := s.(created := s.created + {boot.value.id});
        activeVms := activeVms[boot.value.id := boot.value];
        outcome := Acquired(boot.value.id);
      }
      s := s.(active := activeVms, warm := warmPool, tasks := [Idle(outcome)]);
      ReachableOn(cfg, model, s);
      model := s;
    }

    /** `io` is how the reset's exchange fares. */
    method Release(id: nat, io: Io) returns (outcome: Outcome)
      requires Valid()
      modifies this
      ensures Valid() && Leads(cfg, old(model), model) && model.tasks == [Idle(outcome)]
      ensures outcome == if id in old(activeVms) then Done else VmNotFound
      ensures activeVms == old(activeVms) - {id}
      ensures id !in old(activeVms) ==> warmPool == old(warmPool) && model.dead == old(model.dead)
      ensures id in old(activeVms) ==>
        var vm := old(activeVms)[id];
        var (session, r) := MicroVms.Call(cfg.codec, vm.session, Reset, io);
        if |old(warmPool)| < cfg.maxWarm && r.Ok?
        then warmPool == old(warmPool) + [vm.(session := session)] && model.dead == old(model.dead)
        else warmPool == old(warmPool) && model.dead == old(model.dead) + {vm.id}
    {
      hide Reachable, Leads, MicroVms.Call;
      ghost var s := model;
      outcome := if id in activeVms then Done else VmNotFound;
      if id !in activeVms {
        ReleaseMissing(cfg, s, id);
      } else {
        var vm := activeVms[id];
        activeVms := activeVms - {id};
        var kept := false;
        if |warmPool| < cfg.maxWarm {
          var (session, r) := MicroVms.Call(cfg.codec, vm.session, Reset, io);
          if r.Ok? {
            ReleaseKeeps(cfg, s, id, io);
            warmPool := warmPool + [vm.(session := session)];
            kept := true;
          }
        }
        if !kept {
          ReleaseKills(cfg, s, id, io);
          s := s.(dead := s.dead + {vm.id});
        }
      }
      s := s.(active := activeVms, warm := warmPool, tasks := [Idle(outcome)]);
      ReachableOn(cfg, model, s);
      model := s;
    }

    /** load_program, and the other typed calls through with_vm_async. */
    method Use(id: nat, cmd: GuestCommand, io: Io) returns (outcome: Outcome)
      requires Valid() && UserCommand(cmd)
      modifies this
      ensures Valid() && Leads(cfg, old(model), model) && model.tasks == [Idle(outcome)]
      ensures warmPool == old(warmPool) && outcome == if id in old(activeVms) then Done else VmNotFound
      ensures activeVms == if id !in old(activeVms) then old(activeVms) else
        var vm := old(activeVms)[id];
        old(activeVms)[id := vm.(session := MicroVms.Call(cfg.codec, vm.session, cmd, io).0)]
    {
      hide Reachable, Leads, MicroVms.Call;
      outcome := if id in activeVms then Done else VmNotFound;
      if id !in activeVms {
        UseMissing(cfg, model, id, cmd);
      } else {
        UseActive(cfg, model, id, cmd, io);
        var vm := activeVms[id];
        activeVms := activeVms[id := vm.(session := MicroVms.Call(cfg.codec, vm.session, cmd, io).0)];
      }
      ghost var s := model.(active := activeVms, tasks := [Idle(outcome)]);
      ReachableOn(cfg, model, s);
      model := s;
    }

    method Stats() returns (active: nat, warm: nat)
      requires Valid()
      modifies this`model
      ensures Valid() && Leads(cfg, old(model), model) && model.tasks == [Idle(Counted(active, warm))]
      ensures active == |activeVms| && warm == |warmPool|
    {
      hide Reachable, Leads;
      StatsCounts(cfg, model);
      active, warm := |activeVms|, |warmPool|;
      ghost var s := model.(tasks := [Idle(Counted(active, warm))]);
      ReachableOn(cfg, model, s);
      model := s;
    }

    /** `boots` are the VMs that create() would return, one after the other. */
    method WarmUp(count: nat, boots: seq<Option<Vm>>) returns (outcome: Outcome)
      requires Valid() && |boots| == Missing(count, |warmPool|) && NewVms(model, boots)
      modifies this
      ensures Valid() && Leads(cfg, old(model), model) && model.tasks == [Idle(outcome)]
      ensures activeVms == old(activeVms) && warmPool == old(warmPool) + Booted(boots)
      ensures outcome == if |Booted(boots)| == |boots| then Done else CreateFailed
    {
      hide Reachable, Leads, NewVms, Alone, FreshVm, Booted, BootedTo, WarmPc;
      ghost var s0, s, done := model, model, [];
      var toCreate := Missing(count, |warmPool|);
      WarmStarts(cfg, s, count);
      BootsStart(boots);
      outcome := Done;
      var i := 0;
      assert boots[0..] == boots && s0.warm + done == s0.warm;
      while i < toCreate
        invariant 0 <= i <= toCreate && |done| == i && outcome == Done
        invariant model == s0 && activeVms == s.active == s0.active && warmPool == s.warm == s0.warm + done
        invariant Leads(cfg, s0, Alone(cfg, s, WarmPc(toCreate - i))) && NewVms(s, boots[i..])
        invariant BootedTo(boots, i, done)
      {
        BootsGoOn(boots, i, done);
        if boots[i].None? {
          outcome := CreateFailed;
          break;
        }
        var vm := boots[i].value;
        FirstIsNew(s, boots[i..]);
        WarmGrows(cfg, s0, s, toCreate - i, vm);
        assert boots[i..][1..] == boots[i + 1..];
        assert s0.warm + done + [vm] == s0.warm + (done + [vm]);
        s := s.(warm := s.warm + [vm], created := s.created + {vm.id});
        warmPool, done := warmPool + [vm], done + [vm];
        i := i + 1;
      }
      if outcome == CreateFailed {
        WarmStops(cfg, s0, s, toCreate - i);
      } else {
        BootsEnd(boots, done);
        assert WarmPc(0) == Idle(Done) by { NoneLeft(); }
        AtRest(cfg, s, Done);
      }
      s := s.(tasks := [Idle(outcome)], locks := map[]);
      ReachableOn(cfg, s0, s);
      model := s;
    }

    /** The first half of shutdown_all, after the active map has been drained. */
    method ShutdownActive(drained: map<nat, Vm>, ghost s0: State, ghost s: State) returns (ghost gone: set<nat>)
      requires Leads(cfg, s0, Alone(cfg, s, ShutActive(drained)))
      ensures gone == s.dead + drained.Keys
      ensures Leads(cfg, s0, Alone(cfg, s.(dead := gone), ShutActive(map[])))
    {
      hide Leads, Alone;
      var rest := drained;
      gone := s.dead;
      assert s == s.(dead := gone);
      while rest != map[]
        invariant gone + rest.Keys == s.dead + drained.Keys
        invariant Leads(cfg, s0, Alone(cfg, s.(dead := gone), ShutActive(rest)))
        decreases |rest|
      {
        var id :| id in rest;
        ShutOneActive(cfg, s0, s.(dead := gone), rest, id);
        OneLess(rest, id);
        rest := rest - {id};
        gone := gone + {id};
      }
    }

    /** The second half, after the warm pool has been drained. */
    method ShutdownWarm(drained: seq<Vm>, ghost s0: State, ghost s: State) returns (ghost gone: set<nat>)
      requires Leads(cfg, s0, Alone(cfg, s, ShutWarm(drained)))
      ensures gone == s.dead + Ids(drained)
      ensures Leads(cfg, s0, s.(dead := gone, tasks := [Idle(Done)], locks := map[]))
    {
      hide Leads, Alone;
      var rest := drained;
      gone := s.dead;
      assert s == s.(dead := gone);
      while rest != []
        invariant gone + Ids(rest) == s.dead + Ids(drained)
        invariant Leads(cfg, s0, Alone(cfg, s.(dead := gone), ShutWarm(rest)))
      {
        ShutOneWarm(cfg, s0, s.(dead := gone), rest);
        gone := gone + {rest[0].id};
        rest := rest[1..];
      }
      ShutEnds(cfg, s0, s.(dead := gone));
    }

    method ShutdownAll()
      requires Valid()
      modifies this
      ensures Valid() && Leads(cfg, old(model), model) && model.tasks == [Idle(Done)]
      ensures activeVms == map[] && warmPool == []
      ensures model.dead == old(model.dead) + old(activeVms).Keys + Ids(old(warmPool))
    {
      hide Reachable, Leads, Alone, Ids;
      ghost var s := model;
      ShutBegins(cfg, s);
      var active := activeVms;
      activeVms := map[];
      s := s.(active := map[]);
      ghost var gone := ShutdownActive(active, model, s);
      s := s.(dead := gone);
      ShutTurns(cfg, model, s);
      var warm := warmPool;
      warmPool := [];
      s := s.(warm := []);
      gone := ShutdownWarm(warm, model, s);
      s := s.(dead := gone, tasks := [Idle(Done)], locks := map[]);
      ReachableOn(cfg, model, s);
      model := s;
    }
  }
}
