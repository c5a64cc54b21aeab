/** What every step of every interleaving keeps: lock ownership, the whereabouts of each VM, and what is inside. */
module PoolSafety {
  import opened Common
  import opened Protocol
  import opened HostLink
  import opened MicroVms
  import opened Pool

  // ---- sums over the tasks ----

  datatype Measure = Holding(id: nat) | Weight | Passing | Releasing

  function CountIn(vms: seq<Vm>, id: nat): nat {
    if vms == [] then 0 else (if vms[0].id == id then 1 else 0) + CountIn(vms[1..], id)
  }

  /** The VM in a task's hands, apart from those that shutdown_all has drained. */
  function InHand(pc: Pc): Option<Vm> {
    match pc
    case AcqMove(vm) => Some(vm)
    case AcqInsert(vm) => Some(vm)
    case RelCheck(vm) => Some(vm)
    case RelReset(vm) => Some(vm)
    case RelPush(vm) => Some(vm)
    case RelKill(vm) => Some(vm)
    case WarmPush(vm, _) => Some(vm)
    case _ => None
  }

  /** Holding(id): how often a task holds the VM id. Weight: 1 when acquire or release holds or is creating
      one. Passing: 1 when release has passed the check of the pool's size and has not pushed yet.
      Releasing: 1 inside release. */
  function W(m: Measure, pc: Pc): nat {
    match m
    case Holding(id) =>
      if pc.ShutActive? then (if id in pc.rest then 1 else 0)
      else if pc.ShutWarm? then CountIn(pc.vms, id)
      else if InHand(pc).Some? && InHand(pc).value.id == id then 1
      else 0
    case Weight => if pc.AcqBoot? || (InHand(pc).Some? && !pc.WarmPush?) then 1 else 0
    case Passing => if pc.RelReset? || pc.RelPush? then 1 else 0
    case Releasing =>
      if pc.RelTake? || pc.RelCheck? || pc.RelReset? || pc.RelPush? || pc.RelKill? then 1 else 0
  }

  function Sum(m: Measure, tasks: seq<Pc>): nat {
    if tasks == [] then 0 else W(m, tasks[0]) + Sum(m, tasks[1..])
  }

  lemma {:induction false} SumUpdate(m: Measure, tasks: seq<Pc>, t: nat, pc: Pc)
    requires t < |tasks|
    ensures Sum(m, tasks[t := pc]) == Sum(m, tasks) - W(m, tasks[t]) + W(m, pc)
    ensures W(m, tasks[t]) <= Sum(m, tasks)
  {
    hide W;
    if t == 0 {
      assert tasks[t := pc][1..] == tasks[1..];
    } else {
      assert tasks[t := pc][1..] == tasks[1..][t - 1 := pc];
      SumUpdate(m, tasks[1..], t - 1, pc);
    }
  }

  lemma {:induction false} CountConcat(a: seq<Vm>, b: seq<Vm>, id: nat)
    ensures CountIn(a + b, id) == CountIn(a, id) + CountIn(b, id)
  {
    if a == [] {
      assert a + b == b;
    } else {
      assert (a + b)[1..] == a[1..] + b;
      CountConcat(a[1..], b, id);
    }
  }

  lemma CountLast(vms: seq<Vm>, vm: Vm, id: nat)
    ensures CountIn(vms + [vm], id) == CountIn(vms, id) + if vm.id == id then 1 else 0
  {
    CountConcat(vms, [vm], id);
    assert [vm][1..] == [];
  }

  // ---- locks ----

  /** A lock is held by a task exactly when the task stands at a point that holds it. */
  ghost predicate LocksAgree(cfg: Config, s: State) {
    && (forall l :: l in s.locks ==> s.locks[l] < |s.tasks| && l in Owns(cfg, s.tasks[s.locks[l]]))
    && (forall t, l :: 0 <= t < |s.tasks| && l in Owns(cfg, s.tasks[t]) ==> l in s.locks && s.locks[l] == t)
  }

  predicate Awaiting(pc: Pc) {
    !pc.Idle? && !pc.AcqBoot? && !pc.WarmBoot? && !pc.ShutActive?
  }

  lemma QuietOwnsGrow(cfg: Config, s: State, pc: Pc, io: Io, l: Lock)
    requires Awaiting(pc) && l in Owns(cfg, Quiet(cfg, s, pc, io).1)
    ensures l in Owns(cfg, pc) || Wants(cfg, pc) == Some(l)
  {
    hide MicroVms.Call;
  }

  /** A step takes no lock other than the one the task was waiting for. */
  lemma OwnsGrow(cfg: Config, s: State, pc: Pc, m: Move)
    requires Body(cfg, s, pc, m).Some?
    ensures forall l :: l in Owns(cfg, Body(cfg, s, pc, m).value.1) ==> l in Owns(cfg, pc) || Wants(cfg, pc) == Some(l)
  {
    hide Quiet, FreshVm;
    if Awaiting(pc) {
      forall l | l in Owns(cfg, Quiet(cfg, s, pc, m.io).1) ensures l in Owns(cfg, pc) || Wants(cfg, pc) == Some(l) {
        QuietOwnsGrow(cfg, s, pc, m.io, l);
      }
    }
  }

  lemma RelockAgrees(cfg: Config, s: State, s1: State, t: nat, pc: Pc)
    requires t < |s.tasks| && LocksAgree(cfg, s)
    requires s1.tasks == s.tasks[t := pc] && s1.locks == Relock(cfg, s.locks, t, pc)
    requires forall l :: l in Owns(cfg, pc) ==> l !in s.locks || s.locks[l] == t
    ensures LocksAgree(cfg, s1)
  {
    hide Owns;
    forall u, l | 0 <= u < |s1.tasks| && l in Owns(cfg, s1.tasks[u]) ensures l in s1.locks && s1.locks[l] == u {
      assert u != t ==> l in s.locks && s.locks[l] == u;
    }
  }

  lemma LocksStep(cfg: Config, s: State, t: nat, m: Move)
    requires t < |s.tasks| && LocksAgree(cfg, s) && Next(cfg, s, t, m).Some?
    ensures LocksAgree(cfg, Next(cfg, s, t, m).value)
  {
    hide Body, Owns, Wants, Relock;
    OwnsGrow(cfg, s, s.tasks[t], m);
    RelockAgrees(cfg, s, Next(cfg, s, t, m).value, t, Body(cfg, s, s.tasks[t], m).value.1);
  }

  // ---- whereabouts ----

  /** In how many of the containers and the graveyard the VM id is. */
  function Stored(s: State, id: nat): nat {
    (if id in s.active then 1 else 0) + CountIn(s.warm, id) + (if id in s.dead then 1 else 0)
  }

  /** In how many places the VM id is: active, warm, dead, in some task's hands. */
  function Copies(s: State, id: nat): nat {
    Stored(s, id) + Sum(Holding(id), s.tasks)
  }

  function Born(s: State, id: nat): nat {
    if id in s.created then 1 else 0
  }

  ghost predicate Ledger(s: State) {
    forall id :: Copies(s, id) == Born(s, id)
  }

  /** Every VM is filed under its own id. */
  ghost predicate Keyed(s: State) {
    forall id :: id in s.active ==> s.active[id].id == id
  }

  /** While a task talks to a VM, the VM stays active. */
  ghost predicate InUse(s: State) {
    forall t :: 0 <= t < |s.tasks| && s.tasks[t].UseCall? ==> s.tasks[t].id in s.active
  }

  predicate TouchesWarm(pc: Pc) {
    pc.AcqPop? || pc.RelPush? || pc.WarmPush? || pc.ShutTakeWarm? || pc.ShutWarm?
  }

  lemma PopMoves(cfg: Config, s: State, io: Io, id: nat)
    ensures var (s1, pc1) := Quiet(cfg, s, AcqPop, io);
      Stored(s1, id) + W(Holding(id), pc1) == Stored(s, id) + W(Holding(id), AcqPop)
  {
    hide CountIn;
    if s.warm != [] {
      var n := |s.warm| - 1;
      assert s.warm == s.warm[..n] + [s.warm[n]];
      CountLast(s.warm[..n], s.warm[n], id);
    }
  }

  lemma PushMoves(cfg: Config, s: State, pc: Pc, io: Io, id: nat)
    requires pc.RelPush? || pc.WarmPush?
    ensures var (s1, pc1) := Quiet(cfg, s, pc, io);
      Stored(s1, id) + W(Holding(id), pc1) == Stored(s, id) + W(Holding(id), pc)
  {
    hide CountIn;
    CountLast(s.warm, pc.vm, id);
  }

  lemma WarmMoves(cfg: Config, s: State, pc: Pc, io: Io, id: nat)
    requires TouchesWarm(pc) && Stored(s, id) + W(Holding(id), pc) <= 1
    ensures var (s1, pc1) := Quiet(cfg, s, pc, io);
      Stored(s1, id) + W(Holding(id), pc1) == Stored(s, id) + W(Holding(id), pc)
  {
    hide MicroVms.Call;
    if pc.AcqPop? {
      PopMoves(cfg, s, io, id);
    } else if pc.RelPush? || pc.WarmPush? {
      PushMoves(cfg, s, pc, io, id);
    }
  }

  predicate TouchesActive(pc: Pc) {
    pc.AcqMove? || pc.AcqInsert? || pc.RelTake? || pc.UseCall? || pc.ShutTakeActive?
  }

  lemma InsertMoves(cfg: Config, s: State, pc: Pc, io: Io, id: nat)
    requires (pc.AcqMove? || pc.AcqInsert?) && Stored(s, id) + W(Holding(id), pc) <= 1
    ensures var (s1, pc1) := Quiet(cfg, s, pc, io);
      Stored(s1, id) + W(Holding(id), pc1) == Stored(s, id) + W(Holding(id), pc)
  {
    hide CountIn;
  }

  lemma TakeMoves(cfg: Config, s: State, pc: Pc, io: Io, id: nat)
    requires (pc.RelTake? || pc.ShutTakeActive?) && Keyed(s)
    ensures var (s1, pc1) := Quiet(cfg, s, pc, io);
      Stored(s1, id) + W(Holding(id), pc1) == Stored(s, id) + W(Holding(id), pc)
  {
    hide CountIn;
  }

  lemma UseMoves(cfg: Config, s: State, pc: Pc, io: Io, id: nat)
    requires pc.UseCall?
    ensures var (s1, pc1) := Quiet(cfg, s, pc, io);
      Stored(s1, id) + W(Holding(id), pc1) == Stored(s, id) + W(Holding(id), pc)
  {
    hide MicroVms.Call, CountIn;
  }

  lemma ActiveMoves(cfg: Config, s: State, pc: Pc, io: Io, id: nat)
    requires TouchesActive(pc) && Keyed(s) && Stored(s, id) + W(Holding(id), pc) <= 1
    ensures var (s1, pc1) := Quiet(cfg, s, pc, io);
      Stored(s1, id) + W(Holding(id), pc1) == Stored(s, id) + W(Holding(id), pc)
  {
    hide Quiet, Stored, W, Keyed;
    if pc.UseCall? {
      UseMoves(cfg, s, pc, io, id);
    } else if pc.RelTake? || pc.ShutTakeActive? {
      TakeMoves(cfg, s, pc, io, id);
    } else {
      InsertMoves(cfg, s, pc, io, id);
    }
  }

  lemma OtherMoves(cfg: Config, s: State, pc: Pc, io: Io, id: nat)
    requires Awaiting(pc) && !TouchesWarm(pc) && !TouchesActive(pc) && Stored(s, id) + W(Holding(id), pc) <= 1
    ensures var (s1, pc1) := Quiet(cfg, s, pc, io);
      Stored(s1, id) + W(Holding(id), pc1) == Stored(s, id) + W(Holding(id), pc)
  {
    hide MicroVms.Call, CountIn;
  }

  lemma QuietKeeps(cfg: Config, s: State, pc: Pc, io: Io)
    requires Awaiting(pc)
    ensures var s1 := Quiet(cfg, s, pc, io).0;
      s1.created == s.created && s1.tasks == s.tasks
  {
    hide MicroVms.Call;
  }

  /** A step that is neither a boot nor the shutting down of a drained VM moves VMs without losing or
      duplicating any. */
  lemma QuietMoves(cfg: Config, s: State, pc: Pc, io: Io, id: nat)
    requires Awaiting(pc) && Keyed(s) && Stored(s, id) + W(Holding(id), pc) <= 1
    ensures var (s1, pc1) := Quiet(cfg, s, pc, io);
      && s1.created == s.created && s1.tasks == s.tasks
      && Stored(s1, id) + W(Holding(id), pc1) == Stored(s, id) + W(Holding(id), pc)
  {
    hide Quiet, Stored, W, Keyed;
    QuietKeeps(cfg, s, pc, io);
    if TouchesWarm(pc) {
      WarmMoves(cfg, s, pc, io, id);
    } else if TouchesActive(pc) {
      ActiveMoves(cfg, s, pc, io, id);
    } else {
      OtherMoves(cfg, s, pc, io, id);
    }
  }

  lemma BodyMoves(cfg: Config, s: State, pc: Pc, m: Move, id: nat)
    requires Keyed(s) && Body(cfg, s, pc, m).Some?
    requires Stored(s, id) + W(Holding(id), pc) <= Born(s, id)
    ensures var (s1, pc1) := Body(cfg, s, pc, m).value;
      && s1.tasks == s.tasks
      && Stored(s1, id) + W(Holding(id), pc1) - Born(s1, id) == Stored(s, id) + W(Holding(id), pc) - Born(s, id)
  {
    hide Clean, Quiet;
    if Awaiting(pc) {
      QuietMoves(cfg, s, pc, m.io, id);
    }
  }

  lemma CopiesStep(cfg: Config, s: State, t: nat, m: Move, id: nat)
    requires t < |s.tasks| && Keyed(s) && Ledger(s) && Next(cfg, s, t, m).Some?
    ensures var s1 := Next(cfg, s, t, m).value; Copies(s1, id) == Born(s1, id)
  {
    hide Body, W, Sum, CountIn, Relock;
    var pc := s.tasks[t];
    var (s1, pc1) := Body(cfg, s, pc, m).value;
    SumUpdate(Holding(id), s.tasks, t, pc1);
    assert Copies(s, id) == Born(s, id);
    BodyMoves(cfg, s, pc, m, id);
    assert Stored(Next(cfg, s, t, m).value, id) == Stored(s1, id);
  }

  /** A step keeps VMs filed under their ids, removes one from the active map only under the active lock, and
      starts talking only to an active one. */
  lemma BodyKeyed(cfg: Config, s: State, pc: Pc, m: Move)
    requires Keyed(s) && Body(cfg, s, pc, m).Some?
    ensures var (s1, pc1) := Body(cfg, s, pc, m).value;
      && Keyed(s1)
      && (pc1.UseCall? ==> pc1.id in s1.active)
      && (Wants(cfg, pc) == Some(ActiveLock) || s.active.Keys <= s1.active.Keys)
  {
    hide MicroVms.Call, Clean;
  }

  lemma InUseStep(cfg: Config, s: State, t: nat, m: Move)
    requires t < |s.tasks| && LocksAgree(cfg, s) && Keyed(s) && InUse(s) && Next(cfg, s, t, m).Some?
    ensures var s1 := Next(cfg, s, t, m).value; Keyed(s1) && InUse(s1)
  {
    hide Body, Relock, Wants;
    var pc := s.tasks[t];
    BodyKeyed(cfg, s, pc, m);
    var s1 := Next(cfg, s, t, m).value;
    forall u | 0 <= u < |s1.tasks| && s1.tasks[u].UseCall? ensures s1.tasks[u].id in s1.active {
      if u != t {
        assert ActiveLock in Owns(cfg, s.tasks[u]);
      }
    }
  }

  lemma PlacesStep(cfg: Config, s: State, t: nat, m: Move)
    requires t < |s.tasks| && LocksAgree(cfg, s) && Keyed(s) && Ledger(s) && InUse(s)
    requires Next(cfg, s, t, m).Some?
    ensures var s1 := Next(cfg, s, t, m).value; Keyed(s1) && Ledger(s1) && InUse(s1)
  {
    hide Next, Copies, Born;
    var s1 := Next(cfg, s, t, m).value;
    forall id ensures Copies(s1, id) == Born(s1, id) {
      CopiesStep(cfg, s, t, m, id);
    }
    InUseStep(cfg, s, t, m);
  }

  // ---- contents ----

  ghost predicate PcContents(cfg: Config, pc: Pc) {
    match pc
    case AcqMove(vm) => Clean(vm.session)
    case AcqInsert(vm) => Clean(vm.session)
    case RelPush(vm) => Clean(vm.session)
    case WarmPush(vm, _) => Clean(vm.session)
    case RelCheck(vm) => Usable(cfg.codec, vm.session)
    case RelReset(vm) => Usable(cfg.codec, vm.session)
    case UseTake(_, cmd) => UserCommand(cmd)
    case UseCall(_, cmd) => UserCommand(cmd)
    case _ => true
  }

  ghost predicate StoreOk(cfg: Config, s: State) {
    && (forall id :: id in s.active ==> Usable(cfg.codec, s.active[id].session))
    && (forall i :: 0 <= i < |s.warm| ==> Clean(s.warm[i].session))
  }

  /** Warm VMs and those about to be handed out are clean; the others are at least usable. */
  ghost predicate Contents(cfg: Config, s: State) {
    StoreOk(cfg, s) && forall t :: 0 <= t < |s.tasks| ==> PcContents(cfg, s.tasks[t])
  }

  lemma StoreActive(cfg: Config, s: State, id: nat, vm: Vm)
    requires StoreOk(cfg, s) && Usable(cfg.codec, vm.session)
    ensures StoreOk(cfg, s.(active := s.active[id := vm]))
  {
  }

  lemma StoreWarm(cfg: Config, s: State, vm: Vm)
    requires StoreOk(cfg, s) && Clean(vm.session)
    ensures StoreOk(cfg, s.(warm := s.warm + [vm]))
  {
  }

  lemma StoreLess(cfg: Config, s: State, s1: State)
    requires StoreOk(cfg, s) && s1.warm <= s.warm
    requires forall id :: id in s1.active ==> id in s.active && s1.active[id] == s.active[id]
    ensures StoreOk(cfg, s1)
  {
  }

  lemma WarmContents(cfg: Config, s: State, pc: Pc, io: Io)
    requires TouchesWarm(pc) && StoreOk(cfg, s) && PcContents(cfg, pc)
    ensures var (s1, pc1) := Quiet(cfg, s, pc, io); StoreOk(cfg, s1) && PcContents(cfg, pc1)
  {
    hide MicroVms.Call, Clean, Usable, StoreOk, Codec.Valid;
    var s1 := Quiet(cfg, s, pc, io).0;
    if pc.RelPush? || pc.WarmPush? {
      StoreWarm(cfg, s, pc.vm);
    } else {
      PopIsClean(cfg, s);
      StoreLess(cfg, s, s1);
    }
  }

  lemma InsertContents(cfg: Config, s: State, pc: Pc, io: Io)
    requires (pc.AcqMove? || pc.AcqInsert?) && StoreOk(cfg, s) && PcContents(cfg, pc)
    ensures var (s1, pc1) := Quiet(cfg, s, pc, io); StoreOk(cfg, s1) && PcContents(cfg, pc1)
  {
    hide Clean, Usable, StoreOk, Codec.Valid;
    CleanIsUsable(cfg.codec, pc.vm.session);
    StoreActive(cfg, s, pc.vm.id, pc.vm);
  }

  lemma UseContents(cfg: Config, s: State, pc: Pc, io: Io)
    requires pc.UseCall? && cfg.codec.Valid() && StoreOk(cfg, s) && PcContents(cfg, pc)
    ensures var (s1, pc1) := Quiet(cfg, s, pc, io); StoreOk(cfg, s1) && PcContents(cfg, pc1)
  {
    hide MicroVms.Call, Clean, Usable, StoreOk, Codec.Valid;
    if pc.id in s.active {
      var vm := s.active[pc.id];
      TakeIsUsable(cfg, s, pc.id);
      CallKeepsUsable(cfg.codec, vm.session, pc.cmd, io);
      StoreActive(cfg, s, pc.id, vm.(session := MicroVms.Call(cfg.codec, vm.session, pc.cmd, io).0));
    }
  }

  lemma OtherContents(cfg: Config, s: State, pc: Pc, io: Io)
    requires Awaiting(pc) && !TouchesWarm(pc) && !pc.AcqMove? && !pc.AcqInsert? && !pc.UseCall?
    requires cfg.codec.Valid() && StoreOk(cfg, s) && PcContents(cfg, pc)
    ensures var (s1, pc1) := Quiet(cfg, s, pc, io); StoreOk(cfg, s1) && PcContents(cfg, pc1)
  {
    hide MicroVms.Call, Clean, Usable, StoreOk, Codec.Valid;
    StoreLess(cfg, s, Quiet(cfg, s, pc, io).0);
    if pc.RelTake? {
      TakeIsUsable(cfg, s, pc.id);
    } else if pc.RelReset? && MicroVms.Call(cfg.codec, pc.vm.session, Reset, io).1.Ok? {
      ResetCleans(cfg.codec, pc.vm.session, io);
    }
  }

  lemma QuietContents(cfg: Config, s: State, pc: Pc, io: Io)
    requires Awaiting(pc) && cfg.codec.Valid() && StoreOk(cfg, s) && PcContents(cfg, pc)
    ensures var (s1, pc1) := Quiet(cfg, s, pc, io); StoreOk(cfg, s1) && PcContents(cfg, pc1)
  {
    hide Quiet, StoreOk, PcContents, Codec.Valid;
    if TouchesWarm(pc) {
      WarmContents(cfg, s, pc, io);
    } else if pc.AcqMove? || pc.AcqInsert? {
      InsertContents(cfg, s, pc, io);
    } else if pc.UseCall? {
      UseContents(cfg, s, pc, io);
    } else {
      OtherContents(cfg, s, pc, io);
    }
  }

  lemma PopIsClean(cfg: Config, s: State)
    requires StoreOk(cfg, s)
    ensures s.warm != [] ==> Clean(s.warm[|s.warm| - 1].session)
  {
  }

  lemma TakeIsUsable(cfg: Config, s: State, id: nat)
    requires StoreOk(cfg, s)
    ensures id in s.active ==> Usable(cfg.codec, s.active[id].session)
  {
  }

  lemma BodyContents(cfg: Config, s: State, pc: Pc, m: Move)
    requires StoreOk(cfg, s) && PcContents(cfg, pc) && cfg.codec.Valid() && Body(cfg, s, pc, m).Some?
    ensures var (s1, pc1) := Body(cfg, s, pc, m).value; StoreOk(cfg, s1) && PcContents(cfg, pc1)
  {
    hide Clean, Usable, Quiet;
    if Awaiting(pc) {
      QuietContents(cfg, s, pc, m.io);
    }
  }

  lemma ContentsStep(cfg: Config, s: State, t: nat, m: Move)
    requires t < |s.tasks| && Contents(cfg, s) && cfg.codec.Valid() && Next(cfg, s, t, m).Some?
    ensures Contents(cfg, Next(cfg, s, t, m).value)
  {
    hide Body, PcContents;
    BodyContents(cfg, s, s.tasks[t], m);
  }

  // ---- over whole runs ----

  ghost predicate Safe(cfg: Config, s: State) {
    LocksAgree(cfg, s) && Keyed(s) && Ledger(s) && InUse(s) && Contents(cfg, s)
  }

  lemma SafeStep(cfg: Config, s: State, t: nat, m: Move)
    requires t < |s.tasks| && Safe(cfg, s) && cfg.codec.Valid() && Next(cfg, s, t, m).Some?
    ensures Safe(cfg, Next(cfg, s, t, m).value)
  {
    hide Next, LocksAgree, Keyed, Ledger, InUse, Contents;
    LocksStep(cfg, s, t, m);
    PlacesStep(cfg, s, t, m);
    ContentsStep(cfg, s, t, m);
  }

  lemma {:induction false} SafeRun(cfg: Config, s: State, run: Run)
    requires Safe(cfg, s) && cfg.codec.Valid() && Exec(cfg, s, run).Some?
    ensures Safe(cfg, Exec(cfg, s, run).value)
    decreases |run|
  {
    hide Next, Safe;
    if run != [] {
      SafeStep(cfg, s, run[0].0, run[0].1);
      SafeRun(cfg, Next(cfg, s, run[0].0, run[0].1).value, run[1..]);
    }
  }

  lemma {:induction false} IdleSum(m: Measure, k: nat)
    ensures Sum(m, seq(k, _ => Idle(Nothing))) == 0
  {
    if k > 0 {
      assert seq(k, _ => Idle(Nothing))[1..] == seq(k - 1, _ => Idle(Nothing));
      IdleSum(m, k - 1);
    }
  }

  lemma SafeInit(cfg: Config, k: nat)
    ensures Safe(cfg, Init(k))
  {
    forall id ensures Copies(Init(k), id) == 0 {
      IdleSum(Holding(id), k);
      assert Init(k).tasks == seq(k, _ => Idle(Nothing));
    }
  }

  lemma ReachableIsSafe(cfg: Config, k: nat, s: State)
    requires cfg.codec.Valid() && Reachable(cfg, k, s)
    ensures Safe(cfg, s)
  {
    var run: Run :| Exec(cfg, Init(k), run) == Some(s);
    SafeInit(cfg, k);
    SafeRun(cfg, Init(k), run);
  }
}
