/** MicroVmManager (manager.rs:402-593) as a step machine. A task stops at every `.await` of the source: at
    each lock acquisition and at each slow operation. Between two stops it runs atomically, and since what it
    touches there is guarded by the lock it has just taken, nothing else can observe the middle of a step. */
module Pool {
  import opened Common
  import opened Protocol
  import opened GuestAgent
  import opened HostLink
  import opened MicroVms
  import opened GuestLoader

  datatype Lock = ActiveLock | PoolLock

  /** The order in which `acquire` (manager.rs:443-444) and `stats` (542-543) take both locks. The source takes
      the active lock first; PoolFirst is the order that `acquire` itself uses at 431-434. */
  datatype Order = ActiveFirst | PoolFirst

  datatype Config = Config(maxTotal: nat, maxWarm: nat, order: Order, codec: Codec)

  datatype Vm = Vm(id: nat, session: Session)

  /** What a finished call returned. */
  datatype Outcome =
    | Nothing
    | Acquired(id: nat)
    | PoolExhausted
    | CreateFailed
    | VmNotFound
    | Counted(active: nat, warm: nat)
    | Done

  datatype Op = Acquire | Release(id: nat) | Use(id: nat, cmd: GuestCommand) | Stats | WarmUp(count: nat) | ShutdownAll

  /** Where a task stands; each constructor names the line at which it waits. */
  datatype Pc =
    | Idle(last: Outcome)
    | AcqPop                            // 431, the pool lock
    | AcqMove(vm: Vm)                   // 434, the active lock, with the pool lock held and the VM popped
    | AcqCheck1                         // 443, the first of both locks
    | AcqCheck2                         // 444, the second, with the first held
    | AcqBoot                           // 452, creating
    | AcqInsert(vm: Vm)                 // 455, the active lock, holding the new VM
    | RelTake(id: nat)                  // 465, the active lock
    | RelCheck(vm: Vm)                  // 471, the pool lock
    | RelReset(vm: Vm)                  // 478, resetting
    | RelPush(vm: Vm)                   // 482, the pool lock
    | RelKill(vm: Vm)                   // 480 and 488, shutting down
    | UseTake(id: nat, cmd: GuestCommand)   // 527, the active lock
    | UseCall(id: nat, cmd: GuestCommand)   // 531, talking to the guest with the active lock held
    | Stats1                            // 542
    | Stats2                            // 543
    | WarmCount(count: nat)             // 554, the pool lock
    | WarmBoot(left: nat)               // 559, creating
    | WarmPush(vm: Vm, left: nat)       // 560, the pool lock
    | ShutTakeActive                    // 572, the active lock
    | ShutActive(rest: map<nat, Vm>)    // 577, shutting down what was active
    | ShutTakeWarm                      // 582, the pool lock
    | ShutWarm(vms: seq<Vm>)            // 587, shutting down what was warm

  /** `created` and `dead` are the ids of all VMs that ever booted, and of those shut down. */
  datatype State = State(
    active: map<nat, Vm>,
    warm: seq<Vm>,
    tasks: seq<Pc>,
    locks: map<Lock, nat>,
    created: set<nat>,
    dead: set<nat>
  )

  /** What the environment decides: a new call, the result of a boot, which of the drained VMs goes next, and
      how an exchange with the guest fares. */
  datatype Move = Start(op: Op) | Go(io: Io) | Boot(vm: Option<Vm>) | Kill(id: nat)

  function First(cfg: Config): Lock {
    if cfg.order.ActiveFirst? then ActiveLock else PoolLock
  }

  function Second(cfg: Config): Lock {
    if cfg.order.ActiveFirst? then PoolLock else ActiveLock
  }

  /** The lock a task is waiting for. */
  function Wants(cfg: Config, pc: Pc): Option<Lock> {
    match pc
    case AcqPop | RelCheck(_) | RelPush(_) | WarmCount(_) | WarmPush(_, _) | ShutTakeWarm => Some(PoolLock)
    case AcqMove(_) | AcqInsert(_) | RelTake(_) | UseTake(_, _) | ShutTakeActive => Some(ActiveLock)
    case AcqCheck1 | Stats1 => Some(First(cfg))
    case AcqCheck2 | Stats2 => Some(Second(cfg))
    case _ => None
  }

  /** The locks a task holds while it waits. */
  function Owns(cfg: Config, pc: Pc): set<Lock> {
    match pc
    case AcqMove(_) => {PoolLock}
    case AcqCheck2 | Stats2 => {First(cfg)}
    case UseCall(_, _) => {ActiveLock}
    case _ => {}
  }

  function Entry(op: Op): Pc {
    match op
    case Acquire => AcqPop
    case Release(id) => RelTake(id)
    case Use(id, cmd) => UseTake(id, cmd)
    case Stats => Stats1
    case WarmUp(n) => WarmCount(n)
    case ShutdownAll => ShutTakeActive
  }

  /** A VM that create() returns: an id not used before, empty tables, an aligned connection. */
  predicate FreshVm(s: State, vm: Vm) {
    vm.id !in s.created && Clean(vm.session)
  }

  /** Leaving the lock ownership aside, what one step of a task at `pc` does; None when the move does not fit. */
  function Body(cfg: Config, s: State, pc: Pc, m: Move): Option<(State, Pc)> {
    match pc
    case Idle(_) =>
      if m.Start? && (m.op.Use? ==> UserCommand(m.op.cmd)) then Some((s, Entry(m.op))) else None
    case AcqBoot =>
      if !m.Boot? then None
      else if m.vm.None? then Some((s, Idle(CreateFailed)))
      else if FreshVm(s, m.vm.value) then
        Some((s.(created := s.created + {m.vm.value.id}), AcqInsert(m.vm.value)))
      else None
    case WarmBoot(left) =>
      if !m.Boot? then None
      else if m.vm.None? then Some((s, Idle(CreateFailed)))
      else if FreshVm(s, m.vm.value) then
        Some((s.(created := s.created + {m.vm.value.id}), WarmPush(m.vm.value, left)))
      else None
    case ShutActive(rest) =>
      if m.Go? && rest == map[] then Some((s, ShutTakeWarm))
      else if m.Kill? && m.id in rest then Some((s.(dead := s.dead + {m.id}), ShutActive(rest - {m.id})))
      else None
    case _ =>
      if !m.Go? then None else Some(Quiet(cfg, s, pc, m.io))
  }

  function Quiet(cfg: Config, s: State, pc: Pc, io: Io): (State, Pc)
    requires !pc.Idle? && !pc.AcqBoot? && !pc.WarmBoot? && !pc.ShutActive?
  {
    match pc
    case AcqPop =>
      if s.warm == [] then (s, AcqCheck1)
      else (s.(warm := s.warm[..|s.warm| - 1]), AcqMove(s.warm[|s.warm| - 1]))
    case AcqMove(vm) => (s.(active := s.active[vm.id := vm]), Idle(Acquired(vm.id)))
    case AcqCheck1 => (s, AcqCheck2)
    case AcqCheck2 => (s, if |s.active| + |s.warm| >= cfg.maxTotal then Idle(PoolExhausted) else AcqBoot)
    case AcqInsert(vm) => (s.(active := s.active[vm.id := vm]), Idle(Acquired(vm.id)))
    case RelTake(id) =>
      if id in s.active then (s.(active := s.active - {id}), RelCheck(s.active[id])) else (s, Idle(VmNotFound))
    case RelCheck(vm) => (s, if |s.warm| < cfg.maxWarm then RelReset(vm) else RelKill(vm))
    case RelReset(vm) =>
      var (session, r) := MicroVms.Call(cfg.codec, vm.session, Reset, io);
      (s, if r.Ok? then RelPush(vm.(session := session)) else RelKill(vm.(session := session)))
    case RelPush(vm) => (s.(warm := s.warm + [vm]), Idle(Done))
    case RelKill(vm) => (s.(dead := s.dead + {vm.id}), Idle(Done))
    case UseTake(id, cmd) => (s, if id in s.active then UseCall(id, cmd) else Idle(VmNotFound))
    case UseCall(id, cmd) =>
      if id !in s.active then (s, Idle(VmNotFound))
      else
        var vm := s.active[id];
        (s.(active := s.active[id := vm.(session := MicroVms.Call(cfg.codec, vm.session, cmd, io).0)]), Idle(Done))
    case Stats1 => (s, Stats2)
    case Stats2 => (s, Idle(Counted(|s.active|, |s.warm|)))
    case WarmCount(n) => (s, if n <= |s.warm| then Idle(Done) else WarmBoot(n - |s.warm|))
    case WarmPush(vm, left) => (s.(warm := s.warm + [vm]), if left <= 1 then Idle(Done) else WarmBoot(left - 1))
    case ShutTakeActive => (s.(active := map[]), ShutActive(s.active))
    case ShutTakeWarm => (s.(warm := []), ShutWarm(s.warm))
    case ShutWarm(vms) =>
      if vms == [] then (s, Idle(Done)) else (s.(dead := s.dead + {vms[0].id}), ShutWarm(vms[1..]))
  }

  predicate Blocked(cfg: Config, s: State, t: nat)
    requires t < |s.tasks|
  {
    var w := Wants(cfg, s.tasks[t]);
    w.Some? && w.value in s.locks
  }

  /** A task that moves on drops the guards it no longer needs and keeps or takes the others. */
  function Relock(cfg: Config, locks: map<Lock, nat>, t: nat, pc: Pc): map<Lock, nat> {
    (map l | l in locks && locks[l] != t :: locks[l]) + (map l | l in Owns(cfg, pc) :: t)
  }

  /** One step of task t. */
  function Next(cfg: Config, s: State, t: nat, m: Move): Option<State>
    requires t < |s.tasks|
  {
    if Blocked(cfg, s, t) then None
    else
      match Body(cfg, s, s.tasks[t], m)
      case None => None
      case Some((s1, pc)) => Some(s1.(tasks := s.tasks[t := pc], locks := Relock(cfg, s.locks, t, pc)))
  }

  type Run = seq<(nat, Move)>

  /** Executes a schedule: which task steps, and what the environment answers. */
  function Exec(cfg: Config, s: State, run: Run): Option<State>
    decreases |run|
  {
    if run == [] then Some(s)
    else if run[0].0 >= |s.tasks| then None
    else
      match Next(cfg, s, run[0].0, run[0].1)
      case None => None
      case Some(s1) => Exec(cfg, s1, run[1..])
  }

  /** K idle tasks, so at most K calls are ever in flight. */
  function Init(k: nat): State {
    State(map[], [], seq(k, _ => Idle(Nothing)), map[], {}, {})
  }

  ghost predicate Reachable(cfg: Config, k: nat, s: State) {
    exists run: Run :: Exec(cfg, Init(k), run) == Some(s)
  }

  ghost predicate CanStep(cfg: Config, s: State, t: nat)
    requires t < |s.tasks|
  {
    exists m: Move :: Next(cfg, s, t, m).Some?
  }

  lemma {:induction false} ExecConcat(cfg: Config, s: State, a: Run, b: Run)
    requires Exec(cfg, s, a).Some?
    ensures Exec(cfg, s, a + b) == Exec(cfg, Exec(cfg, s, a).value, b)
    decreases |a|
  {
    hide Next;
    if a == [] {
      assert a + b == b;
    } else {
      assert (a + b)[1..] == a[1..] + b && (a + b)[0] == a[0];
      ExecConcat(cfg, Next(cfg, s, a[0].0, a[0].1).value, a[1..], b);
    }
  }
}
