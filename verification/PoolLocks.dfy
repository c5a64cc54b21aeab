/** When the pool gets stuck: the two lock orders of manager.rs, and what one order would give. */
module PoolLocks {
  import opened Common
  import opened Framing
  import opened GuestAgent
  import opened Protocol
  import opened HostLink
  import opened MicroVms
  import opened Pool
  import opened PoolSafety
  import opened PoolBounds
  import opened PoolRuns

  ghost predicate Unfinished(s: State, t: nat) {
    t < |s.tasks| && !s.tasks[t].Idle?
  }

  /** Task p has popped a warm VM and waits for the active lock; task a has the active lock and waits for the
      pool lock. */
  predicate Crossed(s: State, p: nat, a: nat) {
    && p < |s.tasks| && a < |s.tasks|
    && s.tasks[p].AcqMove?
    && (s.tasks[a].AcqCheck2? || s.tasks[a].Stats2?)
  }

  /** A task that is not waiting for a lock can move. */
  lemma UnblockedSteps(cfg: Config, s: State, t: nat)
    requires Unfinished(s, t) && !Blocked(cfg, s, t)
    ensures CanStep(cfg, s, t)
  {
    hide Quiet, Relock, FreshVm;
    var pc := s.tasks[t];
    var m := Go(Fine);
    if pc.AcqBoot? || pc.WarmBoot? {
      m := Boot(None);
    } else if pc.ShutActive? && pc.rest != map[] {
      var id :| id in pc.rest;
      m := Kill(id);
    }
    assert Next(cfg, s, t, m).Some?;
  }

  /** Some call is unfinished, and every unfinished one waits for a lock that is held. */
  ghost predicate DeadEnd(cfg: Config, s: State) {
    && (exists t :: Unfinished(s, t))
    && (forall t :: Unfinished(s, t) ==> Blocked(cfg, s, t))
  }

  /** Two tasks have crossed, and every other unfinished one waits for a lock that is held. */
  ghost predicate CrossedAndBlocked(cfg: Config, s: State, p: nat, a: nat) {
    Crossed(s, p, a) && forall u :: Unfinished(s, u) && u != p && u != a ==> Blocked(cfg, s, u)
  }

  /** The dead ends are exactly the crossings in which all others wait as well. */
  lemma DeadEndIff(cfg: Config, s: State)
    requires LocksAgree(cfg, s)
    ensures DeadEnd(cfg, s) <==> exists p, a :: CrossedAndBlocked(cfg, s, p, a)
  {
    if DeadEnd(cfg, s) {
      var t :| Unfinished(s, t);
      CrossingFound(cfg, s, t);
    } else if p, a :| CrossedAndBlocked(cfg, s, p, a) {
      assert Unfinished(s, p);
      CrossedBlock(cfg, s, p, a);
    }
  }

  lemma CrossedBlock(cfg: Config, s: State, p: nat, a: nat)
    requires LocksAgree(cfg, s) && Crossed(s, p, a)
    ensures cfg.order.ActiveFirst? && Blocked(cfg, s, p) && Blocked(cfg, s, a)
  {
    assert PoolLock in Owns(cfg, s.tasks[p]);
    assert First(cfg) in Owns(cfg, s.tasks[a]);
    assert s.locks[First(cfg)] == a && s.locks[PoolLock] == p;
  }

  /** From a waiting task to the owner of the lock, and on: at most two steps lead to the crossing. */
  lemma CrossingFound(cfg: Config, s: State, t: nat)
    requires LocksAgree(cfg, s) && DeadEnd(cfg, s) && Unfinished(s, t)
    ensures exists p, a :: CrossedAndBlocked(cfg, s, p, a)
  {
    var u := s.locks[Wants(cfg, s.tasks[t]).value];
    assert Unfinished(s, u);
    var v := s.locks[Wants(cfg, s.tasks[u]).value];
    assert Unfinished(s, v);
    if s.tasks[u].AcqMove? {
      assert CrossedAndBlocked(cfg, s, u, v);
    } else {
      assert CrossedAndBlocked(cfg, s, v, u);
    }
  }

  /** The task talks to a guest, and the reply will not be complete: in the source its read does not return as
      long as the connection holds, with the active lock held if it is a call on behalf of a user. */
  predicate Reading(cfg: Config, s: State, t: nat)
    requires t < |s.tasks|
  {
    match s.tasks[t]
    case UseCall(id, cmd) => id in s.active && Waits(cfg.codec, s.active[id].session, cmd)
    case RelReset(vm) => Waits(cfg.codec, vm.session, Reset)
    case _ => false
  }

  predicate Waits(c: Codec, s: Session, cmd: GuestCommand) {
    Exchange(c, s.link, c.encCmd(cmd), Fine).1 == Err(StillWaiting)
  }

  /** The task can make a step that does not wait for the end of a connection. */
  ghost predicate Advances(cfg: Config, s: State, t: nat) {
    Unfinished(s, t) && CanStep(cfg, s, t) && !Reading(cfg, s, t)
  }

  /** The stuck states: whenever some call is unfinished, an unfinished task advances, or two tasks have crossed
      on the two locks, or a task waits for bytes that never come. */
  lemma StuckOnlyWhenCrossed(cfg: Config, s: State, t: nat)
    requires LocksAgree(cfg, s) && Unfinished(s, t)
    ensures (exists u :: Advances(cfg, s, u))
      || (cfg.order.ActiveFirst? && exists p, a :: CrossedAndBlocked(cfg, s, p, a))
      || (exists u :: Unfinished(s, u) && Reading(cfg, s, u))
  {
    hide CanStep, CrossedAndBlocked, Waits;
    if DeadEnd(cfg, s) {
      DeadEndIff(cfg, s);
      var p, a :| CrossedAndBlocked(cfg, s, p, a);
      Parts(cfg, s, p, a);
      CrossedBlock(cfg, s, p, a);
    } else {
      var u :| Unfinished(s, u) && !Blocked(cfg, s, u);
      UnblockedSteps(cfg, s, u);
      assert Advances(cfg, s, u) || Reading(cfg, s, u);
    }
  }

  lemma Parts(cfg: Config, s: State, p: nat, a: nat)
    requires CrossedAndBlocked(cfg, s, p, a)
    ensures Crossed(s, p, a)
  {
  }

  // ---- nobody waits for bytes while every reply fits ----

  /** The exchange that task t is about to make draws a reply within the limit. */
  predicate AnswerFits(cfg: Config, s: State, t: nat)
    requires t < |s.tasks|
  {
    s.tasks[t].UseCall? && s.tasks[t].id in s.active ==>
      var guest := s.active[s.tasks[t].id].session.link.guest;
      |cfg.codec.encResp(Handled(guest, s.tasks[t].cmd).1)| <= MAX_MESSAGE_SIZE
  }

  predicate AnswersFit(cfg: Config, s: State, run: Run)
    decreases |run|
  {
    run != [] && run[0].0 < |s.tasks| ==>
      && AnswerFits(cfg, s, run[0].0)
      && (Next(cfg, s, run[0].0, run[0].1).Some? ==>
            AnswersFit(cfg, Next(cfg, s, run[0].0, run[0].1).value, run[1..]))
  }

  predicate InStep(s: Session) {
    s.link.open ==> Aligned(s.link)
  }

  lemma CallInStep(c: Codec, s: Session, cmd: GuestCommand, io: Io)
    requires c.Valid() && InStep(s) && (UserCommand(cmd) || cmd.Reset?)
    requires |c.encResp(Handled(s.link.guest, cmd).1)| <= MAX_MESSAGE_SIZE
    ensures InStep(Call(c, s, cmd, io).0) && !Waits(c, s, cmd)
  {
    hide Handled, Answer, Deliver, ReadReply, Codec.Valid, Note;
    if s.link.open && |c.encCmd(cmd)| <= MAX_MESSAGE_SIZE {
      CallableParses(c, cmd, s.link.guest);
      ExchangeOne(c, s.link, c.encCmd(cmd));
    }
    if !io.Fine? {
      ExchangeBroken(c, s.link, c.encCmd(cmd), io);
    }
  }

  ghost predicate ActiveInStep(s: State) {
    forall id :: id in s.active ==> InStep(s.active[id].session)
  }

  predicate PcInStep(pc: Pc) {
    (pc.RelCheck? || pc.RelReset?) ==> InStep(pc.vm.session)
  }

  ghost predicate AllInStep(s: State) {
    ActiveInStep(s) && forall t :: 0 <= t < |s.tasks| ==> PcInStep(s.tasks[t])
  }

  lemma QuietInStep(cfg: Config, s: State, pc: Pc, io: Io)
    requires Awaiting(pc) && cfg.codec.Valid() && PcContents(cfg, pc) && ActiveInStep(s) && PcInStep(pc)
    requires pc.UseCall? && pc.id in s.active ==>
      |cfg.codec.encResp(Handled(s.active[pc.id].session.link.guest, pc.cmd).1)| <= MAX_MESSAGE_SIZE
    ensures var (s1, pc1) := Quiet(cfg, s, pc, io); ActiveInStep(s1) && PcInStep(pc1)
  {
    hide MicroVms.Call, Handled, Usable, Codec.Valid, Waits, Aligned;
    if pc.UseCall? && pc.id in s.active {
      CallInStep(cfg.codec, s.active[pc.id].session, pc.cmd, io);
    }
  }

  lemma BodyInStep(cfg: Config, s: State, pc: Pc, m: Move)
    requires cfg.codec.Valid() && PcContents(cfg, pc) && ActiveInStep(s) && PcInStep(pc)
    requires pc.UseCall? && pc.id in s.active ==>
      |cfg.codec.encResp(Handled(s.active[pc.id].session.link.guest, pc.cmd).1)| <= MAX_MESSAGE_SIZE
    requires Body(cfg, s, pc, m).Some?
    ensures var (s1, pc1) := Body(cfg, s, pc, m).value; ActiveInStep(s1) && PcInStep(pc1)
  {
    hide Quiet, Handled, Usable, Codec.Valid, Clean, PcContents;
    if Awaiting(pc) {
      QuietInStep(cfg, s, pc, m.io);
    }
  }

  lemma InStepStep(cfg: Config, s: State, t: nat, m: Move)
    requires t < |s.tasks| && cfg.codec.Valid() && Contents(cfg, s) && AllInStep(s) && AnswerFits(cfg, s, t)
    requires Next(cfg, s, t, m).Some?
    ensures AllInStep(Next(cfg, s, t, m).value)
  {
    hide Body, Handled, Codec.Valid, PcContents, StoreOk, PcInStep, Relock;
    BodyInStep(cfg, s, s.tasks[t], m);
  }

  lemma {:induction false} InStepRun(cfg: Config, s: State, run: Run)
    requires cfg.codec.Valid() && Safe(cfg, s) && AllInStep(s) && AnswersFit(cfg, s, run) && Exec(cfg, s, run).Some?
    ensures AllInStep(Exec(cfg, s, run).value)
    decreases |run|
  {
    hide Next, Safe, AllInStep, AnswerFits, Codec.Valid;
    if run != [] {
      var (t, m) := run[0];
      SafeParts(cfg, s);
      SafeStep(cfg, s, t, m);
      InStepStep(cfg, s, t, m);
      InStepRun(cfg, Next(cfg, s, t, m).value, run[1..]);
    }
  }

  /** As long as every guest reply fits the limit, no task of any interleaving waits for bytes that never come. */
  lemma NobodyReads(cfg: Config, k: nat, run: Run, t: nat)
    requires cfg.codec.Valid() && Exec(cfg, Init(k), run).Some? && AnswersFit(cfg, Init(k), run)
    requires t < |Exec(cfg, Init(k), run).value.tasks| && AnswerFits(cfg, Exec(cfg, Init(k), run).value, t)
    ensures !Reading(cfg, Exec(cfg, Init(k), run).value, t)
  {
    hide Exec, Safe, Handled, Codec.Valid, Waits, InStep;
    var s := Exec(cfg, Init(k), run).value;
    SafeInit(cfg, k);
    InStepRun(cfg, Init(k), run);
    SafeRun(cfg, Init(k), run);
    SafeParts(cfg, s);
    var pc := s.tasks[t];
    if pc.UseCall? && pc.id in s.active {
      CommandOf(cfg, s, t);
      CallInStep(cfg.codec, s.active[pc.id].session, pc.cmd, Fine);
    } else if pc.RelReset? {
      ResetReplyFits(cfg.codec, pc.vm.session.link.guest);
      CallInStep(cfg.codec, pc.vm.session, Reset, Fine);
    }
  }

  lemma CommandOf(cfg: Config, s: State, t: nat)
    requires Contents(cfg, s) && t < |s.tasks| && s.tasks[t].UseCall?
    ensures UserCommand(s.tasks[t].cmd)
  {
    assert PcContents(cfg, s.tasks[t]);
  }

  lemma ResetReplyFits(c: Codec, g: Guest)
    requires c.Valid()
    ensures |c.encResp(Handled(g, Reset).1)| <= MAX_MESSAGE_SIZE
  {
    assert Bare(ResetComplete);
  }

  /** With one lock order, as acquire itself uses it at 431-434, no reachable state is stuck: some unfinished task
      advances, unless one waits for bytes that never come; and while every reply fits, none does. */
  lemma OneOrderIsLive(cfg: Config, k: nat, run: Run, t: nat)
    requires cfg.codec.Valid() && cfg.order.PoolFirst? && Exec(cfg, Init(k), run).Some?
    requires Unfinished(Exec(cfg, Init(k), run).value, t)
    ensures var s := Exec(cfg, Init(k), run).value;
      && ((exists u :: Advances(cfg, s, u)) || exists u :: Unfinished(s, u) && Reading(cfg, s, u))
      && (AnswersFit(cfg, Init(k), run) && (forall u :: 0 <= u < |s.tasks| ==> AnswerFits(cfg, s, u)) ==>
            exists u :: Advances(cfg, s, u))
  {
    hide Exec, Safe, Advances, Reading, AnswerFits, AnswersFit, Codec.Valid;
    var s := Exec(cfg, Init(k), run).value;
    SafeInit(cfg, k);
    SafeRun(cfg, Init(k), run);
    SafeParts(cfg, s);
    StuckOnlyWhenCrossed(cfg, s, t);
    if AnswersFit(cfg, Init(k), run) && forall u :: 0 <= u < |s.tasks| ==> AnswerFits(cfg, s, u) {
      forall u | Unfinished(s, u) ensures !Reading(cfg, s, u) {
        NobodyReads(cfg, k, run, u);
      }
    }
  }

  /** In the source's order the crossing is a deadlock: neither task ever moves again, in any continuation. */
  lemma {:induction false} CrossedForever(cfg: Config, s: State, p: nat, a: nat, run: Run)
    requires cfg.order.ActiveFirst? && cfg.codec.Valid() && Safe(cfg, s) && Crossed(s, p, a)
    requires Exec(cfg, s, run).Some?
    ensures var s1 := Exec(cfg, s, run).value;
      && Crossed(s1, p, a) && s1.tasks[p] == s.tasks[p] && s1.tasks[a] == s.tasks[a]
      && !CanStep(cfg, s1, p) && !CanStep(cfg, s1, a)
    decreases |run|
  {
    hide Safe, Body;
    SafeParts(cfg, s);
    assert PoolLock in Owns(cfg, s.tasks[p]) && ActiveLock in Owns(cfg, s.tasks[a]);
    if run != [] {
      var (t, m) := run[0];
      SafeStep(cfg, s, t, m);
      CrossedForever(cfg, Next(cfg, s, t, m).value, p, a, run[1..]);
    }
  }

  lemma SafeParts(cfg: Config, s: State)
    requires Safe(cfg, s)
    ensures LocksAgree(cfg, s) && Contents(cfg, s)
  {
  }

  // ---- which configurations deadlock ----

  /** Two plain acquires deadlock. Task 1 finds the pool empty; task 0 then returns its VM to the pool and
      acquires again, popping it; task 1 takes the active lock for its check. The other tasks rest. */
  lemma DeadlockReached(cfg: Config, k: nat) returns (run: Run)
    requires cfg.order.ActiveFirst? && cfg.codec.Valid() && k >= 2 && cfg.maxTotal >= 1 && cfg.maxWarm >= 1
    ensures NoWarmUp(run) && Exec(cfg, Init(k), run).Some?
    ensures CrossedAndBlocked(cfg, Exec(cfg, Init(k), run).value, 0, 1)
  {
    hide Exec, NoWarmUp, Next, Fleet, Aligned, Clean, Cleaned;
    var i := Init(k);
    var tasks;
    FleetSize(1);
    run, tasks := FillUp(cfg, k, 1);
    var g := Grown(1, tasks);
    assert g == At(g, 1, tasks[1], map[]);
    StepAlone(cfg, g, 1, tasks[1], map[], Start(Acquire), g, AcqPop, map[]);
    run := Hop(cfg, i, run, g, 1, Start(Acquire), At(g, 1, AcqPop, map[]));
    run := PopEmpty(cfg, i, run, g, 1);
    var g1 := At(g, 1, AcqCheck1, map[]);
    FleetAligned();
    var vm := Cleaned(cfg, g1.active[0]);
    run := ReleaseWarm(cfg, i, run, g1, 0, 0);
    var g2 := At(g1.(active := g1.active - {0}, warm := g1.warm + [vm]), 0, Idle(Done), map[]);
    run := DeadlockTail(cfg, i, run, g2, vm);
  }

  lemma FleetAligned()
    ensures 0 in Fleet(1) && Aligned(Fleet(1)[0].session.link) && Fleet(1)[0].id == 0
  {
    assert Fleet(1) == Fleet(0)[0 := BlankVm(0)];
  }

  predicate OnlyOne(g: State, t: nat) {
    forall u :: 0 <= u < |g.tasks| && u != t ==> g.tasks[u].Idle?
  }

  lemma DeadlockTail(cfg: Config, s: State, run: Run, g: State, vm: Vm) returns (more: Run)
    requires cfg.order.ActiveFirst? && Exec(cfg, s, run) == Some(g)
    requires |g.tasks| >= 2 && g.tasks[1] == AcqCheck1 && OnlyOne(g, 1) && g.warm == [vm] && g.locks == map[]
    ensures NoWarmUp(run) ==> NoWarmUp(more)
    ensures Exec(cfg, s, more).Some? && CrossedAndBlocked(cfg, Exec(cfg, s, more).value, 0, 1)
  {
    hide Exec, NoWarmUp, Next, CrossedAndBlocked;
    var rest := g.tasks[0];
    assert g == At(g, 0, rest, map[]);
    StepAlone(cfg, g, 0, rest, map[], Start(Acquire), g, AcqPop, map[]);
    more := Hop(cfg, s, run, g, 0, Start(Acquire), At(g, 0, AcqPop, map[]));
    var h, held := g.(warm := []), map[PoolLock := 0];
    StepAlone(cfg, g, 0, AcqPop, map[], Go(Fine), At(h, 0, AcqPop, map[]), AcqMove(vm), held);
    more := Hop(cfg, s, more, At(g, 0, AcqPop, map[]), 0, Go(Fine), At(h, 0, AcqMove(vm), held));
    var from := At(h, 0, AcqMove(vm), held);
    TakeActive(cfg, from);
    more := Hop(cfg, s, more, from, 1, Go(Fine), Next(cfg, from, 1, Go(Fine)).value);
  }

  lemma TakeActive(cfg: Config, from: State)
    requires |from.tasks| >= 2 && from.tasks[0].AcqMove? && from.tasks[1].AcqCheck1?
    requires forall u :: 2 <= u < |from.tasks| ==> from.tasks[u].Idle?
    requires cfg.order.ActiveFirst? && ActiveLock !in from.locks
    ensures Next(cfg, from, 1, Go(Fine)).Some? && CrossedAndBlocked(cfg, Next(cfg, from, 1, Go(Fine)).value, 0, 1)
  {
  }

  ghost predicate NonePopped(s: State) {
    s.warm == [] && forall t :: 0 <= t < |s.tasks| ==> !s.tasks[t].AcqMove? && W(Passing, s.tasks[t]) == 0
  }

  lemma QuietNonePopped(cfg: Config, s: State, pc: Pc, io: Io)
    requires cfg.maxWarm == 0 && s.warm == [] && !pc.AcqMove? && W(Passing, pc) == 0 && !Warming(pc) && Awaiting(pc)
    ensures var (s1, pc1) := Quiet(cfg, s, pc, io);
      s1.warm == [] && !pc1.AcqMove? && W(Passing, pc1) == 0
  {
    hide MicroVms.Call, Clean;
  }

  lemma BodyNonePopped(cfg: Config, s: State, pc: Pc, m: Move)
    requires cfg.maxWarm == 0 && s.warm == [] && !pc.AcqMove? && W(Passing, pc) == 0 && !Warming(pc)
    requires Body(cfg, s, pc, m).Some?
    ensures var (s1, pc1) := Body(cfg, s, pc, m).value;
      s1.warm == [] && !pc1.AcqMove? && W(Passing, pc1) == 0
  {
    hide Quiet, FreshVm;
    if Awaiting(pc) {
      QuietNonePopped(cfg, s, pc, m.io);
    }
  }

  lemma {:induction false} NonePoppedRun(cfg: Config, s: State, run: Run)
    requires cfg.maxWarm == 0 && NonePopped(s) && NoneWarming(s) && NoWarmUp(run) && Exec(cfg, s, run).Some?
    ensures NonePopped(Exec(cfg, s, run).value)
    decreases |run|
  {
    hide Body, W, Warming, Relock;
    if run != [] {
      var (t, m) := run[0];
      BodyNonePopped(cfg, s, s.tasks[t], m);
      BodyWarming(cfg, s, s.tasks[t], m);
      NonePoppedRun(cfg, Next(cfg, s, t, m).value, run[1..]);
    }
  }

  lemma CrossedHasWeight(s: State, p: nat, a: nat)
    requires Crossed(s, p, a)
    ensures |s.tasks| >= 2 && Total(s) >= 1
  {
    SumUpdate(Weight, s.tasks, p, s.tasks[p]);
  }

  lemma CrossingNeedsTwo(cfg: Config, k: nat, run: Run, p: nat, a: nat)
    requires cfg.codec.Valid() && Exec(cfg, Init(k), run).Some?
    requires Crossed(Exec(cfg, Init(k), run).value, p, a)
    ensures cfg.order.ActiveFirst? && k >= 2
  {
    hide Exec, Safe, Next, Codec.Valid, Contents, LocksAgree, Total, Sum, W;
    var s := Exec(cfg, Init(k), run).value;
    SafeInit(cfg, k);
    SafeRun(cfg, Init(k), run);
    SafeParts(cfg, s);
    CrossedBlock(cfg, s, p, a);
    CrossedHasWeight(s, p, a);
    SameTasks(cfg, Init(k), run);
  }

  /** A crossing without warm_up needs two tasks, a VM, and a place for it in the warm pool. */
  lemma CrossingNeeds(cfg: Config, k: nat, run: Run, p: nat, a: nat)
    requires cfg.codec.Valid() && NoWarmUp(run) && Exec(cfg, Init(k), run).Some?
    requires Crossed(Exec(cfg, Init(k), run).value, p, a)
    ensures cfg.order.ActiveFirst? && k >= 2 && cfg.maxTotal >= 1 && cfg.maxWarm >= 1
  {
    hide Exec, Safe, Next, NoWarmUp, Codec.Valid, Total, Sum, W;
    var s := Exec(cfg, Init(k), run).value;
    CrossingNeedsTwo(cfg, k, run, p, a);
    BoundedOvershoot(cfg, k, run);
    CrossedHasWeight(s, p, a);
    if cfg.maxWarm == 0 {
      InitNonePopped(k);
      NonePoppedRun(cfg, Init(k), run);
    }
  }

  lemma InitNonePopped(k: nat)
    ensures NonePopped(Init(k)) && NoneWarming(Init(k))
  {
  }

  lemma {:induction false} SameTasks(cfg: Config, s: State, run: Run)
    requires Exec(cfg, s, run).Some?
    ensures |Exec(cfg, s, run).value.tasks| == |s.tasks|
    decreases |run|
  {
    hide Body;
    if run != [] {
      SameTasks(cfg, Next(cfg, s, run[0].0, run[0].1).value, run[1..]);
    }
  }

  /** Some run without warm_up ends with every unfinished call waiting for a lock. */
  ghost predicate CanDeadlock(cfg: Config, k: nat) {
    exists run: Run :: NoWarmUp(run) && Exec(cfg, Init(k), run).Some? && DeadEnd(cfg, Exec(cfg, Init(k), run).value)
  }

  /** K tasks can deadlock exactly in the source's order, with at least two tasks and both limits at least 1. */
  lemma DeadlockIff(cfg: Config, k: nat)
    requires cfg.codec.Valid()
    ensures CanDeadlock(cfg, k) <==> cfg.order.ActiveFirst? && k >= 2 && cfg.maxTotal >= 1 && cfg.maxWarm >= 1
  {
    hide Exec, NoWarmUp, DeadEnd, Crossed, Safe, Codec.Valid;
    if CanDeadlock(cfg, k) {
      var run: Run :| NoWarmUp(run) && Exec(cfg, Init(k), run).Some? && DeadEnd(cfg, Exec(cfg, Init(k), run).value);
      DeadEndIsCrossing(cfg, k, run);
      var p, a :| Crossed(Exec(cfg, Init(k), run).value, p, a);
      CrossingNeeds(cfg, k, run, p, a);
    }
    if cfg.order.ActiveFirst? && k >= 2 && cfg.maxTotal >= 1 && cfg.maxWarm >= 1 {
      var run := DeadlockReached(cfg, k);
      var s := Exec(cfg, Init(k), run).value;
      DeadEndIsCrossing(cfg, k, run);
      assert DeadEnd(cfg, s);
    }
  }

  lemma DeadEndIsCrossing(cfg: Config, k: nat, run: Run)
    requires cfg.codec.Valid() && Exec(cfg, Init(k), run).Some?
    ensures var s := Exec(cfg, Init(k), run).value;
      && (DeadEnd(cfg, s) ==> exists p, a :: Crossed(s, p, a))
      && ((exists p, a :: CrossedAndBlocked(cfg, s, p, a)) ==> DeadEnd(cfg, s))
  {
    hide Exec, DeadEnd, Safe, Codec.Valid, Crossed;
    var s := Exec(cfg, Init(k), run).value;
    SafeInit(cfg, k);
    SafeRun(cfg, Init(k), run);
    SafeParts(cfg, s);
    DeadEndIff(cfg, s);
    if DeadEnd(cfg, s) {
      var p, a :| CrossedAndBlocked(cfg, s, p, a);
      assert Crossed(s, p, a);
    }
  }

  // ---- with warm_up, which looks at no limit ----

  /** Task 0 warms the pool up with one VM. */
  lemma WarmedByOne(cfg: Config, k: nat, run: Run, g: State) returns (more: Run)
    requires |g.tasks| >= 2 && g.tasks[0].Idle? && g.locks == map[] && g.warm == [] && g.created == {}
    requires Exec(cfg, Init(k), run) == Some(g)
    ensures Exec(cfg, Init(k), more) == Some(At(g.(warm := [BlankVm(0)], created := {0}), 0, Idle(Done), map[]))
  {
    hide Exec, NoWarmUp, Next, Clean;
    var i, vm := Init(k), BlankVm(0);
    BlankIsClean();
    assert g == At(g, 0, g.tasks[0], map[]);
    StepAlone(cfg, g, 0, g.tasks[0], map[], Start(WarmUp(1)), g, WarmCount(1), map[]);
    more := Hop(cfg, i, run, g, 0, Start(WarmUp(1)), At(g, 0, WarmCount(1), map[]));
    StepAlone(cfg, g, 0, WarmCount(1), map[], Go(Fine), At(g, 0, WarmCount(1), map[]), WarmBoot(1), map[]);
    more := Hop(cfg, i, more, At(g, 0, WarmCount(1), map[]), 0, Go(Fine), At(g, 0, WarmBoot(1), map[]));
    var born := g.(created := {0});
    assert g.created + {0} == {0};
    var mid := At(born, 0, WarmBoot(1), map[]);
    StepAlone(cfg, g, 0, WarmBoot(1), map[], Boot(Some(vm)), mid, WarmPush(vm, 1), map[]);
    more := Hop(cfg, i, more, At(g, 0, WarmBoot(1), map[]), 0, Boot(Some(vm)), At(born, 0, WarmPush(vm, 1), map[]));
    more := WarmPushedOne(cfg, k, more, born, vm);
  }

  lemma WarmPushedOne(cfg: Config, k: nat, run: Run, g: State, vm: Vm) returns (more: Run)
    requires |g.tasks| >= 2 && g.warm == [] && Exec(cfg, Init(k), run) == Some(At(g, 0, WarmPush(vm, 1), map[]))
    ensures Exec(cfg, Init(k), more) == Some(At(g.(warm := [vm]), 0, Idle(Done), map[]))
  {
    hide Exec, NoWarmUp, Next;
    var pushed := g.(warm := [vm]);
    assert g.warm + [vm] == [vm];
    StepAlone(cfg, g, 0, WarmPush(vm, 1), map[], Go(Fine), At(pushed, 0, WarmPush(vm, 1), map[]), Idle(Done), map[]);
    more := Hop(cfg, Init(k), run, At(g, 0, WarmPush(vm, 1), map[]), 0, Go(Fine), At(pushed, 0, Idle(Done), map[]));
  }

  /** Task 1 finds the pool empty; task 0 warms it up and acquires; both limits may be 0. */
  lemma DeadlockByWarmUp(cfg: Config, k: nat) returns (run: Run)
    requires cfg.order.ActiveFirst? && k >= 2
    ensures Exec(cfg, Init(k), run).Some? && CrossedAndBlocked(cfg, Exec(cfg, Init(k), run).value, 0, 1)
  {
    hide Exec, NoWarmUp, Next, CrossedAndBlocked;
    var g := Init(k);
    run := NoStepsYet(cfg, k);
    assert g == At(g, 1, Idle(Nothing), map[]);
    StepAlone(cfg, g, 1, Idle(Nothing), map[], Start(Acquire), g, AcqPop, map[]);
    run := Hop(cfg, g, run, g, 1, Start(Acquire), At(g, 1, AcqPop, map[]));
    run := PopEmpty(cfg, g, run, g, 1);
    var g1 := At(g, 1, AcqCheck1, map[]);
    run := WarmedByOne(cfg, k, run, g1);
    var g2 := At(g1.(warm := [BlankVm(0)], created := {0}), 0, Idle(Done), map[]);
    run := DeadlockTail(cfg, g, run, g2, BlankVm(0));
  }

  lemma NoStepsYet(cfg: Config, k: nat) returns (run: Run)
    ensures NoWarmUp(run) && Exec(cfg, Init(k), run) == Some(Init(k))
  {
    run := [];
  }

  /** Some run, warm_up allowed, ends with every unfinished call waiting for a lock. */
  ghost predicate CanDeadlockAnyhow(cfg: Config, k: nat) {
    exists run: Run :: Exec(cfg, Init(k), run).Some? && DeadEnd(cfg, Exec(cfg, Init(k), run).value)
  }

  /** With warm_up the limits do not matter: K tasks can deadlock exactly in the source's order and with K >= 2. */
  lemma DeadlockAnyhowIff(cfg: Config, k: nat)
    requires cfg.codec.Valid()
    ensures CanDeadlockAnyhow(cfg, k) <==> cfg.order.ActiveFirst? && k >= 2
  {
    hide Exec, DeadEnd, Crossed, Safe, Codec.Valid;
    if CanDeadlockAnyhow(cfg, k) {
      var run: Run :| Exec(cfg, Init(k), run).Some? && DeadEnd(cfg, Exec(cfg, Init(k), run).value);
      DeadEndIsCrossing(cfg, k, run);
      var p, a :| Crossed(Exec(cfg, Init(k), run).value, p, a);
      CrossingNeedsTwo(cfg, k, run, p, a);
    }
    if cfg.order.ActiveFirst? && k >= 2 {
      var run := DeadlockByWarmUp(cfg, k);
      DeadEndIsCrossing(cfg, k, run);
    }
  }

  // ---- what the locks are for ----

  predicate Has(cfg: Config, pc: Pc, l: Lock) {
    l in Owns(cfg, pc) || Wants(cfg, pc) == Some(l)
  }

  lemma QuietWithoutActive(cfg: Config, s: State, active: map<nat, Vm>, pc: Pc, io: Io)
    requires Awaiting(pc) && !Has(cfg, pc, ActiveLock)
    ensures var (s1, pc1) := Quiet(cfg, s, pc, io);
      s1.active == s.active && Quiet(cfg, s.(active := active), pc, io) == (s1.(active := active), pc1)
  {
    hide MicroVms.Call;
  }

  lemma QuietWithoutPool(cfg: Config, s: State, warm: seq<Vm>, pc: Pc, io: Io)
    requires Awaiting(pc) && !Has(cfg, pc, PoolLock)
    ensures var (s1, pc1) := Quiet(cfg, s, pc, io);
      s1.warm == s.warm && Quiet(cfg, s.(warm := warm), pc, io) == (s1.(warm := warm), pc1)
  {
    hide MicroVms.Call;
  }

  /** A step without the active lock neither reads nor writes the active VMs: it does the same whatever they are. */
  lemma ActiveIsGuarded(cfg: Config, s: State, active: map<nat, Vm>, pc: Pc, m: Move)
    requires !Has(cfg, pc, ActiveLock)
    ensures match Body(cfg, s, pc, m)
      case None => Body(cfg, s.(active := active), pc, m).None?
      case Some((s1, pc1)) =>
        s1.active == s.active && Body(cfg, s.(active := active), pc, m) == Some((s1.(active := active), pc1))
  {
    hide Quiet, Clean, Has;
    if Awaiting(pc) && m.Go? {
      QuietWithoutActive(cfg, s, active, pc, m.io);
    }
  }

  /** ... and one without the pool lock neither reads nor writes the warm VMs. */
  lemma WarmIsGuarded(cfg: Config, s: State, warm: seq<Vm>, pc: Pc, m: Move)
    requires !Has(cfg, pc, PoolLock)
    ensures match Body(cfg, s, pc, m)
      case None => Body(cfg, s.(warm := warm), pc, m).None?
      case Some((s1, pc1)) =>
        s1.warm == s.warm && Body(cfg, s.(warm := warm), pc, m) == Some((s1.(warm := warm), pc1))
  {
    hide Quiet, Clean, Has;
    if Awaiting(pc) && m.Go? {
      QuietWithoutPool(cfg, s, warm, pc, m.io);
    }
  }

  /** Booting, resetting and shutting down go on without any lock; talking to a guest on behalf of a user keeps the
      active lock. Besides that, a lock is kept over a wait only while the other one is awaited. */
  lemma SlowWithoutLocks(cfg: Config, pc: Pc)
    ensures pc.Idle? || pc.AcqBoot? || pc.WarmBoot? || pc.RelReset? || pc.RelKill? || pc.ShutActive? || pc.ShutWarm?
      ==> forall l :: !Has(cfg, pc, l)
    ensures pc.UseCall? ==> Has(cfg, pc, ActiveLock) && !Has(cfg, pc, PoolLock)
    ensures Owns(cfg, pc) != {} && !pc.UseCall? ==>
      pc.AcqMove? || ((pc.AcqCheck2? || pc.Stats2?) && Wants(cfg, pc).Some? && Wants(cfg, pc).value !in Owns(cfg, pc))
  {
  }
}
