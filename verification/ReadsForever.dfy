/** How a call comes to wait for bytes that never come: a reply over the limit whose length is 1 more than a multiple
    of 4, and after it calls whose replies are 175 bytes long. */
module ReadsForever {
  import opened Common
  import opened Framing
  import opened Protocol
  import opened GuestLoader
  import opened GuestAgent
  import opened HostLink
  import opened MicroVms
  import opened CodecExists
  import opened Pool
  import opened PoolLocks
  import PoolManager
  import MirrorLost

  /** Compact JSON objects end in a brace. */
  const BRACE: byte := 0x7d

  /** A length put together from a brace and the low bytes of 175 spans, with its own four bytes, 251 frames of 179
      bytes exactly, so the next read begins at a brace as well. */
  const LENGTH: nat := 175

  const FRAME: nat := 179

  const SPAN: nat := 251

  predicate Fits(c: Codec, m: GuestResponse) {
    |c.encResp(m)| == LENGTH && c.encResp(m)[LENGTH - 1] == BRACE
  }

  predicate Uniform(c: Codec, ms: seq<GuestResponse>) {
    forall i :: 0 <= i < |ms| ==> Fits(c, ms[i])
  }

  lemma {:induction false} UniformFrames(c: Codec, ms: seq<GuestResponse>, k: nat)
    requires Uniform(c, ms) && k <= |ms|
    ensures |Frames(c, ms)| == FRAME * |ms| && Frames(c, ms)[FRAME * k..] == Frames(c, ms[k..])
    ensures k > 0 ==> Frames(c, ms)[FRAME * k - 1] == BRACE
  {
    hide ToLe;
    if ms == [] {
    } else {
      var f, rest := Frame(c, ms[0]), Frames(c, ms[1..]);
      assert Fits(c, ms[0]) && |f| == FRAME && f[FRAME - 1] == BRACE;
      UniformFrames(c, ms[1..], if k == 0 then 0 else k - 1);
      if k > 0 {
        assert (f + rest)[FRAME * k..] == rest[FRAME * (k - 1)..];
        assert ms[1..][k - 1..] == ms[k..];
        assert k > 1 ==> (f + rest)[FRAME * k - 1] == rest[FRAME * (k - 1) - 1];
      } else {
        assert (f + rest)[0..] == f + rest && ms[0..] == ms;
      }
    }
  }

  /** What the host's reader makes of a brace before such frames: with 251 of them it swallows them all but the last
      brace, and with fewer it waits. */
  lemma ReadStraddling(c: Codec, ms: seq<GuestResponse>)
    requires c.ValidResponses() && ms != [] && Uniform(c, ms)
    ensures var (r, rest) := ReadReply(c, [BRACE] + Frames(c, ms));
      if |ms| < SPAN then r == Err(StillWaiting)
      else r.Err? && r != Err(StillWaiting) && rest == [BRACE] + Frames(c, ms[SPAN..])
  {
    hide Codec.ValidResponses, Uniform, Frames;
    var f := Frames(c, ms);
    var b := [BRACE] + f;
    UniformFrames(c, ms, 0);
    FirstLength(c, ms);
    assert b[..4] == [BRACE] + f[..3];
    Straddling(c, [BRACE], ms);
    if |ms| >= SPAN {
      UniformFrames(c, ms, SPAN);
      assert b[FRAME * SPAN..] == f[FRAME * SPAN - 1..] == [BRACE] + f[FRAME * SPAN..];
    }
  }

  lemma FirstLength(c: Codec, ms: seq<GuestResponse>)
    requires ms != [] && Uniform(c, ms)
    ensures |Frames(c, ms)| >= 3 && FromLe([BRACE] + Frames(c, ms)[..3]) == FRAME * SPAN - 4
  {
    assert Fits(c, ms[0]);
    assert Frame(c, ms[0])[..3] == ToLe(LENGTH)[..3] == [LENGTH, 0, 0];
    assert Frames(c, ms)[..3] == Frame(c, ms[0])[..3];
    assert [BRACE] + [LENGTH, 0, 0] == [BRACE, LENGTH, 0, 0];
  }

  /** The next n replies to this command are of that length. */
  ghost predicate Steady(c: Codec, g: Guest, cmd: GuestCommand, n: nat)
    decreases n
  {
    n > 0 ==> Fits(c, Handled(g, cmd).1) && Steady(c, Handled(g, cmd).0, cmd, n - 1)
  }

  function Repeat(cmd: GuestCommand, n: nat): seq<GuestCommand> {
    if n == 0 then [] else [cmd] + Repeat(cmd, n - 1)
  }

  lemma {:induction false} RepeatCallable(c: Codec, cmd: GuestCommand, n: nat)
    requires Callable(c, cmd)
    ensures AllCallable(c, Repeat(cmd, n)) && |Repeat(cmd, n)| == n
    ensures UserCommand(cmd) ==> forall i :: 0 <= i < n ==> UserCommand(Repeat(cmd, n)[i])
  {
    if n > 0 {
      RepeatCallable(c, cmd, n - 1);
    }
  }

  lemma {:induction false} SteadyReplies(c: Codec, g: Guest, cmd: GuestCommand, n: nat, more: nat)
    requires Steady(c, g, cmd, n + more)
    ensures Uniform(c, Replies(g, Repeat(cmd, n))) && |Replies(g, Repeat(cmd, n))| == n
    ensures Steady(c, HandledAll(g, Repeat(cmd, n)), cmd, more)
    decreases n
  {
    hide Handled, Fits;
    if n > 0 {
      assert Repeat(cmd, n)[1..] == Repeat(cmd, n - 1);
      SteadyReplies(c, Handled(g, cmd).0, cmd, n - 1, more);
    }
  }

  /** One call with a brace and such frames unread. */
  lemma StraddlingCall(c: Codec, s: Session, cmd: GuestCommand, queue: seq<GuestResponse>)
    requires c.Valid() && Ready(s.link) && Callable(c, cmd) && Uniform(c, queue)
    requires s.link.toHost == [BRACE] + Frames(c, queue) && Fits(c, Handled(s.link.guest, cmd).1)
    ensures var (g, reply) := Handled(s.link.guest, cmd);
      var s1 := Call(c, s, cmd, Fine).0;
      && (|queue| + 1 < SPAN ==> Waits(c, s, cmd))
      && (|queue| + 1 >= SPAN ==>
            && Ready(s1.link) && s1.link.guest == g
            && s1.link.toHost == [BRACE] + Frames(c, (queue + [reply])[SPAN..])
            && Uniform(c, (queue + [reply])[SPAN..]))
  {
    hide Handled, Answer, ReadReply, Deliver, Frames, Frame, Codec.Valid, Note, Callable, Fits;
    CallableParses(c, cmd, s.link.guest);
    DeliverOne(c, s.link, c.encCmd(cmd));
    var reply := Handled(s.link.guest, cmd).1;
    FramesOneMore(c, queue, reply);
    ConcatAssoc([BRACE], Frames(c, queue), Frame(c, reply));
    assert forall i :: 0 <= i <= |queue| ==> (queue + [reply])[i] == if i < |queue| then queue[i] else reply;
    ValidParts(c);
    ReadStraddling(c, queue + [reply]);
  }

  lemma ValidParts(c: Codec)
    requires c.Valid()
    ensures c.ValidResponses()
  {
  }

  /** Each call eats 251 frames and adds one, so some call is left with too few. */
  lemma {:induction false} WaitsEventually(c: Codec, s: Session, cmd: GuestCommand, queue: seq<GuestResponse>)
    returns (n: nat)
    requires c.Valid() && Ready(s.link) && Callable(c, cmd) && Uniform(c, queue)
    requires s.link.toHost == [BRACE] + Frames(c, queue) && Steady(c, s.link.guest, cmd, |queue| + 1)
    ensures Waits(c, CallAll(c, s, Repeat(cmd, n)), cmd)
    decreases |queue|
  {
    hide Handled, Call, Frames, Codec.Valid, Callable, Waits, Fits;
    StraddlingCall(c, s, cmd, queue);
    n := 0;
    if |queue| + 1 >= SPAN {
      var (g, reply) := Handled(s.link.guest, cmd);
      var left := (queue + [reply])[SPAN..];
      SteadyLess(c, g, cmd, |queue|, |left| + 1);
      n := WaitsEventually(c, Call(c, s, cmd, Fine).0, cmd, left);
      n := n + 1;
      assert Repeat(cmd, n)[1..] == Repeat(cmd, n - 1);
    }
  }

  lemma {:induction false} SteadyLess(c: Codec, g: Guest, cmd: GuestCommand, n: nat, m: nat)
    requires Steady(c, g, cmd, n) && m <= n
    ensures Steady(c, g, cmd, m)
    decreases n
  {
    hide Handled, Fits;
    if m > 0 {
      SteadyLess(c, Handled(g, cmd).0, cmd, n - 1, m - 1);
    }
  }

  /** For every codec: after an unread reply of N bytes, N = 4m + 1, that ends in a brace, and as long as a command
      keeps drawing replies of 175 bytes that do so too, repeating that command ends in a call that waits for bytes
      that never come. */
  lemma WaitReached(c: Codec, s: Session, big: GuestCommand, cmd: GuestCommand, m: nat) returns (n: nat)
    requires c.Valid() && Aligned(s.link) && Callable(c, big) && Callable(c, cmd)
    requires var p := c.encResp(Handled(s.link.guest, big).1);
      MAX_MESSAGE_SIZE < |p| < 0x1_0000_0000 && |p| == 4 * m + 1 && p[4 * m] == BRACE
    requires Steady(c, Handled(s.link.guest, big).0, cmd, m + (m + 1))
    ensures Waits(c, CallAll(c, s, [big] + Repeat(cmd, n)), cmd)
  {
    hide Handled, Exchange, Note, Frames, Codec.Valid, Callable, Steady, Waits, Fits, Printable;
    var (g, reply) := Handled(s.link.guest, big);
    var p := c.encResp(reply);
    OversizeLeft(c, s.link, big);
    CodecPrintable(c, reply);
    PrintablePart(p, 4 * m);
    var s1 := Call(c, s, big, Fine).0;
    assert s1.link.toHost == p == p[..4 * m] + [BRACE];
    RepeatCallable(c, cmd, m);
    JunkLeaves(c, s1, Repeat(cmd, m), p[..4 * m], [BRACE]);
    MirrorStandsStill(c, s1, Repeat(cmd, m), p[..4 * m], [BRACE]);
    SteadyReplies(c, g, cmd, m, m + 1);
    var s2 := CallAll(c, s1, Repeat(cmd, m));
    n := WaitsEventually(c, s2, cmd, Replies(g, Repeat(cmd, m)));
    CallAllConcat(c, s1, Repeat(cmd, m), Repeat(cmd, n));
    RepeatConcat(cmd, m, n);
    n := m + n;
    assert ([big] + Repeat(cmd, n))[1..] == Repeat(cmd, n);
  }

  lemma PrintablePart(p: seq<byte>, k: nat)
    requires Printable(p) && k <= |p|
    ensures Printable(p[..k])
  {
  }

  lemma {:induction false} RepeatConcat(cmd: GuestCommand, a: nat, b: nat)
    ensures Repeat(cmd, a) + Repeat(cmd, b) == Repeat(cmd, a + b)
  {
    if a > 0 {
      RepeatConcat(cmd, a - 1, b);
      ConcatAssoc([cmd], Repeat(cmd, a - 1), Repeat(cmd, b));
    } else {
      assert [] + Repeat(cmd, b) == Repeat(cmd, b);
    }
  }

  // ---- in the pool ----

  lemma LeadsOn(cfg: Config, s: State, s1: State, s2: State)
    requires PoolManager.Leads(cfg, s, s1) && PoolManager.Leads(cfg, s1, s2)
    ensures PoolManager.Leads(cfg, s, s2)
  {
    hide Exec;
    var a: Run :| Exec(cfg, s, a) == Some(s1);
    var b: Run :| Exec(cfg, s1, b) == Some(s2);
    ExecConcat(cfg, s, a, b);
    assert Exec(cfg, s, a + b) == Some(s2);
  }

  /** A task makes calls on a VM, one after the other. */
  lemma {:induction false} UseAll(cfg: Config, s: State, id: nat, cmds: seq<GuestCommand>) returns (s1: State)
    requires PoolManager.Resting(s) && id in s.active && forall i :: 0 <= i < |cmds| ==> UserCommand(cmds[i])
    ensures PoolManager.Resting(s1) && PoolManager.Leads(cfg, s, s1)
    ensures id in s1.active && s1.active[id].session == CallAll(cfg.codec, s.active[id].session, cmds)
    decreases |cmds|
  {
    hide MicroVms.Call, PoolManager.Leads;
    if cmds == [] {
      s1 := s;
      Stays(cfg, s);
    } else {
      var vm := s.active[id].(session := MicroVms.Call(cfg.codec, s.active[id].session, cmds[0], Fine).0);
      var mid := s.(active := s.active[id := vm], tasks := [Idle(Done)]);
      PoolManager.UseActive(cfg, s, id, cmds[0], Fine);
      s1 := UseAll(cfg, mid, id, cmds[1..]);
      LeadsOn(cfg, s, mid, s1);
    }
  }

  lemma Stays(cfg: Config, s: State)
    ensures PoolManager.Leads(cfg, s, s)
  {
    assert Exec(cfg, s, []) == Some(s);
  }

  lemma FirstAcquire(cfg: Config, vm: Vm) returns (s: State)
    requires cfg.maxTotal >= 1 && Clean(vm.session)
    ensures Reachable(cfg, 1, s) && PoolManager.Resting(s) && vm.id in s.active && s.active[vm.id] == vm
  {
    hide PoolManager.Leads, Clean, Reachable;
    var i := Init(1);
    StartsReachable(cfg);
    assert i.tasks == [Idle(Nothing)];
    PoolManager.AcquireCreates(cfg, i, vm);
    s := i.(active := i.active[vm.id := vm], created := i.created + {vm.id}, tasks := [Idle(Acquired(vm.id))]);
    PoolManager.ReachableOn(cfg, i, s);
  }

  lemma UseBegun(cfg: Config, s: State, id: nat, cmd: GuestCommand)
    requires PoolManager.Resting(s) && id in s.active && UserCommand(cmd)
    ensures PoolManager.Leads(cfg, s, PoolManager.Alone(cfg, s, UseCall(id, cmd)))
  {
    hide PoolManager.Leads, MicroVms.Call;
    PoolManager.Begin(cfg, s, Use(id, cmd));
    PoolManager.Forward(cfg, s, s, UseTake(id, cmd), Go(Fine), s, UseCall(id, cmd));
  }

  /** A VM on which these calls lead to a wait leads a task of the pool into it, with the active lock held. */
  lemma PoolReads(cfg: Config, session: Session, cmds: seq<GuestCommand>, cmd: GuestCommand) returns (s: State)
    requires cfg.maxTotal >= 1 && Clean(session) && UserCommand(cmd)
    requires forall i :: 0 <= i < |cmds| ==> UserCommand(cmds[i])
    requires Waits(cfg.codec, CallAll(cfg.codec, session, cmds), cmd)
    ensures Reachable(cfg, 1, s) && Unfinished(s, 0) && Reading(cfg, s, 0) && ActiveLock in s.locks
  {
    hide PoolManager.Leads, Waits, Clean, Reachable, CallAll;
    var s0 := FirstAcquire(cfg, Vm(0, session));
    var s1 := UseAll(cfg, s0, 0, cmds);
    PoolManager.ReachableOn(cfg, s0, s1);
    UseBegun(cfg, s1, 0, cmd);
    s := PoolManager.Alone(cfg, s1, UseCall(0, cmd));
    PoolManager.ReachableOn(cfg, s1, s);
  }

  lemma StartsReachable(cfg: Config)
    ensures Reachable(cfg, 1, Init(1))
  {
    assert Exec(cfg, Init(1), []) == Some(Init(1));
  }

  // ---- a VM that does it ----

  /** So many letters of trace, 16,777,645 bytes as a reply. */
  const TRACE: nat := 169_471

  /** A long trace at first, and short trigger outputs after it. */
  function World(): nat -> Kernel {
    t => Kernel(None, true, false, if t == 0 then MirrorLost.Long(TRACE) else "a>", 0, {})
  }

  function Booted(): Session {
    Session(map[], Link(NewGuest(World()), [], [], true))
  }

  const READ_TRACE: GuestCommand := ReadTrace(0, 0)

  const TRIGGER: GuestCommand := Trigger("", "", [])

  lemma CommandsFit()
    ensures Callable(TextCodec(), READ_TRACE) && Callable(TextCodec(), TRIGGER)
  {
    hide Text;
    MirrorLost.SizeEnd();
    MirrorLost.SizeNum(0, End);
    MirrorLost.SizeNum(0, Num(0, End));
    MirrorLost.SizeNum(9, Num(0, Num(0, End)));
    MirrorLost.SizeNum(0, Num(0, Num(0, End)));
    MirrorLost.SizeNum(8, Num(0, Num(0, Num(0, End))));
    assert CommandNumbers(TRIGGER) == Num(8, Num(0, Num(0, Num(0, End))));
  }

  lemma TraceLength()
    ensures var p := TextCodec().encResp(TraceOutput([MirrorLost.Long(TRACE)]));
      |p| == 4 * 4_194_411 + 1 && p[|p| - 1] == BRACE
  {
    hide Text, MirrorLost.Long, PutString;
    var name := PutString(MirrorLost.Long(TRACE), Num(0, End));
    MirrorLost.SizeEnd();
    MirrorLost.SizeNum(0, End);
    MirrorLost.SizeLong(TRACE, Num(0, End));
    MirrorLost.SizeNum(1, name);
    MirrorLost.SizeNum(10, Num(1, name));
    var lines := [MirrorLost.Long(TRACE)];
    assert lines[1..] == [] && PutStrings([], End) == Num(0, End);
    assert PutStrings(lines, End) == Num(1, name);
    assert ResponseNumbers(TraceOutput(lines)) == Num(10, Num(1, name));
    BraceEnds(ResponseNumbers(TraceOutput([MirrorLost.Long(TRACE)])));
  }

  lemma TriggeredLength()
    ensures Fits(TextCodec(), Triggered("a>"))
  {
    hide Text;
    MirrorLost.SizeEnd();
    assert "a>"[1..] == ">" && ">"[1..] == "";
    MirrorLost.SizeNum(62, End);
    MirrorLost.SizeNum(97, Num(62, End));
    MirrorLost.SizeNum(2, Num(97, Num(62, End)));
    MirrorLost.SizeNum(9, Num(2, Num(97, Num(62, End))));
    assert ResponseNumbers(Triggered("a>")) == Num(9, Num(2, Num(97, Num(62, End))));
    BraceEnds(ResponseNumbers(Triggered("a>")));
  }

  lemma {:induction false} SteadyTriggers(g: Guest, n: nat)
    requires g.world == World() && g.tick >= 1
    ensures Steady(TextCodec(), g, TRIGGER, n)
    decreases n
  {
    hide Fits, TextCodec;
    TriggeredLength();
    if n > 0 {
      SteadyTriggers(Handled(g, TRIGGER).0, n - 1);
    }
  }

  /** A clean VM, a trace that is too long to be delivered, and a few million triggers: a task of the pool waits for
      ever with the active lock in its hands, and no lock order has a part in it. */
  lemma ReadingReached(cfg: Config) returns (s: State)
    requires cfg.codec == TextCodec() && cfg.maxTotal >= 1
    ensures Reachable(cfg, 1, s) && Unfinished(s, 0) && Reading(cfg, s, 0) && ActiveLock in s.locks
  {
    hide TextCodec, Steady, Waits, Callable, CallAll, Codec.Valid, MirrorLost.Long, Reachable;
    ValidCodecExists();
    CommandsFit();
    TraceLength();
    var g := Handled(NewGuest(World()), READ_TRACE).0;
    SteadyTriggers(g, 4_194_411 + (4_194_411 + 1));
    var n := WaitReached(TextCodec(), Booted(), READ_TRACE, TRIGGER, 4_194_411);
    RepeatCallable(TextCodec(), TRIGGER, n);
    s := PoolReads(cfg, Booted(), [READ_TRACE] + Repeat(TRIGGER, n), TRIGGER);
  }
}
