/** MicroVm (manager.rs:73-400): the host's record of one VM and its mirror of the guest's program table. */
module MicroVms {
  import opened Common
  import opened Framing
  import opened Protocol
  import opened GuestLoader
  import opened GuestAgent
  import opened HostLink

  /** `programs` is the mirror; it is updated only from replies. */
  datatype Session = Session(programs: map<u32, ProgramInfo>, link: Link)

  /** What the host records when it has received a reply. */
  function Note(programs: map<u32, ProgramInfo>, cmd: GuestCommand, reply: GuestResponse): map<u32, ProgramInfo> {
    match (cmd, reply)
    case (Load(_, _), Loaded(id, info)) => programs[id := info]
    case (Unload(id), Unloaded) => programs - {id}
    case (Reset, ResetComplete) => map[]
    case _ => programs
  }

  /** The reply each typed call waits for. */
  predicate Expected(cmd: GuestCommand, reply: GuestResponse) {
    match cmd
    case Load(_, _) => reply.Loaded?
    case Unload(_) => reply.Unloaded?
    case Attach(_, _) => reply.Attached?
    case Detach(_) => reply.Detached?
    case List => reply.Programs?
    case ReadTrace(_, _) => reply.TraceOutput?
    case Trigger(_, _, _) => reply.Triggered?
    case Reset => reply.ResetComplete?
    case Ping => reply.Pong?
    case _ => false
  }

  function Verdict(cmd: GuestCommand, r: Result<GuestResponse, VmError>): Result<GuestResponse, VmError> {
    if r.Err? || Expected(cmd, r.value) then r
    else if r.value.Error? then Err(GuestRefused(r.value.message))
    else Err(Unexpected)
  }

  /** One typed call on a MicroVm. */
  function Call(c: Codec, s: Session, cmd: GuestCommand, io: Io): (Session, Result<GuestResponse, VmError>) {
    var (l, r) := Exchange(c, s.link, c.encCmd(cmd), io);
    (Session(if r.Ok? then Note(s.programs, cmd, r.value) else s.programs, l), Verdict(cmd, r))
  }

  /** The commands MicroVm's methods send on behalf of a VM's user. */
  predicate UserCommand(cmd: GuestCommand) {
    cmd.Load? || cmd.Unload? || cmd.Attach? || cmd.Detach? || cmd.List? || cmd.ReadTrace? || cmd.Trigger?
  }

  // ---- the mirror ----

  /** Same ids, with the same name, type and path. */
  predicate TablesAgree(programs: map<u32, ProgramInfo>, t: map<u32, LoadedProgram>) {
    && programs.Keys == t.Keys
    && forall id :: id in t ==>
      var h, g := programs[id], t[id].info;
      h.name == g.name && h.programType == g.programType && h.path == g.path
  }

  predicate Agree(s: Session) {
    TablesAgree(s.programs, s.link.guest.table.programs)
  }

  lemma MarkedAgrees(programs: map<u32, ProgramInfo>, t: map<u32, LoadedProgram>, id: u32, target: Option<string>)
    requires TablesAgree(programs, t) && id in t
    ensures TablesAgree(programs, t[id := Marked(t[id], target)])
  {
  }

  lemma LoadAgrees(programs: map<u32, ProgramInfo>, t: map<u32, LoadedProgram>, id: u32, p: LoadedProgram)
    requires TablesAgree(programs, t)
    ensures TablesAgree(programs[id := p.info], t[id := p])
  {
  }

  /** What a command does to the guest table, its reply does to the mirror. */
  lemma NoteAgrees(programs: map<u32, ProgramInfo>, g: Guest, cmd: GuestCommand)
    requires TablesAgree(programs, g.table.programs) && (UserCommand(cmd) || cmd.Reset?)
    ensures var (g1, reply) := Handled(g, cmd);
      TablesAgree(Note(programs, cmd, reply), g1.table.programs)
  {
    hide TablesAgree;
    var t := g.table.programs;
    match cmd
    case Load(_, name) =>
      var (t1, r) := LoadInto(g.table, name, g.world(g.tick));
      if r.Ok? {
        LoadAgrees(programs, t, r.value.id, t1.programs[r.value.id]);
      }
    case Unload(id) => UnloadAgrees(programs, t, id);
    case Attach(id, target) => if id in t { MarkedAgrees(programs, t, id, Some(target)); }
    case Detach(id) => if id in t { MarkedAgrees(programs, t, id, None); }
    case Reset => EmptyAgrees();
    case _ =>
  }

  lemma UnloadAgrees(programs: map<u32, ProgramInfo>, t: map<u32, LoadedProgram>, id: u32)
    requires TablesAgree(programs, t)
    ensures TablesAgree(programs - {id}, t - {id})
  {
  }

  lemma EmptyAgrees()
    ensures TablesAgree(map[], map[])
  {
  }

  /** With a reply over the limit the guest has acted, and the host has an error. */
  lemma ExchangeMissed(c: Codec, l: Link, payload: seq<byte>)
    requires c.Valid() && Aligned(l) && Sendable(c, payload)
    requires |c.encResp(Answer(c, l.guest, Payload(payload)).1)| > MAX_MESSAGE_SIZE
    ensures var (l1, r) := Exchange(c, l, payload, Fine);
      r.Err? && l1.guest == Answer(c, l.guest, Payload(payload)).0
  {
    var reply := Answer(c, l.guest, Payload(payload)).1;
    DeliverOne(c, l, payload);
    ReadTooLong(c, reply);
    assert [] + Frame(c, reply) == Frame(c, reply);
  }

  /** A run of typed calls. */
  function CallAll(c: Codec, s: Session, cmds: seq<GuestCommand>): Session
    decreases |cmds|
  {
    if cmds == [] then s else CallAll(c, Call(c, s, cmds[0], Fine).0, cmds[1..])
  }

  /** The replies of the guest to a run of commands. */
  function Replies(g: Guest, cmds: seq<GuestCommand>): seq<GuestResponse>
    decreases |cmds|
  {
    if cmds == [] then []
    else
      var (g1, reply) := Handled(g, cmds[0]);
      [reply] + Replies(g1, cmds[1..])
  }

  function HandledAll(g: Guest, cmds: seq<GuestCommand>): Guest
    decreases |cmds|
  {
    if cmds == [] then g else HandledAll(Handled(g, cmds[0]).0, cmds[1..])
  }

  /** A typed call, or a reset, whose command fits. */
  predicate Callable(c: Codec, cmd: GuestCommand) {
    (UserCommand(cmd) || cmd.Reset?) && |c.encCmd(cmd)| <= MAX_MESSAGE_SIZE
  }

  predicate AllCallable(c: Codec, cmds: seq<GuestCommand>) {
    forall i :: 0 <= i < |cmds| ==> Callable(c, cmds[i])
  }

  lemma CallableParses(c: Codec, cmd: GuestCommand, g: Guest)
    requires c.Valid() && Callable(c, cmd)
    ensures Sendable(c, c.encCmd(cmd)) && Answer(c, g, Payload(c.encCmd(cmd))) == Handled(g, cmd)
  {
    hide Handled, Codec.Valid;
    CommandParses(c, cmd, g);
  }

  /** Over every sequence of load, unload, attach, detach, list, trace, trigger and reset calls, guest-side
      errors included, the mirror and the guest table agree as long as every message fits. */
  lemma {:induction false} MirrorAgreement(c: Codec, s: Session, cmds: seq<GuestCommand>)
    requires c.Valid() && Aligned(s.link) && Agree(s) && AllCallable(c, cmds)
    requires AllFit(c, Replies(s.link.guest, cmds))
    ensures var s1 := CallAll(c, s, cmds);
      Aligned(s1.link) && Agree(s1) && s1.link.guest == HandledAll(s.link.guest, cmds)
    decreases |cmds|
  {
    hide Handled, Exchange, TablesAgree, Note, Answer, Codec.Valid;
    if cmds != [] {
      var cmd := cmds[0];
      assert Callable(c, cmd);
      var (g, reply) := Handled(s.link.guest, cmd);
      CallableParses(c, cmd, s.link.guest);
      FitSplit(c, reply, Replies(g, cmds[1..]));
      ExchangeOne(c, s.link, c.encCmd(cmd));
      NoteAgrees(s.programs, s.link.guest, cmd);
      MirrorAgreement(c, Call(c, s, cmd, Fine).0, cmds[1..]);
    }
  }

  // ---- after a reply over the limit ----

  lemma {:induction false} CallAllConcat(c: Codec, s: Session, a: seq<GuestCommand>, b: seq<GuestCommand>)
    ensures CallAll(c, s, a + b) == CallAll(c, CallAll(c, s, a), b)
    decreases |a|
  {
    hide Call;
    if a == [] {
      assert a + b == b;
    } else {
      assert (a + b)[1..] == a[1..] + b;
      CallAllConcat(c, Call(c, s, a[0], Fine).0, a[1..], b);
    }
  }

  lemma {:induction false} HandledAllConcat(g: Guest, a: seq<GuestCommand>, b: seq<GuestCommand>)
    ensures HandledAll(g, a + b) == HandledAll(HandledAll(g, a), b)
    decreases |a|
  {
    hide Handled;
    if a == [] {
      assert a + b == b;
    } else {
      assert (a + b)[1..] == a[1..] + b;
      HandledAllConcat(Handled(g, a[0]).0, a[1..], b);
    }
  }

  lemma ExchangeInJunk(c: Codec, l: Link, cmd: GuestCommand, junk: seq<byte>, tail: seq<byte>)
    requires c.Valid() && Ready(l) && l.toHost == junk + tail && Printable(junk) && |junk| >= 4 && Callable(c, cmd)
    ensures var (g, reply) := Handled(l.guest, cmd);
      && Exchange(c, l, c.encCmd(cmd), Fine)
        == (l.(guest := g, toHost := junk[4..] + (tail + Frame(c, reply))), Err(ResponseTooLarge))
      && g.alive
  {
    hide Handled, Exchange, Codec.Valid, Answer, Frame, Printable;
    CallableParses(c, cmd, l.guest);
    JunkOne(c, l, c.encCmd(cmd), junk, tail);
  }

  /** While printable bytes are unread, the mirror stands still and the guest does not. */
  lemma {:induction false} MirrorStandsStill(c: Codec, s: Session, cmds: seq<GuestCommand>,
        junk: seq<byte>, tail: seq<byte>)
    requires c.Valid() && Ready(s.link) && s.link.toHost == junk + tail && Printable(junk) && 4 * |cmds| <= |junk|
    requires AllCallable(c, cmds)
    ensures var s1 := CallAll(c, s, cmds);
      s1.programs == s.programs && s1.link.guest == HandledAll(s.link.guest, cmds)
    decreases |cmds|
  {
    hide Handled, Exchange, Frame, Codec.Valid;
    if cmds != [] {
      assert Callable(c, cmds[0]);
      ExchangeInJunk(c, s.link, cmds[0], junk, tail);
      var reply := Handled(s.link.guest, cmds[0]).1;
      MirrorStandsStill(c, Call(c, s, cmds[0], Fine).0, cmds[1..], junk[4..], tail + Frame(c, reply));
    }
  }

  /** Same ids, with the same name, type and path. */
  predicate SameRecords(t: map<u32, LoadedProgram>, u: map<u32, LoadedProgram>) {
    && t.Keys == u.Keys
    && forall id :: id in t ==> Kin(t[id], u[id])
  }

  predicate Kin(p: LoadedProgram, q: LoadedProgram) {
    p.info.name == q.info.name && p.info.programType == q.info.programType && p.info.path == q.info.path
  }

  lemma AgreesWithBoth(programs: map<u32, ProgramInfo>, t: map<u32, LoadedProgram>, u: map<u32, LoadedProgram>)
    requires TablesAgree(programs, t)
    ensures TablesAgree(programs, u) <==> SameRecords(t, u)
  {
  }

  lemma CallableParts(c: Codec, before: seq<GuestCommand>, big: GuestCommand, after: seq<GuestCommand>)
    requires AllCallable(c, before + [big] + after)
    ensures AllCallable(c, before) && Callable(c, big) && AllCallable(c, after)
  {
    hide Callable;
    var all := before + [big] + after;
    assert all[|before|] == big;
    assert forall i :: 0 <= i < |before| ==> all[i] == before[i];
    assert forall i :: 0 <= i < |after| ==> all[i + |before| + 1] == after[i];
  }

  /** The first over-limit reply of a run, drawn by any command, freezes the mirror: in this call and in as many
      further ones as its N bytes last for, four a call, loads, unloads and resets alike, the host records
      nothing and the guest carries out everything. So the mirror agrees afterwards exactly when the guest's
      table has the ids, names, types and paths that it had before. */
  lemma MirrorSurvivesIff(c: Codec, s: Session, before: seq<GuestCommand>, big: GuestCommand, after: seq<GuestCommand>)
    requires c.Valid() && Aligned(s.link) && Agree(s) && AllCallable(c, before + [big] + after)
    requires AllFit(c, Replies(s.link.guest, before))
    requires |c.encResp(Handled(HandledAll(s.link.guest, before), big).1)| > MAX_MESSAGE_SIZE
    requires after != [] ==>
      var n := |c.encResp(Handled(HandledAll(s.link.guest, before), big).1)|;
      n < 0x1_0000_0000 && |after| <= n / 4
    ensures var (s1, s2) := (CallAll(c, s, before), CallAll(c, s, before + [big] + after));
      && s2.programs == s1.programs
      && s2.link.guest == HandledAll(s.link.guest, before + [big] + after)
      && (Agree(s2) <==> SameRecords(s1.link.guest.table.programs, s2.link.guest.table.programs))
  {
    hide Handled, Call, CallAll, HandledAll, TablesAgree, SameRecords, AllCallable, AllFit, Codec.Valid, Aligned;
    var all := before + [big] + after;
    CallableParts(c, before, big, after);
    MirrorAgreement(c, s, before);
    var s1 := CallAll(c, s, before);
    FirstMissed(c, s1, big, after);
    CallAllConcat(c, s, before, [big] + after);
    HandledAllConcat(s.link.guest, before, [big] + after);
    assert before + ([big] + after) == all;
    AgreesWithBoth(s1.programs, s1.link.guest.table.programs, CallAll(c, s, all).link.guest.table.programs);
  }

  lemma FirstMissed(c: Codec, s: Session, big: GuestCommand, after: seq<GuestCommand>)
    requires c.Valid() && Aligned(s.link) && Callable(c, big) && AllCallable(c, after)
    requires |c.encResp(Handled(s.link.guest, big).1)| > MAX_MESSAGE_SIZE
    requires after != [] ==>
      var n := |c.encResp(Handled(s.link.guest, big).1)|; n < 0x1_0000_0000 && |after| <= n / 4
    ensures var s1 := CallAll(c, s, [big] + after);
      s1.programs == s.programs && s1.link.guest == HandledAll(s.link.guest, [big] + after)
  {
    hide Handled, Exchange, Codec.Valid, Answer, Callable, Note;
    CallableParses(c, big, s.link.guest);
    ExchangeMissed(c, s.link, c.encCmd(big));
    assert ([big] + after)[1..] == after;
    if after != [] {
      OversizeLeft(c, s.link, big);
      var reply := Handled(s.link.guest, big).1;
      CodecPrintable(c, reply);
      var s1 := Call(c, s, big, Fine).0;
      assert s1.link.toHost == c.encResp(reply) + [];
      MirrorStandsStill(c, s1, after, c.encResp(reply), []);
    }
  }

  lemma CodecPrintable(c: Codec, m: GuestResponse)
    requires c.Valid()
    ensures Printable(c.encResp(m))
  {
  }

  /** What an over-limit reply leaves on the connection: its whole payload. */
  lemma OversizeLeft(c: Codec, l: Link, big: GuestCommand)
    requires c.Valid() && Aligned(l) && Callable(c, big)
    requires MAX_MESSAGE_SIZE < |c.encResp(Handled(l.guest, big).1)| < 0x1_0000_0000
    ensures var (g, reply) := Handled(l.guest, big);
      && g.alive
      && Exchange(c, l, c.encCmd(big), Fine) == (l.(guest := g, toHost := c.encResp(reply)), Err(ResponseTooLarge))
  {
    hide Handled, Exchange, Codec.Valid, Answer;
    CallableParses(c, big, l.guest);
    OversizeUnread(c, l, c.encCmd(big));
    assert c.encResp(Handled(l.guest, big).1) + [] == c.encResp(Handled(l.guest, big).1);
  }

  /** Every program in u is a descendant of the one with its id in t, or was loaded since. */
  predicate Descends(t: Table, u: Table) {
    && t.nextId <= u.nextId
    && forall id :: id in u.programs && id < t.nextId ==> id in t.programs && Kin(t.programs[id], u.programs[id])
  }

  lemma DescendsStep(t: Table, g: Guest, cmd: GuestCommand)
    requires Descends(t, g.table) && (Handled(g, cmd).1.Loaded? ==> g.table.nextId < 0xFFFF_FFFF)
    ensures Descends(t, Handled(g, cmd).0.table)
    ensures Handled(g, cmd).0.table.nextId == g.table.nextId + if Handled(g, cmd).1.Loaded? then 1 else 0
  {
    hide AttachFirst, DetectProgram, Show;
  }

  lemma {:induction false} DescendsRun(t: Table, g: Guest, cmds: seq<GuestCommand>)
    requires Descends(t, g.table) && g.table.nextId + |IdsOf(Replies(g, cmds))| < 0x1_0000_0000
    ensures Descends(t, HandledAll(g, cmds).table)
    decreases |cmds|
  {
    hide Handled, Descends;
    if cmds != [] {
      var (g1, reply) := Handled(g, cmds[0]);
      assert ([reply] + Replies(g1, cmds[1..]))[1..] == Replies(g1, cmds[1..]);
      DescendsStep(t, g, cmds[0]);
      DescendsRun(t, g1, cmds[1..]);
    }
  }

  /** Within the counter's period the ids tell: two guest tables of one run have the same records exactly when
      they have the same ids. */
  lemma SameIdsSuffice(g: Guest, cmds: seq<GuestCommand>)
    requires Within(g.table, 1) && g.table.nextId + |IdsOf(Replies(g, cmds))| < 0x1_0000_0000
    ensures var (t, u) := (g.table.programs, HandledAll(g, cmds).table.programs);
      SameRecords(t, u) <==> t.Keys == u.Keys
  {
    hide Coherent;
    DescendsRun(g.table, g, cmds);
  }

  /** The commands that take a program off the guest. */
  predicate Takes(cmd: GuestCommand, id: u32) {
    cmd == Unload(id) || cmd.Reset?
  }

  predicate Taken(cmds: seq<GuestCommand>, id: u32) {
    exists i :: 0 <= i < |cmds| && Takes(cmds[i], id)
  }

  predicate Ordinary(cmds: seq<GuestCommand>) {
    forall i :: 0 <= i < |cmds| ==> UserCommand(cmds[i]) || cmds[i].Reset?
  }

  /** Reply i is that of a load which was given this id, and nothing took the program off again. */
  predicate LoadedAndKept(cmds: seq<GuestCommand>, replies: seq<GuestResponse>, i: int, id: u32)
    requires |cmds| == |replies|
  {
    0 <= i < |cmds| && replies[i].Loaded? && replies[i].id == id && !Taken(cmds[i + 1..], id)
  }

  lemma {:induction false} RepliesLength(g: Guest, cmds: seq<GuestCommand>)
    ensures |Replies(g, cmds)| == |cmds|
    decreases |cmds|
  {
    hide Handled;
    if cmds != [] {
      RepliesLength(Handled(g, cmds[0]).0, cmds[1..]);
    }
  }

  /** What one command does to the ids. */
  lemma IdsStep(g: Guest, cmd: GuestCommand, id: u32)
    requires Within(g.table, 1) && (UserCommand(cmd) || cmd.Reset?)
    ensures var (g1, reply) := Handled(g, cmd);
      && (reply.Loaded? ==> reply.id == g.table.nextId && cmd.Load?)
      && (id in g1.table.programs <==>
            (id in g.table.programs && !Takes(cmd, id)) || (reply.Loaded? && reply.id == id))
  {
    hide AttachFirst, DetectProgram, Show, Coherent;
  }

  lemma WithinStep(g: Guest, cmd: GuestCommand)
    requires Within(g.table, 1) && (UserCommand(cmd) || cmd.Reset?)
    requires Handled(g, cmd).1.Loaded? ==> g.table.nextId < 0xFFFF_FFFF
    ensures Within(Handled(g, cmd).0.table, 1)
    ensures Handled(g, cmd).0.table.nextId == g.table.nextId + if Handled(g, cmd).1.Loaded? then 1 else 0
  {
    hide Coherent, DetectProgram, AttachFirst, Show;
    var k := g.world(g.tick);
    match cmd
    case Load(_, name) => if g.table.nextId < 0xFFFF_FFFF { LoadWithin(g.table, name, k, 1); }
    case Attach(id, target) => AttachWithin(g.table, id, target, k, 1);
    case Detach(id) => DetachWithin(g.table, id, 1);
    case Unload(id) => ShrinkWithin(g.table, UnloadFrom(g.table, id).0, 1);
    case Reset => ShrinkWithin(g.table, g.table.(programs := map[]), 1);
    case _ =>
  }

  lemma TakenCons(cmd: GuestCommand, cmds: seq<GuestCommand>, id: u32)
    ensures Taken([cmd] + cmds, id) <==> Takes(cmd, id) || Taken(cmds, id)
  {
    var all := [cmd] + cmds;
    if Takes(cmd, id) {
      assert Takes(all[0], id);
    }
    if i :| 0 <= i < |cmds| && Takes(cmds[i], id) {
      assert Takes(all[i + 1], id);
    }
    if i :| 0 <= i < |all| && Takes(all[i], id) {
      assert i > 0 ==> Takes(cmds[i - 1], id);
    }
  }

  /** Whether a load in the rest of a run leaves its program behind. */
  lemma KeptCons(cmd: GuestCommand, reply: GuestResponse, cmds: seq<GuestCommand>, replies: seq<GuestResponse>, id: u32)
    requires |cmds| == |replies|
    ensures (exists i :: LoadedAndKept([cmd] + cmds, [reply] + replies, i, id)) <==>
      || (reply.Loaded? && reply.id == id && !Taken(cmds, id))
      || exists i :: LoadedAndKept(cmds, replies, i, id)
  {
    hide Taken;
    var all, rs := [cmd] + cmds, [reply] + replies;
    assert all[1..] == cmds;
    if reply.Loaded? && reply.id == id && !Taken(cmds, id) {
      assert LoadedAndKept(all, rs, 0, id);
    }
    if i :| LoadedAndKept(cmds, replies, i, id) {
      assert all[i + 2..] == cmds[i + 1..];
      assert LoadedAndKept(all, rs, i + 1, id);
    }
    if i :| LoadedAndKept(all, rs, i, id) && i > 0 {
      assert all[i + 1..] == cmds[i..];
      assert LoadedAndKept(cmds, replies, i - 1, id);
    }
  }

  /** Which ids a run leaves in the table: the old ones that nothing took off, and those of its loads that nothing
      took off afterwards. */
  lemma {:induction false} IdsAfter(g: Guest, cmds: seq<GuestCommand>, id: u32)
    requires Within(g.table, 1) && Ordinary(cmds)
    requires g.table.nextId + |IdsOf(Replies(g, cmds))| < 0x1_0000_0000
    ensures |Replies(g, cmds)| == |cmds|
    ensures id in HandledAll(g, cmds).table.programs <==>
      || (id in g.table.programs && !Taken(cmds, id))
      || exists i :: LoadedAndKept(cmds, Replies(g, cmds), i, id)
    decreases |cmds|
  {
    hide Handled, Coherent, Takes, Taken, LoadedAndKept, Within;
    RepliesLength(g, cmds);
    if cmds == [] {
      NothingTaken(id);
    } else {
      var cmd, rest := cmds[0], cmds[1..];
      assert cmds == [cmd] + rest;
      assert UserCommand(cmd) || cmd.Reset?;
      var (g1, reply) := Handled(g, cmd);
      assert ([reply] + Replies(g1, rest))[1..] == Replies(g1, rest);
      IdsStep(g, cmd, id);
      WithinStep(g, cmd);
      IdsAfter(g1, rest, id);
      TakenCons(cmd, rest, id);
      KeptCons(cmd, reply, rest, Replies(g1, rest), id);
    }
  }

  lemma NothingTaken(id: u32)
    ensures !Taken([], id) && forall i :: !LoadedAndKept([], [], i, id)
  {
  }

  /** In terms of the commands, within the counter's period: the records are the same afterwards exactly when no
      program from before was taken off, and every one loaded meanwhile was. */
  lemma UnchangedIff(g: Guest, cmds: seq<GuestCommand>)
    requires Within(g.table, 1) && Ordinary(cmds)
    requires g.table.nextId + |IdsOf(Replies(g, cmds))| < 0x1_0000_0000
    ensures |Replies(g, cmds)| == |cmds|
    ensures SameRecords(g.table.programs, HandledAll(g, cmds).table.programs) <==>
      && (forall id :: id in g.table.programs ==> !Taken(cmds, id))
      && (forall i :: 0 <= i < |cmds| && Replies(g, cmds)[i].Loaded? ==>
            Taken(cmds[i + 1..], Replies(g, cmds)[i].id))
  {
    hide Handled, HandledAll, Replies, Coherent, Taken, SameRecords;
    SameIdsSuffice(g, cmds);
    RepliesLength(g, cmds);
    var rs := Replies(g, cmds);
    forall id: u32
      ensures id in HandledAll(g, cmds).table.programs <==>
        || (id in g.table.programs && !Taken(cmds, id))
        || exists i :: LoadedAndKept(cmds, rs, i, id)
    {
      IdsAfter(g, cmds, id);
    }
    forall i | 0 <= i < |cmds| && rs[i].Loaded? ensures rs[i].id !in g.table.programs {
      LoadedIsNew(g, cmds, i);
    }
    if forall i :: 0 <= i < |cmds| && rs[i].Loaded? ==> Taken(cmds[i + 1..], rs[i].id) {
      assert forall i, id :: !LoadedAndKept(cmds, rs, i, id);
    } else {
      var i :| 0 <= i < |cmds| && rs[i].Loaded? && !Taken(cmds[i + 1..], rs[i].id);
      assert LoadedAndKept(cmds, rs, i, rs[i].id);
    }
  }

  lemma {:induction false} LoadedIsNew(g: Guest, cmds: seq<GuestCommand>, i: nat)
    requires Within(g.table, 1) && Ordinary(cmds) && i < |cmds| == |Replies(g, cmds)|
    requires g.table.nextId + |IdsOf(Replies(g, cmds))| < 0x1_0000_0000 && Replies(g, cmds)[i].Loaded?
    ensures Replies(g, cmds)[i].id >= g.table.nextId && Replies(g, cmds)[i].id !in g.table.programs
    decreases |cmds|
  {
    hide Handled, Coherent;
    var (g1, reply) := Handled(g, cmds[0]);
    assert UserCommand(cmds[0]) || cmds[0].Reset?;
    assert ([reply] + Replies(g1, cmds[1..]))[1..] == Replies(g1, cmds[1..]);
    IdsStep(g, cmds[0], 0);
    WithinStep(g, cmds[0]);
    if i > 0 {
      assert Ordinary(cmds[1..]);
      LoadedIsNew(g1, cmds[1..], i - 1);
    }
  }

  // ---- the mirror under late replies ----

  /** A mirror that notes these replies as those to these commands. */
  function NoteAll(programs: map<u32, ProgramInfo>, cmds: seq<GuestCommand>, replies: seq<GuestResponse>):
      map<u32, ProgramInfo>
    requires |cmds| <= |replies|
    decreases |cmds|
  {
    if cmds == [] then programs else NoteAll(Note(programs, cmds[0], replies[0]), cmds[1..], replies[1..])
  }

  /** With whole replies waiting to be read, the host notes each of them as the reply to a later command. */
  lemma {:induction false} LateMirror(c: Codec, s: Session, cmds: seq<GuestCommand>, queue: seq<GuestResponse>)
    requires c.Valid() && Ready(s.link) && s.link.toHost == Frames(c, queue) && AllCallable(c, cmds)
    requires AllFit(c, queue) && AllFit(c, Replies(s.link.guest, cmds))
    ensures |Replies(s.link.guest, cmds)| == |cmds|
    ensures var s1 := CallAll(c, s, cmds);
      && s1.programs == NoteAll(s.programs, cmds, queue + Replies(s.link.guest, cmds))
      && s1.link.guest == HandledAll(s.link.guest, cmds)
    decreases |cmds|
  {
    hide Handled, Exchange, Note, Frames, Codec.Valid, AllFit, Answer, Callable;
    RepliesLength(s.link.guest, cmds);
    if cmds != [] {
      var (g, reply) := Handled(s.link.guest, cmds[0]);
      var replies := Replies(g, cmds[1..]);
      assert Callable(c, cmds[0]);
      CallableParses(c, cmds[0], s.link.guest);
      FitSplit(c, reply, replies);
      LateOne(c, s.link, c.encCmd(cmds[0]), queue);
      var all := queue + [reply];
      LateMirror(c, Call(c, s, cmds[0], Fine).0, cmds[1..], all[1..]);
      assert queue + ([reply] + replies) == [all[0]] + (all[1..] + replies);
    }
  }

  /** What a run of calls over printable bytes leaves unread: what was behind them, and the new replies. */
  lemma {:induction false} JunkLeaves(c: Codec, s: Session, cmds: seq<GuestCommand>, junk: seq<byte>, tail: seq<byte>)
    requires c.Valid() && Ready(s.link) && s.link.toHost == junk + tail && Printable(junk) && 4 * |cmds| == |junk|
    requires AllCallable(c, cmds)
    ensures var s1 := CallAll(c, s, cmds);
      Ready(s1.link) && s1.link.toHost == tail + Frames(c, Replies(s.link.guest, cmds))
    decreases |cmds|
  {
    hide Handled, Exchange, Frame, Codec.Valid, Callable, Note;
    if cmds == [] {
      assert junk + tail == tail == tail + Frames(c, []);
    } else {
      assert Callable(c, cmds[0]);
      ExchangeInJunk(c, s.link, cmds[0], junk, tail);
      var (g, reply) := Handled(s.link.guest, cmds[0]);
      var replies := Replies(g, cmds[1..]);
      JunkLeaves(c, Call(c, s, cmds[0], Fine).0, cmds[1..], junk[4..], tail + Frame(c, reply));
      ConcatAssoc(tail, Frame(c, reply), Frames(c, replies));
      assert ([reply] + replies)[1..] == replies;
    }
  }

  /** The mirror after the window, when 4 divides N: it stood still for N/4 calls, and from then on every call notes
      the reply to the command sent N/4 calls before its own. */
  lemma MirrorAfterWindow(c: Codec, s: Session, big: GuestCommand, next: seq<GuestCommand>, later: seq<GuestCommand>)
    requires c.Valid() && Aligned(s.link) && Callable(c, big) && AllCallable(c, next) && AllCallable(c, later)
    requires MAX_MESSAGE_SIZE < |c.encResp(Handled(s.link.guest, big).1)| < 0x1_0000_0000
    requires |c.encResp(Handled(s.link.guest, big).1)| == 4 * |next|
    requires AllFit(c, Replies(Handled(s.link.guest, big).0, next + later))
    ensures var replies := Replies(Handled(s.link.guest, big).0, next + later);
      && |replies| == |next| + |later|
      && CallAll(c, s, [big] + next + later).programs == NoteAll(s.programs, later, replies)
  {
    hide Handled, Exchange, Note, Frames, Codec.Valid, AllFit, Callable, NoteAll, Printable;
    var (g, reply) := Handled(s.link.guest, big);
    OversizeLeft(c, s.link, big);
    CodecPrintable(c, reply);
    var s1 := Call(c, s, big, Fine).0;
    assert s1.programs == s.programs && s1.link.toHost == c.encResp(reply) + [];
    MirrorStandsStill(c, s1, next, c.encResp(reply), []);
    JunkLeaves(c, s1, next, c.encResp(reply), []);
    var s2, early := CallAll(c, s1, next), Replies(g, next);
    assert [] + Frames(c, early) == Frames(c, early);
    RepliesConcat(g, next, later);
    FitParts(c, early, Replies(HandledAll(g, next), later));
    LateMirror(c, s2, later, early);
    RepliesLength(g, next + later);
    assert [big] + next + later == [big] + (next + later);
    assert ([big] + (next + later))[1..] == next + later;
    CallAllConcat(c, s1, next, later);
  }

  lemma {:induction false} RepliesConcat(g: Guest, a: seq<GuestCommand>, b: seq<GuestCommand>)
    ensures Replies(g, a + b) == Replies(g, a) + Replies(HandledAll(g, a), b)
    decreases |a|
  {
    hide Handled;
    if a == [] {
      assert a + b == b;
      assert [] + Replies(g, b) == Replies(g, b);
    } else {
      assert (a + b)[1..] == a[1..] + b;
      var (g1, reply) := Handled(g, a[0]);
      RepliesConcat(g1, a[1..], b);
      ConcatAssoc([reply], Replies(g1, a[1..]), Replies(HandledAll(g, a), b));
    }
  }

  // ---- what survives on any connection, aligned or not ----

  /** The unread bytes are the end of a stream of replies that holds no reply to a Reset. */
  ghost predicate Backlog(c: Codec, b: seq<byte>) {
    exists sent: seq<GuestResponse>, at: nat :: IsBacklog(c, sent, at, b)
  }

  ghost predicate IsBacklog(c: Codec, sent: seq<GuestResponse>, at: nat, b: seq<byte>) {
    ResetComplete !in sent && at <= |Frames(c, sent)| && b == Frames(c, sent)[at..]
  }

  /** What every user leaves behind, whatever the guest replied and however the host's reader is misaligned. */
  ghost predicate Usable(c: Codec, s: Session) {
    s.link.open ==> s.link.guest.alive && s.link.toGuest == [] && Backlog(c, s.link.toHost)
  }

  /** Nothing of a previous user: empty mirror, empty guest table, no trace text, no bytes in flight. */
  predicate Clean(s: Session) {
    && Aligned(s.link)
    && s.programs == map[]
    && s.link.guest.table.programs == map[]
    && s.link.guest.traceBuffer == []
  }

  lemma CleanIsUsable(c: Codec, s: Session)
    requires Clean(s)
    ensures Usable(c, s)
  {
    assert IsBacklog(c, [], 0, []);
  }

  /** Reading consumes a prefix of the unread bytes. */
  lemma ReadsPrefix(c: Codec, b: seq<byte>) returns (k: nat)
    ensures k <= |b| && ReadReply(c, b).1 == b[k..]
  {
    var rest := ReadReply(c, b).1;
    k := |b| - |rest|;
  }

  lemma CommandParses(c: Codec, cmd: GuestCommand, g: Guest)
    requires c.Valid() && !cmd.Shutdown? && |c.encCmd(cmd)| <= MAX_MESSAGE_SIZE
    ensures Sendable(c, c.encCmd(cmd)) && Answer(c, g, Payload(c.encCmd(cmd))) == Handled(g, cmd)
  {
    hide Handled;
  }

  /** What one healthy exchange reads from, and what it leaves unread. */
  lemma ExchangeBacklog(c: Codec, l: Link, cmd: GuestCommand, sent: seq<GuestResponse>, at: nat) returns (at1: nat)
    requires c.Valid() && Ready(l) && IsBacklog(c, sent, at, l.toHost) && !cmd.Shutdown?
    requires |c.encCmd(cmd)| <= MAX_MESSAGE_SIZE
    ensures var (g, reply) := Handled(l.guest, cmd);
      var (l1, r) := Exchange(c, l, c.encCmd(cmd), Fine);
      var stream := Frames(c, sent + [reply]);
      && g.alive && l1.guest == g && l1.toGuest == []
      && Frames(c, sent) <= stream
      && (r.Ok? ==> r == ReadReply(c, stream[at..]).0) && l1.toHost == ReadReply(c, stream[at..]).1
      && at1 <= |stream| && l1.toHost == stream[at1..]
  {
    hide Handled, Answer, ReadReply, Deliver, Frames, Frame, Codec.Valid;
    var payload := c.encCmd(cmd);
    var (g, reply) := Handled(l.guest, cmd);
    CommandParses(c, cmd, l.guest);
    DeliverOne(c, l, payload);
    FramesOneMore(c, sent, reply);
    var stream := Frames(c, sent + [reply]);
    assert Frames(c, sent)[at..] + Frame(c, reply) == stream[at..];
    if ReadReply(c, stream[at..]).0 == Err(StillWaiting) {
      WaitingReadsNone(c, stream[at..]);
    }
    var k := ReadsPrefix(c, stream[at..]);
    at1 := at + k;
    assert stream[at..][k..] == stream[at1..];
  }

  /** A broken exchange closes the connection, and the other errors leave it as it was. */
  lemma ExchangeBroken(c: Codec, l: Link, payload: seq<byte>, io: Io)
    requires |payload| > MAX_MESSAGE_SIZE || !l.open || !io.Fine?
    ensures var (l1, r) := Exchange(c, l, payload, io);
      r.Err? && (l1 == l || !l1.open)
  {
    hide Deliver, ReadReply;
  }

  lemma OnlyResetResets(g: Guest, cmd: GuestCommand)
    requires !cmd.Reset?
    ensures Handled(g, cmd).1 != ResetComplete
  {
  }

  lemma CallKeepsUsable(c: Codec, s: Session, cmd: GuestCommand, io: Io)
    requires c.Valid() && Usable(c, s) && UserCommand(cmd)
    ensures Usable(c, Call(c, s, cmd, io).0)
  {
    hide Handled, Exchange, Note, Verdict, Frames;
    var payload := c.encCmd(cmd);
    if |payload| > MAX_MESSAGE_SIZE || !s.link.open || !io.Fine? {
      ExchangeBroken(c, s.link, payload, io);
    } else {
      var sent, at :| IsBacklog(c, sent, at, s.link.toHost);
      var at1 := ExchangeBacklog(c, s.link, cmd, sent, at);
      OnlyResetResets(s.link.guest, cmd);
      var all := sent + [Handled(s.link.guest, cmd).1];
      assert IsBacklog(c, all, at1, Exchange(c, s.link, payload, io).0.toHost);
    }
  }

  /** A reset that reports success has emptied both tables and re-aligned the connection, from any state a
      user can leave behind: a stale or misread reply never passes for it. */
  lemma ResetCleans(c: Codec, s: Session, io: Io)
    requires c.Valid() && Usable(c, s) && Call(c, s, Reset, io).1.Ok?
    ensures Clean(Call(c, s, Reset, io).0)
    ensures Call(c, s, Reset, io).0.link.guest.table.nextId == s.link.guest.table.nextId
  {
    hide Exchange, ReadReply, Frames;
    var payload := c.encCmd(Reset);
    if !s.link.open || !io.Fine? {
      ExchangeBroken(c, s.link, payload, io);
    } else {
      var sent, at :| IsBacklog(c, sent, at, s.link.toHost);
      var at1 := ExchangeBacklog(c, s.link, Reset, sent, at);
      assert Bare(ResetComplete);
      NewReplyIsGenuine(c, sent, ResetComplete, at);
      ResetStaysOpen(c, s.link, payload, io);
    }
  }

  lemma ResetStaysOpen(c: Codec, l: Link, payload: seq<byte>, io: Io)
    requires l.open && Exchange(c, l, payload, io).1.Ok?
    ensures Exchange(c, l, payload, io).0.open
  {
  }

  /** A reset on a clean VM over a working connection succeeds. */
  lemma ResetWorks(c: Codec, s: Session)
    requires c.Valid() && Aligned(s.link)
    ensures Call(c, s, Reset, Fine).1.Ok?
  {
    hide Exchange;
    assert Bare(ResetComplete);
    assert Answer(c, s.link.guest, Payload(c.encCmd(Reset))) == Handled(s.link.guest, Reset);
    ExchangeOne(c, s.link, c.encCmd(Reset));
  }

  // ---- the object ----

  /** What happens to one connection attempt: the socket may refuse, the ping may break. */
  datatype Attempt = Attempt(accepted: bool, io: Io)

  class MicroVm {
    const codec: Codec
    const handler: CommandHandler   // the guest agent inside the VM
    var programs: map<u32, ProgramInfo>
    var client: GuestClient
    var connected: bool             // whether `client` has been set

    ghost predicate Valid()
      reads this, client, client.conn
    {
      client.codec == codec == client.conn.codec && client.conn.handler == handler
    }

    function Abs(): Session
      reads this, client, client.conn, client.conn.handler, client.conn.handler.loader
    {
      Session(programs, client.Abs())
    }

    /** The VM has booted with a new agent inside; no connection yet. */
    constructor (codec: Codec, world: nat -> Kernel)
      ensures Valid() && !connected && programs == map[] && this.codec == codec
      ensures handler.Abs() == NewGuest(world) && fresh(handler) && fresh(handler.loader)
      ensures fresh(client) && fresh(client.conn)
    {
      var h := new CommandHandler(world);
      var conn := new Connection(codec, h);
      var cl := new GuestClient(conn);
      cl.open := false;
      this.codec, handler, programs, client, connected := codec, h, map[], cl, false;
    }

    /** Up to ten attempts; each opens its own connection and pings the agent over it. */
    method Connect(attempts: seq<Attempt>) returns (ok: bool)
      requires Valid() && codec.Valid() && |attempts| == 10
      requires handler.Abs().alive && handler.Abs().table == EMPTY_TABLE && handler.traceBuffer == []
      requires programs == map[]
      modifies this, client, client.conn, handler, handler.loader
      ensures Valid()
      ensures ok <==> exists i :: 0 <= i < 10 && attempts[i].accepted && attempts[i].io.Fine?
      ensures ok ==> connected && Clean(Abs()) && handler.Abs().table == EMPTY_TABLE
    {
      hide Exchange;
      ok := false;
      var i := 0;
      while i < 10
        invariant 0 <= i <= 10
        invariant Valid() && programs == map[]
        invariant client == old(client) || fresh(client)
        invariant client.conn == old(client.conn) || fresh(client.conn)
        invariant handler.Abs().alive && handler.Abs().table == EMPTY_TABLE && handler.traceBuffer == []
        invariant forall j :: 0 <= j < i ==> !(attempts[j].accepted && attempts[j].io.Fine?)
      {
        if attempts[i].accepted {
          var conn := new Connection(codec, handler);
          var attempt := new GuestClient(conn);
          ghost var before := attempt.Abs();
          assert before == Link(handler.Abs(), [], [], true);
          PingAnswered(codec, before, attempts[i].io);
          var r := attempt.SendCommand(Ping, attempts[i].io);
          if r == Ok(Pong) {
            client, connected := attempt, true;
            return true;
          }
        }
        i := i + 1;
      }
    }

    method Send(cmd: GuestCommand, io: Io) returns (r: Result<GuestResponse, VmError>)
      requires Valid()
      modifies client, client.conn, client.conn.handler, client.conn.handler.loader
      ensures Valid()
      ensures (client.Abs(), r) == Exchange(codec, old(client.Abs()), codec.encCmd(cmd), io)
    {
      r := client.SendCommand(cmd, io);
    }

    method LoadProgram(bytes: seq<byte>, name: string, io: Io) returns (r: Result<GuestResponse, VmError>)
      requires Valid()
      modifies this, client, client.conn, client.conn.handler, client.conn.handler.loader
      ensures Valid() && (Abs(), r) == Call(codec, old(Abs()), Load(bytes, name), io)
    {
      hide Exchange;
      var response := Send(Load(bytes, name), io);
      if response.Err? {
        return response;
      }
      match response.value {
        case Loaded(id, info) =>
          programs := programs[id := info];
          r := response;
        case Error(_, message) => r := Err(GuestRefused(message));
        case _ => r := Err(Unexpected);
      }
    }

    method UnloadProgram(id: u32, io: Io) returns (r: Result<GuestResponse, VmError>)
      requires Valid()
      modifies this, client, client.conn, client.conn.handler, client.conn.handler.loader
      ensures Valid() && (Abs(), r) == Call(codec, old(Abs()), Unload(id), io)
    {
      hide Exchange;
      var response := Send(Unload(id), io);
      if response.Err? {
        return response;
      }
      match response.value {
        case Unloaded =>
          programs := programs - {id};
          r := response;
        case Error(_, message) => r := Err(GuestRefused(message));
        case _ => r := Err(Unexpected);
      }
    }

    /** attach_program, detach_program, list_programs, read_trace and trigger: nothing is recorded. */
    method Query(cmd: GuestCommand, io: Io) returns (r: Result<GuestResponse, VmError>)
      requires Valid() && UserCommand(cmd) && !cmd.Load? && !cmd.Unload?
      modifies this, client, client.conn, client.conn.handler, client.conn.handler.loader
      ensures Valid() && (Abs(), r) == Call(codec, old(Abs()), cmd, io)
    {
      hide Exchange;
      var response := Send(cmd, io);
      if response.Err? || Expected(cmd, response.value) {
        return response;
      }
      r := if response.value.Error? then Err(GuestRefused(response.value.message)) else Err(Unexpected);
    }

    method ResetVm(io: Io) returns (r: Result<GuestResponse, VmError>)
      requires Valid()
      modifies this, client, client.conn, client.conn.handler, client.conn.handler.loader
      ensures Valid() && (Abs(), r) == Call(codec, old(Abs()), Reset, io)
    {
      hide Exchange;
      var response := Send(Reset, io);
      if response.Err? {
        return response;
      }
      match response.value {
        case ResetComplete =>
          programs := map[];
          r := response;
        case Error(_, message) => r := Err(GuestRefused(message));
        case _ => r := Err(Unexpected);
      }
    }
  }

  /** A ping over a new connection is answered by Pong exactly when the connection holds; it changes nothing
      that a user could see. */
  lemma PingAnswered(c: Codec, l: Link, io: Io)
    requires c.Valid() && Aligned(l)
    ensures var (l1, r) := Exchange(c, l, c.encCmd(Ping), io);
      && (io.Fine? ==> r == Ok(Pong) && Aligned(l1))
      && (!io.Fine? ==> r.Err?)
      && l1.guest.alive && l1.guest.table == l.guest.table && l1.guest.traceBuffer == l.guest.traceBuffer
  {
    var payload := c.encCmd(Ping);
    assert Bare(Pong);
    assert Answer(c, l.guest, Payload(payload)) == Handled(l.guest, Ping);
    if io.Fine? {
      ExchangeOne(c, l, payload);
    } else if io.BrokenWrite? && io.delivered < 4 + |payload| {
      DeliverPart(c, l, payload, io.delivered);
    } else {
      DeliverOne(c, l, payload);
    }
  }
}
