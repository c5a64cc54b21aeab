/** What the typed calls of a VM return and record (crates/ebpf-assist-vm/src/manager.rs:163-337), told by what the
    guest did. */
module TypedCalls {
  import opened Common
  import opened Framing
  import opened Protocol
  import opened GuestLoader
  import opened GuestAgent
  import opened GuestTable
  import opened HostLink
  import opened MicroVms

  /** The reply is of the kind that belongs to the call. */
  predicate OwnKind(cmd: GuestCommand, reply: GuestResponse) {
    || (cmd.Load? && reply.Loaded?)
    || (cmd.Unload? && reply.Unloaded?)
    || (cmd.Attach? && reply.Attached?)
    || (cmd.Detach? && reply.Detached?)
    || (cmd.List? && reply.Programs?)
    || (cmd.ReadTrace? && reply.TraceOutput?)
    || (cmd.Trigger? && reply.Triggered?)
    || (cmd.Reset? && reply.ResetComplete?)
  }

  /** What the host makes of a reply that it has read as that to a call, its own or not: it returns the reply if it is
      of the call's own kind, the guest's message if it is an error, and otherwise an error of its own. */
  lemma VerdictMeans(c: Codec, s: Session, cmd: GuestCommand, io: Io, reply: GuestResponse)
    requires (UserCommand(cmd) || cmd.Reset?) && Exchange(c, s.link, c.encCmd(cmd), io).1 == Ok(reply)
    ensures var r := Call(c, s, cmd, io).1;
      && (OwnKind(cmd, reply) ==> r == Ok(reply))
      && (reply.Error? ==> r == Err(GuestRefused(reply.message)))
      && (!OwnKind(cmd, reply) && !reply.Error? ==> r == Err(Unexpected))
    ensures Call(c, s, cmd, io).0.programs ==
      if cmd.Load? && reply.Loaded? then s.programs[reply.id := reply.info]
      else if cmd.Unload? && reply.Unloaded? then s.programs - {cmd.id}
      else if cmd.Reset? && reply.ResetComplete? then map[]
      else s.programs
  {
    hide Exchange;
  }

  /** The guest answers a call with its own kind or an error. */
  lemma GuestAnswersInKind(g: Guest, cmd: GuestCommand)
    requires UserCommand(cmd) || cmd.Reset?
    ensures var reply := Handled(g, cmd).1;
      OwnKind(cmd, reply) <==> !reply.Error?
  {
    hide Handled, Accepts;
    match cmd
    case Load(bytes, name) => LoadMeans(g, bytes, name);
    case Unload(id) => UnloadMeans(g, id);
    case Attach(id, target) => AttachMeans(g, id, target);
    case Detach(id) => DetachMeans(g, id);
    case Reset => EmptyingMeans(g);
    case _ => AsksMean(g, cmd);
  }

  /** On an aligned connection and with messages that fit, a typed call returns Ok exactly when the guest did not refuse
      it, and then the guest's own reply; otherwise it returns the guest's message. */
  lemma TypedCall(c: Codec, s: Session, cmd: GuestCommand)
    requires c.Valid() && Aligned(s.link) && Callable(c, cmd)
    requires |c.encResp(Handled(s.link.guest, cmd).1)| <= MAX_MESSAGE_SIZE
    ensures var (g, reply) := Handled(s.link.guest, cmd);
      var (s1, r) := Call(c, s, cmd, Fine);
      && s1.link == s.link.(guest := g)
      && (r.Ok? <==> !reply.Error?) && (r.Ok? ==> r.value == reply && OwnKind(cmd, reply))
      && (forall m :: r == Err(GuestRefused(m)) <==> reply.Error? && reply.message == m)
  {
    hide Handled, Exchange, Answer, Codec.Valid, Call, OwnKind;
    var reply := Handled(s.link.guest, cmd).1;
    CallableParses(c, cmd, s.link.guest);
    ExchangeOne(c, s.link, c.encCmd(cmd));
    GuestAnswersInKind(s.link.guest, cmd);
    VerdictMeans(c, s, cmd, Fine, reply);
    CallLink(c, s, cmd, Fine);
  }

  lemma CallLink(c: Codec, s: Session, cmd: GuestCommand, io: Io)
    ensures Call(c, s, cmd, io).0.link == Exchange(c, s.link, c.encCmd(cmd), io).0
    ensures Exchange(c, s.link, c.encCmd(cmd), io).1.Err? ==>
      Call(c, s, cmd, io).0.programs == s.programs
      && Call(c, s, cmd, io).1 == Exchange(c, s.link, c.encCmd(cmd), io).1
  {
    hide Exchange;
  }

  /** When each call succeeds, told by the guest's table and its kernel, and what the host records. */
  lemma WhenCallsSucceed(c: Codec, s: Session, cmd: GuestCommand)
    requires c.Valid() && Aligned(s.link) && Callable(c, cmd)
    requires |c.encResp(Handled(s.link.guest, cmd).1)| <= MAX_MESSAGE_SIZE
    ensures var (t, k) := (s.link.guest.table, s.link.guest.world(s.link.guest.tick));
      var (s1, r) := Call(c, s, cmd, Fine);
      match cmd
      case Load(_, name) =>
        && (r.Ok? <==> k.parsed.Some? && exists i :: FirstKnown(k.parsed.value, i))
        && (r.Ok? ==> r.value.Loaded? && r.value.id == t.nextId && r.value.info.name == name)
        && s1.programs == (if r.Ok? then s.programs[t.nextId := r.value.info] else s.programs)
      case Unload(id) =>
        && (r.Ok? <==> id in t.programs)
        && s1.programs == (if r.Ok? then s.programs - {id} else s.programs)
      case Attach(id, target) => (r.Ok? <==> Accepts(t, id, target, k)) && s1.programs == s.programs
      case Detach(id) => (r.Ok? <==> id in t.programs) && s1.programs == s.programs
      case List => r.Ok? && s1.programs == s.programs
      case ReadTrace(_, _) => r == Ok(TraceOutput([k.text])) && s1.programs == s.programs
      case Trigger(_, _, _) => r == (if k.loads then Ok(Triggered(k.text)) else Err(GuestRefused(k.text)))
        && s1.programs == s.programs
      case Reset => r == Ok(ResetComplete) && s1.programs == map[]
      case _ => true
  {
    hide Handled, Exchange, Codec.Valid, Call, Accepts, FirstKnown, Answer;
    var g := s.link.guest;
    TypedCall(c, s, cmd);
    CallableParses(c, cmd, g);
    ExchangeOne(c, s.link, c.encCmd(cmd));
    VerdictMeans(c, s, cmd, Fine, Handled(g, cmd).1);
    match cmd
    case Load(bytes, name) => LoadMeans(g, bytes, name);
    case Unload(id) => UnloadMeans(g, id);
    case Attach(id, target) => AttachMeans(g, id, target);
    case Detach(id) => DetachMeans(g, id);
    case Reset => EmptyingMeans(g);
    case _ => AsksMean(g, cmd);
  }

  /** A call that gets an earlier reply instead of its own takes it for its own only if it is of its kind. */
  lemma LateVerdict(c: Codec, s: Session, cmd: GuestCommand, queue: seq<GuestResponse>)
    requires c.Valid() && Ready(s.link) && queue != [] && s.link.toHost == Frames(c, queue) && Callable(c, cmd)
    requires AllFit(c, queue) && |c.encResp(Handled(s.link.guest, cmd).1)| <= MAX_MESSAGE_SIZE
    ensures var r := Call(c, s, cmd, Fine).1;
      && (OwnKind(cmd, queue[0]) ==> r == Ok(queue[0]))
      && (queue[0].Error? ==> r == Err(GuestRefused(queue[0].message)))
      && (!OwnKind(cmd, queue[0]) && !queue[0].Error? ==> r == Err(Unexpected))
  {
    hide Handled, Exchange, Codec.Valid, Call, OwnKind, Answer, Frames;
    CallableParses(c, cmd, s.link.guest);
    LateOne(c, s.link, c.encCmd(cmd), queue);
    VerdictMeans(c, s, cmd, Fine, queue[0]);
  }

  /** The calls that do not come through. A command that is too long or a connection that is closed changes nothing at
      either end. A write that breaks before the frame is complete leaves the guest as it was; if it breaks later, or
      the read breaks, the guest has acted. The host records nothing in any of these cases. */
  lemma BrokenCalls(c: Codec, s: Session, cmd: GuestCommand, io: Io)
    requires c.Valid() && Ready(s.link) && UserCommand(cmd) && !io.Fine?
    ensures var p := c.encCmd(cmd);
      var (s1, r) := Call(c, s, cmd, io);
      if |p| > MAX_MESSAGE_SIZE then s1 == s && r == Err(MessageTooLarge)
      else
        && r == Err(Disconnected) && !s1.link.open && s1.programs == s.programs
        && s1.link.guest ==
          if io.BrokenWrite? && io.delivered < 4 + |p| then s.link.guest else Handled(s.link.guest, cmd).0
  {
    hide Handled, Codec.Valid, Answer, Deliver, ReadReply;
    var p := c.encCmd(cmd);
    if |p| <= MAX_MESSAGE_SIZE {
      CommandParses(c, cmd, s.link.guest);
      if io.BrokenWrite? && io.delivered < 4 + |p| {
        DeliverPart(c, s.link, p, io.delivered);
      } else {
        DeliverOne(c, s.link, p);
      }
    }
  }

  lemma ClosedCalls(c: Codec, s: Session, cmd: GuestCommand, io: Io)
    requires !s.link.open && |c.encCmd(cmd)| <= MAX_MESSAGE_SIZE
    ensures Call(c, s, cmd, io) == (s, Err(Disconnected))
  {
    hide Deliver, ReadReply;
  }
}
