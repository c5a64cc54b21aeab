/** The guest agent: its command handler (handler.rs) and its connection loop (main.rs). */
module GuestAgent {
  import opened Common
  import opened Framing
  import opened Protocol
  import opened GuestLoader
  import opened Numbers

  /** The agent's state. `world` answers for the kernel and the clock: `world(n)` during the n-th command. */
  datatype Guest = Guest(table: Table, traceBuffer: seq<string>, tick: nat, alive: bool, world: nat -> Kernel)

  function NewGuest(world: nat -> Kernel): Guest {
    Guest(EMPTY_TABLE, [], 0, true, world)
  }

  function Show(e: LoaderError): string {
    match e
    case LoadFailed(m) => "Failed to load eBPF object: " + m
    case NoSuchProgram(id) => "Program not found: ID " + Decimal(id)
    case NoProgram => "Program not found: No supported program found in object"
    case AttachFailed(m) => "Failed to attach program: " + m
  }

  function Reply(e: Option<LoaderError>, ok: GuestResponse): GuestResponse {
    if e.None? then ok else Error(-1, Show(e.value))
  }

  /** CommandHandler::handle. */
  function Handled(g: Guest, cmd: GuestCommand): (Guest, GuestResponse) {
    var k := g.world(g.tick);
    var g1 := g.(tick := g.tick + 1);
    match cmd
    case Ping => (g1, Pong)
    case Status => (g1, StatusReport(k.uptime, |g.table.programs|))
    case Load(_, name) =>
      var (t, r) := LoadInto(g.table, name, k);
      (g1.(table := t), match r case Ok(info) => Loaded(info.id, info) case Err(e) => Error(-1, Show(e)))
    case Unload(id) =>
      var (t, e) := UnloadFrom(g.table, id);
      (g1.(table := t), Reply(e, Unloaded))
    case Attach(id, target) =>
      var (t, e) := AttachIn(g.table, id, target, k);
      (g1.(table := t), Reply(e, Attached))
    case Detach(id) =>
      var (t, e) := DetachIn(g.table, id);
      (g1.(table := t), Reply(e, Detached))
    case List => (g1, Programs(set id | id in g.table.programs :: g.table.programs[id].info))
    case Trigger(_, _, _) => (g1, if k.loads then Triggered(k.text) else Error(-1, k.text))
    case ReadTrace(_, _) => (g1, TraceOutput([k.text]))
    case MapList(id) =>
      (g1, if id in g.table.programs then Maps(k.maps) else Error(-1, Show(NoSuchProgram(id))))
    case MapRead(_, _, _) => (g1, MapEntries([]))
    case MapWrite(_, _, _, _) => (g1, MapWritten)
    case MapDelete(_, _, _) => (g1, MapDeleted)
    case UnloadAll => (g1.(table := g.table.(programs := map[])), UnloadedAll(|g.table.programs|))
    case Reset => (g1.(table := g.table.(programs := map[]), traceBuffer := []), ResetComplete)
    case Shutdown => (g1.(alive := false), ShuttingDown)
  }

  /** One turn of the connection loop. */
  function Answer(c: Codec, g: Guest, item: Item): (Guest, GuestResponse) {
    match item
    case Oversize(_) => (g, TOO_LARGE)
    case Payload(p) =>
      var cmd := c.decCmd(p);
      if cmd.None? then (g, INVALID_COMMAND) else Handled(g, cmd.value)
  }

  /** Turns of the loop until the input runs out or the process has exited. */
  function AnswerAll(c: Codec, g: Guest, items: seq<Item>): (Guest, seq<GuestResponse>)
    decreases |items|
  {
    if items == [] || !g.alive then (g, [])
    else
      var (g1, reply) := Answer(c, g, items[0]);
      var (g2, replies) := AnswerAll(c, g1, items[1..]);
      (g2, [reply] + replies)
  }

  lemma {:induction false} AnswerAllConcat(c: Codec, g: Guest, a: seq<Item>, b: seq<Item>)
    ensures var (g1, r1) := AnswerAll(c, g, a);
      var (g2, r2) := AnswerAll(c, g1, b);
      AnswerAll(c, g, a + b) == (g2, r1 + r2)
    decreases |a|
  {
    if a == [] {
      assert a + b == b;
      assert [] + AnswerAll(c, g, b).1 == AnswerAll(c, g, b).1;
    } else if g.alive {
      assert (a + b)[1..] == a[1..] + b;
      var (g1, reply) := Answer(c, g, a[0]);
      AnswerAllConcat(c, g1, a[1..], b);
      var (g2, r1) := AnswerAll(c, g1, a[1..]);
      ConcatAssoc([reply], r1, AnswerAll(c, g2, b).1);
    } else {
      assert [] + AnswerAll(c, g, b).1 == [];
    }
  }

  lemma AnswerOneMore(c: Codec, g: Guest, items: seq<Item>, item: Item)
    requires AnswerAll(c, g, items).0.alive
    ensures var (g1, replies) := AnswerAll(c, g, items);
      var (g2, reply) := Answer(c, g1, item);
      AnswerAll(c, g, items + [item]) == (g2, replies + [reply])
  {
    var g1 := AnswerAll(c, g, items).0;
    var (g2, reply) := Answer(c, g1, item);
    assert [item][1..] == [];
    assert AnswerAll(c, g1, [item]).1 == [reply];
    AnswerAllConcat(c, g, items, [item]);
  }

  lemma AnswerStops(c: Codec, g: Guest, done: seq<Item>, todo: seq<Item>)
    requires todo == [] || !AnswerAll(c, g, done).0.alive
    ensures AnswerAll(c, g, done + todo) == AnswerAll(c, g, done)
  {
    AnswerAllConcat(c, g, done, todo);
    assert AnswerAll(c, g, done).1 + [] == AnswerAll(c, g, done).1;
  }

  // ---- commands over the limit ----

  lemma {:induction false} OversizeItems(c: Codec, g: Guest, items: seq<Item>)
    requires g.alive && forall i :: 0 <= i < |items| ==> items[i].Oversize?
    ensures var (g1, replies) := AnswerAll(c, g, items);
      g1 == g && |replies| == |items| && forall i :: 0 <= i < |items| ==> replies[i] == TOO_LARGE
    decreases |items|
  {
    if items != [] {
      OversizeItems(c, g, items[1..]);
    }
  }

  /** An over-limit command of n printable bytes is not consumed: its bytes are taken for lengths, none of
      them is ever a command, the state is untouched and exactly 1 + n/4 error replies are sent. The loop is
      aligned again (nothing is left over) exactly when n is divisible by 4. */
  lemma OversizeCommand(c: Codec, g: Guest, payload: seq<byte>)
    requires g.alive && Printable(payload)
    requires MAX_MESSAGE_SIZE < |payload| < 0x1_0000_0000
    ensures var n := |payload|;
      var p := Parse(ToLe(n) + payload);
      var (g1, replies) := AnswerAll(c, g, p.items);
      && g1 == g
      && |replies| == 1 + n / 4 && (forall i :: 0 <= i < |replies| ==> replies[i] == TOO_LARGE)
      && p.rest == payload[n - n % 4..]
      && (p.rest == [] <==> n % 4 == 0)
  {
    var n := |payload|;
    PrintableNeverParses(payload);
    ParseCons(Oversize(n), payload);
    OversizeItems(c, g, Parse(ToLe(n) + payload).items);
  }

  // ---- identifiers ----

  /** The ids handed out by a run, in order. */
  function IdsOf(replies: seq<GuestResponse>): seq<u32> {
    if replies == [] then []
    else (if replies[0].Loaded? then [replies[0].id] else []) + IdsOf(replies[1..])
  }

  /** One turn either hands out the counter's value and steps it, or hands out nothing and leaves it alone. */
  lemma AnswerIds(c: Codec, g: Guest, item: Item, floor: nat)
    requires Within(g.table, floor)
    ensures var (g1, reply) := Answer(c, g, item);
      && (reply.Loaded? ==> reply.id == g.table.nextId && g1.table.nextId == Succ32(g.table.nextId))
      && (!reply.Loaded? ==> g1.table.nextId == g.table.nextId)
      && (g1.table.nextId != 0 ==> Within(g1.table, floor))
  {
    hide Coherent, DetectProgram, AttachFirst;
    if item.Payload? && c.decCmd(item.bytes).Some? {
      var k := g.world(g.tick);
      match c.decCmd(item.bytes).value
      case Load(_, name) => if g.table.nextId < 0xFFFF_FFFF { LoadWithin(g.table, name, k, floor); }
      case Attach(id, target) => AttachWithin(g.table, id, target, k, floor);
      case Detach(id) => DetachWithin(g.table, id, floor);
      case Unload(id) => ShrinkWithin(g.table, UnloadFrom(g.table, id).0, floor);
      case UnloadAll => ShrinkWithin(g.table, g.table.(programs := map[]), floor);
      case Reset => ShrinkWithin(g.table, g.table.(programs := map[]), floor);
      case _ =>
    }
  }

  /** While fewer than 2^32 - 1 loads have succeeded, every run of any commands, with Unload, UnloadAll,
      Reset and failing loads among them, hands out consecutive increasing ids, and the guest table only
      ever holds ids of its own period. */
  lemma {:induction false} IdsIncrease(c: Codec, g: Guest, items: seq<Item>, floor: nat)
    requires Within(g.table, floor)
    requires g.table.nextId + |IdsOf(AnswerAll(c, g, items).1)| < 0x1_0000_0000
    ensures var (g1, replies) := AnswerAll(c, g, items);
      var ids := IdsOf(replies);
      && (forall k :: 0 <= k < |ids| ==> ids[k] == g.table.nextId + k)
      && g1.table.nextId == g.table.nextId + |ids|
      && Within(g1.table, floor)
    decreases |items|
  {
    hide Answer, Coherent;
    if items != [] && g.alive {
      var (g1, reply) := Answer(c, g, items[0]);
      var (g2, replies) := AnswerAll(c, g1, items[1..]);
      assert ([reply] + replies)[1..] == replies;
      AnswerIds(c, g, items[0], floor);
      IdsIncrease(c, g1, items[1..], floor);
    }
  }

  /** An id handed out before a Reset is in no guest table after it, whatever is loaded later: it can never
      name a later user's program. */
  lemma StaleIdsAreDead(c: Codec, g: Guest, before: seq<Item>, reset: Item, after: seq<Item>, id: u32)
    requires Within(g.table, 1) && g.alive
    requires reset.Payload? && c.decCmd(reset.bytes) == Some(Reset)
    requires g.table.nextId + |IdsOf(AnswerAll(c, g, before + [reset] + after).1)| < 0x1_0000_0000
    requires id in IdsOf(AnswerAll(c, g, before).1) && AnswerAll(c, g, before).0.alive
    ensures id !in AnswerAll(c, g, before + [reset] + after).0.table.programs
  {
    var (g1, r1) := AnswerAll(c, g, before);
    var (g2, r2) := Answer(c, g1, reset);
    var (g3, r3) := AnswerAll(c, g2, after);
    AnswerOneMore(c, g, before, reset);
    AnswerAllConcat(c, g, before + [reset], after);
    IdsOfConcat(r1, [r2]);
    IdsOfConcat(r1 + [r2], r3);
    IdsIncrease(c, g, before, 1);
    IdsIncrease(c, g2, after, g2.table.nextId);
  }

  lemma {:induction false} IdsOfConcat(a: seq<GuestResponse>, b: seq<GuestResponse>)
    ensures IdsOf(a + b) == IdsOf(a) + IdsOf(b)
  {
    if a == [] {
      assert a + b == b;
    } else {
      assert (a + b)[1..] == a[1..] + b && (a + b)[0] == a[0];
      IdsOfConcat(a[1..], b);
      ConcatAssoc(if a[0].Loaded? then [a[0].id] else [], IdsOf(a[1..]), IdsOf(b));
    }
  }

  /** The bound is sharp: the load that takes the last id, 2^32 - 1, wraps the counter, and two loads later
      id 1 is handed out a second time. */
  lemma IdsWrap(t: Table, name: string, k: Kernel)
    requires t.nextId == 0xFFFF_FFFF && k.parsed.Some? && DetectProgram(k.parsed.value).Some?
    ensures var (t1, r1) := LoadInto(t, name, k);
      var (t2, r2) := LoadInto(t1, name, k);
      var (t3, r3) := LoadInto(t2, name, k);
      r1.Ok? && r1.value.id == 0xFFFF_FFFF && r2.Ok? && r2.value.id == 0 && r3.Ok? && r3.value.id == 1
  {
  }

  // ---- the objects ----

  class CommandHandler {
    const loader: ProgramLoader
    var traceBuffer: seq<string>
    var tick: nat
    var exited: bool
    const world: nat -> Kernel

    function Abs(): Guest
      reads this, loader
    {
      Guest(loader.Abs(), traceBuffer, tick, !exited, world)
    }

    constructor (world: nat -> Kernel)
      ensures Abs() == NewGuest(world) && fresh(loader)
    {
      loader := new ProgramLoader();
      traceBuffer, tick, exited := [], 0, false;
      this.world := world;
    }

    method Handle(cmd: GuestCommand) returns (reply: GuestResponse)
      modifies this, loader
      ensures (Abs(), reply) == Handled(old(Abs()), cmd)
    {
      hide Show, LoadInto, AttachIn, DetachIn, UnloadFrom;
      var k := world(tick);
      tick := tick + 1;
      match cmd {
        case Ping => reply := Pong;
        case Status => reply := StatusReport(k.uptime, |loader.programs|);
        case Load(_, name) =>
          var r := loader.Load(name, k);
          match r {
            case Ok(info) => reply := Loaded(info.id, info);
            case Err(e) => reply := Error(-1, Show(e));
          }
        case Unload(id) =>
          var e := loader.Unload(id);
          reply := Reply(e, Unloaded);
        case Attach(id, target) =>
          var e := loader.Attach(id, target, k);
          reply := Reply(e, Attached);
        case Detach(id) =>
          var e := loader.Detach(id);
          reply := Reply(e, Detached);
        case List => reply := Programs(set id | id in loader.programs :: loader.programs[id].info);
        case Trigger(_, _, _) => reply := if k.loads then Triggered(k.text) else Error(-1, k.text);
        case ReadTrace(_, _) => reply := TraceOutput([k.text]);
        case MapList(id) =>
          reply := if id in loader.programs then Maps(k.maps) else Error(-1, Show(NoSuchProgram(id)));
        case MapRead(_, _, _) => reply := MapEntries([]);
        case MapWrite(_, _, _, _) => reply := MapWritten;
        case MapDelete(_, _, _) => reply := MapDeleted;
        case UnloadAll =>
          var count := loader.UnloadAll();
          reply := UnloadedAll(count);
        case Reset =>
          var _ := loader.UnloadAll();
          traceBuffer := [];
          reply := ResetComplete;
        case Shutdown =>
          exited := true;
          reply := ShuttingDown;
      }
    }
  }

  /** One connection: the bytes that have arrived, and the bytes sent back. */
  class Connection {
    const codec: Codec
    const handler: CommandHandler
    var inbox: seq<byte>
    var outbox: seq<byte>

    constructor (codec: Codec, handler: CommandHandler)
      ensures this.codec == codec && this.handler == handler && inbox == [] && outbox == []
    {
      this.codec, this.handler, inbox, outbox := codec, handler, [], [];
    }

    method SendResponse(reply: GuestResponse)
      modifies `outbox
      ensures outbox == old(outbox) + Frame(codec, reply)
    {
      var payload := codec.encResp(reply);
      outbox := outbox + ToLe(|payload| % 0x1_0000_0000);
      outbox := outbox + payload;
    }

    /** The reading half of one turn: None when it has to wait. */
    method ReadMessage() returns (item: Option<Item>)
      modifies `inbox
      ensures item.None? ==> inbox == old(inbox) && Parse(inbox) == Parsed([], inbox)
      ensures item.Some? ==>
        && |inbox| < |old(inbox)|
        && Parse(old(inbox)) == Parsed([item.value] + Parse(inbox).items, Parse(inbox).rest)
    {
      if |inbox| < 4 {
        return None;
      }
      var len := FromLe(inbox[..4]);
      if len > MAX_MESSAGE_SIZE {
        inbox := inbox[4..];
        return Some(Oversize(len));
      }
      if |inbox| < 4 + len {
        return None;
      }
      item := Some(Payload(inbox[4..4 + len]));
      inbox := inbox[4 + len..];
    }

    /** The other half: decode, run the command, choose the reply. */
    method Dispatch(item: Item) returns (reply: GuestResponse)
      modifies handler, handler.loader
      ensures (handler.Abs(), reply) == Answer(codec, old(handler.Abs()), item)
    {
      match item {
        case Oversize(_) =>
          reply := TOO_LARGE;
        case Payload(payload) =>
          var cmd := codec.decCmd(payload);
          if cmd.None? {
            reply := INVALID_COMMAND;
          } else {
            reply := handler.Handle(cmd.value);
          }
      }
    }

    /** One turn of the loop; None when there is no complete message. */
    method Turn() returns (item: Option<Item>, reply: GuestResponse)
      modifies `inbox, `outbox, handler, handler.loader
      ensures item.None? ==>
        && (inbox, outbox, handler.Abs()) == old((inbox, outbox, handler.Abs()))
        && Parse(inbox) == Parsed([], inbox)
      ensures item.Some? ==>
        && |inbox| < |old(inbox)|
        && Parse(old(inbox)) == Parsed([item.value] + Parse(inbox).items, Parse(inbox).rest)
        && (handler.Abs(), reply) == Answer(codec, old(handler.Abs()), item.value)
        && outbox == old(outbox) + Frame(codec, reply)
    {
      item := ReadMessage();
      reply := TOO_LARGE;
      if item.Some? {
        reply := Dispatch(item.value);
        SendResponse(reply);
      }
    }

    /** handle_connection, up to the point where it waits for bytes that have not arrived. */
    method HandleConnection()
      requires !handler.exited
      modifies `inbox, `outbox, handler, handler.loader
      ensures var p := Parse(old(inbox));
        var (g, replies) := AnswerAll(codec, old(handler.Abs()), p.items);
        && handler.Abs() == g
        && outbox == old(outbox) + Frames(codec, replies)
        && (g.alive ==> inbox == p.rest)
    {
      ghost var parsed, g0 := Parse(inbox), handler.Abs();
      ghost var done: seq<Item>, sent: seq<GuestResponse> := [], [];
      while !handler.exited
        invariant parsed == Parsed(done + Parse(inbox).items, Parse(inbox).rest)
        invariant AnswerAll(codec, g0, done) == (handler.Abs(), sent)
        invariant outbox == old(outbox) + Frames(codec, sent)
        decreases |inbox|, !handler.exited
      {
        var item, reply := Turn();
        if item.None? {
          break;
        }
        ConcatAssoc(done, [item.value], Parse(inbox).items);
        AnswerOneMore(codec, g0, done, item.value);
        FramesOneMore(codec, sent, reply);
        ConcatAssoc(old(outbox), Frames(codec, sent), Frame(codec, reply));
        done, sent := done + [item.value], sent + [reply];
      }
      AnswerStops(codec, g0, done, Parse(inbox).items);
    }
  }
}
