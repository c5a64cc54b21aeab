/** What each command does to the guest's table and how it is answered, field by field and told by aya's variants
    (crates/ebpf-assist-agent/src/loader.rs:65-233, handler.rs:33-131). */
module GuestTable {
  import opened Common
  import Framing
  import opened Protocol
  import opened GuestLoader
  import opened GuestAgent

  /** The type under which the guest lists a variant; AyaOther has none. */
  predicate KnownAs(v: AyaProgram, t: ProgramType) {
    match t
    case KProbe => v.AyaKProbe?
    case UProbe => v.AyaUProbe?
    case TracePoint => v.AyaTracePoint?
    case RawTracePoint => v.AyaRawTracePoint?
    case Xdp => v.AyaXdp?
    case SchedClassifier => v.AyaSchedClassifier?
    case CgroupSkb => v.AyaCgroupSkb?
    case SocketFilter => v.AyaSocketFilter?
    case PerfEvent => v.AyaPerfEvent?
    case Lsm => v.AyaLsm?
    case _ => false
  }

  /** Program number i is the first of a known variant. */
  predicate FirstKnown(e: EbpfObject, i: int) {
    0 <= i < |e| && !e[i].1.AyaOther? && forall j :: 0 <= j < i ==> e[j].1.AyaOther?
  }

  lemma {:induction false} DetectFirst(e: EbpfObject)
    ensures DetectProgram(e).None? <==> forall j :: 0 <= j < |e| ==> e[j].1.AyaOther?
    ensures forall i :: FirstKnown(e, i) ==> DetectProgram(e).Some? && KnownAs(e[i].1, DetectProgram(e).value)
  {
    if e != [] && e[0].1.AyaOther? {
      DetectFirst(e[1..]);
      assert forall j :: 0 < j < |e| ==> e[j] == e[1..][j - 1];
      forall i | FirstKnown(e, i) ensures DetectProgram(e).Some? && KnownAs(e[i].1, DetectProgram(e).value) {
        assert forall j :: 0 <= j < i - 1 ==> e[1..][j] == e[j + 1];
        assert FirstKnown(e[1..], i - 1);
      }
      if forall j :: 0 <= j < |e| ==> e[j].1.AyaOther? {
        assert forall j :: 0 <= j < |e[1..]| ==> e[1..][j] == e[j + 1];
      }
    }
  }

  /** A load of an object with a program of a known variant is recorded under the counter's id, with the type of the
      first such program, and answered with the record; any other is refused, and takes no id. */
  lemma LoadMeans(g: Guest, bytes: seq<Framing.byte>, name: string)
    ensures var (g1, r) := Handled(g, Load(bytes, name));
      var (t, parsed) := (g.table, g.world(g.tick).parsed);
      && g1.traceBuffer == g.traceBuffer && g1.alive == g.alive
      && (r.Loaded? <==> parsed.Some? && exists i :: FirstKnown(parsed.value, i))
      && (!r.Loaded? ==> r.Error? && g1.table == t)
      && (r.Loaded? ==>
            && r.id == t.nextId
            && r.info == ProgramInfo(t.nextId, name, r.info.programType, "<memory>", false, None)
            && (forall i :: FirstKnown(parsed.value, i) ==> KnownAs(parsed.value[i].1, r.info.programType))
            && g1.table.programs == t.programs[t.nextId := LoadedProgram(t.nextId, r.info, parsed.value, false, None)]
            && g1.table.nextId == if t.nextId == 0xFFFF_FFFF then 0 else t.nextId + 1)
  {
    hide DetectProgram, KnownAs, FirstKnown, Show;
    var parsed := g.world(g.tick).parsed;
    if parsed.Some? {
      DetectIff(parsed.value);
    }
  }

  lemma DetectIff(e: EbpfObject)
    ensures DetectProgram(e).Some? <==> exists i :: FirstKnown(e, i)
    ensures forall i :: FirstKnown(e, i) ==> DetectProgram(e).Some? && KnownAs(e[i].1, DetectProgram(e).value)
  {
    hide DetectProgram, KnownAs;
    DetectFirst(e);
    if DetectProgram(e).Some? {
      var i := SomeKnown(e);
      assert FirstKnown(e, i);
    }
  }

  lemma {:induction false} SomeKnown(e: EbpfObject) returns (i: int)
    requires exists j :: 0 <= j < |e| && !e[j].1.AyaOther?
    ensures FirstKnown(e, i)
  {
    if !e[0].1.AyaOther? {
      i := 0;
    } else {
      assert forall j :: 0 < j < |e| ==> e[j] == e[1..][j - 1];
      i := SomeKnown(e[1..]);
      i := i + 1;
    }
  }

  // ---- attach ----

  predicate CanHook(v: AyaProgram) {
    v in {AyaKProbe, AyaUProbe, AyaTracePoint}
  }

  /** Program number i is the first that can be attached. */
  predicate FirstHook(e: EbpfObject, i: int) {
    0 <= i < |e| && CanHook(e[i].1) && forall j :: 0 <= j < i ==> !CanHook(e[j].1)
  }

  /** What the kernel and the form of the target ask for. */
  predicate Attaches(v: AyaProgram, target: string, k: Kernel) {
    && k.loads && k.attaches
    && (v.AyaUProbe? ==> ':' in target)
    && (v.AyaTracePoint? ==> '/' in target)
  }

  lemma {:induction false} AttachFirstIff(e: EbpfObject, target: string, k: Kernel)
    ensures (forall j :: 0 <= j < |e| ==> !CanHook(e[j].1)) ==> AttachFirst(e, target, k).Some?
    ensures forall i :: FirstHook(e, i) ==> (AttachFirst(e, target, k).None? <==> Attaches(e[i].1, target, k))
  {
    if e != [] && !CanHook(e[0].1) {
      AttachFirstIff(e[1..], target, k);
      assert forall j :: 0 < j < |e| ==> e[j] == e[1..][j - 1];
      forall i | FirstHook(e, i) ensures AttachFirst(e, target, k).None? <==> Attaches(e[i].1, target, k) {
        assert forall j :: 0 <= j < i - 1 ==> e[1..][j] == e[j + 1];
        assert FirstHook(e[1..], i - 1);
      }
      if forall j :: 0 <= j < |e| ==> !CanHook(e[j].1) {
        assert forall j :: 0 <= j < |e[1..]| ==> e[1..][j] == e[j + 1];
      }
    }
  }

  /** The attach of id is accepted: the program is known, and it is attached already, or the first of its object that
      can be attached is. */
  ghost predicate Accepts(t: Table, id: u32, target: string, k: Kernel) {
    && id in t.programs
    && (t.programs[id].attached
        || exists i :: FirstHook(t.programs[id].ebpf, i) && Attaches(t.programs[id].ebpf[i].1, target, k))
  }

  /** Both copies of the attachment say this, and all else is as in p. */
  predicate OnlyAttachment(p: LoadedProgram, q: LoadedProgram, attached: bool, point: Option<string>) {
    && q.attached == attached && q.attachPoint == point
    && q.info.attached == attached && q.info.attachPoint == point
    && q.id == p.id && q.ebpf == p.ebpf
    && q.info.id == p.info.id && q.info.name == p.info.name && q.info.programType == p.info.programType
    && q.info.path == p.info.path
  }

  /** Only the record of id differs. */
  predicate OnlyRecord(t: Table, t1: Table, id: u32) {
    t1.nextId == t.nextId && id in t1.programs && t1.programs - {id} == t.programs - {id}
  }

  lemma AttachMeans(g: Guest, id: u32, target: string)
    ensures var (g1, r) := Handled(g, Attach(id, target));
      var (t, k) := (g.table, g.world(g.tick));
      && g1.traceBuffer == g.traceBuffer && g1.alive == g.alive
      && (Accepts(t, id, target, k) ==> r == Attached) && (!Accepts(t, id, target, k) ==> r.Error?)
      && (r.Error? || t.programs[id].attached ==> g1.table == t)
      && (!r.Error? && !t.programs[id].attached ==>
            OnlyRecord(t, g1.table, id) && OnlyAttachment(t.programs[id], g1.table.programs[id], true, Some(target)))
  {
    hide AttachFirst, FirstHook, Attaches, Show;
    if id in g.table.programs && !g.table.programs[id].attached {
      var e := g.table.programs[id].ebpf;
      AttachFirstIff(e, target, g.world(g.tick));
      SomeHook(e);
    }
  }

  lemma {:induction false} SomeHook(e: EbpfObject)
    ensures (exists i :: FirstHook(e, i)) || forall j :: 0 <= j < |e| ==> !CanHook(e[j].1)
  {
    if e != [] {
      assert forall j :: 0 < j < |e| ==> e[j] == e[1..][j - 1];
      if CanHook(e[0].1) {
        assert FirstHook(e, 0);
      } else {
        SomeHook(e[1..]);
        if i :| FirstHook(e[1..], i) {
          assert FirstHook(e, i + 1);
        }
      }
    }
  }

  // ---- the other commands ----

  /** A detach of a known id clears both copies of its attachment, attached or not, and nothing else. */
  lemma DetachMeans(g: Guest, id: u32)
    ensures var (g1, r) := Handled(g, Detach(id));
      && g1.traceBuffer == g.traceBuffer && g1.alive == g.alive
      && (id in g.table.programs ==>
            && r == Detached && OnlyRecord(g.table, g1.table, id)
            && OnlyAttachment(g.table.programs[id], g1.table.programs[id], false, None))
      && (id !in g.table.programs ==> r.Error? && g1.table == g.table)
  {
    hide Show;
  }

  lemma UnloadMeans(g: Guest, id: u32)
    ensures var (g1, r) := Handled(g, Unload(id));
      && g1.traceBuffer == g.traceBuffer && g1.alive == g.alive
      && (id in g.table.programs ==>
            r == Unloaded && g1.table.nextId == g.table.nextId && g1.table.programs == g.table.programs - {id})
      && (id !in g.table.programs ==> r.Error? && g1.table == g.table)
  {
    hide Show;
  }

  /** An id that is not in the table is answered by one error, whatever is asked of it. */
  lemma UnknownId(g: Guest, id: u32, cmd: GuestCommand)
    requires id !in g.table.programs
    requires cmd.Unload? || cmd.Attach? || cmd.Detach? || cmd.MapList?
    requires cmd.id == id
    ensures Handled(g, cmd).1.Error? && Handled(g, cmd).1.code == -1
    ensures "Program not found: ID " <= Handled(g, cmd).1.message
    ensures Handled(g, cmd).0.table == g.table
  {
  }

  /** Detaching and attaching again moves a program that the kernel accepts to the new target, whatever it was attached
      to before; without the detach the new target is ignored. */
  lemma DetachThenAttach(g: Guest, id: u32, target: string)
    requires id in g.table.programs
    ensures var g1 := Handled(g, Detach(id)).0;
      var (g2, r) := Handled(g1, Attach(id, target));
      var e := g.table.programs[id].ebpf;
      && (r == Attached <==> exists i :: FirstHook(e, i) && Attaches(e[i].1, target, g.world(g.tick + 1)))
      && (r == Attached ==>
            && id in g2.table.programs
            && g2.table.programs[id].attachPoint == Some(target) == g2.table.programs[id].info.attachPoint
            && g2.table.programs[id].attached && g2.table.programs[id].info.attached)
    ensures g.table.programs[id].attached ==>
      Handled(g, Attach(id, target)).1 == Attached && Handled(g, Attach(id, target)).0.table == g.table
  {
    hide Handled, FirstHook, Attaches;
    DetachMeans(g, id);
    AttachMeans(g, id, target);
    AttachMeans(Handled(g, Detach(id)).0, id, target);
    OneTick(g, Detach(id));
  }

  /** Every command sees the next answers of the world. */
  lemma OneTick(g: Guest, cmd: GuestCommand)
    ensures Handled(g, cmd).0.tick == g.tick + 1 && Handled(g, cmd).0.world == g.world
  {
    hide LoadInto, AttachIn, DetachIn, UnloadFrom, Show;
  }

  predicate Asks(cmd: GuestCommand) {
    cmd.Ping? || cmd.Status? || cmd.List? || cmd.Trigger? || cmd.ReadTrace? || cmd.MapList?
    || cmd.MapRead? || cmd.MapWrite? || cmd.MapDelete?
  }

  /** The commands that only ask change nothing, and are answered from the table. */
  lemma AsksMean(g: Guest, cmd: GuestCommand)
    requires Asks(cmd)
    ensures var (g1, r) := Handled(g, cmd);
      && g1 == g.(tick := g.tick + 1)
      && (cmd.Ping? ==> r == Pong)
      && (cmd.Status? ==> r == StatusReport(g.world(g.tick).uptime, |g.table.programs.Keys|))
      && (cmd.List? ==> r.Programs? && forall info ::
            info in r.programs <==> exists id :: id in g.table.programs && g.table.programs[id].info == info)
      && (cmd.Trigger? ==> r == (if g.world(g.tick).loads then Triggered(g.world(g.tick).text)
                                 else Error(-1, g.world(g.tick).text)))
      && (cmd.ReadTrace? ==> r == TraceOutput([g.world(g.tick).text]))
      && (cmd.MapList? && cmd.id in g.table.programs ==> r == Maps(g.world(g.tick).maps))
      && (cmd.MapRead? ==> r == MapEntries([]))
      && (cmd.MapWrite? ==> r == MapWritten)
      && (cmd.MapDelete? ==> r == MapDeleted)
  {
    hide Show;
    assert |g.table.programs.Keys| == |g.table.programs|;
  }

  /** The two commands that empty the table leave the counter alone; a shutdown leaves everything, and is the last. */
  lemma EmptyingMeans(g: Guest)
    ensures var (g1, r) := Handled(g, UnloadAll);
      && r == UnloadedAll(|g.table.programs.Keys|)
      && g1 == g.(tick := g.tick + 1, table := Table(map[], g.table.nextId))
    ensures var (g1, r) := Handled(g, Reset);
      && r == ResetComplete
      && g1 == g.(tick := g.tick + 1, table := Table(map[], g.table.nextId), traceBuffer := [])
    ensures var (g1, r) := Handled(g, Shutdown);
      r == ShuttingDown && g1 == g.(tick := g.tick + 1, alive := false)
  {
    assert |g.table.programs.Keys| == |g.table.programs|;
  }

  /** A message that is too long or is no command is answered by an error, and changes nothing. */
  lemma BadMessage(c: Codec, g: Guest, n: u32, p: seq<Framing.byte>)
    ensures Answer(c, g, Framing.Oversize(n)) == (g, Error(-1, "Message too large"))
    ensures c.decCmd(p).None? ==> Answer(c, g, Framing.Payload(p)) == (g, Error(-1, "Invalid command"))
    ensures c.decCmd(p).Some? ==> Answer(c, g, Framing.Payload(p)) == Handled(g, c.decCmd(p).value)
  {
    hide Handled;
  }

  /** Nothing that arrives behind a Shutdown is answered. */
  lemma ShutdownIsLast(c: Codec, g: Guest, before: seq<Framing.Item>, p: seq<Framing.byte>, after: seq<Framing.Item>)
    requires c.decCmd(p) == Some(Shutdown) && AnswerAll(c, g, before).0.alive
    ensures var (g1, replies) := AnswerAll(c, g, before + [Framing.Payload(p)] + after);
      !g1.alive && replies == AnswerAll(c, g, before).1 + [ShuttingDown]
  {
    hide Handled;
    EmptyingMeans(AnswerAll(c, g, before).0);
    AnswerOneMore(c, g, before, Framing.Payload(p));
    AnswerStops(c, g, before + [Framing.Payload(p)], after);
  }
}
