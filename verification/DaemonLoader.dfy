/** The daemon's program table (crates/ebpf-assistd/src/loader.rs:17-258). */
module DaemonLoader {
  import opened Common
  import opened Caps
  import opened ErrorText

  /** What the kernel and aya answer during one operation. `text` is the message of a failing call. */
  datatype Kernel = Kernel(
    parsed: Option<EbpfObject>,   // the object file, read and parsed
    loads: bool,
    attaches: bool,
    text: string
  )

  /** `hooked` is the kernel's side, which lives in the aya object: a link exists. */
  datatype LoadedProgram = LoadedProgram(info: ProgramInfo, bpf: EbpfObject, hooked: bool)

  /** The table and the process-wide id counter. */
  datatype Table = Table(programs: map<u32, LoadedProgram>, nextId: u32)

  const EMPTY_TABLE := Table(map[], 1)

  datatype LoadResult = LoadResult(info: ProgramInfo, warning: bool)

  const LOAD_CAPS := [Cap.BPF, Cap.PERFMON]

  const ATTACH_CAPS := [Cap.BPF, Cap.PERFMON, Cap.NET_ADMIN]

  function DetectType(p: AyaProgram): ProgramType {
    match p
    case AyaKProbe => KProbe
    case AyaUProbe => UProbe
    case AyaTracePoint => TracePoint
    case AyaRawTracePoint => RawTracePoint
    case AyaXdp => Xdp
    case AyaSchedClassifier => SchedClassifier
    case AyaCgroupSkb => CgroupSkb
    case AyaSocketFilter => SocketFilter
    case AyaPerfEvent => PerfEvent
    case AyaLsm | AyaOther => Unknown
  }

  /** bpf.program(name). */
  function Find(bpf: EbpfObject, name: string): Option<AyaProgram> {
    if bpf == [] then None
    else if bpf[0].0 == name then Some(bpf[0].1)
    else Find(bpf[1..], name)
  }

  /** detect_program: the requested program, or the only one. */
  function Select(bpf: EbpfObject, requested: Option<string>): Result<string, string> {
    if bpf == [] then Err("No programs found in eBPF object file")
    else if requested.Some? then
      if Find(bpf, requested.value).Some? then Ok(requested.value)
      else Err("Program '" + requested.value + "' not found")
    else if |bpf| == 1 then Ok(bpf[0].0)
    else Err("Multiple programs found, please specify one")
  }

  lemma {:induction false} SelectFinds(bpf: EbpfObject, requested: Option<string>)
    ensures Select(bpf, requested).Ok? ==> Find(bpf, Select(bpf, requested).value).Some?
  {
  }

  function SelectedType(bpf: EbpfObject, name: string): ProgramType {
    var found := Find(bpf, name);
    if found.Some? then DetectType(found.value) else Unknown
  }

  /** load, once the object has been read. */
  function Admit(t: Table, path: string, requested: Option<string>, bpf: EbpfObject):
      (Table, Result<LoadResult, string>)
  {
    var name := Select(bpf, requested);
    if name.Err? then (t, Err(name.error))
    else
      var ty := SelectedType(bpf, name.value);
      match DefaultPolicy(ty)
      case Deny => (t, Err(POLICY_MESSAGE + "programs of this type are not allowed"))
      case policy =>
        var info := ProgramInfo(t.nextId, name.value, ty, path, false, None);
        (Table(t.programs[t.nextId := LoadedProgram(info, bpf, false)], Succ32(t.nextId)),
         Ok(LoadResult(info, policy.Warn?)))
  }

  function LoadInto(t: Table, permitted: set<Cap>, path: string, requested: Option<string>, k: Kernel):
      (Table, Result<LoadResult, string>)
  {
    if !Raises(permitted, LOAD_CAPS) then (t, Err(CAPABILITY_MESSAGE))
    else if k.parsed.None? then (t, Err(LOAD_FAILED_MESSAGE))
    else Admit(t, path, requested, k.parsed.value)
  }

  function Count(s: string, c: char): nat {
    if s == "" then 0 else (if s[0] == c then 1 else 0) + Count(s[1..], c)
  }

  /** The body of the attach closure; None is success. */
  function AttachKernel(p: Option<AyaProgram>, target: string, k: Kernel): Option<string> {
    if p.None? then Some("Program not found in eBPF object")
    else match p.value {
      case AyaKProbe | AyaXdp => if k.loads && k.attaches then None else Some(k.text)
      case AyaTracePoint =>
        if !k.loads then Some(k.text)
        else if Count(target, ':') != 1 then Some("TracePoint target must be 'category:name'")
        else if k.attaches then None
        else Some(k.text)
      case _ => Some("Attach not implemented for this program type yet")
    }
  }

  function Marked(p: LoadedProgram, point: Option<string>): LoadedProgram {
    p.(info := p.info.(attached := point.Some?, attachPoint := point))
  }

  function Hooked(p: LoadedProgram, target: string): LoadedProgram {
    Marked(p, Some(target)).(hooked := true)
  }

  function AttachIn(t: Table, permitted: set<Cap>, id: u32, target: string, k: Kernel): (Table, Option<string>) {
    if id !in t.programs then (t, Some(NO_PROGRAM_MESSAGE))
    else
      var p := t.programs[id];
      if p.info.attached then
        (t, Some(AlreadyMessage(if p.info.attachPoint.Some? then Escape(p.info.attachPoint.value) else "")))
      else if !Raises(permitted, ATTACH_CAPS) then (t, Some(CAPABILITY_MESSAGE))
      else
        var e := AttachKernel(Find(p.bpf, p.info.name), target, k);
        if e.Some? then (t, e) else (t.(programs := t.programs[id := Hooked(p, target)]), None)
  }

  /** Only the record changes; the program stays hooked until it is dropped. */
  function DetachIn(t: Table, id: u32): (Table, Option<string>) {
    if id !in t.programs then (t, Some(NO_PROGRAM_MESSAGE))
    else if !t.programs[id].info.attached then (t, Some(NOT_ATTACHED_MESSAGE))
    else (t.(programs := t.programs[id := Marked(t.programs[id], None)]), None)
  }

  function UnloadFrom(t: Table, id: u32): (Table, Option<string>) {
    if id !in t.programs then (t, Some(NO_PROGRAM_MESSAGE))
    else (t.(programs := t.programs - {id}), None)
  }

  // ---- the table invariant ----

  /** Filed under its id; attached exactly when it has an attach point; of the type of the program it names, which
      policy does not deny; attached only if that program can be and the kernel has a link. */
  predicate RecordOk(id: u32, p: LoadedProgram) {
    && p.info.id == id
    && p.info.attached == p.info.attachPoint.Some?
    && Find(p.bpf, p.info.name).Some?
    && p.info.programType == DetectType(Find(p.bpf, p.info.name).value)
    && !DefaultPolicy(p.info.programType).Deny?
    && (p.info.attached ==> p.hooked && p.info.programType in {KProbe, TracePoint, Xdp})
  }

  predicate TableOk(t: Table) {
    forall id :: id in t.programs ==> RecordOk(id, t.programs[id])
  }

  lemma LoadKeepsOk(t: Table, permitted: set<Cap>, path: string, requested: Option<string>, k: Kernel)
    requires TableOk(t)
    ensures TableOk(LoadInto(t, permitted, path, requested, k).0)
  {
    if k.parsed.Some? {
      SelectFinds(k.parsed.value, requested);
    }
  }

  lemma AttachedIsAttachable(p: AyaProgram, target: string, k: Kernel)
    requires AttachKernel(Some(p), target, k).None?
    ensures DetectType(p) in {KProbe, TracePoint, Xdp}
  {
  }

  lemma AttachKeepsOk(t: Table, permitted: set<Cap>, id: u32, target: string, k: Kernel)
    requires TableOk(t)
    ensures TableOk(AttachIn(t, permitted, id, target, k).0)
  {
    hide AttachKernel, Find, DetectType, Escape, AlreadyMessage;
    var t1 := AttachIn(t, permitted, id, target, k).0;
    if t1 != t {
      var p := t.programs[id];
      assert RecordOk(id, p);
      AttachedIsAttachable(Find(p.bpf, p.info.name).value, target, k);
    }
  }

  lemma DetachAndUnloadKeepOk(t: Table, id: u32)
    requires TableOk(t)
    ensures TableOk(DetachIn(t, id).0) && TableOk(UnloadFrom(t, id).0)
  {
    hide Find, DetectType, DefaultPolicy;
    if id in t.programs {
      assert RecordOk(id, t.programs[id]);
    }
  }

  // ---- the abstract table: which programs there are, and which of them are attached ----

  function Abstract(t: Table): map<u32, bool> {
    map id | id in t.programs :: t.programs[id].info.attached
  }

  /** The codes of Detach and Unload, and their effect, are determined by the abstract table. */
  lemma DetachRefines(t: Table, id: u32)
    ensures var (t1, e) := DetachIn(t, id);
      var a := Abstract(t);
      && (e.Some? && ErrorResponse(e.value) == ProgramNotFound <==> id !in a)
      && (e.Some? && ErrorResponse(e.value) == NotAttached <==> id in a && !a[id])
      && (e.None? <==> id in a && a[id])
      && Abstract(t1) == (if e.None? then a[id := false] else a)
  {
    hide ErrorResponse;
    ProgramNotFoundText();
    NotAttachedText();
  }

  lemma UnloadRefines(t: Table, id: u32)
    ensures var (t1, e) := UnloadFrom(t, id);
      var a := Abstract(t);
      && (e.Some? && ErrorResponse(e.value) == ProgramNotFound <==> id !in a)
      && (e.None? <==> id in a)
      && Abstract(t1) == a - {id}
  {
    hide ErrorResponse;
    ProgramNotFoundText();
  }

  /** Attaching an attached program changes nothing and is reported as AlreadyAttached exactly when the first
      attach point does not contain a word that error_response looks for earlier. */
  lemma AttachTwice(t: Table, permitted: set<Cap>, id: u32, target: string, k: Kernel)
    requires TableOk(t) && id in t.programs && t.programs[id].info.attached
    ensures var (t1, e) := AttachIn(t, permitted, id, target, k);
      && t1 == t && e.Some?
      && (ErrorResponse(e.value) == AlreadyAttached <==> !Misleading(t.programs[id].info.attachPoint.value))
  {
    hide ErrorResponse, Misleading, AlreadyMessage, Escape;
    assert RecordOk(id, t.programs[id]);
    AlreadyAttachedIff(Escape(t.programs[id].info.attachPoint.value));
    MisleadingEscaped(t.programs[id].info.attachPoint.value);
  }

  // ---- runs ----

  datatype Op =
    | DoLoad(path: string, requested: Option<string>, k: Kernel)
    | DoAttach(id: u32, target: string, k: Kernel)
    | DoDetach(id: u32)
    | DoUnload(id: u32)

  /** One operation: the table after it, and whether it succeeded. */
  function Do(t: Table, permitted: set<Cap>, op: Op): (Table, bool) {
    match op
    case DoLoad(path, requested, k) =>
      var (t1, r) := LoadInto(t, permitted, path, requested, k); (t1, r.Ok?)
    case DoAttach(id, target, k) =>
      var (t1, e) := AttachIn(t, permitted, id, target, k); (t1, e.None?)
    case DoDetach(id) =>
      var (t1, e) := DetachIn(t, id); (t1, e.None?)
    case DoUnload(id) =>
      var (t1, e) := UnloadFrom(t, id); (t1, e.None?)
  }

  /** A whole run: the last table, and how many loads and unloads succeeded. */
  function DoAll(t: Table, permitted: set<Cap>, ops: seq<Op>): (Table, nat, nat)
    decreases |ops|
  {
    if ops == [] then (t, 0, 0)
    else
      var (t1, done) := Do(t, permitted, ops[0]);
      var (t2, loads, unloads) := DoAll(t1, permitted, ops[1..]);
      (t2, loads + (if done && ops[0].DoLoad? then 1 else 0), unloads + (if done && ops[0].DoUnload? then 1 else 0))
  }

  lemma {:induction false} DoOneMore(t: Table, permitted: set<Cap>, ops: seq<Op>, op: Op)
    ensures DoAll(t, permitted, ops + [op]).0 == Do(DoAll(t, permitted, ops).0, permitted, op).0
    decreases |ops|
  {
    hide Do;
    if ops == [] {
      assert ops + [op] == [op];
      assert DoAll(Do(t, permitted, op).0, permitted, []).0 == Do(t, permitted, op).0;
    } else {
      assert (ops + [op])[1..] == ops[1..] + [op] && (ops + [op])[0] == ops[0];
      DoOneMore(Do(t, permitted, ops[0]).0, permitted, ops[1..], op);
    }
  }

  /** The how-manieth load an id belongs to: the counter starts at 1 and passes 0 last. */
  function Ordinal(id: u32): nat {
    if id == 0 then 0x1_0000_0000 else id
  }

  /** The first `issued` ids have been handed out, and no others are in use. */
  predicate Issued(t: Table, issued: nat) {
    issued <= 0x1_0000_0000
    && t.nextId == (1 + issued) % 0x1_0000_0000
    && forall id :: id in t.programs ==> Ordinal(id) <= issued
  }

  lemma DoStep(t: Table, permitted: set<Cap>, op: Op, issued: nat)
    requires TableOk(t) && Issued(t, issued)
    ensures var (t1, done) := Do(t, permitted, op);
      && TableOk(t1)
      && (done && op.DoLoad? && issued < 0x1_0000_0000 ==>
            Issued(t1, issued + 1) && t.nextId !in t.programs && t1.programs.Keys == t.programs.Keys + {t.nextId})
      && (!(done && op.DoLoad?) ==> Issued(t1, issued))
      && (done && op.DoUnload? ==> op.id in t.programs && t1.programs.Keys == t.programs.Keys - {op.id})
      && (!(done && (op.DoLoad? || op.DoUnload?)) ==> t1.programs.Keys == t.programs.Keys)
  {
    hide RecordOk, Select, Find, DetectType, AttachKernel, AlreadyMessage, Escape, Raises;
    match op
    case DoLoad(path, requested, k) => LoadKeepsOk(t, permitted, path, requested, k);
    case DoAttach(id, target, k) => AttachKeepsOk(t, permitted, id, target, k);
    case DoDetach(id) => DetachAndUnloadKeepOk(t, id);
    case DoUnload(id) => DetachAndUnloadKeepOk(t, id);
  }

  /** One operation, counted. */
  lemma StepCounts(t: Table, permitted: set<Cap>, op: Op, issued: nat)
    requires TableOk(t) && Issued(t, issued)
    ensures var (t1, done) := Do(t, permitted, op);
      var (grown, shrunk) := (if done && op.DoLoad? then 1 else 0, if done && op.DoUnload? then 1 else 0);
      && TableOk(t1)
      && (issued + grown <= 0x1_0000_0000 ==>
            Issued(t1, issued + grown) && |t1.programs| == |t.programs| + grown - shrunk)
  {
    hide Do, TableOk;
    var (t1, done) := Do(t, permitted, op);
    DoStep(t, permitted, op, issued);
    if !(done && op.DoLoad?) || issued < 0x1_0000_0000 {
      SizeFromKeys(t, t1, done, op);
    }
  }

  /** The table invariant over every run. Within 2^32 successful loads the number of programs is the number of
      successful loads minus that of successful unloads, and the n-th successful load gets the n-th id, however
      many loads fail in between, by policy or otherwise. */
  lemma {:induction false} TableOverRuns(t: Table, permitted: set<Cap>, ops: seq<Op>, issued: nat)
    requires TableOk(t) && Issued(t, issued) && issued + DoAll(t, permitted, ops).1 <= 0x1_0000_0000
    ensures var (t1, loads, unloads) := DoAll(t, permitted, ops);
      TableOk(t1) && Issued(t1, issued + loads) && |t1.programs| == |t.programs| + loads - unloads
    decreases |ops|
  {
    hide Do, TableOk, Issued;
    if ops != [] {
      var (t1, done) := Do(t, permitted, ops[0]);
      StepCounts(t, permitted, ops[0], issued);
      TableOverRuns(t1, permitted, ops[1..], issued + if done && ops[0].DoLoad? then 1 else 0);
    }
  }

  /** Within 2^32 successful loads, an id that was handed out and is no longer in the table never comes back: it
      names no later program, whatever is loaded, denied or unloaded in between. */
  lemma {:induction false} DeadIdsStayDead(t: Table, permitted: set<Cap>, ops: seq<Op>, issued: nat, id: u32)
    requires TableOk(t) && Issued(t, issued) && issued + DoAll(t, permitted, ops).1 <= 0x1_0000_0000
    requires Ordinal(id) <= issued && id !in t.programs
    ensures id !in DoAll(t, permitted, ops).0.programs
    decreases |ops|
  {
    hide Do, TableOk;
    if ops != [] {
      var (t1, done) := Do(t, permitted, ops[0]);
      DoStep(t, permitted, ops[0], issued);
      assert done && ops[0].DoLoad? ==> Ordinal(t.nextId) == issued + 1;
      DeadIdsStayDead(t1, permitted, ops[1..], issued + if done && ops[0].DoLoad? then 1 else 0, id);
    }
  }

  predicate HookedIn(t: Table, id: u32) {
    id in t.programs && t.programs[id].hooked
  }

  /** Detaching does not take a program off its hook: in every run, a program that was attached once keeps its
      kernel link until it is unloaded, whatever the record says. */
  lemma {:induction false} HookedUntilUnload(t: Table, permitted: set<Cap>, ops: seq<Op>, issued: nat, id: u32)
    requires TableOk(t) && Issued(t, issued) && issued + DoAll(t, permitted, ops).1 <= 0x1_0000_0000
    requires HookedIn(t, id) && DoUnload(id) !in ops
    ensures HookedIn(DoAll(t, permitted, ops).0, id)
    decreases |ops|
  {
    hide Do, TableOk, Issued, HookedIn;
    if ops != [] {
      assert ops[0] in ops && forall op :: op in ops[1..] ==> op in ops;
      var (t1, done) := Do(t, permitted, ops[0]);
      DoStep(t, permitted, ops[0], issued);
      HookStep(t, permitted, ops[0], id);
      HookedUntilUnload(t1, permitted, ops[1..], issued + if done && ops[0].DoLoad? then 1 else 0, id);
    }
  }

  lemma HookStep(t: Table, permitted: set<Cap>, op: Op, id: u32)
    requires HookedIn(t, id) && op != DoUnload(id)
    requires var done := Do(t, permitted, op).1; done && op.DoLoad? ==> t.nextId !in t.programs
    ensures HookedIn(Do(t, permitted, op).0, id)
  {
    hide Select, Find, DetectType, AttachKernel, AlreadyMessage, Escape, Raises;
  }

  /** The record and the kernel part ways at the first detach. */
  lemma DetachLeavesHook(t: Table, id: u32)
    requires TableOk(t) && DetachIn(t, id).1.None?
    ensures var t1 := DetachIn(t, id).0;
      HookedIn(t1, id) && !t1.programs[id].info.attached
  {
    assert RecordOk(id, t.programs[id]);
  }

  lemma SizeFromKeys(t: Table, t1: Table, done: bool, op: Op)
    requires done && op.DoLoad? ==> t.nextId !in t.programs && t1.programs.Keys == t.programs.Keys + {t.nextId}
    requires done && op.DoUnload? ==> op.id in t.programs && t1.programs.Keys == t.programs.Keys - {op.id}
    requires !(done && (op.DoLoad? || op.DoUnload?)) ==> t1.programs.Keys == t.programs.Keys
    ensures |t1.programs| ==
      |t.programs| + (if done && op.DoLoad? then 1 else 0) - (if done && op.DoUnload? then 1 else 0)
  {
    assert |t.programs| == |t.programs.Keys| && |t1.programs| == |t1.programs.Keys|;
  }

  // ---- the object ----

  class Loader {
    const process: Process
    var programs: map<u32, LoadedProgram>
    var nextId: u32   // NEXT_ID

    function Abs(): Table
      reads this
    {
      Table(programs, nextId)
    }

    constructor (process: Process)
      ensures this.process == process && Abs() == EMPTY_TABLE
    {
      this.process, programs, nextId := process, map[], 1;
    }

    method Load(path: string, requested: Option<string>, k: Kernel) returns (r: Result<LoadResult, string>)
      requires process.effective <= process.permitted
      modifies this, process`effective
      ensures (Abs(), r) == LoadInto(old(Abs()), process.permitted, path, requested, k)
      ensures process.effective == Unfold(process.permitted, old(process.effective), WithCaps(LOAD_CAPS, [], true)).0
      ensures process.effective <= process.permitted
    {
      hide Select, Find, DetectType;
      var raised := process.RaiseCaps(LOAD_CAPS);
      if !raised {
        return Err(CAPABILITY_MESSAGE);
      }
      process.DropCaps(LOAD_CAPS);
      if k.parsed.None? {
        return Err(LOAD_FAILED_MESSAGE);
      }
      var bpf := k.parsed.value;
      var name := Select(bpf, requested);
      if name.Err? {
        return Err(name.error);
      }
      var ty := SelectedType(bpf, name.value);
      var warning := DefaultPolicy(ty).Warn?;
      if DefaultPolicy(ty).Deny? {
        return Err(POLICY_MESSAGE + "programs of this type are not allowed");
      }
      var id := nextId;
      nextId := Succ32(nextId);
      var info := ProgramInfo(id, name.value, ty, path, false, None);
      programs := programs[id := LoadedProgram(info, bpf, false)];
      r := Ok(LoadResult(info, warning));
    }

    method Attach(id: u32, target: string, k: Kernel) returns (e: Option<string>)
      requires process.effective <= process.permitted
      modifies this, process`effective
      ensures (Abs(), e) == AttachIn(old(Abs()), process.permitted, id, target, k)
      ensures process.effective ==
        if id in old(programs) && !old(programs)[id].info.attached
        then Unfold(process.permitted, old(process.effective), WithCaps(ATTACH_CAPS, [], true)).0
        else old(process.effective)
      ensures process.effective <= process.permitted
    {
      hide AttachKernel, Escape, Find;
      if id !in programs {
        return Some(NO_PROGRAM_MESSAGE);
      }
      var loaded := programs[id];
      if loaded.info.attached {
        var point := if loaded.info.attachPoint.Some? then Escape(loaded.info.attachPoint.value) else "";
        return Some(AlreadyMessage(point));
      }
      var raised := process.RaiseCaps(ATTACH_CAPS);
      if !raised {
        return Some(CAPABILITY_MESSAGE);
      }
      e := AttachKernel(Find(loaded.bpf, loaded.info.name), target, k);
      process.DropCaps(ATTACH_CAPS);
      if e.None? {
        programs := programs[id := Hooked(loaded, target)];
      }
    }

    method Detach(id: u32) returns (e: Option<string>)
      modifies this
      ensures (Abs(), e) == DetachIn(old(Abs()), id)
    {
      if id !in programs {
        return Some(NO_PROGRAM_MESSAGE);
      }
      if !programs[id].info.attached {
        return Some(NOT_ATTACHED_MESSAGE);
      }
      programs := programs[id := Marked(programs[id], None)];
      e := None;
    }

    method Unload(id: u32) returns (e: Option<string>)
      modifies this
      ensures (Abs(), e) == UnloadFrom(old(Abs()), id)
    {
      if id !in programs {
        return Some(NO_PROGRAM_MESSAGE);
      }
      programs := programs - {id};
      e := None;
    }
  }
}
