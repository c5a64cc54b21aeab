/** The guest agent's program table (crates/ebpf-assist-agent/src/loader.rs). */
module GuestLoader {
  import opened Common

  datatype LoaderError =
    | LoadFailed(message: string)
    | NoSuchProgram(id: u32)
    | NoProgram
    | AttachFailed(message: string)

  /** What the kernel and aya answer during one command. */
  datatype Kernel = Kernel(
    parsed: Option<EbpfObject>,   // the parsed program bytes
    loads: bool,                  // the verifier accepts the program
    attaches: bool,               // the hook can be attached
    text: string,                 // free text: trigger output, trace line
    uptime: nat,
    maps: set<string>
  )

  datatype LoadedProgram = LoadedProgram(
    id: u32,
    info: ProgramInfo,
    ebpf: EbpfObject,
    attached: bool,
    attachPoint: Option<string>
  )

  /** The abstract value of a ProgramLoader. */
  datatype Table = Table(programs: map<u32, LoadedProgram>, nextId: u32)

  const EMPTY_TABLE := Table(map[], 1)

  function ProgramTypeOf(p: AyaProgram): Option<ProgramType> {
    match p
    case AyaKProbe => Some(KProbe)
    case AyaUProbe => Some(UProbe)
    case AyaTracePoint => Some(TracePoint)
    case AyaXdp => Some(Xdp)
    case AyaSchedClassifier => Some(SchedClassifier)
    case AyaCgroupSkb => Some(CgroupSkb)
    case AyaSocketFilter => Some(SocketFilter)
    case AyaRawTracePoint => Some(RawTracePoint)
    case AyaLsm => Some(Lsm)
    case AyaPerfEvent => Some(PerfEvent)
    case AyaOther => None
  }

  /** The type of the first program of a known type. */
  function DetectProgram(ebpf: EbpfObject): Option<ProgramType> {
    if ebpf == [] then None
    else if ProgramTypeOf(ebpf[0].1).Some? then ProgramTypeOf(ebpf[0].1)
    else DetectProgram(ebpf[1..])
  }

  predicate Attachable(p: AyaProgram) {
    p.AyaKProbe? || p.AyaUProbe? || p.AyaTracePoint?
  }

  /** Attaching one program of an attachable kind: None is success. */
  function AttachOne(p: AyaProgram, target: string, k: Kernel): Option<LoaderError> {
    if !k.loads then Some(AttachFailed(k.text))
    else if p.AyaUProbe? && ':' !in target then Some(AttachFailed("UProbe target must be 'path:symbol' or 'path:offset'"))
    else if p.AyaTracePoint? && '/' !in target then Some(AttachFailed("Tracepoint target must be 'category/name'"))
    else if !k.attaches then Some(AttachFailed(k.text))
    else None
  }

  function AttachFirst(ebpf: EbpfObject, target: string, k: Kernel): Option<LoaderError> {
    if ebpf == [] then Some(AttachFailed("No attachable program found"))
    else if Attachable(ebpf[0].1) then AttachOne(ebpf[0].1, target, k)
    else AttachFirst(ebpf[1..], target, k)
  }

  function Marked(p: LoadedProgram, target: Option<string>): LoadedProgram {
    p.(attached := target.Some?, attachPoint := target,
       info := p.info.(attached := target.Some?, attachPoint := target))
  }

  function LoadInto(t: Table, name: string, k: Kernel): (Table, Result<ProgramInfo, LoaderError>) {
    if k.parsed.None? then (t, Err(LoadFailed(k.text)))
    else
      var ty := DetectProgram(k.parsed.value);
      if ty.None? then (t, Err(NoProgram))
      else
        var info := ProgramInfo(t.nextId, name, ty.value, "<memory>", false, None);
        var p := LoadedProgram(t.nextId, info, k.parsed.value, false, None);
        (Table(t.programs[t.nextId := p], Succ32(t.nextId)), Ok(info))
  }

  function AttachIn(t: Table, id: u32, target: string, k: Kernel): (Table, Option<LoaderError>) {
    if id !in t.programs then (t, Some(NoSuchProgram(id)))
    else
      var p := t.programs[id];
      if p.attached then (t, None)
      else
        var e := AttachFirst(p.ebpf, target, k);
        if e.Some? then (t, e) else (t.(programs := t.programs[id := Marked(p, Some(target))]), None)
  }

  function DetachIn(t: Table, id: u32): (Table, Option<LoaderError>) {
    if id !in t.programs then (t, Some(NoSuchProgram(id)))
    else (t.(programs := t.programs[id := Marked(t.programs[id], None)]), None)
  }

  function UnloadFrom(t: Table, id: u32): (Table, Option<LoaderError>) {
    if id !in t.programs then (t, Some(NoSuchProgram(id)))
    else (t.(programs := t.programs - {id}), None)
  }

  /** The duplicated fields agree, ids are keys, and the recorded type is the detected one. */
  predicate Coherent(t: Table) {
    forall id :: id in t.programs ==>
      var p := t.programs[id];
      && p.id == id == p.info.id
      && p.attached == p.info.attached == p.attachPoint.Some?
      && p.attachPoint == p.info.attachPoint
      && p.info.path == "<memory>"
      && DetectProgram(p.ebpf) == Some(p.info.programType)
      && (p.attached ==> exists i :: 0 <= i < |p.ebpf| && Attachable(p.ebpf[i].1))
  }

  lemma {:induction false} AttachFirstNeedsProgram(ebpf: EbpfObject, target: string, k: Kernel)
    requires AttachFirst(ebpf, target, k).None?
    ensures exists i :: 0 <= i < |ebpf| && Attachable(ebpf[i].1)
  {
    if !Attachable(ebpf[0].1) {
      AttachFirstNeedsProgram(ebpf[1..], target, k);
      var i :| 0 <= i < |ebpf[1..]| && Attachable(ebpf[1..][i].1);
      assert Attachable(ebpf[i + 1].1);
    }
  }

  lemma AttachKeepsCoherent(t: Table, id: u32, target: string, k: Kernel)
    requires Coherent(t)
    ensures Coherent(AttachIn(t, id, target, k).0)
  {
    if id in t.programs && AttachFirst(t.programs[id].ebpf, target, k).None? {
      AttachFirstNeedsProgram(t.programs[id].ebpf, target, k);
    }
  }

  /** Coherent, and all live ids were issued at or after `floor` and before the counter. */
  predicate Within(t: Table, floor: nat) {
    && 1 <= floor <= t.nextId
    && Coherent(t)
    && forall id :: id in t.programs ==> floor <= id < t.nextId
  }

  lemma LoadWithin(t: Table, name: string, k: Kernel, floor: nat)
    requires Within(t, floor) && t.nextId < 0xFFFF_FFFF
    ensures Within(LoadInto(t, name, k).0, floor)
  {
  }

  lemma AttachWithin(t: Table, id: u32, target: string, k: Kernel, floor: nat)
    requires Within(t, floor)
    ensures Within(AttachIn(t, id, target, k).0, floor)
  {
    AttachKeepsCoherent(t, id, target, k);
  }

  lemma DetachWithin(t: Table, id: u32, floor: nat)
    requires Within(t, floor)
    ensures Within(DetachIn(t, id).0, floor)
  {
  }

  lemma ShrinkWithin(t: Table, t1: Table, floor: nat)
    requires Within(t, floor) && t1.nextId == t.nextId
    requires forall id :: id in t1.programs ==> id in t.programs && t1.programs[id] == t.programs[id]
    ensures Within(t1, floor)
  {
  }

  /** The object the agent keeps behind its handler lock. */
  class ProgramLoader {
    var programs: map<u32, LoadedProgram>
    var nextId: u32

    function Abs(): Table
      reads this
    {
      Table(programs, nextId)
    }

    constructor ()
      ensures Abs() == EMPTY_TABLE
    {
      programs, nextId := map[], 1;
    }

    method Load(name: string, k: Kernel) returns (r: Result<ProgramInfo, LoaderError>)
      modifies this
      ensures (Abs(), r) == LoadInto(old(Abs()), name, k)
    {
      if k.parsed.None? {
        return Err(LoadFailed(k.text));
      }
      var ebpf := k.parsed.value;
      var ty := DetectProgram(ebpf);
      if ty.None? {
        return Err(NoProgram);
      }
      var id := nextId;
      nextId := Succ32(nextId);
      var info := ProgramInfo(id, name, ty.value, "<memory>", false, None);
      programs := programs[id := LoadedProgram(id, info, ebpf, false, None)];
      r := Ok(info);
    }

    method Attach(id: u32, target: string, k: Kernel) returns (e: Option<LoaderError>)
      modifies this
      ensures (Abs(), e) == AttachIn(old(Abs()), id, target, k)
    {
      if id !in programs {
        return Some(NoSuchProgram(id));
      }
      var loaded := programs[id];
      if loaded.attached {
        return None;
      }
      var i := 0;
      while i < |loaded.ebpf|
        invariant 0 <= i <= |loaded.ebpf|
        invariant AttachFirst(loaded.ebpf, target, k) == AttachFirst(loaded.ebpf[i..], target, k)
      {
        var p := loaded.ebpf[i].1;
        if Attachable(p) {
          e := AttachOne(p, target, k);
          if e.None? {
            programs := programs[id := Marked(loaded, Some(target))];
          }
          return;
        }
        i := i + 1;
      }
      e := Some(AttachFailed("No attachable program found"));
    }

    method Detach(id: u32) returns (e: Option<LoaderError>)
      modifies this
      ensures (Abs(), e) == DetachIn(old(Abs()), id)
    {
      if id !in programs {
        return Some(NoSuchProgram(id));
      }
      programs := programs[id := Marked(programs[id], None)];
      e := None;
    }

    method Unload(id: u32) returns (e: Option<LoaderError>)
      modifies this
      ensures (Abs(), e) == UnloadFrom(old(Abs()), id)
    {
      if id !in programs {
        return Some(NoSuchProgram(id));
      }
      programs := programs - {id};
      e := None;
    }

    method UnloadAll() returns (count: nat)
      modifies this
      ensures count == |old(programs)| && programs == map[] && nextId == old(nextId)
    {
      count := |programs|;
      programs := map[];
    }
  }
}
