/** What the daemon's loader does with the program of an object, told by aya's variants: which may be loaded, under
    which type they are listed, and when an attach succeeds (crates/ebpf-assistd/src/loader.rs:53-238). */
module DaemonPolicy {
  import opened Common
  import opened Caps
  import opened ErrorText
  import opened DaemonLoader

  /** The object's program number i is the one that a request names, or the only one. */
  predicate Chosen(bpf: EbpfObject, requested: Option<string>, i: int) {
    && 0 <= i < |bpf|
    && (if requested.Some? then bpf[i].0 == requested.value else |bpf| == 1)
    && forall j :: 0 <= j < i ==> bpf[j].0 != bpf[i].0
  }

  lemma {:induction false} FindFirst(bpf: EbpfObject, name: string)
    ensures Find(bpf, name).Some? <==> exists i :: 0 <= i < |bpf| && bpf[i].0 == name
    ensures forall i :: 0 <= i < |bpf| && bpf[i].0 == name && (forall j :: 0 <= j < i ==> bpf[j].0 != name) ==>
      Find(bpf, name) == Some(bpf[i].1)
  {
    if bpf != [] && bpf[0].0 != name {
      FindFirst(bpf[1..], name);
      assert forall i :: 0 < i < |bpf| ==> bpf[i] == bpf[1..][i - 1];
      if i :| 0 <= i < |bpf[1..]| && bpf[1..][i].0 == name {
        assert bpf[i + 1].0 == name;
      }
      forall i | 0 <= i < |bpf| && bpf[i].0 == name && (forall j :: 0 <= j < i ==> bpf[j].0 != name)
        ensures Find(bpf, name) == Some(bpf[i].1)
      {
        assert forall j :: 0 <= j < i - 1 ==> bpf[1..][j].0 == bpf[j + 1].0;
      }
    }
  }

  /** A program is selected exactly when one is chosen, and then it is that one. */
  lemma SelectIff(bpf: EbpfObject, requested: Option<string>)
    ensures Select(bpf, requested).Ok? ==> exists i :: Chosen(bpf, requested, i)
    ensures forall i :: Chosen(bpf, requested, i) ==>
      Select(bpf, requested) == Ok(bpf[i].0) && Find(bpf, bpf[i].0) == Some(bpf[i].1)
  {
    if requested.Some? {
      FindFirst(bpf, requested.value);
      if Find(bpf, requested.value).Some? {
        var i := FirstIndex(bpf, requested.value);
        assert Chosen(bpf, requested, i);
      }
    } else if |bpf| == 1 {
      FindFirst(bpf, bpf[0].0);
      assert Chosen(bpf, requested, 0);
    }
  }

  lemma {:induction false} FirstIndex(bpf: EbpfObject, name: string) returns (i: nat)
    requires Find(bpf, name).Some?
    ensures i < |bpf| && bpf[i].0 == name && forall j :: 0 <= j < i ==> bpf[j].0 != name
  {
    if bpf[0].0 == name {
      i := 0;
    } else {
      i := FirstIndex(bpf[1..], name);
      i := i + 1;
      assert forall j :: 0 < j < |bpf| ==> bpf[j] == bpf[1..][j - 1];
    }
  }

  /** Variants whose load is refused, and those that are loaded with a warning. */
  predicate Refused(v: AyaProgram) {
    v in {AyaCgroupSkb, AyaLsm, AyaOther}
  }

  predicate Warned(v: AyaProgram) {
    v in {AyaXdp, AyaSchedClassifier, AyaSocketFilter}
  }

  /** The type under which a variant that may be loaded is listed. */
  predicate ListedAs(v: AyaProgram, t: ProgramType) {
    && (v.AyaKProbe? <==> t.KProbe?)
    && (v.AyaUProbe? <==> t.UProbe?)
    && (v.AyaTracePoint? <==> t.TracePoint?)
    && (v.AyaRawTracePoint? <==> t.RawTracePoint?)
    && (v.AyaXdp? <==> t.Xdp?)
    && (v.AyaSchedClassifier? <==> t.SchedClassifier?)
    && (v.AyaSocketFilter? <==> t.SocketFilter?)
    && (v.AyaPerfEvent? <==> t.PerfEvent?)
  }

  /** With the two capabilities and an object that parses, what the load of a chosen program does. A refused
      variant is answered PolicyViolation, and table and counter stay as they are; every other one is recorded
      under the counter's id, with a warning for three of them. */
  lemma LoadMeans(t: Table, permitted: set<Cap>, path: string, requested: Option<string>, k: Kernel, i: int)
    requires {Cap.BPF, Cap.PERFMON} <= permitted && k.parsed.Some? && Chosen(k.parsed.value, requested, i)
    ensures var (t1, r) := LoadInto(t, permitted, path, requested, k);
      var (name, v) := k.parsed.value[i];
      if Refused(v) then t1 == t && r.Err? && ErrorResponse(r.error) == PolicyViolation
      else
        && r.Ok? && (r.value.warning <==> Warned(v))
        && ListedAs(v, r.value.info.programType)
        && r.value.info == ProgramInfo(t.nextId, name, r.value.info.programType, path, false, None)
        && t1.programs == t.programs[t.nextId := LoadedProgram(r.value.info, k.parsed.value, false)]
        && t1.nextId == if t.nextId == 0xFFFF_FFFF then 0 else t.nextId + 1
  {
    hide Select, Find, ErrorResponse;
    SelectIff(k.parsed.value, requested);
    PolicyText("programs of this type are not allowed");
  }

  /** A load fails without a trace if one of the two capabilities is missing, if the object does not parse, or if no
      program is chosen. */
  lemma LoadFails(t: Table, permitted: set<Cap>, path: string, requested: Option<string>, k: Kernel)
    requires Cap.BPF !in permitted || Cap.PERFMON !in permitted || k.parsed.None?
      || !exists i :: Chosen(k.parsed.value, requested, i)
    ensures var (t1, r) := LoadInto(t, permitted, path, requested, k);
      t1 == t && r.Err?
  {
    hide Select, Find;
    assert Cap.BPF in LOAD_CAPS && Cap.PERFMON in LOAD_CAPS by {
      assert LOAD_CAPS[0] == Cap.BPF && LOAD_CAPS[1] == Cap.PERFMON;
    }
    if k.parsed.Some? {
      SelectIff(k.parsed.value, requested);
    }
  }

  /** The record is of program number i of its object. */
  predicate RecordOf(p: LoadedProgram, i: int) {
    && Chosen(p.bpf, Some(p.info.name), i)
    && !Refused(p.bpf[i].1) && ListedAs(p.bpf[i].1, p.info.programType)
    && (p.info.attached ==> p.bpf[i].1 in {AyaKProbe, AyaTracePoint, AyaXdp})
  }

  lemma RecordMeans(id: u32, p: LoadedProgram)
    requires RecordOk(id, p)
    ensures exists i :: RecordOf(p, i)
  {
    hide Find;
    var i := FirstIndex(p.bpf, p.info.name);
    FindFirst(p.bpf, p.info.name);
    assert RecordOf(p, i);
  }

  /** After any run no record names a program of a refused variant, the type in the record is that of the program, and
      only three variants are attached. */
  lemma NoRefusedRecord(permitted: set<Cap>, ops: seq<Op>, id: u32)
    requires DoAll(EMPTY_TABLE, permitted, ops).1 <= 0x1_0000_0000
    requires id in DoAll(EMPTY_TABLE, permitted, ops).0.programs
    ensures exists i :: RecordOf(DoAll(EMPTY_TABLE, permitted, ops).0.programs[id], i)
  {
    hide Find, DoAll, RecordOk, RecordOf;
    TableOverRuns(EMPTY_TABLE, permitted, ops, 0);
    RecordMeans(id, DoAll(EMPTY_TABLE, permitted, ops).0.programs[id]);
  }

  // ---- attach ----

  /** Exactly one colon, with anything before and behind it. */
  ghost predicate OneColon(s: string) {
    exists i :: ColonAt(s, i)
  }

  predicate ColonAt(s: string, i: int) {
    0 <= i < |s| && s[i] == ':' && forall j :: 0 <= j < |s| && j != i ==> s[j] != ':'
  }

  lemma {:induction false} CountNone(s: string)
    ensures Count(s, ':') == 0 <==> forall j :: 0 <= j < |s| ==> s[j] != ':'
  {
    if s != "" {
      CountNone(s[1..]);
      assert forall j :: 0 < j < |s| ==> s[j] == s[1..][j - 1];
      if forall j :: 0 <= j < |s| ==> s[j] != ':' {
        assert forall j :: 0 <= j < |s[1..]| ==> s[1..][j] == s[j + 1];
      }
    }
  }

  lemma {:induction false} CountOne(s: string)
    ensures Count(s, ':') == 1 <==> OneColon(s)
  {
    if s != "" {
      var r := s[1..];
      CountOne(r);
      CountNone(r);
      assert forall j :: 0 <= j < |r| ==> r[j] == s[j + 1];
      assert forall j :: 0 < j < |s| ==> s[j] == r[j - 1];
      if s[0] == ':' {
        if Count(r, ':') == 0 {
          assert ColonAt(s, 0);
        }
      } else {
        if i :| ColonAt(r, i) {
          assert ColonAt(s, i + 1);
        }
        if i :| ColonAt(s, i) {
          assert ColonAt(r, i - 1);
        }
      }
    }
  }

  /** The variants that can be attached, and the target each takes. */
  ghost predicate Takes(v: AyaProgram, target: string) {
    v.AyaKProbe? || v.AyaXdp? || (v.AyaTracePoint? && OneColon(target))
  }

  /** What a request to attach a known, unattached program does, with the three capabilities: it succeeds exactly for
      a kernel or XDP program, or a tracepoint with one colon in its target, that the kernel loads and attaches. Then
      this record, and no other, says attached at the target, and there is a link; otherwise nothing changes. */
  lemma AttachMeans(t: Table, permitted: set<Cap>, id: u32, target: string, k: Kernel, i: int)
    requires {Cap.BPF, Cap.PERFMON, Cap.NET_ADMIN} <= permitted
    requires id in t.programs && !t.programs[id].info.attached
    requires Chosen(t.programs[id].bpf, Some(t.programs[id].info.name), i)
    ensures var (t1, e) := AttachIn(t, permitted, id, target, k);
      var (p, v) := (t.programs[id], t.programs[id].bpf[i].1);
      && (e.None? <==> k.loads && k.attaches && Takes(v, target))
      && (e.Some? ==> t1 == t)
      && (e.None? ==>
            && t1.nextId == t.nextId && t1.programs - {id} == t.programs - {id}
            && id in t1.programs && t1.programs[id].bpf == p.bpf && t1.programs[id].hooked
            && t1.programs[id].info
              == ProgramInfo(p.info.id, p.info.name, p.info.programType, p.info.path, true, Some(target)))
  {
    hide Find, Count, OneColon;
    FindFirst(t.programs[id].bpf, t.programs[id].info.name);
    CountOne(target);
  }

  /** The other cases of an attach: nothing changes, and the code says why. */
  lemma AttachRefusals(t: Table, permitted: set<Cap>, id: u32, target: string, k: Kernel)
    requires id !in t.programs || t.programs[id].info.attached
      || Cap.BPF !in permitted || Cap.PERFMON !in permitted || Cap.NET_ADMIN !in permitted
    ensures var (t1, e) := AttachIn(t, permitted, id, target, k);
      && t1 == t && e.Some?
      && (id !in t.programs ==> ErrorResponse(e.value) == ProgramNotFound)
      && (id in t.programs && !t.programs[id].info.attached ==> ErrorResponse(e.value) == CapabilityError)
  {
    hide ErrorResponse, AttachKernel, Find, Escape, AlreadyMessage;
    assert ATTACH_CAPS[0] == Cap.BPF && ATTACH_CAPS[1] == Cap.PERFMON && ATTACH_CAPS[2] == Cap.NET_ADMIN;
    ProgramNotFoundText();
    CapabilityText();
  }

  /** Detach and unload touch no record but their own, and detach nothing of it but the two fields. */
  lemma DetachAndUnloadMean(t: Table, id: u32)
    ensures var (t1, e) := DetachIn(t, id);
      && t1.nextId == t.nextId && t1.programs - {id} == t.programs - {id}
      && (e.Some? ==> t1 == t)
      && (e.None? ==>
            && id in t.programs && t.programs[id].info.attached && id in t1.programs
            && t1.programs[id].bpf == t.programs[id].bpf && t1.programs[id].hooked == t.programs[id].hooked
            && var (p, q) := (t.programs[id].info, t1.programs[id].info);
               q == ProgramInfo(p.id, p.name, p.programType, p.path, false, None))
    ensures var (t1, e) := UnloadFrom(t, id);
      t1.nextId == t.nextId && t1.programs == t.programs - {id} && (e.None? <==> id in t.programs)
  {
  }
}
