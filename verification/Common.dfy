/** Types shared by the daemon, the host library and the guest agent (crates/ebpf-assist-common). */
module Common {

  datatype Option<+T> = None | Some(value: T)

  datatype Result<+T, +E> = Ok(value: T) | Err(error: E)

  type u32 = n: nat | n < 0x1_0000_0000

  type u64 = n: nat | n < 0x1_0000_0000_0000_0000

  datatype ProgramType =
    | KProbe | KRetProbe | UProbe | URetProbe | TracePoint | RawTracePoint | Xdp
    | SchedClassifier | CgroupSkb | SocketFilter | PerfEvent | Lsm | StructOps | Unknown

  datatype PolicyAction = Allow | Warn | Deny

  function DefaultPolicy(t: ProgramType): PolicyAction {
    match t
    case KProbe | KRetProbe | UProbe | URetProbe | TracePoint | RawTracePoint | PerfEvent => Allow
    case Xdp | SchedClassifier | SocketFilter => Warn
    case Lsm | StructOps | CgroupSkb | Unknown => Deny
  }

  datatype ProgramInfo = ProgramInfo(
    id: u32,
    name: string,
    programType: ProgramType,
    path: string,
    attached: bool,
    attachPoint: Option<string>
  )

  datatype MapEntry = MapEntry(key: string, value: string, valueU64: u64)

  datatype ErrorCode =
    | NotFound | VerifierError | ProgramNotFound | AlreadyAttached | NotAttached | Internal
    | CapabilityError | AuthRequired | AuthDenied | PolicyViolation | MapNotFound | InvalidKey | InvalidValue

  /** The variants of aya's Program that the loaders tell apart; AyaOther is every other variant. */
  datatype AyaProgram =
    | AyaKProbe | AyaUProbe | AyaTracePoint | AyaRawTracePoint | AyaXdp | AyaSchedClassifier
    | AyaCgroupSkb | AyaSocketFilter | AyaPerfEvent | AyaLsm | AyaOther

  /** A parsed eBPF object: its programs in the order in which aya iterates over them. */
  type EbpfObject = seq<(string, AyaProgram)>

  /** The wrapping increment of a u32 counter. */
  function Succ32(n: u32): u32 {
    (n + 1) % 0x1_0000_0000
  }
}
