/** Host/guest messages (protocol.rs, the same in both crates) and the contract of their JSON codec. */
module Protocol {
  import opened Common
  import opened Framing

  datatype GuestCommand =
    | Load(programBytes: seq<byte>, name: string)
    | Unload(id: u32)
    | Attach(id: u32, target: string)
    | Detach(id: u32)
    | List
    | Status
    | Trigger(category: string, operation: string, args: seq<string>)
    | ReadTrace(maxLines: u32, timeoutMs: u32)
    | MapList(id: u32)
    | MapRead(id: u32, mapName: string, key: Option<seq<byte>>)
    | MapWrite(id: u32, mapName: string, mapKey: seq<byte>, value: seq<byte>)
    | MapDelete(id: u32, mapName: string, mapKey: seq<byte>)
    | UnloadAll
    | Reset
    | Shutdown
    | Ping

  /** Lists that the guest collects from a hash map have no order, so they are sets here. */
  datatype GuestResponse =
    | Loaded(id: u32, info: ProgramInfo)
    | Unloaded
    | UnloadedAll(count: nat)
    | Attached
    | Detached
    | Programs(programs: set<ProgramInfo>)
    | StatusReport(uptimeSecs: nat, programsLoaded: nat)
    | Triggered(output: string)
    | TraceOutput(lines: seq<string>)
    | Maps(maps: set<string>)
    | MapEntries(entries: seq<MapEntry>)
    | MapWritten
    | MapDeleted
    | ResetComplete
    | Pong
    | ShuttingDown
    | Error(code: int, message: string)

  const TOO_LARGE := Error(-1, "Message too large")

  const INVALID_COMMAND := Error(-1, "Invalid command")

  /** The replies without content: `{"type":"Attached"}` and the like. */
  predicate Bare(m: GuestResponse) {
    m in {Unloaded, Attached, Detached, MapWritten, MapDeleted, ResetComplete, Pong, ShuttingDown}
  }

  /** serde_json on both ends. */
  datatype Codec = Codec(
    encCmd: GuestCommand -> seq<byte>,
    decCmd: seq<byte> -> Option<GuestCommand>,
    encResp: GuestResponse -> seq<byte>,
    decResp: seq<byte> -> Option<GuestResponse>
  ) {
    ghost predicate ValidCommands() {
      && (forall m :: decCmd(encCmd(m)) == Some(m))
      && |encCmd(Reset)| < 32 && |encCmd(Ping)| < 32
    }

    /** What serde_json makes of compact JSON objects. It also reads other texts of a message, with white space,
        reordered keys or unknown fields, but none that holds a byte 0, and none that is an object's text cut
        short, be it with up to three bytes put in front of it. */
    ghost predicate ValidResponses() {
      && (forall m :: decResp(encResp(m)) == Some(m))
      && (forall b :: decResp(b).Some? ==> 0 !in b)
      && (forall m, w, k :: |w| <= 3 && 0 <= k < |encResp(m)| ==> decResp(w + encResp(m)[..k]).None?)
      && (forall m :: Printable(encResp(m)) && |encResp(m)| >= 4)
      && (forall m :: Bare(m) ==> |encResp(m)| < 32)
    }

    ghost predicate Valid() {
      ValidCommands() && ValidResponses()
    }
  }

  /** A proper prefix of a reply's text is no message. */
  lemma CutShort(c: Codec, m: GuestResponse, k: nat)
    requires c.ValidResponses() && k < |c.encResp(m)|
    ensures c.decResp(c.encResp(m)[..k]).None?
  {
    assert [] + c.encResp(m)[..k] == c.encResp(m)[..k];
  }

  /** send_response: the length prefix is the payload length truncated to 32 bits. */
  function Frame(c: Codec, m: GuestResponse): seq<byte> {
    ToLe(|c.encResp(m)| % 0x1_0000_0000) + c.encResp(m)
  }

  function Frames(c: Codec, ms: seq<GuestResponse>): seq<byte> {
    if ms == [] then [] else Frame(c, ms[0]) + Frames(c, ms[1..])
  }

  lemma {:induction false} FramesConcat(c: Codec, a: seq<GuestResponse>, b: seq<GuestResponse>)
    ensures Frames(c, a + b) == Frames(c, a) + Frames(c, b)
  {
    if a == [] {
      assert a + b == b;
    } else {
      assert (a + b)[1..] == a[1..] + b;
      FramesConcat(c, a[1..], b);
      ConcatAssoc(Frame(c, a[0]), Frames(c, a[1..]), Frames(c, b));
    }
  }

  lemma FramesOneMore(c: Codec, a: seq<GuestResponse>, m: GuestResponse)
    ensures Frames(c, a + [m]) == Frames(c, a) + Frame(c, m)
  {
    FramesConcat(c, a, [m]);
    assert [m][1..] == [];
    assert Frames(c, [m]) == Frame(c, m) + [];
  }
}
