/** The codec contract can be met: a printable, prefix-free text for every message. So the theorems that ask
    for a valid codec speak of something. */
module CodecExists {
  import opened Common
  import opened Framing
  import opened Protocol

  datatype Nums = End | Num(first: nat, rest: Nums)

  // ---- numbers as text: as many ones, then a comma; a brace at the end ----

  function Unary(n: nat): seq<byte> {
    if n == 0 then [0x2c] else [0x31] + Unary(n - 1)
  }

  function Text(ns: Nums): seq<byte> {
    match ns
    case End => [0x7d]
    case Num(n, rest) => Unary(n) + Text(rest)
  }

  lemma {:induction false} UnaryFirst(m: nat, n: nat, a: seq<byte>, b: seq<byte>)
    requires Unary(m) + a <= Unary(n) + b
    ensures m == n && a <= b
  {
    var x, y := Unary(m) + a, Unary(n) + b;
    assert x[0] == y[0];
    if m == 0 {
      assert x[1..] == a && y[1..] == b;
    } else {
      assert x[1..] == Unary(m - 1) + a && y[1..] == Unary(n - 1) + b;
      UnaryFirst(m - 1, n - 1, a, b);
    }
  }

  lemma {:induction false} TextPrefixFree(a: Nums, b: Nums)
    requires Text(a) <= Text(b)
    ensures a == b
  {
    assert Text(a)[0] == Text(b)[0];
    match a {
      case End =>
        assert b.End?;
      case Num(n, rest) =>
        UnaryFirst(n, b.first, Text(rest), Text(b.rest));
        TextPrefixFree(rest, b.rest);
    }
  }

  /** The brace ends a text, and stands nowhere else in it. */
  lemma {:induction false} BraceEnds(ns: Nums)
    ensures Text(ns)[|Text(ns)| - 1] == 0x7d
    ensures forall i :: 0 <= i < |Text(ns)| - 1 ==> Text(ns)[i] != 0x7d
  {
    if ns.Num? {
      UnaryPlain(ns.first);
      BraceEnds(ns.rest);
    }
  }

  lemma {:induction false} UnaryPlain(n: nat)
    ensures 0x7d !in Unary(n)
  {
    if n > 0 {
      UnaryPlain(n - 1);
    }
  }

  lemma {:induction false} TextPrintable(ns: Nums)
    ensures Printable(Text(ns)) && |Text(ns)| >= 1
  {
    if ns.Num? {
      UnaryPrintable(ns.first);
      TextPrintable(ns.rest);
    }
  }

  lemma {:induction false} UnaryPrintable(n: nat)
    ensures Printable(Unary(n)) && |Unary(n)| == n + 1
  {
    if n > 0 {
      UnaryPrintable(n - 1);
    }
  }

  // ---- messages as numbers; each part is put in front of the numbers that follow it ----

  function PutChars(s: string, k: Nums): Nums {
    if s == "" then k else Num(s[0] as nat, PutChars(s[1..], k))
  }

  function PutString(s: string, k: Nums): Nums {
    Num(|s|, PutChars(s, k))
  }

  function PutBytes(s: seq<byte>, k: Nums): Nums {
    if s == [] then k else Num(s[0], PutBytes(s[1..], k))
  }

  function PutStrings(ss: seq<string>, k: Nums): Nums {
    if ss == [] then Num(0, k) else Num(1, PutString(ss[0], PutStrings(ss[1..], k)))
  }

  function TypeNumber(t: ProgramType): nat {
    match t
    case KProbe => 0
    case KRetProbe => 1
    case UProbe => 2
    case URetProbe => 3
    case TracePoint => 4
    case RawTracePoint => 5
    case Xdp => 6
    case SchedClassifier => 7
    case CgroupSkb => 8
    case SocketFilter => 9
    case PerfEvent => 10
    case Lsm => 11
    case StructOps => 12
    case Unknown => 13
  }

  function PutPoint(p: Option<string>, k: Nums): Nums {
    if p.None? then Num(0, k) else Num(1, PutString(p.value, k))
  }

  function PutInfo(i: ProgramInfo, k: Nums): Nums {
    Num(i.id, PutString(i.name, Num(TypeNumber(i.programType), PutString(i.path,
      Num(if i.attached then 1 else 0, PutPoint(i.attachPoint, k))))))
  }

  function PutInfos(infos: seq<ProgramInfo>, k: Nums): Nums {
    if infos == [] then Num(0, k) else Num(1, PutInfo(infos[0], PutInfos(infos[1..], k)))
  }

  function PutBlob(s: seq<byte>, k: Nums): Nums {
    Num(|s|, PutBytes(s, k))
  }

  function PutKey(key: Option<seq<byte>>, k: Nums): Nums {
    if key.None? then Num(0, k) else Num(1, PutBlob(key.value, k))
  }

  function PutEntries(es: seq<MapEntry>, k: Nums): Nums {
    if es == [] then Num(0, k)
    else Num(1, PutString(es[0].key, PutString(es[0].value, Num(es[0].valueU64, PutEntries(es[1..], k)))))
  }

  /** The elements of a set, in some order. */
  ghost function Listed<T(!new)>(s: set<T>): (list: seq<T>)
    ensures |list| == |s| && forall x :: x in list <==> x in s
  {
    if s == {} then [] else var x :| x in s; [x] + Listed(s - {x})
  }

  lemma {:induction false} CharsApart(s: string, t: string, k: Nums, l: Nums)
    requires |s| == |t| && PutChars(s, k) == PutChars(t, l)
    ensures s == t && k == l
  {
    if s != "" {
      CharsApart(s[1..], t[1..], k, l);
      assert s == [s[0]] + s[1..] && t == [t[0]] + t[1..];
    }
  }

  lemma {:induction false} BytesApart(s: seq<byte>, t: seq<byte>, k: Nums, l: Nums)
    requires |s| == |t| && PutBytes(s, k) == PutBytes(t, l)
    ensures s == t && k == l
  {
    if s != [] {
      BytesApart(s[1..], t[1..], k, l);
      assert s == [s[0]] + s[1..] && t == [t[0]] + t[1..];
    }
  }

  lemma {:induction false} StringsApart(s: seq<string>, t: seq<string>, k: Nums, l: Nums)
    requires PutStrings(s, k) == PutStrings(t, l)
    ensures s == t && k == l
  {
    if s != [] {
      CharsApart(s[0], t[0], PutStrings(s[1..], k), PutStrings(t[1..], l));
      StringsApart(s[1..], t[1..], k, l);
      assert s == [s[0]] + s[1..] && t == [t[0]] + t[1..];
    }
  }

  lemma {:induction false} EntriesApart(s: seq<MapEntry>, t: seq<MapEntry>, k: Nums, l: Nums)
    requires PutEntries(s, k) == PutEntries(t, l)
    ensures s == t && k == l
  {
    if s != [] {
      var a, b := Num(s[0].valueU64, PutEntries(s[1..], k)), Num(t[0].valueU64, PutEntries(t[1..], l));
      CharsApart(s[0].key, t[0].key, PutString(s[0].value, a), PutString(t[0].value, b));
      CharsApart(s[0].value, t[0].value, a, b);
      EntriesApart(s[1..], t[1..], k, l);
      assert s == [s[0]] + s[1..] && t == [t[0]] + t[1..];
    }
  }

  lemma InfoApart(i: ProgramInfo, j: ProgramInfo, k: Nums, l: Nums)
    requires PutInfo(i, k) == PutInfo(j, l)
    ensures i == j && k == l
  {
    var a, b := PutInfo(i, k).rest, PutInfo(j, l).rest;
    var a1 := Num(TypeNumber(i.programType),
      PutString(i.path, Num(if i.attached then 1 else 0, PutPoint(i.attachPoint, k))));
    var b1 := Num(TypeNumber(j.programType),
      PutString(j.path, Num(if j.attached then 1 else 0, PutPoint(j.attachPoint, l))));
    CharsApart(i.name, j.name, a1, b1);
    CharsApart(i.path, j.path, Num(if i.attached then 1 else 0, PutPoint(i.attachPoint, k)),
      Num(if j.attached then 1 else 0, PutPoint(j.attachPoint, l)));
    if i.attachPoint.Some? {
      CharsApart(i.attachPoint.value, j.attachPoint.value, k, l);
    }
  }

  lemma {:induction false} InfosApart(s: seq<ProgramInfo>, t: seq<ProgramInfo>, k: Nums, l: Nums)
    requires PutInfos(s, k) == PutInfos(t, l)
    ensures s == t && k == l
  {
    hide PutInfo;
    if s != [] {
      InfoApart(s[0], t[0], PutInfos(s[1..], k), PutInfos(t[1..], l));
      InfosApart(s[1..], t[1..], k, l);
      assert s == [s[0]] + s[1..] && t == [t[0]] + t[1..];
    }
  }

  lemma ListedApart<T(!new)>(s: set<T>, t: set<T>)
    requires Listed(s) == Listed(t)
    ensures s == t
  {
    assert forall x :: x in s <==> x in Listed(s);
    assert forall x :: x in t <==> x in Listed(t);
  }

  ghost function ResponseNumbers(m: GuestResponse): Nums {
    match m
    case Loaded(id, info) => Num(2, Num(id, PutInfo(info, End)))
    case Unloaded => Num(3, End)
    case UnloadedAll(count) => Num(4, Num(count, End))
    case Attached => Num(5, End)
    case Detached => Num(6, End)
    case Programs(programs) => Num(7, PutInfos(Listed(programs), End))
    case StatusReport(uptime, programs) => Num(8, Num(uptime, Num(programs, End)))
    case Triggered(output) => Num(9, PutString(output, End))
    case TraceOutput(lines) => Num(10, PutStrings(lines, End))
    case Maps(maps) => Num(11, PutStrings(Listed(maps), End))
    case ResetComplete => Num(12, End)
    case Pong => Num(13, End)
    case ShuttingDown => Num(14, End)
    case MapEntries(entries) => Num(17, PutEntries(entries, End))
    case MapWritten => Num(18, End)
    case MapDeleted => Num(19, End)
    case Error(code, message) =>
      Num(if code < 0 then 15 else 16, Num(if code < 0 then -code else code, PutString(message, End)))
  }

  lemma ResponsesApart(m: GuestResponse, n: GuestResponse)
    requires ResponseNumbers(m) == ResponseNumbers(n)
    ensures m == n
  {
    hide PutInfo, PutInfos, PutStrings, PutChars;
    match m
    case Loaded(_, info) => InfoApart(info, n.info, End, End);
    case Programs(programs) =>
      InfosApart(Listed(programs), Listed(n.programs), End, End);
      ListedApart(programs, n.programs);
    case Triggered(output) => CharsApart(output, n.output, End, End);
    case TraceOutput(lines) => StringsApart(lines, n.lines, End, End);
    case Maps(maps) =>
      StringsApart(Listed(maps), Listed(n.maps), End, End);
      ListedApart(maps, n.maps);
    case MapEntries(entries) => EntriesApart(entries, n.entries, End, End);
    case Error(_, message) => CharsApart(message, n.message, End, End);
    case _ =>
  }

  function CommandNumbers(m: GuestCommand): Nums {
    match m
    case Load(bytes, name) => Num(2, Num(|bytes|, PutBytes(bytes, PutString(name, End))))
    case Unload(id) => Num(3, Num(id, End))
    case Attach(id, target) => Num(4, Num(id, PutString(target, End)))
    case Detach(id) => Num(5, Num(id, End))
    case List => Num(6, End)
    case Status => Num(7, End)
    case Trigger(category, operation, args) =>
      Num(8, PutString(category, PutString(operation, PutStrings(args, End))))
    case ReadTrace(lines, timeout) => Num(9, Num(lines, Num(timeout, End)))
    case MapList(id) => Num(10, Num(id, End))
    case UnloadAll => Num(11, End)
    case Reset => Num(12, End)
    case Shutdown => Num(13, End)
    case Ping => Num(14, End)
    case MapRead(id, name, key) => Num(15, Num(id, PutString(name, PutKey(key, End))))
    case MapWrite(id, name, key, value) => Num(16, Num(id, PutString(name, PutBlob(key, PutBlob(value, End)))))
    case MapDelete(id, name, key) => Num(17, Num(id, PutString(name, PutBlob(key, End))))
  }

  lemma CommandsApart(m: GuestCommand, n: GuestCommand)
    requires CommandNumbers(m) == CommandNumbers(n)
    ensures m == n
  {
    hide PutStrings, PutChars, PutBytes;
    match m
    case Load(bytes, name) =>
      BytesApart(bytes, n.programBytes, PutString(name, End), PutString(n.name, End));
      CharsApart(name, n.name, End, End);
    case Attach(_, target) => CharsApart(target, n.target, End, End);
    case Trigger(category, operation, args) =>
      CharsApart(category, n.category, PutString(operation, PutStrings(args, End)),
        PutString(n.operation, PutStrings(n.args, End)));
      CharsApart(operation, n.operation, PutStrings(args, End), PutStrings(n.args, End));
      StringsApart(args, n.args, End, End);
    case MapRead(_, name, key) =>
      CharsApart(name, n.mapName, PutKey(key, End), PutKey(n.key, End));
      if key.Some? {
        BytesApart(key.value, n.key.value, End, End);
      }
    case MapWrite(_, name, key, value) =>
      CharsApart(name, n.mapName, PutBlob(key, PutBlob(value, End)), PutBlob(n.mapKey, PutBlob(n.value, End)));
      BytesApart(key, n.mapKey, PutBlob(value, End), PutBlob(n.value, End));
      BytesApart(value, n.value, End, End);
    case MapDelete(_, name, key) =>
      CharsApart(name, n.mapName, PutBlob(key, End), PutBlob(n.mapKey, End));
      BytesApart(key, n.mapKey, End, End);
    case _ =>
  }

  // ---- the codec ----

  ghost function WriteCommand(m: GuestCommand): seq<byte> {
    Text(CommandNumbers(m))
  }

  ghost function WriteResponse(m: GuestResponse): seq<byte> {
    Text(ResponseNumbers(m))
  }

  ghost function ReadCommand(b: seq<byte>): Option<GuestCommand> {
    if exists m :: WriteCommand(m) == b then
      var m :| WriteCommand(m) == b;
      Some(m)
    else None
  }

  ghost function ReadResponse(b: seq<byte>): Option<GuestResponse> {
    if exists m :: WriteResponse(m) == b then
      var m :| WriteResponse(m) == b;
      Some(m)
    else None
  }

  lemma ResponsePrefixFree(m: GuestResponse, n: GuestResponse)
    requires WriteResponse(m) <= WriteResponse(n)
    ensures m == n
  {
    hide ResponseNumbers;
    TextPrefixFree(ResponseNumbers(m), ResponseNumbers(n));
    ResponsesApart(m, n);
  }

  lemma CommandsDistinct(m: GuestCommand, n: GuestCommand)
    requires WriteCommand(m) == WriteCommand(n)
    ensures m == n
  {
    hide CommandNumbers;
    TextPrefixFree(CommandNumbers(m), CommandNumbers(n));
    CommandsApart(m, n);
  }

  lemma TextLength(n: nat, rest: Nums)
    ensures Printable(Text(Num(n, rest))) && |Text(Num(n, rest))| == n + 1 + |Text(rest)| >= n + 2
  {
    TextPrintable(Num(n, rest));
    UnaryPrintable(n);
    TextPrintable(rest);
  }

  lemma EndLength()
    ensures |Text(End)| == 1
  {
  }

  /** Every reply begins with a number from 2 on, and the replies without content consist of one up to 19. */
  lemma ResponseFirst(m: GuestResponse)
    ensures ResponseNumbers(m).Num? && 2 <= ResponseNumbers(m).first
    ensures Bare(m) ==> ResponseNumbers(m).first <= 19 && ResponseNumbers(m).rest == End
  {
    hide PutInfo, PutInfos, PutStrings, PutChars, PutEntries;
  }

  lemma ResponseText(m: GuestResponse)
    ensures Printable(WriteResponse(m)) && |WriteResponse(m)| >= 4
    ensures Bare(m) ==> |WriteResponse(m)| < 32
  {
    hide ResponseNumbers, Printable, Text, Bare;
    ResponseFirst(m);
    TextLength(ResponseNumbers(m).first, ResponseNumbers(m).rest);
    EndLength();
  }

  lemma ShortCommands()
    ensures |WriteCommand(Reset)| < 32 && |WriteCommand(Ping)| < 32
  {
    hide Text;
    EndLength();
    TextLength(12, End);
    TextLength(14, End);
  }

  lemma CommandRoundTrip(m: GuestCommand)
    ensures ReadCommand(WriteCommand(m)) == Some(m)
  {
    hide WriteCommand;
    CommandsDistinct(m, ReadCommand(WriteCommand(m)).value);
  }

  lemma ResponseRoundTrip(m: GuestResponse)
    ensures ReadResponse(WriteResponse(m)) == Some(m)
  {
    hide WriteResponse;
    ResponsePrefixFree(m, ReadResponse(WriteResponse(m)).value);
  }

  lemma NoTextCutShort(m: GuestResponse, n: GuestResponse, w: seq<byte>, k: nat)
    requires |w| <= 3 && k < |WriteResponse(m)|
    ensures w + WriteResponse(m)[..k] != WriteResponse(n)
  {
    hide ResponseNumbers, Text;
    var t := w + WriteResponse(m)[..k];
    BraceEnds(ResponseNumbers(m));
    BraceEnds(ResponseNumbers(n));
    ResponseText(n);
    if k > 0 {
      assert t[|t| - 1] == WriteResponse(m)[k - 1];
    }
  }

  lemma ReadsOnlyTexts(b: seq<byte>) returns (m: GuestResponse)
    requires ReadResponse(b).Some?
    ensures WriteResponse(m) == b
  {
    m := ReadResponse(b).value;
  }

  lemma NoZero(b: seq<byte>)
    requires ReadResponse(b).Some?
    ensures 0 !in b
  {
    hide WriteResponse, ReadResponse;
    var m := ReadsOnlyTexts(b);
    ResponseText(m);
  }

  lemma ReadsNothingCut(m: GuestResponse, w: seq<byte>, k: nat)
    requires |w| <= 3 && k < |WriteResponse(m)|
    ensures ReadResponse(w + WriteResponse(m)[..k]).None?
  {
    hide WriteResponse, ReadResponse;
    if ReadResponse(w + WriteResponse(m)[..k]).Some? {
      var n := ReadsOnlyTexts(w + WriteResponse(m)[..k]);
      NoTextCutShort(m, n, w, k);
    }
  }

  lemma SomeValidCommands(c: Codec)
    requires forall m :: c.encCmd(m) == WriteCommand(m)
    requires forall b :: c.decCmd(b) == ReadCommand(b)
    ensures c.ValidCommands()
  {
    hide WriteCommand, ReadCommand;
    forall m ensures c.decCmd(c.encCmd(m)) == Some(m) {
      CommandRoundTrip(m);
    }
    ShortCommands();
  }

  lemma SomeValidResponses(c: Codec)
    requires forall m :: c.encResp(m) == WriteResponse(m)
    requires forall b :: c.decResp(b) == ReadResponse(b)
    ensures c.ValidResponses()
  {
    hide WriteResponse, ReadResponse, Printable, Bare;
    forall m
      ensures c.decResp(c.encResp(m)) == Some(m)
      ensures Printable(c.encResp(m)) && |c.encResp(m)| >= 4
      ensures Bare(m) ==> |c.encResp(m)| < 32
    {
      ResponseRoundTrip(m);
      ResponseText(m);
    }
    forall b | c.decResp(b).Some? ensures 0 !in b {
      NoZero(b);
    }
    forall m, w, k | |w| <= 3 && 0 <= k < |c.encResp(m)| ensures c.decResp(w + c.encResp(m)[..k]).None? {
      ReadsNothingCut(m, w, k);
    }
  }

  ghost function TextCodec(): Codec {
    Codec(m => WriteCommand(m), b => ReadCommand(b), m => WriteResponse(m), b => ReadResponse(b))
  }

  /** There is a valid codec. */
  lemma ValidCodecExists()
    ensures TextCodec().Valid()
  {
    hide WriteCommand, WriteResponse, ReadCommand, ReadResponse;
    SomeValidCommands(TextCodec());
    SomeValidResponses(TextCodec());
  }
}
