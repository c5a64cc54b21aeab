/** How the mirror goes wrong: programs with long names, a list whose reply is over the limit, and a further load
    that the host never hears of. For every codec, and a run that does it. */
module MirrorLost {
  import opened Common
  import opened Framing
  import opened Protocol
  import opened GuestLoader
  import opened GuestAgent
  import opened HostLink
  import opened MicroVms
  import opened CodecExists

  /** For every codec: once the list of what is loaded does not fit a reply any more, a list call followed by a
      load that the guest accepts leaves the host without the program. Every single message of the run but the
      list's reply may be within the limit. */
  lemma LoadMissed(c: Codec, s: Session, before: seq<GuestCommand>, load: GuestCommand)
    requires c.Valid() && Aligned(s.link) && Agree(s) && load.Load?
    requires AllCallable(c, before + [List] + [load]) && AllFit(c, Replies(s.link.guest, before))
    requires var g := HandledAll(s.link.guest, before);
      && MAX_MESSAGE_SIZE < |c.encResp(Handled(g, List).1)| < 0x1_0000_0000
      && g.table.nextId !in g.table.programs && Handled(Handled(g, List).0, load).1.Loaded?
    ensures var (s1, s2) := (CallAll(c, s, before), CallAll(c, s, before + [List] + [load]));
      && s2.programs == s1.programs
      && s2.link.guest.table.programs.Keys == s1.link.guest.table.programs.Keys + {s1.link.guest.table.nextId}
      && !Agree(s2)
  {
    hide Handled, Call, CallAll, HandledAll, TablesAgree, AllCallable, AllFit, Codec.Valid, Aligned;
    var all := before + [List] + [load];
    CallableParts(c, before, List, [load]);
    MirrorAgreement(c, s, before);
    MirrorSurvivesIff(c, s, before, List, [load]);
    var g := HandledAll(s.link.guest, before);
    assert all == before + ([List] + [load]);
    HandledAllConcat(s.link.guest, before, [List] + [load]);
    ListThenLoad(g, load);
  }

  lemma ListKeeps(g: Guest)
    ensures Handled(g, List).0 == g.(tick := g.tick + 1)
  {
  }

  lemma LoadedGrows(g: Guest, load: GuestCommand)
    requires load.Load? && Handled(g, load).1.Loaded?
    ensures Handled(g, load).0.table.programs.Keys == g.table.programs.Keys + {g.table.nextId}
  {
    hide DetectProgram;
  }

  lemma ListThenLoad(g: Guest, load: GuestCommand)
    requires load.Load? && Handled(Handled(g, List).0, load).1.Loaded?
    ensures HandledAll(g, [List] + [load]).table.programs.Keys == g.table.programs.Keys + {g.table.nextId}
  {
    hide Handled;
    var g1 := Handled(g, List).0;
    ListKeeps(g);
    LoadedGrows(g1, load);
    assert ([List] + [load])[1..] == [load] && [load][1..] == [];
    assert HandledAll(g1, [load]) == HandledAll(Handled(g1, load).0, []) == Handled(g1, load).0;
  }

  // ---- how long messages are ----

  function Size(ns: Nums): nat {
    |Text(ns)|
  }

  lemma SizeNum(n: nat, rest: Nums)
    ensures Size(Num(n, rest)) == n + 1 + Size(rest)
  {
    UnaryPrintable(n);
  }

  lemma OneMore(n: int, x: int)
    ensures n * x == (n - 1) * x + x
  {
  }

  lemma {:induction false} SizeChars(s: string, low: nat, top: nat, k: Nums)
    requires forall i :: 0 <= i < |s| ==> low <= s[i] as nat <= top
    ensures |s| * (low + 1) + Size(k) <= Size(PutChars(s, k)) <= |s| * (top + 1) + Size(k)
  {
    hide Text, Size;
    if s != "" {
      SizeNum(s[0] as nat, PutChars(s[1..], k));
      SizeChars(s[1..], low, top, k);
      OneMore(|s|, low + 1);
      OneMore(|s|, top + 1);
    }
  }

  lemma {:induction false} SizeBytes(b: seq<byte>, k: Nums)
    ensures Size(k) <= Size(PutBytes(b, k)) <= |b| * 256 + Size(k)
  {
    hide Text, Size;
    if b != [] {
      SizeNum(b[0], PutBytes(b[1..], k));
      SizeBytes(b[1..], k);
    }
  }

  /** A name of n letters. */
  function Long(n: nat): string {
    seq(n, _ => 'a')
  }

  lemma SizeLong(n: nat, k: Nums)
    ensures Size(PutString(Long(n), k)) == 99 * n + 1 + Size(k)
  {
    hide Text;
    SizeChars(Long(n), 97, 97, k);
    SizeNum(n, PutChars(Long(n), k));
  }

  const PATH := "<memory>"

  lemma SizePath(k: Nums)
    ensures Size(k) <= Size(PutString(PATH, k)) <= 2000 + Size(k)
  {
    hide Text;
    SizeChars(PATH, 0, 127, k);
    SizeNum(|PATH|, PutChars(PATH, k));
  }

  function InfoOf(id: u32, n: nat): ProgramInfo {
    ProgramInfo(id, Long(n), KProbe, PATH, false, None)
  }

  lemma SizeInfo(id: u32, n: nat, k: Nums)
    ensures id + 99 * n + Size(k) <= Size(PutInfo(InfoOf(id, n), k)) <= id + 99 * n + 2100 + Size(k)
  {
    hide Text, PutString;
    var point := PutPoint(None, k);
    SizeNum(0, k);
    SizeNum(0, point);
    SizePath(Num(0, point));
    SizeNum(0, PutString(PATH, Num(0, point)));
    SizeLong(n, Num(0, PutString(PATH, Num(0, point))));
    SizeNum(id, PutString(Long(n), Num(0, PutString(PATH, Num(0, point)))));
  }

  lemma {:induction false} SizeInfos(infos: seq<ProgramInfo>, n: nat)
    requires forall i :: 0 <= i < |infos| ==> infos[i] == InfoOf(1, n) || infos[i] == InfoOf(2, n)
    ensures |infos| * (99 * n) <= Size(PutInfos(infos, End)) <= |infos| * (99 * n + 2110) + 2
  {
    hide Text, PutInfo, InfoOf;
    SizeEnd();
    if infos == [] {
      SizeNum(0, End);
    } else {
      var rest := PutInfos(infos[1..], End);
      SizeNum(1, PutInfo(infos[0], rest));
      SizeInfo(1, n, rest);
      SizeInfo(2, n, rest);
      SizeInfos(infos[1..], n);
    }
  }

  lemma SizeEnd()
    ensures Size(End) == 1
  {
  }

  // ---- the run ----

  /** Every object that is loaded holds one kernel probe. */
  function World(): nat -> Kernel {
    _ => Kernel(Some([("probe", AyaKProbe)]), true, true, "", 0, {})
  }

  /** A VM that has just booted. */
  function Booted(): Session {
    Session(map[], Link(NewGuest(World()), [], [], true))
  }

  /** How every object file begins. */
  const OBJECT: seq<byte> := [0x7f, 0x45, 0x4c, 0x46]

  function LoadLong(n: nat): GuestCommand {
    Load(OBJECT, Long(n))
  }

  function Loaded1(id: u32, n: nat): LoadedProgram {
    LoadedProgram(id, InfoOf(id, n), [("probe", AyaKProbe)], false, None)
  }

  function Grown(g: Guest, n: nat): Guest {
    var t := g.table;
    g.(tick := g.tick + 1, table := Table(t.programs[t.nextId := Loaded1(t.nextId, n)], Succ32(t.nextId)))
  }

  lemma LoadStep(g: Guest, n: nat)
    requires g.world == World()
    ensures Handled(g, LoadLong(n)) == (Grown(g, n), Loaded(g.table.nextId, InfoOf(g.table.nextId, n)))
  {
    assert DetectProgram([("probe", AyaKProbe)]) == Some(KProbe);
  }

  /** Two such names are under the limit each, and over it together. */
  const LONG: nat := 85_000

  lemma LoadFits(n: nat)
    requires n <= LONG
    ensures Callable(TextCodec(), LoadLong(n))
  {
    hide Text;
    var name := PutString(Long(n), End);
    SizeEnd();
    SizeLong(n, End);
    SizeBytes(OBJECT, name);
    SizeNum(4, PutBytes(OBJECT, name));
    SizeNum(2, Num(4, PutBytes(OBJECT, name)));
  }

  lemma ListFits()
    ensures Callable(TextCodec(), List)
  {
    hide Text;
    SizeEnd();
    SizeNum(6, End);
  }

  lemma LoadedFits(id: u32, n: nat)
    requires id <= 3 && n <= LONG
    ensures |TextCodec().encResp(Loaded(id, InfoOf(id, n)))| <= MAX_MESSAGE_SIZE
  {
    hide Text, PutInfo, InfoOf;
    var info := PutInfo(InfoOf(id, n), End);
    SizeEnd();
    SizeInfo(id, n, End);
    SizeNum(id, info);
    SizeNum(2, Num(id, info));
  }

  /** The table with the two long names. */
  function Two(): Guest {
    Grown(Grown(NewGuest(World()), LONG), LONG)
  }

  lemma ListOverLimit()
    ensures MAX_MESSAGE_SIZE < |TextCodec().encResp(Handled(Two(), List).1)| < 0x1_0000_0000
  {
    hide Text, PutInfos, PutInfo, Long, InfoOf;
    var t := Two().table.programs;
    TwoPrograms();
    var infos := set id | id in t :: t[id].info;
    TwoInfos(t, infos);
    SizeInfos(Listed(infos), LONG);
    SizeNum(7, PutInfos(Listed(infos), End));
  }

  lemma TwoPrograms()
    ensures Two().table.programs == map[1 := Loaded1(1, LONG), 2 := Loaded1(2, LONG)]
  {
    hide Loaded1;
    assert Grown(NewGuest(World()), LONG).table.programs == map[1 := Loaded1(1, LONG)];
  }

  lemma TwoInfos(t: map<u32, LoadedProgram>, infos: set<ProgramInfo>)
    requires t == map[1 := Loaded1(1, LONG), 2 := Loaded1(2, LONG)] && infos == set id | id in t :: t[id].info
    ensures |Listed(infos)| == 2
    ensures forall i :: 0 <= i < 2 ==> Listed(infos)[i] == InfoOf(1, LONG) || Listed(infos)[i] == InfoOf(2, LONG)
  {
    hide Long;
    assert t[1].info == InfoOf(1, LONG) && t[2].info == InfoOf(2, LONG);
    assert infos == {t[1].info, t[2].info};
    assert forall i :: 0 <= i < |Listed(infos)| ==> Listed(infos)[i] in infos;
  }

  const TWO_LOADS: seq<GuestCommand> := [LoadLong(LONG), LoadLong(LONG)]

  const THIRD_LOAD: seq<GuestCommand> := [LoadLong(1)]

  lemma OneLoad(g: Guest, n: nat, more: seq<GuestCommand>)
    requires g.world == World()
    ensures HandledAll(g, [LoadLong(n)] + more) == HandledAll(Grown(g, n), more)
    ensures Replies(g, [LoadLong(n)] + more)
      == [Loaded(g.table.nextId, InfoOf(g.table.nextId, n))] + Replies(Grown(g, n), more)
  {
    hide Handled, InfoOf, Long;
    LoadStep(g, n);
    assert ([LoadLong(n)] + more)[1..] == more;
  }

  lemma PairFits(c: Codec, m: GuestResponse, n: GuestResponse)
    requires |c.encResp(m)| <= MAX_MESSAGE_SIZE && |c.encResp(n)| <= MAX_MESSAGE_SIZE
    ensures AllFit(c, [m] + ([n] + []))
  {
  }

  lemma FirstTwo()
    ensures HandledAll(NewGuest(World()), TWO_LOADS) == Two()
    ensures AllFit(TextCodec(), Replies(NewGuest(World()), TWO_LOADS))
  {
    hide Handled, InfoOf, Long, LoadLong, AllFit, TextCodec;
    var g := NewGuest(World());
    var g1 := Grown(g, LONG);
    OneLoad(g, LONG, [LoadLong(LONG)]);
    OneLoad(g1, LONG, []);
    assert TWO_LOADS == [LoadLong(LONG)] + [LoadLong(LONG)] && [LoadLong(LONG)] + [] == [LoadLong(LONG)];
    LoadedFits(1, LONG);
    LoadedFits(2, LONG);
    PairFits(TextCodec(), Loaded(1, InfoOf(1, LONG)), Loaded(2, InfoOf(2, LONG)));
    assert Replies(Two(), []) == [];
  }

  /** From a clean VM, with every command within the limit and over a healthy connection: after the list, whose
      reply is too long, the guest has a third program, and the host does not know of it. */
  lemma MissedLoad()
    ensures TextCodec().Valid() && Clean(Booted()) && AllCallable(TextCodec(), TWO_LOADS + [List] + THIRD_LOAD)
    ensures var s := CallAll(TextCodec(), Booted(), TWO_LOADS + [List] + THIRD_LOAD);
      s.programs.Keys == {1, 2} && s.link.guest.table.programs.Keys == {1, 2, 3} && !Agree(s)
  {
    hide Codec.Valid, Handled, CallAll, HandledAll, Replies, TextCodec, Long, InfoOf, Callable, Aligned;
    ValidCodecExists();
    LoadFits(LONG);
    LoadFits(1);
    ListFits();
    FirstTwo();
    ListOverLimit();
    ListKeeps(Two());
    LoadStep(Handled(Two(), List).0, 1);
    BootedIsAligned();
    LoadMissed(TextCodec(), Booted(), TWO_LOADS, LoadLong(1));
    MirrorAgreement(TextCodec(), Booted(), TWO_LOADS);
  }

  lemma BootedIsAligned()
    ensures Aligned(Booted().link) && Agree(Booted()) && Clean(Booted())
  {
  }
}
