/** The daemon's request handler (crates/ebpf-assistd/src/handler.rs): load and attach check the authorisation
    under the state lock, give the lock up, and take it again to act; all other requests take it once. */
module Daemon {
  import opened Common
  import opened Caps
  import opened ErrorText
  import opened Auth
  import DL = DaemonLoader

  /** Fixed for the daemon's life; `clientUid` is State.client_uid, which nothing ever sets after start-up. */
  datatype Host = Host(clientUid: Option<u32>, ownUid: u32, permitted: set<Cap>)

  datatype Privileged = LoadReq(path: string, name: Option<string>) | AttachReq(id: u32, target: string)

  datatype State = State(table: DL.Table, auth: Manager, pending: map<nat, Privileged>)

  /** The atomic steps of all connections: the two halves of load and attach, and the other requests. */
  datatype Step =
    | CheckStep(client: nat, req: Privileged, q: Query)
    | ActStep(client: nat, k: DL.Kernel)
    | UnloadStep(id: u32)
    | DetachStep(id: u32)
    | UnlockStep(q: Query)
    | LockStep
    | QuietStep   // ping, list, status, auth status

  datatype Response = Success | Failed(code: ErrorCode) | StillRunning

  function Uid(h: Host): u32 {
    if h.clientUid.Some? then h.clientUid.value else h.ownUid
  }

  function ActionOf(req: Privileged): string {
    if req.LoadReq? then LOAD else ATTACH
  }

  /** What check_auth makes of an answer; an error of polkit counts as permission. */
  function Refusal(r: Option<AuthResult>): Option<ErrorCode> {
    match r
    case None => None
    case Some(Authorized) => None
    case Some(Challenge) => Some(AuthRequired)
    case Some(NotAuthorized) => Some(AuthDenied)
  }

  function Perform(h: Host, t: DL.Table, req: Privileged, k: DL.Kernel): (DL.Table, Option<string>) {
    match req
    case LoadReq(path, name) =>
      var (t1, r) := DL.LoadInto(t, h.permitted, path, name, k);
      (t1, if r.Ok? then None else Some(r.error))
    case AttachReq(id, target) => DL.AttachIn(t, h.permitted, id, target, k)
  }

  function Respond(e: Option<string>): Response {
    if e.None? then Success else Failed(ErrorResponse(e.value))
  }

  function UnlockResponse(r: Option<AuthResult>): Response {
    match r
    case None => Failed(Internal)
    case Some(Authorized) => Success
    case Some(NotAuthorized) => Failed(AuthDenied)
    case Some(Challenge) => Failed(AuthRequired)
  }

  function Take(h: Host, s: State, step: Step): Option<(State, Response)> {
    match step
    case CheckStep(client, req, q) =>
      if client in s.pending then None
      else
        var (auth, r) := Check(s.auth, (Uid(h), ActionOf(req)), q);
        var refusal := Refusal(r);
        if refusal.Some? then Some((s.(auth := auth), Failed(refusal.value)))
        else Some((s.(auth := auth, pending := s.pending[client := req]), StillRunning))
    case ActStep(client, k) =>
      if client !in s.pending then None
      else
        var (t, e) := Perform(h, s.table, s.pending[client], k);
        Some((s.(table := t, pending := s.pending - {client}), Respond(e)))
    case UnloadStep(id) =>
      var (t, e) := DL.UnloadFrom(s.table, id); Some((s.(table := t), Respond(e)))
    case DetachStep(id) =>
      var (t, e) := DL.DetachIn(s.table, id); Some((s.(table := t), Respond(e)))
    case UnlockStep(q) =>
      var (auth, r) := Request(s.auth, (Uid(h), MANAGE), q); Some((s.(auth := auth), UnlockResponse(r)))
    case LockStep => Some((s.(auth := Clear(s.auth, h.clientUid)), Success))
    case QuietStep => Some((s, Success))
  }

  /** The state after a run of steps, in whatever order the connections' steps come. */
  function Exec(h: Host, s: State, run: seq<Step>): Option<State> {
    if run == [] then Some(s)
    else
      match Exec(h, s, run[..|run| - 1])
      case None => None
      case Some(before) =>
        var next := Take(h, before, run[|run| - 1]);
        if next.None? then None else Some(next.value.0)
  }

  ghost predicate Started(s: State) {
    Refines(s.auth) && s.pending == map[]
  }

  /** What permission rests on: a stored, unexpired, uncleared Authorized for this user and action, or, when
      there is no live answer, polkit's own Authorized, or polkit's failure. */
  ghost predicate Granted(h: Host, s: State, req: Privileged, q: Query) {
    var key := (Uid(h), ActionOf(req));
    || !s.auth.enabled
    || (exists e :: LiveAt(s.auth, key, e, q.now) && s.auth.history[e].result == Authorized)
    || ((forall e :: !LiveAt(s.auth, key, e, q.now)) && (q.polkit.Unreachable? || q.polkit.authorized))
  }

  /** Step i of the run is a check for this client and request, and it was granted in the state it met. */
  ghost predicate CheckedAt(h: Host, s: State, run: seq<Step>, i: int, client: nat, req: Privileged) {
    && 0 <= i < |run|
    && run[i].CheckStep? && run[i].client == client && run[i].req == req
    && Exec(h, s, run[..i]).Some? && Granted(h, Exec(h, s, run[..i]).value, req, run[i].q)
  }

  predicate Of(step: Step, client: nat) {
    (step.CheckStep? || step.ActStep?) && step.client == client
  }

  predicate NoneOf(run: seq<Step>, from: int, client: nat) {
    forall j :: 0 <= j < |run| && from < j ==> !Of(run[j], client)
  }

  lemma TakeRefines(h: Host, s: State, step: Step)
    requires Refines(s.auth) && Take(h, s, step).Some?
    ensures Refines(Take(h, s, step).value.0.auth)
  {
    hide Refines, ErrorResponse;
    match step
    case CheckStep(_, req, q) =>
      if s.auth.enabled { CheckRefinesHistory(s.auth, (Uid(h), ActionOf(req)), q); }
    case UnlockStep(q) => RequestAndClearRefine(s.auth, (Uid(h), MANAGE), q, None);
    case LockStep => RequestAndClearRefine(s.auth, (Uid(h), MANAGE), Query(0, Unreachable, 0), h.clientUid);
    case _ =>
  }

  /** A check lets a request through exactly when it is granted. */
  lemma PassedIff(h: Host, s: State, client: nat, req: Privileged, q: Query)
    requires Refines(s.auth) && Take(h, s, CheckStep(client, req, q)).Some?
    ensures Take(h, s, CheckStep(client, req, q)).value.1 == StillRunning <==> Granted(h, s, req, q)
  {
    hide Refines, LiveAt;
    if s.auth.enabled {
      CheckRefinesHistory(s.auth, (Uid(h), ActionOf(req)), q);
      OneLive(h, s, req, q);
    }
  }

  /** There is at most one live answer, the latest. */
  lemma OneLive(h: Host, s: State, req: Privileged, q: Query)
    ensures var key := (Uid(h), ActionOf(req));
      forall i, j :: LiveAt(s.auth, key, i, q.now) && LiveAt(s.auth, key, j, q.now) ==> i == j
  {
  }

  lemma {:induction false} ExecRefines(h: Host, s: State, run: seq<Step>)
    requires Refines(s.auth) && Exec(h, s, run).Some?
    ensures Refines(Exec(h, s, run).value.auth)
  {
    hide Refines, Take;
    if run != [] {
      var n := |run| - 1;
      ExecRefines(h, s, run[..n]);
      TakeRefines(h, Exec(h, s, run[..n]).value, run[n]);
    }
  }

  /** What a step does to the requests that have been let through. */
  lemma PendingStep(h: Host, s: State, step: Step, client: nat)
    requires Take(h, s, step).Some? && client in Take(h, s, step).value.0.pending
    ensures var (s1, r) := Take(h, s, step).value;
      || (!Of(step, client) && client in s.pending && s1.pending[client] == s.pending[client])
      || (step.CheckStep? && step.client == client && step.req == s1.pending[client] && r == StillRunning)
  {
    hide Check, Request, Perform, ErrorResponse;
  }

  /** Every request that has been let through was checked on its own, and its client has done nothing since. */
  lemma {:induction false} PendingWasChecked(h: Host, s: State, run: seq<Step>, client: nat) returns (i: int)
    requires Started(s) && Exec(h, s, run).Some? && client in Exec(h, s, run).value.pending
    ensures CheckedAt(h, s, run, i, client, Exec(h, s, run).value.pending[client]) && NoneOf(run, i, client)
  {
    hide Refines, Take, Granted;
    var n := |run| - 1;
    var before := Exec(h, s, run[..n]).value;
    PendingStep(h, before, run[n], client);
    ExecRefines(h, s, run[..n]);
    if run[n].CheckStep? && run[n].client == client {
      i := n;
      PassedIff(h, before, client, run[n].req, run[n].q);
    } else {
      i := PendingWasChecked(h, s, run[..n], client);
      assert run[..n][..i] == run[..i];
    }
  }

  /** Authorised runs. In every interleaving, each load or attach that is executed was let through by a check of
      its own, granted in the state that the check met, with nothing of that client in between; and what is
      executed is the request that was checked, on the table as it is by then. */
  lemma AuthorisedRuns(h: Host, s: State, run: seq<Step>, j: nat) returns (i: int)
    requires Started(s) && j < |run| && run[j].ActStep? && Exec(h, s, run[..j + 1]).Some?
    ensures Exec(h, s, run[..j]).Some?
    ensures var before := Exec(h, s, run[..j]).value;
      var client := run[j].client;
      && client in before.pending
      && CheckedAt(h, s, run[..j], i, client, before.pending[client]) && NoneOf(run[..j], i, client)
      && Exec(h, s, run[..j + 1]).value.table == Perform(h, before.table, before.pending[client], run[j].k).0
  {
    hide Refines, Perform, Granted, ErrorResponse;
    assert run[..j + 1][..j] == run[..j];
    i := PendingWasChecked(h, s, run[..j], run[j].client);
  }

  /** The codes of a load that fails before a program is selected, or by policy: CapabilityError without the
      capabilities, Internal for every file that cannot be read or parsed, whatever is wrong with it, and
      PolicyViolation for every program of a denied type. A failing selection is not among them: its message
      quotes names, which may hold any of the words searched for. */
  lemma LoadFailureCodes(h: Host, t: DL.Table, path: string, name: Option<string>, k: DL.Kernel)
    ensures var r := Respond(Perform(h, t, LoadReq(path, name), k).1);
      var raised := Raises(h.permitted, DL.LOAD_CAPS);
      && (!raised ==> r == Failed(CapabilityError))
      && (raised && k.parsed.None? ==> r == Failed(Internal))
      && (raised && k.parsed.Some? && DL.Select(k.parsed.value, name).Ok? ==>
            var ty := DL.SelectedType(k.parsed.value, DL.Select(k.parsed.value, name).value);
            r == if DefaultPolicy(ty).Deny? then Failed(PolicyViolation) else Success)
  {
    hide ErrorResponse, DL.Select, DL.Find, DL.DetectType, Raises;
    CapabilityText();
    LoadFailedText();
    PolicyText("programs of this type are not allowed");
  }

  // ---- the daemon's table is the loader's table ----

  /** The loader operation that a step executes, if any. */
  function OpOf(s: State, step: Step): seq<DL.Op> {
    match step
    case ActStep(client, k) =>
      if client !in s.pending then []
      else match s.pending[client] {
        case LoadReq(path, name) => [DL.DoLoad(path, name, k)]
        case AttachReq(id, target) => [DL.DoAttach(id, target, k)]
      }
    case UnloadStep(id) => [DL.DoUnload(id)]
    case DetachStep(id) => [DL.DoDetach(id)]
    case _ => []
  }

  function OpsOf(h: Host, s: State, run: seq<Step>): seq<DL.Op>
    requires Exec(h, s, run).Some?
  {
    if run == [] then []
    else
      var before := run[..|run| - 1];
      OpsOf(h, s, before) + OpOf(Exec(h, s, before).value, run[|run| - 1])
  }

  lemma TakeIsDo(h: Host, s: State, step: Step)
    requires Take(h, s, step).Some?
    ensures var ops := OpOf(s, step);
      Take(h, s, step).value.0.table == if ops == [] then s.table else DL.Do(s.table, h.permitted, ops[0]).0
  {
    hide DL.LoadInto, DL.AttachIn, DL.DetachIn, DL.UnloadFrom, ErrorResponse, Check, Request;
  }

  /** Over every run of the daemon, its table is what the executed loader operations make of it, one after the
      other: the table invariant and the count of DaemonLoader hold of it, and the n-th executed load that
      succeeds gets the n-th id. */
  lemma {:induction false} TableIsLoaderRun(h: Host, s: State, run: seq<Step>)
    requires Exec(h, s, run).Some?
    ensures Exec(h, s, run).value.table == DL.DoAll(s.table, h.permitted, OpsOf(h, s, run)).0
  {
    hide Take, OpOf, DL.Do;
    if run != [] {
      var n := |run| - 1;
      var before := Exec(h, s, run[..n]).value;
      TableIsLoaderRun(h, s, run[..n]);
      TakeIsDo(h, before, run[n]);
      AtMostOneOp(before, run[n]);
      var ops := OpsOf(h, s, run[..n]);
      if OpOf(before, run[n]) == [] {
        assert ops + [] == ops;
      } else {
        DL.DoOneMore(s.table, h.permitted, ops, OpOf(before, run[n])[0]);
        assert OpOf(before, run[n]) == [OpOf(before, run[n])[0]];
      }
    }
  }

  lemma AtMostOneOp(s: State, step: Step)
    ensures |OpOf(s, step)| <= 1
  {
  }

  /** From an empty table, in every interleaving of at most 2^32 successful loads. */
  lemma DaemonTable(h: Host, s: State, run: seq<Step>)
    requires Exec(h, s, run).Some? && s.table == DL.EMPTY_TABLE
    requires DL.DoAll(s.table, h.permitted, OpsOf(h, s, run)).1 <= 0x1_0000_0000
    ensures var t := Exec(h, s, run).value.table;
      var (_, loads, unloads) := DL.DoAll(s.table, h.permitted, OpsOf(h, s, run));
      DL.TableOk(t) && DL.Issued(t, loads) && |t.programs| == loads - unloads
  {
    hide Exec, OpsOf, DL.DoAll;
    TableIsLoaderRun(h, s, run);
    DL.TableOverRuns(s.table, h.permitted, OpsOf(h, s, run), 0);
  }

  /** No other step adds a program or attaches one. */
  lemma OnlyActsGrow(h: Host, s: State, step: Step, id: u32)
    requires Take(h, s, step).Some? && !step.ActStep?
    ensures var (t, t1) := (s.table.programs, Take(h, s, step).value.0.table.programs);
      && (id in t1 ==> id in t)
      && (id in t1 && t1[id].info.attached ==> t[id] == t1[id])
      && Take(h, s, step).value.0.table.nextId == s.table.nextId
  {
    hide Check, Request, ErrorResponse;
  }

  function WithoutUnlocks(run: seq<Step>): seq<Step> {
    if run == [] then []
    else
      var last := run[|run| - 1];
      WithoutUnlocks(run[..|run| - 1]) + if last.UnlockStep? then [] else [last]
  }

  /** The two caches differ in what is stored for MANAGE at most. */
  ghost predicate AlikeAuth(m: Manager, n: Manager) {
    && m.enabled == n.enabled && m.duration == n.duration
    && forall key: Key :: key.1 != MANAGE ==>
      (key in m.cache <==> key in n.cache) && (key in m.cache ==> m.cache[key] == n.cache[key])
  }

  ghost predicate Alike(s: State, s1: State) {
    s.table == s1.table && s.pending == s1.pending && AlikeAuth(s.auth, s1.auth)
  }

  lemma CheckAlike(m: Manager, n: Manager, key: Key, q: Query)
    requires AlikeAuth(m, n) && key.1 != MANAGE
    ensures Check(m, key, q).1 == Check(n, key, q).1 && AlikeAuth(Check(m, key, q).0, Check(n, key, q).0)
  {
  }

  lemma ClearAlike(m: Manager, n: Manager, uid: Option<u32>)
    requires AlikeAuth(m, n)
    ensures AlikeAuth(Clear(m, uid), Clear(n, uid))
  {
  }

  lemma RequestAlike(m: Manager, n: Manager, uid: u32, q: Query)
    requires AlikeAuth(m, n)
    ensures AlikeAuth(Request(m, (uid, MANAGE), q).0, n)
  {
  }

  lemma ActionsDiffer(req: Privileged)
    ensures ActionOf(req) != MANAGE
  {
    assert MANAGE[16] == 'm' && LOAD[16] == 'l' && ATTACH[16] == 'a';
  }

  lemma AlikeStep(h: Host, s: State, s1: State, step: Step)
    requires Alike(s, s1) && !step.UnlockStep? && Take(h, s, step).Some?
    ensures Take(h, s1, step).Some?
    ensures var (n, n1) := (Take(h, s, step).value, Take(h, s1, step).value);
      n.1 == n1.1 && Alike(n.0, n1.0)
  {
    hide Perform, ErrorResponse, DL.UnloadFrom, DL.DetachIn, ActionOf, Check, Clear, AlikeAuth;
    if step.CheckStep? {
      ActionsDiffer(step.req);
      CheckAlike(s.auth, s1.auth, (Uid(h), ActionOf(step.req)), step.q);
    } else if step.LockStep? {
      ClearAlike(s.auth, s1.auth, h.clientUid);
    }
  }

  lemma AlikeUnlock(h: Host, s: State, s1: State, q: Query)
    requires Alike(s, s1)
    ensures Alike(Take(h, s, UnlockStep(q)).value.0, s1)
  {
    hide Request, AlikeAuth;
    RequestAlike(s.auth, s1.auth, Uid(h), q);
  }

  /** Unlock stores its answer under MANAGE; load looks up LOAD and attach ATTACH. So the daemon's own cache
      carries nothing from an unlock to a load or attach: for the same polkit answers, any run goes through with
      all unlocks taken out of it, the same programs are loaded and attached, the same requests are let through,
      and whatever step comes next gets the same response. */
  lemma UnlocksNeverMatter(h: Host, s: State, run: seq<Step>, step: Step)
    requires Exec(h, s, run).Some? && Take(h, Exec(h, s, run).value, step).Some? && !step.UnlockStep?
    ensures Exec(h, s, WithoutUnlocks(run)).Some?
    ensures var (n, n1) := (Exec(h, s, run).value, Exec(h, s, WithoutUnlocks(run)).value);
      && n.table == n1.table && n.pending == n1.pending
      && Take(h, n1, step).Some? && Take(h, n, step).value.1 == Take(h, n1, step).value.1
  {
    hide Exec, Take, Alike;
    UnlocksDropped(h, s, run);
    var n, n1 := Exec(h, s, run).value, Exec(h, s, WithoutUnlocks(run)).value;
    AlikeStep(h, n, n1, step);
    SameTables(n, n1);
  }

  /** What is left of the stored answers lets the request through. */
  ghost predicate NoLiveRefusal(h: Host, s: State, req: Privileged, now: nat) {
    var key := (Uid(h), ActionOf(req));
    forall e :: LiveAt(s.auth, key, e, now) ==> s.auth.history[e].result == Authorized
  }

  /** What unlocking can do, then, it does through polkit alone. After any run, a check for load or attach is let
      through exactly when it would be granted with all unlocks taken out. If polkit grants it by then, as it
      does after an unlock under a policy in which MANAGE implies LOAD and ATTACH, that is exactly when no live
      answer of an earlier check says otherwise: the refusal that sent the user to unlock is one. */
  lemma UnlocksEnableIff(h: Host, s: State, run: seq<Step>, client: nat, req: Privileged, q: Query)
    requires Refines(s.auth) && Exec(h, s, run).Some?
    requires Take(h, Exec(h, s, run).value, CheckStep(client, req, q)).Some?
    ensures Exec(h, s, WithoutUnlocks(run)).Some?
    ensures var passes := Take(h, Exec(h, s, run).value, CheckStep(client, req, q)).value.1 == StillRunning;
      var without := Exec(h, s, WithoutUnlocks(run)).value;
      && (passes <==> Granted(h, without, req, q))
      && (without.auth.enabled && q.polkit.Reply? && q.polkit.authorized ==>
            (passes <==> NoLiveRefusal(h, without, req, q.now)))
  {
    hide Refines, Exec, Take, LiveAt;
    UnlocksNeverMatter(h, s, run, CheckStep(client, req, q));
    ExecRefines(h, s, WithoutUnlocks(run));
    var without := Exec(h, s, WithoutUnlocks(run)).value;
    PassedIff(h, without, client, req, q);
    OneLive(h, without, req, q);
  }

  lemma SameTables(s: State, s1: State)
    requires Alike(s, s1)
    ensures s.table == s1.table && s.pending == s1.pending
  {
  }

  lemma {:induction false} UnlocksDropped(h: Host, s: State, run: seq<Step>)
    requires Exec(h, s, run).Some?
    ensures Exec(h, s, WithoutUnlocks(run)).Some?
    ensures Alike(Exec(h, s, run).value, Exec(h, s, WithoutUnlocks(run)).value)
  {
    hide Take, Alike;
    if run == [] {
      SelfAlike(s);
    } else {
      var n := |run| - 1;
      UnlocksDropped(h, s, run[..n]);
      var before, kept := Exec(h, s, run[..n]).value, WithoutUnlocks(run[..n]);
      if run[n].UnlockStep? {
        AlikeUnlock(h, before, Exec(h, s, kept).value, run[n].q);
        assert WithoutUnlocks(run) == kept;
      } else {
        AlikeStep(h, before, Exec(h, s, kept).value, run[n]);
        assert (kept + [run[n]])[..|kept|] == kept;
      }
    }
  }

  lemma SelfAlike(s: State)
    ensures Alike(s, s)
  {
  }

  /** Since client_uid stays unset, a Lock from any client clears every user's answers: the next check asks
      polkit. */
  lemma LockForgetsAll(h: Host, s: State, client: nat, req: Privileged, q: Query)
    requires h.clientUid.None? && s.auth.enabled && client !in s.pending
    ensures var s1 := Take(h, s, LockStep).value.0;
      Take(h, s1, CheckStep(client, req, q)).value.1 ==
        if Refusal(AnswerOf(q.polkit)).Some? then Failed(Refusal(AnswerOf(q.polkit)).value) else StillRunning
  {
  }

  // ---- the object ----

  class Server {
    const loader: DL.Loader
    const auth: AuthManager
    const clientUid: Option<u32>
    const ownUid: u32

    constructor (loader: DL.Loader, auth: AuthManager, clientUid: Option<u32>, ownUid: u32)
      ensures this.loader == loader && this.auth == auth && this.clientUid == clientUid && this.ownUid == ownUid
    {
      this.loader, this.auth, this.clientUid, this.ownUid := loader, auth, clientUid, ownUid;
    }

    function HostOf(): Host
      reads loader.process
    {
      Host(clientUid, ownUid, loader.process.permitted)
    }

    /** check_auth: None lets the request through. */
    method CheckAuth(action: string, q: Query) returns (refusal: Option<ErrorCode>)
      requires Refines(auth.Abs())
      modifies auth
      ensures Refines(auth.Abs())
      ensures var (m, r) := Check(old(auth.Abs()), (Uid(HostOf()), action), q);
        auth.Abs() == m && refusal == Refusal(r)
    {
      hide Refines;
      var uid := if clientUid.Some? then clientUid.value else ownUid;
      var r := auth.CheckAuthorization(uid, action, q);
      if r.None? {
        return None;
      }
      match r.value {
        case Authorized => refusal := None;
        case Challenge => refusal := Some(AuthRequired);
        case NotAuthorized => refusal := Some(AuthDenied);
      }
    }

    /** The second half of load and attach. */
    method Execute(req: Privileged, k: DL.Kernel) returns (resp: Response)
      requires loader.process.effective <= loader.process.permitted
      modifies loader, loader.process`effective
      ensures var (t, e) := Perform(HostOf(), old(loader.Abs()), req, k);
        loader.Abs() == t && resp == Respond(e)
      ensures loader.process.effective <= old(loader.process.effective)
    {
      hide ErrorResponse, DL.Select, DL.Find;
      match req {
        case LoadReq(path, name) =>
          Bracketing(loader.process.permitted, loader.process.effective, WithCaps(DL.LOAD_CAPS, [], true));
          var r := loader.Load(path, name, k);
          resp := if r.Ok? then Success else Failed(ErrorResponse(r.error));
        case AttachReq(id, target) =>
          Bracketing(loader.process.permitted, loader.process.effective, WithCaps(DL.ATTACH_CAPS, [], true));
          var e := loader.Attach(id, target, k);
          resp := if e.None? then Success else Failed(ErrorResponse(e.value));
      }
    }

    /** A load request, when no other request comes between its check and its act. */
    method HandleLoad(path: string, name: Option<string>, q: Query, k: DL.Kernel) returns (resp: Response)
      requires Refines(auth.Abs()) && loader.process.effective <= loader.process.permitted
      modifies auth, loader, loader.process`effective
      ensures Refines(auth.Abs())
      ensures var (m, r) := Check(old(auth.Abs()), (Uid(HostOf()), "org.ebpf-assist.load"), q);
        && auth.Abs() == m
        && (Refusal(r).Some? ==> loader.Abs() == old(loader.Abs()) && resp == Failed(Refusal(r).value))
        && (Refusal(r).None? ==>
              var (t, e) := Perform(HostOf(), old(loader.Abs()), LoadReq(path, name), k);
              loader.Abs() == t && resp == Respond(e))
    {
      hide Refines, ErrorResponse, Perform, Check;
      var refusal := CheckAuth(LOAD, q);
      if refusal.Some? {
        return Failed(refusal.value);
      }
      resp := Execute(LoadReq(path, name), k);
    }

    /** An attach request, likewise. */
    method HandleAttach(id: u32, target: string, q: Query, k: DL.Kernel) returns (resp: Response)
      requires Refines(auth.Abs()) && loader.process.effective <= loader.process.permitted
      modifies auth, loader, loader.process`effective
      ensures Refines(auth.Abs())
      ensures var (m, r) := Check(old(auth.Abs()), (Uid(HostOf()), "org.ebpf-assist.attach"), q);
        && auth.Abs() == m
        && (Refusal(r).Some? ==> loader.Abs() == old(loader.Abs()) && resp == Failed(Refusal(r).value))
        && (Refusal(r).None? ==>
              var (t, e) := Perform(HostOf(), old(loader.Abs()), AttachReq(id, target), k);
              loader.Abs() == t && resp == Respond(e))
    {
      hide Refines, ErrorResponse, Perform, Check;
      var refusal := CheckAuth(ATTACH, q);
      if refusal.Some? {
        return Failed(refusal.value);
      }
      resp := Execute(AttachReq(id, target), k);
    }

    method Unload(id: u32) returns (resp: Response)
      modifies loader
      ensures var (t, e) := DL.UnloadFrom(old(loader.Abs()), id);
        loader.Abs() == t && resp == Respond(e)
    {
      hide ErrorResponse;
      var e := loader.Unload(id);
      resp := if e.None? then Success else Failed(ErrorResponse(e.value));
    }

    method Detach(id: u32) returns (resp: Response)
      modifies loader
      ensures var (t, e) := DL.DetachIn(old(loader.Abs()), id);
        loader.Abs() == t && resp == Respond(e)
    {
      hide ErrorResponse;
      var e := loader.Detach(id);
      resp := if e.None? then Success else Failed(ErrorResponse(e.value));
    }

    method Unlock(q: Query) returns (resp: Response)
      requires Refines(auth.Abs())
      modifies auth
      ensures Refines(auth.Abs())
      ensures var (m, r) := Request(old(auth.Abs()), (Uid(HostOf()), MANAGE), q);
        auth.Abs() == m && resp == UnlockResponse(r)
    {
      hide Refines;
      var uid := if clientUid.Some? then clientUid.value else ownUid;
      var r := auth.RequestAuthorization(uid, MANAGE, q);
      resp := UnlockResponse(r);
    }

    method Lock() returns (resp: Response)
      requires Refines(auth.Abs())
      modifies auth
      ensures Refines(auth.Abs())
      ensures auth.Abs() == Clear(old(auth.Abs()), clientUid) && resp == Success
    {
      hide Refines;
      auth.ClearCache(clientUid);
      resp := Success;
    }
  }
}
