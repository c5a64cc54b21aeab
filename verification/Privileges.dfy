/** Under which action a load and an attach are authorised, and what the daemon answers to a check, told by the stored
    answers and polkit's flags alone (crates/ebpf-assistd/src/handler.rs:52-133, 281-309). */
module Privileges {
  import opened Common
  import opened ErrorText
  import opened Auth
  import opened Daemon
  import DL = DaemonLoader

  /** The key of a request: the user the daemon takes the client for, and the action by its name. */
  function KeyOf(h: Host, req: Privileged): Key {
    var uid := match h.clientUid case Some(u) => u case None => h.ownUid;
    match req
    case LoadReq(_, _) => (uid, "org.ebpf-assist.load")
    case AttachReq(_, _) => (uid, "org.ebpf-assist.attach")
  }

  lemma KeysAgree(h: Host, req: Privileged)
    ensures KeyOf(h, req) == (Uid(h), ActionOf(req))
  {
  }

  /** Every check of the run reaches polkit if it asks it. */
  predicate PolkitAnswers(run: seq<Step>) {
    forall i :: 0 <= i < |run| && run[i].CheckStep? ==> run[i].q.polkit.Reply?
  }

  ghost predicate HasStored(history: seq<Event>, key: Key) {
    exists e :: StoredAt(history, key, e)
  }

  predicate StoredAt(history: seq<Event>, key: Key, e: int) {
    0 <= e < |history| && history[e].Stored? && history[e].key == key && history[e].result == Authorized
  }

  /** Event e is a stored permission for the key with no clear after it, live at the check's time or stored by it. */
  ghost predicate Permits(m: Manager, key: Key, e: int, q: Query) {
    && StoredAt(m.history, key, e) && Latest(m.history, key, e)
    && (q.now < m.history[e].at + m.duration || (e == |m.history| - 1 && m.history[e].at == q.later))
  }

  /** A check that lets a request through leaves such a permission behind, under the request's own key. */
  lemma PassedIsStored(h: Host, s: State, client: nat, req: Privileged, q: Query) returns (e: int)
    requires Refines(s.auth) && s.auth.enabled && q.polkit.Reply?
    requires Take(h, s, CheckStep(client, req, q)).Some?
    requires Take(h, s, CheckStep(client, req, q)).value.1 == StillRunning
    ensures Permits(Take(h, s, CheckStep(client, req, q)).value.0.auth, KeyOf(h, req), e, q)
  {
    hide Refines;
    var key := KeyOf(h, req);
    KeysAgree(h, req);
    CheckRefinesHistory(s.auth, key, q);
    var m1 := Check(s.auth, key, q).0;
    if e0 :| LiveAt(s.auth, key, e0, q.now) {
      e := e0;
    } else {
      e := |m1.history| - 1;
      LatestAfter(s.auth.history, m1.history[e], key, e);
    }
  }

  /** In every interleaving, an executed load or attach was let through by a check that left a stored Authorized behind
      for the user and, for a load, org.ebpf-assist.load, for an attach, org.ebpf-assist.attach. It was not cleared
      then, and either stored less than the cache duration ago or polkit's answer to that very check. */
  lemma ExecutedWasPermitted(h: Host, s: State, run: seq<Step>, j: nat) returns (i: int, e: int)
    requires Started(s) && s.auth.enabled && PolkitAnswers(run)
    requires j < |run| && run[j].ActStep? && Exec(h, s, run[..j + 1]).Some?
    ensures Exec(h, s, run[..j]).Some? && run[j].client in Exec(h, s, run[..j]).value.pending
    ensures var req := Exec(h, s, run[..j]).value.pending[run[j].client];
      && 0 <= i < j && run[i].CheckStep? && run[i].client == run[j].client && run[i].req == req
      && Exec(h, s, run[..i + 1]).Some?
      && Permits(Exec(h, s, run[..i + 1]).value.auth, KeyOf(h, req), e, run[i].q)
  {
    hide Refines, Take, Granted, Permits, Perform, ErrorResponse;
    i := AuthorisedRuns(h, s, run, j);
    assert run[..j][..i] == run[..i];
    assert run[..j][i] == run[i];
    LetThrough(h, s, run, i, j);
    var before := Exec(h, s, run[..i]).value;
    ExecRefines(h, s, run[..i]);
    StaysEnabled(h, s, run[..i]);
    assert run[..i + 1][..i] == run[..i];
    e := PassedIsStored(h, before, run[i].client, run[i].req, run[i].q);
  }

  lemma {:induction false} StaysEnabled(h: Host, s: State, run: seq<Step>)
    requires Exec(h, s, run).Some?
    ensures Exec(h, s, run).value.auth.enabled == s.auth.enabled
    ensures Exec(h, s, run).value.auth.duration == s.auth.duration
  {
    hide Perform, ErrorResponse;
    if run != [] {
      StaysEnabled(h, s, run[..|run| - 1]);
    }
  }

  /** The check that is the last step of its client before an act let the request through. */
  lemma LetThrough(h: Host, s: State, run: seq<Step>, i: int, j: nat)
    requires Started(s) && 0 <= i < j < |run| && run[i].CheckStep? && run[j].ActStep? && run[j].client == run[i].client
    requires NoneOf(run[..j], i, run[i].client) && Exec(h, s, run[..j + 1]).Some?
    ensures Exec(h, s, run[..i]).Some? && Take(h, Exec(h, s, run[..i]).value, run[i]).Some?
    ensures Take(h, Exec(h, s, run[..i]).value, run[i]).value.1 == StillRunning
    ensures Exec(h, s, run[..i + 1]).Some?
  {
    hide Take, Refines, Started;
    PrefixRuns(h, s, run[..j + 1], i + 1);
    PrefixRuns(h, s, run[..j + 1], j);
    assert run[..j + 1][..i + 1] == run[..i + 1] && run[..i + 1][..i] == run[..i] && run[..j + 1][..j] == run[..j];
    PendingAtAct(h, s, run, j);
    PendingSince(h, s, run[..j], i, run[i].client);
    assert run[..j][..i + 1] == run[..i + 1];
    OnlyPassedWait(h, Exec(h, s, run[..i]).value, run[i]);
  }

  lemma {:induction false} PrefixRuns(h: Host, s: State, run: seq<Step>, k: nat)
    requires Exec(h, s, run).Some? && k <= |run|
    ensures Exec(h, s, run[..k]).Some?
    decreases |run| - k
  {
    hide Take;
    if k < |run| {
      PrefixRuns(h, s, run, k + 1);
      assert run[..k + 1][..k] == run[..k];
    } else {
      assert run[..k] == run;
    }
  }

  lemma PendingAtAct(h: Host, s: State, run: seq<Step>, j: nat)
    requires j < |run| && run[j].ActStep? && Exec(h, s, run[..j + 1]).Some? && Exec(h, s, run[..j]).Some?
    ensures run[j].client in Exec(h, s, run[..j]).value.pending
  {
    hide Perform, ErrorResponse;
    assert run[..j + 1][..j] == run[..j];
  }

  /** A client that waits now and has done nothing since step i waited after step i. */
  lemma {:induction false} PendingSince(h: Host, s: State, run: seq<Step>, i: int, client: nat)
    requires Exec(h, s, run).Some? && 0 <= i < |run| && NoneOf(run, i, client)
    requires client in Exec(h, s, run).value.pending
    ensures Exec(h, s, run[..i + 1]).Some? && client in Exec(h, s, run[..i + 1]).value.pending
  {
    hide Take;
    var n := |run| - 1;
    if i < n {
      PendingStep(h, Exec(h, s, run[..n]).value, run[n], client);
      assert run[..n][..i + 1] == run[..i + 1];
      PendingSince(h, s, run[..n], i, client);
    } else {
      assert run[..i + 1] == run;
    }
  }

  lemma OnlyPassedWait(h: Host, s: State, step: Step)
    requires step.CheckStep? && Take(h, s, step).Some? && step.client in Take(h, s, step).value.0.pending
    ensures Take(h, s, step).value.1 == StillRunning
  {
    hide Check;
  }

  // ---- no permission, no program ----

  ghost predicate WaitersPermitted(h: Host, s: State) {
    forall client :: client in s.pending ==> HasStored(s.auth.history, KeyOf(h, s.pending[client]))
  }

  lemma HistoryGrows(h: Host, s: State, step: Step)
    requires Take(h, s, step).Some?
    ensures s.auth.history <= Take(h, s, step).value.0.auth.history
  {
    hide Perform, ErrorResponse;
  }

  lemma StoredStays(a: seq<Event>, b: seq<Event>, key: Key)
    requires a <= b && HasStored(a, key)
    ensures HasStored(b, key)
  {
    var e :| StoredAt(a, key, e);
    assert StoredAt(b, key, e);
  }

  lemma WaitersStep(h: Host, s: State, step: Step)
    requires Refines(s.auth) && s.auth.enabled && WaitersPermitted(h, s) && Take(h, s, step).Some?
    requires step.CheckStep? ==> step.q.polkit.Reply?
    ensures WaitersPermitted(h, Take(h, s, step).value.0)
  {
    hide Refines, Take, KeyOf;
    var s1 := Take(h, s, step).value.0;
    HistoryGrows(h, s, step);
    forall client | client in s1.pending ensures HasStored(s1.auth.history, KeyOf(h, s1.pending[client])) {
      PendingStep(h, s, step, client);
      if step.CheckStep? && step.client == client {
        var e := PassedIsStored(h, s, client, step.req, step.q);
        assert StoredAt(s1.auth.history, KeyOf(h, step.req), e);
      } else {
        StoredStays(s.auth.history, s1.auth.history, KeyOf(h, s.pending[client]));
      }
    }
  }

  /** Every program of b is in a. */
  predicate NoneAdded(a: DL.Table, b: DL.Table) {
    b.programs.Keys <= a.programs.Keys
  }

  /** Every program that b has on a hook, a has on one as well. */
  predicate NoneHooked(a: DL.Table, b: DL.Table) {
    forall id :: id in b.programs && b.programs[id].hooked ==> id in a.programs && a.programs[id].hooked
  }

  lemma ActAdds(h: Host, s: State, step: Step)
    requires step.ActStep? && Take(h, s, step).Some?
    ensures var t1 := Take(h, s, step).value.0.table;
      && (s.pending[step.client].AttachReq? ==> NoneAdded(s.table, t1))
      && (s.pending[step.client].LoadReq? ==> NoneHooked(s.table, t1))
  {
    hide ErrorResponse, DL.Select, DL.Find, DL.DetectType, DL.AttachKernel;
  }

  lemma OthersAdd(h: Host, s: State, step: Step)
    requires !step.ActStep? && Take(h, s, step).Some?
    ensures NoneAdded(s.table, Take(h, s, step).value.0.table)
    ensures NoneHooked(s.table, Take(h, s, step).value.0.table)
  {
    hide ErrorResponse, Check, Request;
  }

  /** Without a stored permission for LOAD no run adds a program. */
  lemma {:induction false} NoLoadUnpermitted(h: Host, s: State, run: seq<Step>)
    requires Started(s) && s.auth.enabled && PolkitAnswers(run) && Exec(h, s, run).Some?
    ensures WaitersPermitted(h, Exec(h, s, run).value)
    ensures !HasStored(Exec(h, s, run).value.auth.history, KeyOf(h, LoadReq("", None))) ==>
      NoneAdded(s.table, Exec(h, s, run).value.table)
  {
    hide Refines, Take, KeyOf, HasStored;
    if run == [] {
    } else {
      var n := |run| - 1;
      var before, step := Exec(h, s, run[..n]).value, run[n];
      var after := Exec(h, s, run).value;
      assert PolkitAnswers(run[..n]) by { assert forall i :: 0 <= i < n ==> run[..n][i] == run[i]; }
      NoLoadUnpermitted(h, s, run[..n]);
      ExecRefines(h, s, run[..n]);
      StaysEnabled(h, s, run[..n]);
      WaitersStep(h, before, step);
      HistoryGrows(h, before, step);
      if HasStored(before.auth.history, KeyOf(h, LoadReq("", None))) {
        StoredStays(before.auth.history, after.auth.history, KeyOf(h, LoadReq("", None)));
      }
      if step.ActStep? {
        ActAdds(h, before, step);
        ActWaits(h, before, step);
        SameKey(h, before.pending[step.client]);
      } else {
        OthersAdd(h, before, step);
      }
    }
  }

  /** Without a stored permission for ATTACH no run puts a program on a hook. */
  lemma {:induction false} NoAttachUnpermitted(h: Host, s: State, run: seq<Step>)
    requires Started(s) && s.auth.enabled && PolkitAnswers(run) && Exec(h, s, run).Some?
    ensures !HasStored(Exec(h, s, run).value.auth.history, KeyOf(h, AttachReq(0, ""))) ==>
      NoneHooked(s.table, Exec(h, s, run).value.table)
  {
    hide Refines, Take, KeyOf, HasStored;
    if run == [] {
    } else {
      var n := |run| - 1;
      var before, step := Exec(h, s, run[..n]).value, run[n];
      var after := Exec(h, s, run).value;
      assert PolkitAnswers(run[..n]) by { assert forall i :: 0 <= i < n ==> run[..n][i] == run[i]; }
      NoAttachUnpermitted(h, s, run[..n]);
      NoLoadUnpermitted(h, s, run[..n]);
      HistoryGrows(h, before, step);
      if HasStored(before.auth.history, KeyOf(h, AttachReq(0, ""))) {
        StoredStays(before.auth.history, after.auth.history, KeyOf(h, AttachReq(0, "")));
      }
      if step.ActStep? {
        ActAdds(h, before, step);
        ActWaits(h, before, step);
        SameKey(h, before.pending[step.client]);
      } else {
        OthersAdd(h, before, step);
      }
    }
  }

  lemma ActWaits(h: Host, s: State, step: Step)
    requires step.ActStep? && Take(h, s, step).Some?
    ensures step.client in s.pending
  {
  }

  lemma SameKey(h: Host, req: Privileged)
    ensures req.LoadReq? ==> KeyOf(h, req) == KeyOf(h, LoadReq("", None))
    ensures req.AttachReq? ==> KeyOf(h, req) == KeyOf(h, AttachReq(0, ""))
  {
  }

  // ---- responses ----

  /** What a check answers when no stored answer is live: by polkit's flags. */
  lemma CheckResponse(h: Host, s: State, client: nat, req: Privileged, q: Query)
    requires Refines(s.auth) && s.auth.enabled && client !in s.pending
    requires forall e :: !LiveAt(s.auth, KeyOf(h, req), e, q.now)
    ensures Take(h, s, CheckStep(client, req, q)).value.1 ==
      match q.polkit
      case Unreachable => StillRunning
      case Reply(true, _) => StillRunning
      case Reply(false, true) => Failed(AuthRequired)
      case Reply(false, false) => Failed(AuthDenied)
  {
    hide Refines, LiveAt;
    KeysAgree(h, req);
    CheckRefinesHistory(s.auth, KeyOf(h, req), q);
  }

  /** ... and when one is: by that answer, and polkit is not asked. */
  lemma CachedResponse(h: Host, s: State, client: nat, req: Privileged, q: Query, e: int)
    requires Refines(s.auth) && s.auth.enabled && client !in s.pending && LiveAt(s.auth, KeyOf(h, req), e, q.now)
    ensures Take(h, s, CheckStep(client, req, q)).value.0.auth == s.auth
    ensures Take(h, s, CheckStep(client, req, q)).value.1 ==
      match s.auth.history[e].result
      case Authorized => StillRunning
      case Challenge => Failed(AuthRequired)
      case NotAuthorized => Failed(AuthDenied)
  {
    hide Refines;
    KeysAgree(h, req);
    CheckRefinesHistory(s.auth, KeyOf(h, req), q);
  }

  /** With authorisation off every check lets through and stores nothing. */
  lemma CheckDisabled(h: Host, s: State, client: nat, req: Privileged, q: Query)
    requires !s.auth.enabled && client !in s.pending
    ensures Take(h, s, CheckStep(client, req, q)) == Some((s.(pending := s.pending[client := req]), StillRunning))
  {
  }

  /** The answer to an unlock: by polkit's first flag alone, and only a granted one is stored, for the user and MANAGE. */
  lemma UnlockResponds(h: Host, s: State, q: Query)
    requires s.auth.enabled
    ensures var (s1, r) := Take(h, s, UnlockStep(q)).value;
      && s1 == s.(auth := s1.auth)
      && r == (match q.polkit
               case Unreachable => Failed(Internal)
               case Reply(true, _) => Success
               case Reply(false, _) => Failed(AuthDenied))
      && s1.auth.history == s.auth.history + if q.polkit.Reply? && q.polkit.authorized
           then [Stored((KeyOf(h, LoadReq("", None)).0, "org.ebpf-assist.manage"), Authorized, q.later)] else []
  {
  }

  /** With authorisation off an unlock is granted, and nothing is stored. */
  lemma UnlockDisabled(h: Host, s: State, q: Query)
    requires !s.auth.enabled
    ensures Take(h, s, UnlockStep(q)) == Some((s, Success))
  {
  }

  /** Unload and detach need no authorisation; their responses and what they change are determined by which programs
      there are and which of them are attached. The act of a load or attach answers what the loader did. */
  lemma OtherResponses(h: Host, s: State, id: u32, client: nat, k: DL.Kernel)
    ensures var (s1, r) := Take(h, s, UnloadStep(id)).value;
      && r == (if id in s.table.programs then Success else Failed(ProgramNotFound))
      && s1.table.programs == s.table.programs - {id} && s1.auth == s.auth && s1.pending == s.pending
    ensures var (s1, r) := Take(h, s, DetachStep(id)).value;
      && r == (if id !in s.table.programs then Failed(ProgramNotFound)
               else if !s.table.programs[id].info.attached then Failed(NotAttached) else Success)
      && s1.auth == s.auth && s1.pending == s.pending
    ensures client in s.pending ==>
      var (s1, r) := Take(h, s, ActStep(client, k)).value;
      var e := Perform(h, s.table, s.pending[client], k).1;
      && r == (if e.None? then Success else Failed(ErrorResponse(e.value)))
      && s1.auth == s.auth && s1.pending == s.pending - {client}
  {
    hide ErrorResponse, Perform;
    ProgramNotFoundText();
    NotAttachedText();
  }

  /** A lock clears the answers of the client's user if that is known, keeps those of other users, and clears all if it
      is not. */
  lemma LockClears(h: Host, s: State, key: Key, now: nat)
    ensures var (s1, r) := Take(h, s, LockStep).value;
      && r == Success && s1.table == s.table && s1.pending == s.pending
      && Lookup(s1.auth.cache, key, now) ==
        if h.clientUid.None? || h.clientUid.value == key.0 then None else Lookup(s.auth.cache, key, now)
  {
  }
}
