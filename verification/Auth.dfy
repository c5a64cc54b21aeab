/** The authorisation cache in front of polkit (crates/ebpf-assistd/src/auth.rs). */
module Auth {
  import opened Common

  datatype AuthResult = Authorized | NotAuthorized | Challenge

  type Key = (u32, string)

  const MANAGE := "org.ebpf-assist.manage"
  const LOAD := "org.ebpf-assist.load"
  const ATTACH := "org.ebpf-assist.attach"

  datatype CacheEntry = CacheEntry(result: AuthResult, expires: nat)

  /** What has happened to the cache: an answer was stored at a time, or a user's answers (or all) were cleared. */
  datatype Event = Stored(key: Key, result: AuthResult, at: nat) | Cleared(uid: Option<u32>)

  /** polkit's reply to one query: none at all, or its two flags. */
  datatype Polkit = Unreachable | Reply(authorized: bool, challenge: bool)

  /** One query as the environment fixes it: the clock when the cache is read, polkit's reply, and the clock
      when the answer is stored. */
  datatype Query = Query(now: nat, polkit: Polkit, later: nat)

  /** The manager's state; `history` is what has happened to `cache` so far. */
  datatype Manager = Manager(cache: map<Key, CacheEntry>, history: seq<Event>, duration: nat, enabled: bool)

  // ---- the reference: answers from the history alone ----

  predicate Covers(e: Event, key: Key) {
    match e
    case Stored(k, _, _) => k == key
    case Cleared(uid) => uid.None? || uid.value == key.0
  }

  /** Event i is the latest stored answer for the key, with no covering clear since. */
  predicate Latest(history: seq<Event>, key: Key, i: int) {
    && 0 <= i < |history|
    && history[i].Stored? && history[i].key == key
    && forall j :: i < j < |history| ==> !Covers(history[j], key)
  }

  predicate LiveAt(m: Manager, key: Key, i: int, now: nat) {
    Latest(m.history, key, i) && now < m.history[i].at + m.duration
  }

  // ---- the code ----

  function WithoutUser(cache: map<Key, CacheEntry>, uid: u32): map<Key, CacheEntry> {
    map k | k in cache && k.0 != uid :: cache[k]
  }

  function Apply(cache: map<Key, CacheEntry>, e: Event, duration: nat): map<Key, CacheEntry> {
    match e
    case Stored(key, result, at) => cache[key := CacheEntry(result, at + duration)]
    case Cleared(uid) => if uid.None? then map[] else WithoutUser(cache, uid.value)
  }

  function Record(m: Manager, e: Event): Manager {
    m.(cache := Apply(m.cache, e, m.duration), history := m.history + [e])
  }

  function Lookup(cache: map<Key, CacheEntry>, key: Key, now: nat): Option<AuthResult> {
    if key in cache && cache[key].expires > now then Some(cache[key].result) else None
  }

  /** query_polkit; an unreachable polkit is an error. */
  function AnswerOf(p: Polkit): Option<AuthResult> {
    match p
    case Unreachable => None
    case Reply(authorized, challenge) =>
      Some(if authorized then Authorized else if challenge then Challenge else NotAuthorized)
  }

  /** check_authorization; None is the error. */
  function Check(m: Manager, key: Key, q: Query): (Manager, Option<AuthResult>) {
    if !m.enabled then (m, Some(Authorized))
    else
      var hit := Lookup(m.cache, key, q.now);
      if hit.Some? then (m, hit)
      else
        var r := AnswerOf(q.polkit);
        (if r.Some? then Record(m, Stored(key, r.value, q.later)) else m, r)
  }

  /** request_authorization: the interactive query knows no challenge, and only success is stored. */
  function Request(m: Manager, key: Key, q: Query): (Manager, Option<AuthResult>) {
    if !m.enabled then (m, Some(Authorized))
    else
      match q.polkit
      case Unreachable => (m, None)
      case Reply(authorized, _) =>
        if authorized then (Record(m, Stored(key, Authorized, q.later)), Some(Authorized))
        else (m, Some(NotAuthorized))
  }

  function Clear(m: Manager, uid: Option<u32>): Manager {
    Record(m, Cleared(uid))
  }

  // ---- refinement ----

  /** The cache holds, for each key, exactly the latest stored answer that no clear has covered since. */
  ghost predicate Refines(m: Manager) {
    && (forall key, i :: Latest(m.history, key, i) ==> Holds(m, key, i))
    && (forall key :: key in m.cache ==> exists i :: Latest(m.history, key, i))
  }

  lemma LatestAfter(history: seq<Event>, e: Event, key: Key, i: int)
    ensures Latest(history + [e], key, i) <==>
      if Covers(e, key) then e.Stored? && i == |history| else Latest(history, key, i)
  {
    var h := history + [e];
    if Latest(history, key, i) && !Covers(e, key) {
      assert forall j :: i < j < |h| ==> h[j] == if j < |history| then history[j] else e;
    }
    if Latest(h, key, i) && i < |history| {
      assert h[|history|] == e;
      assert forall j :: i < j < |history| ==> history[j] == h[j];
    }
  }

  /** What the cache must hold for the event at index i. */
  predicate Holds(m: Manager, key: Key, i: int)
    requires Latest(m.history, key, i)
  {
    key in m.cache && m.cache[key] == CacheEntry(m.history[i].result, m.history[i].at + m.duration)
  }

  lemma RecordRefines(m: Manager, e: Event)
    requires Refines(m)
    ensures Refines(Record(m, e))
  {
    var m1 := Record(m, e);
    forall key, i | Latest(m1.history, key, i) ensures Holds(m1, key, i) {
      LatestAfter(m.history, e, key, i);
      assert !Covers(e, key) ==> Holds(m, key, i);
    }
    forall key | key in m1.cache ensures exists i :: Latest(m1.history, key, i) {
      if Covers(e, key) {
        LatestAfter(m.history, e, key, |m.history|);
      } else {
        var i :| Latest(m.history, key, i);
        LatestAfter(m.history, e, key, i);
      }
    }
  }

  /** Every answer is the latest stored one for the same user and action, if that was stored less than the
      cache duration ago and not cleared since, and otherwise polkit's own; only the latter is recorded. */
  lemma CheckRefinesHistory(m: Manager, key: Key, q: Query)
    requires Refines(m) && m.enabled
    ensures var (m1, r) := Check(m, key, q);
      && Refines(m1)
      && (forall i :: LiveAt(m, key, i, q.now) ==> m1 == m && r == Some(m.history[i].result))
      && ((forall i :: !LiveAt(m, key, i, q.now)) ==>
            && r == AnswerOf(q.polkit)
            && m1.history == m.history + if r.Some? then [Stored(key, r.value, q.later)] else [])
  {
    assert forall i :: LiveAt(m, key, i, q.now) ==> Holds(m, key, i);
    if Lookup(m.cache, key, q.now).Some? {
      var i :| Latest(m.history, key, i);
      assert LiveAt(m, key, i, q.now);
    } else if AnswerOf(q.polkit).Some? {
      RecordRefines(m, Stored(key, AnswerOf(q.polkit).value, q.later));
    }
  }

  /** The other two operations keep the refinement as well. */
  lemma RequestAndClearRefine(m: Manager, key: Key, q: Query, uid: Option<u32>)
    requires Refines(m)
    ensures Refines(Request(m, key, q).0) && Refines(Clear(m, uid))
  {
    RecordRefines(m, Cleared(uid));
    RecordRefines(m, Stored(key, Authorized, q.later));
  }

  // ---- expired entries ----

  datatype Call = DoCheck(key: Key, q: Query) | DoRequest(key: Key, q: Query) | DoClear(uid: Option<u32>)

  function Obey(m: Manager, call: Call): (Manager, Option<AuthResult>) {
    match call
    case DoCheck(key, q) => Check(m, key, q)
    case DoRequest(key, q) => Request(m, key, q)
    case DoClear(uid) => (Clear(m, uid), None)
  }

  /** The answers of a run of calls. */
  function Answers(m: Manager, calls: seq<Call>): seq<Option<AuthResult>>
    decreases |calls|
  {
    if calls == [] then []
    else
      var (m1, r) := Obey(m, calls[0]);
      [r] + Answers(m1, calls[1..])
  }

  predicate NotBefore(calls: seq<Call>, since: nat) {
    forall i :: 0 <= i < |calls| && !calls[i].DoClear? ==> calls[i].q.now >= since
  }

  /** The two caches differ in entries that had expired by then at most. */
  ghost predicate SameSince(m: Manager, n: Manager, since: nat) {
    && m.enabled == n.enabled && m.duration == n.duration
    && forall key, now: nat :: now >= since ==> Lookup(m.cache, key, now) == Lookup(n.cache, key, now)
  }

  /** A lookup after an event looks at the event if that covers the key, and at the cache before it otherwise. */
  lemma LookupAfter(cache: map<Key, CacheEntry>, e: Event, duration: nat, key: Key, now: nat)
    ensures Lookup(Apply(cache, e, duration), key, now) ==
      if !Covers(e, key) then Lookup(cache, key, now)
      else if e.Stored? && e.at + duration > now then Some(e.result)
      else None
  {
  }

  lemma SameStep(m: Manager, n: Manager, call: Call, since: nat)
    requires SameSince(m, n, since) && NotBefore([call], since)
    ensures Obey(m, call).1 == Obey(n, call).1
    ensures SameSince(Obey(m, call).0, Obey(n, call).0, since)
  {
    hide Lookup, Apply;
    assert [call][0] == call;
    forall key, now: nat, e | now >= since
      ensures Lookup(Record(m, e).cache, key, now) == Lookup(Record(n, e).cache, key, now)
    {
      LookupAfter(m.cache, e, m.duration, key, now);
      LookupAfter(n.cache, e, n.duration, key, now);
    }
  }

  lemma {:induction false} SameAnswers(m: Manager, n: Manager, calls: seq<Call>, since: nat)
    requires SameSince(m, n, since) && NotBefore(calls, since)
    ensures Answers(m, calls) == Answers(n, calls)
    decreases |calls|
  {
    hide Obey, SameSince;
    if calls != [] {
      assert [calls[0]][0] == calls[0];
      SameStep(m, n, calls[0], since);
      SameAnswers(Obey(m, calls[0]).0, Obey(n, calls[0]).0, calls[1..], since);
    }
  }

  function Purged(cache: map<Key, CacheEntry>, since: nat): map<Key, CacheEntry> {
    map k | k in cache && cache[k].expires > since :: cache[k]
  }

  /** Entries that have expired are never removed on their own, and never matter: dropping all of them leaves
      every answer of every later run of calls as it is. */
  lemma ExpiredIsDead(m: Manager, calls: seq<Call>, since: nat)
    requires NotBefore(calls, since)
    ensures Answers(m.(cache := Purged(m.cache, since)), calls) == Answers(m, calls)
  {
    SameAnswers(m.(cache := Purged(m.cache, since)), m, calls, since);
  }

  /** An operation on another user, or on another action of the same user, does not change an answer. */
  lemma OtherKeysKeep(m: Manager, key: Key, other: Key, q: Query, uid: u32, now: nat)
    requires other != key && uid != key.0
    ensures Lookup(Check(m, other, q).0.cache, key, now) == Lookup(m.cache, key, now)
    ensures Lookup(Request(m, other, q).0.cache, key, now) == Lookup(m.cache, key, now)
    ensures Lookup(Clear(m, Some(uid)).cache, key, now) == Lookup(m.cache, key, now)
  {
  }

  /** Answers other than success are cached too: after polkit has asked for a challenge, checks keep answering
      Challenge, whatever polkit would say by then, exactly until the entry expires; only then is polkit asked
      again. An unlock of MANAGE in between, granted or not, makes no difference to that. */
  lemma ChallengeOutlivesUnlock(m: Manager, uid: u32, action: string, asked: Query, unlock: Query, again: Query)
    requires m.enabled && action != MANAGE && Lookup(m.cache, (uid, action), asked.now).None?
    requires asked.polkit == Reply(false, true)
    ensures var m1 := Check(m, (uid, action), asked).0;
      var m2 := Request(m1, (uid, MANAGE), unlock).0;
      Check(m2, (uid, action), again).1 ==
        if again.now < asked.later + m.duration then Some(Challenge) else AnswerOf(again.polkit)
  {
    var m1 := Check(m, (uid, action), asked).0;
    OtherKeysKeep(m1, (uid, action), (uid, MANAGE), unlock, if uid == 0 then 1 else 0, again.now);
  }

  // ---- the object ----

  class AuthManager {
    var cache: map<Key, CacheEntry>
    ghost var history: seq<Event>
    const duration: nat
    const enabled: bool

    ghost function Abs(): Manager
      reads this
    {
      Manager(cache, history, duration, enabled)
    }

    constructor (duration: nat, enabled: bool)
      ensures Abs() == Manager(map[], [], duration, enabled) && Refines(Abs())
    {
      cache, history, this.duration, this.enabled := map[], [], duration, enabled;
    }

    method CheckAuthorization(uid: u32, action: string, q: Query) returns (r: Option<AuthResult>)
      requires Refines(Abs())
      modifies this
      ensures (Abs(), r) == Check(old(Abs()), (uid, action), q)
      ensures Refines(Abs())
    {
      hide Refines;
      var key := (uid, action);
      if !enabled {
        return Some(Authorized);
      }
      CheckRefinesHistory(Abs(), key, q);
      if key in cache && cache[key].expires > q.now {
        return Some(cache[key].result);
      }
      r := AnswerOf(q.polkit);
      if r.Some? {
        cache := cache[key := CacheEntry(r.value, q.later + duration)];
        history := history + [Stored(key, r.value, q.later)];
      }
    }

    method RequestAuthorization(uid: u32, action: string, q: Query) returns (r: Option<AuthResult>)
      requires Refines(Abs())
      modifies this
      ensures (Abs(), r) == Request(old(Abs()), (uid, action), q)
      ensures Refines(Abs())
    {
      hide Refines;
      var key := (uid, action);
      if !enabled {
        return Some(Authorized);
      }
      if q.polkit.Unreachable? {
        return None;
      }
      if !q.polkit.authorized {
        return Some(NotAuthorized);
      }
      RequestAndClearRefine(Abs(), key, q, None);
      cache := cache[key := CacheEntry(Authorized, q.later + duration)];
      history := history + [Stored(key, Authorized, q.later)];
      r := Some(Authorized);
    }

    method ClearCache(uid: Option<u32>)
      requires Refines(Abs())
      modifies this
      ensures Abs() == Clear(old(Abs()), uid)
      ensures Refines(Abs())
    {
      hide Refines;
      RecordRefines(Abs(), Cleared(uid));
      if uid.Some? {
        cache := map k | k in cache && k.0 != uid.value :: cache[k];
      } else {
        cache := map[];
      }
      history := history + [Cleared(uid)];
    }
  }
}
