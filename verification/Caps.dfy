/** Raising and dropping capabilities around privileged operations (crates/ebpf-assistd/src/caps.rs). */
module Caps {

  datatype Cap = BPF | PERFMON | NET_ADMIN | Other(number: nat)

  /** One call of with_caps: the capabilities it asks for, the calls its closure makes, and what the closure
      returns. A failed raise runs no closure. */
  datatype Scope = WithCaps(caps: seq<Cap>, body: seq<Scope>, ok: bool)

  function Set(caps: seq<Cap>): set<Cap> {
    set c | c in caps
  }

  /** Whether raise_caps succeeds: the kernel lets the effective set be any subset of the permitted one. */
  predicate Raises(permitted: set<Cap>, caps: seq<Cap>) {
    Set(caps) <= permitted
  }

  /** The capabilities that some raise inside the scope obtained. */
  function Raised(permitted: set<Cap>, s: Scope): set<Cap>
    decreases s, 1
  {
    if Raises(permitted, s.caps) then Set(s.caps) + RaisedAll(permitted, s.body) else {}
  }

  function RaisedAll(permitted: set<Cap>, ss: seq<Scope>): set<Cap>
    decreases ss, 0
  {
    if ss == [] then {} else Raised(permitted, ss[0]) + RaisedAll(permitted, ss[1..])
  }

  /** What a closure finds when it starts. */
  datatype Entry = Entry(requested: set<Cap>, effective: set<Cap>)

  /** The effective set as the calls unfold, and the entries of all closures that run. */
  function Unfold(permitted: set<Cap>, effective: set<Cap>, s: Scope): (set<Cap>, seq<Entry>)
    decreases s, 1
  {
    if Raises(permitted, s.caps) then
      var inside := effective + Set(s.caps);
      var (left, entries) := UnfoldAll(permitted, inside, s.body);
      (left - Set(s.caps), [Entry(Set(s.caps), inside)] + entries)
    else
      (effective, [])
  }

  function UnfoldAll(permitted: set<Cap>, effective: set<Cap>, ss: seq<Scope>): (set<Cap>, seq<Entry>)
    decreases ss, 0
  {
    if ss == [] then (effective, [])
    else
      var (e1, n1) := Unfold(permitted, effective, ss[0]);
      var (e2, n2) := UnfoldAll(permitted, e1, ss[1..]);
      (e2, n1 + n2)
  }

  ghost predicate Bracketed(permitted: set<Cap>, entries: seq<Entry>) {
    forall i :: 0 <= i < |entries| ==> entries[i].requested <= entries[i].effective <= permitted
  }

  /** For any tree of calls, successful or not: what a closure asked for is effective when it starts, the
      effective set stays within the permitted one, and at the end it has lost exactly what was raised. */
  lemma {:induction false} Bracketing(permitted: set<Cap>, effective: set<Cap>, s: Scope)
    requires effective <= permitted
    ensures var (e, entries) := Unfold(permitted, effective, s);
      e == effective - Raised(permitted, s) && Bracketed(permitted, entries)
    decreases s, 1
  {
    if Raises(permitted, s.caps) {
      BracketingAll(permitted, effective + Set(s.caps), s.body);
    }
  }

  /** A call whose capabilities are all permitted starts its closure with all of them effective besides what was
      effective before, and then the calls inside run; any other call runs nothing. */
  lemma ScopeStarts(permitted: set<Cap>, effective: set<Cap>, s: Scope)
    ensures var entries := Unfold(permitted, effective, s).1;
      if forall c :: c in s.caps ==> c in permitted then
        && entries != []
        && (forall c :: c in entries[0].requested <==> c in s.caps)
        && (forall c :: c in entries[0].effective <==> c in effective || c in s.caps)
        && entries[1..] == UnfoldAll(permitted, entries[0].effective, s.body).1
      else entries == [] && Unfold(permitted, effective, s).0 == effective
  {
    if forall c :: c in s.caps ==> c in permitted {
      var inside := effective + Set(s.caps);
      assert Unfold(permitted, effective, s).1 ==
        [Entry(Set(s.caps), inside)] + UnfoldAll(permitted, inside, s.body).1;
    } else {
      var c :| c in s.caps && c !in permitted;
      assert c in Set(s.caps);
    }
  }

  /** Calls one after the other: each starts with what the one before left, and all closures are entered in order. */
  lemma ScopesInOrder(permitted: set<Cap>, effective: set<Cap>, s: Scope, more: seq<Scope>)
    ensures var (e1, n1) := Unfold(permitted, effective, s);
      var (e2, n2) := UnfoldAll(permitted, e1, more);
      UnfoldAll(permitted, effective, [s] + more) == (e2, n1 + n2)
  {
    assert ([s] + more)[1..] == more;
  }

  lemma {:induction false} BracketingAll(permitted: set<Cap>, effective: set<Cap>, ss: seq<Scope>)
    requires effective <= permitted
    ensures var (e, entries) := UnfoldAll(permitted, effective, ss);
      e == effective - RaisedAll(permitted, ss) && Bracketed(permitted, entries)
    decreases ss, 0
  {
    if ss != [] {
      Bracketing(permitted, effective, ss[0]);
      BracketingAll(permitted, Unfold(permitted, effective, ss[0]).0, ss[1..]);
    }
  }

  /** The guard removes, it does not restore: the effective set comes back exactly when nothing that was
      effective before is raised inside. */
  lemma RestoredIff(permitted: set<Cap>, effective: set<Cap>, s: Scope)
    requires effective <= permitted
    ensures Unfold(permitted, effective, s).0 == effective <==> effective !! Raised(permitted, s)
  {
    Bracketing(permitted, effective, s);
  }

  /** Inside a closure, after its first calls, a requested capability is still effective exactly when none of
      those calls raised it as well. */
  lemma StillEffectiveIff(permitted: set<Cap>, effective: set<Cap>, s: Scope, done: nat, c: Cap)
    requires effective <= permitted && Raises(permitted, s.caps) && c in s.caps && done <= |s.body|
    ensures c in UnfoldAll(permitted, effective + Set(s.caps), s.body[..done]).0
      <==> c !in RaisedAll(permitted, s.body[..done])
  {
    BracketingAll(permitted, effective + Set(s.caps), s.body[..done]);
  }

  /** The capability state of the daemon's process. */
  class Process {
    var permitted: set<Cap>
    var effective: set<Cap>
    ghost var entries: seq<Entry>

    constructor (permitted: set<Cap>, effective: set<Cap>)
      ensures this.permitted == permitted && this.effective == effective && entries == []
    {
      this.permitted, this.effective, entries := permitted, effective, [];
    }

    /** capset: the kernel refuses an effective set that is not within the permitted one. */
    method SetCurrent(state: set<Cap>) returns (ok: bool)
      modifies `effective
      ensures ok == (state <= permitted)
      ensures effective == if ok then state else old(effective)
    {
      ok := state <= permitted;
      if ok {
        effective := state;
      }
    }

    method RaiseCaps(caps: seq<Cap>) returns (ok: bool)
      requires effective <= permitted
      modifies `effective
      ensures ok == Raises(permitted, caps)
      ensures ok <==> forall c :: c in caps ==> c in permitted
      ensures ok ==> forall c :: c in effective <==> c in old(effective) || c in caps
      ensures effective == if ok then old(effective) + Set(caps) else old(effective)
    {
      var state := effective;
      for i := 0 to |caps|
        invariant state == old(effective) + Set(caps[..i]) && Set(caps[..i]) <= permitted
        invariant effective == old(effective)
      {
        assert Set(caps[..i + 1]) == Set(caps[..i]) + {caps[i]} by {
          assert caps[..i + 1] == caps[..i] + [caps[i]];
        }
        if caps[i] !in permitted {
          assert caps[i] in Set(caps);
          return false;
        }
        state := state + {caps[i]};
      }
      assert caps[..|caps|] == caps;
      ok := SetCurrent(state);
    }

    /** What the guard's drop does. */
    method DropCaps(caps: seq<Cap>)
      requires effective <= permitted
      modifies `effective
      ensures effective == old(effective) - Set(caps)
      ensures forall c :: c in effective <==> c in old(effective) && c !in caps
    {
      var state := effective;
      for i := 0 to |caps|
        invariant state == old(effective) - Set(caps[..i]) && effective == old(effective)
      {
        assert Set(caps[..i + 1]) == Set(caps[..i]) + {caps[i]} by {
          assert caps[..i + 1] == caps[..i] + [caps[i]];
        }
        state := state - {caps[i]};
      }
      assert caps[..|caps|] == caps;
      var _ := SetCurrent(state);
    }

    /** with_caps, with the calls that its closure makes. */
    method WithCapsCall(s: Scope) returns (ok: bool)
      requires effective <= permitted
      modifies `effective, `entries
      ensures var (e, n) := Unfold(permitted, old(effective), s);
        effective == e && entries == old(entries) + n
      ensures effective <= permitted
      ensures ok == (Raises(permitted, s.caps) && s.ok)
      decreases s, 1
    {
      Bracketing(permitted, effective, s);
      var raised := RaiseCaps(s.caps);
      if !raised {
        return false;
      }
      entries := entries + [Entry(Set(s.caps), effective)];
      RunBody(s.body);
      DropCaps(s.caps);
      ok := s.ok;
    }

    method RunBody(body: seq<Scope>)
      requires effective <= permitted
      modifies `effective, `entries
      ensures var (e, n) := UnfoldAll(permitted, old(effective), body);
        effective == e && entries == old(entries) + n
      ensures effective <= permitted
      decreases body, 0
    {
      if body != [] {
        var _ := WithCapsCall(body[0]);
        RunBody(body[1..]);
      }
    }
  }
}
