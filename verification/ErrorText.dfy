/** How the daemon turns error messages into codes: by searching their text (handler.rs:312-339). */
module ErrorText {
  import opened Common

  predicate OccursAt(s: string, w: string, i: int) {
    0 <= i <= |s| - |w| && s[i..i + |w|] == w
  }

  predicate Contains(s: string, w: string) {
    exists i :: 0 <= i <= |s| - |w| && OccursAt(s, w, i)
  }

  // the words that error_response looks for
  const POLICY := "Policy violation"
  const NO_MAP := "Map not found"
  const INVALID := "Invalid"
  const KEY := "key"
  const VALUE := "value"
  const NO_PROGRAM := "Program not found"
  const NOT_FOUND := "not found"
  const NO_FILE := "No such file"
  const PERMISSION := "Permission"
  const CAPABILITY := "Capability"
  const VERIFIER := "verifier"
  const ALREADY := "already attached"
  const NOT_ATTACHED := "not attached"

  // messages of the daemon's loader
  const NO_PROGRAM_MESSAGE := "Program not found"
  const NOT_ATTACHED_MESSAGE := "Program is not attached"
  const LOAD_FAILED_MESSAGE := "Failed to load eBPF program"
  const POLICY_MESSAGE := "Policy violation: "

  /** error_response: the first test that succeeds decides. */
  function ErrorResponse(message: string): ErrorCode {
    if Contains(message, POLICY) then PolicyViolation
    else if Contains(message, NO_MAP) then MapNotFound
    else if Contains(message, INVALID) && Contains(message, KEY) then InvalidKey
    else if Contains(message, INVALID) && Contains(message, VALUE) then InvalidValue
    else if Contains(message, NO_PROGRAM) then ProgramNotFound
    else if Contains(message, NOT_FOUND) || Contains(message, NO_FILE) then NotFound
    else if Contains(message, PERMISSION) || Contains(message, CAPABILITY) then CapabilityError
    else if Contains(message, VERIFIER) then VerifierError
    else if Contains(message, ALREADY) then AlreadyAttached
    else if Contains(message, NOT_ATTACHED) then NotAttached
    else Internal
  }

  lemma Occurs(s: string, w: string, i: int)
    requires OccursAt(s, w, i)
    ensures Contains(s, w)
  {
  }

  lemma OccursChar(s: string, w: string, i: int, k: int)
    requires OccursAt(s, w, i) && 0 <= k < |w|
    ensures s[i + k] == w[k]
  {
    assert s[i..i + |w|][k] == s[i + k];
  }

  /** A word with a character that the text lacks does not occur in it. */
  lemma Lacks(s: string, w: string, k: nat)
    requires k < |w| && w[k] !in s
    ensures !Contains(s, w)
  {
    forall i | 0 <= i <= |s| - |w| ensures !OccursAt(s, w, i) {
      if OccursAt(s, w, i) {
        OccursChar(s, w, i, k);
      }
    }
  }

  /** An occurrence between two quotes lies in one of the three parts. */
  lemma WhichPart(a: string, b: string, c: string, w: string, i: int)
    requires a != [] && a[|a| - 1] == '"' && c != [] && c[0] == '"' && '"' !in w && w != []
    requires OccursAt(a + b + c, w, i)
    ensures OccursAt(a, w, i) || OccursAt(b, w, i - |a|) || OccursAt(c, w, i - |a| - |b|)
  {
    var s := a + b + c;
    if i < |a| < i + |w| {
      OccursChar(s, w, i, |a| - 1 - i);
    } else if i < |a| + |b| < i + |w| {
      OccursChar(s, w, i, |a| + |b| - i);
    } else if i + |w| <= |a| {
      assert s[i..i + |w|] == a[i..i + |w|];
    } else if i + |w| <= |a| + |b| {
      assert s[i..i + |w|] == b[i - |a|..i - |a| + |w|];
    } else {
      assert s[i..i + |w|] == c[i - |a| - |b|..i - |a| - |b| + |w|];
    }
  }

  /** A word that cannot touch the quotes around a text occurs in the whole exactly when it occurs in the text. */
  lemma OnlyBetweenQuotes(a: string, b: string, c: string, w: string)
    requires a != [] && a[|a| - 1] == '"' && c != [] && c[0] == '"' && '"' !in w && w != []
    requires !Contains(a, w) && !Contains(c, w)
    ensures Contains(a + b + c, w) <==> Contains(b, w)
  {
    if Contains(b, w) {
      var i :| 0 <= i <= |b| - |w| && OccursAt(b, w, i);
      assert (a + b + c)[|a| + i..|a| + i + |w|] == b[i..i + |w|];
      Occurs(a + b + c, w, |a| + i);
    }
    if Contains(a + b + c, w) {
      var i :| 0 <= i <= |a + b + c| - |w| && OccursAt(a + b + c, w, i);
      WhichPart(a, b, c, w, i);
      if OccursAt(b, w, i - |a|) {
        Occurs(b, w, i - |a|);
      } else if OccursAt(a, w, i) {
        Occurs(a, w, i);
      } else {
        Occurs(c, w, i - |a| - |b|);
      }
    }
  }

  // ---- the daemon's own messages ----

  lemma ProgramNotFoundText()
    ensures ErrorResponse(NO_PROGRAM_MESSAGE) == ProgramNotFound
  {
    hide Contains;
    var s := NO_PROGRAM_MESSAGE;
    Lacks(s, POLICY, 5);
    Lacks(s, NO_MAP, 0);
    Lacks(s, INVALID, 0);
    Occurs(s, NO_PROGRAM, 0);
  }

  lemma NoPermission()
    ensures !Contains(NOT_ATTACHED_MESSAGE, PERMISSION)
  {
    var s, w := NOT_ATTACHED_MESSAGE, PERMISSION;
    forall i | 0 <= i <= |s| - |w| ensures !OccursAt(s, w, i) {
      if OccursAt(s, w, i) {
        OccursChar(s, w, i, 0);
        OccursChar(s, w, i, 1);
      }
    }
  }

  lemma NotAttachedLacks1()
    ensures !Contains(NOT_ATTACHED_MESSAGE, POLICY)
    ensures !Contains(NOT_ATTACHED_MESSAGE, NO_MAP)
  {
    hide Contains;
    Lacks(NOT_ATTACHED_MESSAGE, POLICY, 5);
    Lacks(NOT_ATTACHED_MESSAGE, NO_MAP, 0);
  }

  lemma NotAttachedLacks2()
    ensures !Contains(NOT_ATTACHED_MESSAGE, INVALID)
    ensures !Contains(NOT_ATTACHED_MESSAGE, NO_PROGRAM)
    ensures !Contains(NOT_ATTACHED_MESSAGE, NOT_FOUND)
  {
    hide Contains;
    Lacks(NOT_ATTACHED_MESSAGE, INVALID, 0);
    Lacks(NOT_ATTACHED_MESSAGE, NO_PROGRAM, 12);
    Lacks(NOT_ATTACHED_MESSAGE, NOT_FOUND, 4);
  }

  lemma NotAttachedLacks3()
    ensures !Contains(NOT_ATTACHED_MESSAGE, NO_FILE)
    ensures !Contains(NOT_ATTACHED_MESSAGE, CAPABILITY)
  {
    hide Contains;
    Lacks(NOT_ATTACHED_MESSAGE, NO_FILE, 0);
    Lacks(NOT_ATTACHED_MESSAGE, CAPABILITY, 0);
  }

  lemma NotAttachedLacks4()
    ensures !Contains(NOT_ATTACHED_MESSAGE, VERIFIER)
    ensures !Contains(NOT_ATTACHED_MESSAGE, ALREADY)
  {
    hide Contains;
    Lacks(NOT_ATTACHED_MESSAGE, VERIFIER, 0);
    Lacks(NOT_ATTACHED_MESSAGE, ALREADY, 1);
  }

  lemma NotAttachedText()
    ensures ErrorResponse(NOT_ATTACHED_MESSAGE) == NotAttached
  {
    hide Contains;
    NotAttachedLacks1();
    NotAttachedLacks2();
    NotAttachedLacks3();
    NotAttachedLacks4();
    NoPermission();
    Occurs(NOT_ATTACHED_MESSAGE, NOT_ATTACHED, 11);
  }

  lemma LoadFailedLacks1()
    ensures !Contains(LOAD_FAILED_MESSAGE, POLICY)
    ensures !Contains(LOAD_FAILED_MESSAGE, NO_MAP)
  {
    hide Contains;
    Lacks(LOAD_FAILED_MESSAGE, POLICY, 5);
    Lacks(LOAD_FAILED_MESSAGE, NO_MAP, 0);
  }

  lemma LoadFailedLacks2()
    ensures !Contains(LOAD_FAILED_MESSAGE, INVALID)
    ensures !Contains(LOAD_FAILED_MESSAGE, NO_PROGRAM)
    ensures !Contains(LOAD_FAILED_MESSAGE, NOT_FOUND)
  {
    hide Contains;
    Lacks(LOAD_FAILED_MESSAGE, INVALID, 0);
    Lacks(LOAD_FAILED_MESSAGE, NO_PROGRAM, 8);
    Lacks(LOAD_FAILED_MESSAGE, NOT_FOUND, 0);
  }

  lemma LoadFailedLacks3()
    ensures !Contains(LOAD_FAILED_MESSAGE, NO_FILE)
    ensures !Contains(LOAD_FAILED_MESSAGE, PERMISSION)
  {
    hide Contains;
    Lacks(LOAD_FAILED_MESSAGE, NO_FILE, 0);
    Lacks(LOAD_FAILED_MESSAGE, PERMISSION, 9);
  }

  lemma LoadFailedLacks4()
    ensures !Contains(LOAD_FAILED_MESSAGE, CAPABILITY)
    ensures !Contains(LOAD_FAILED_MESSAGE, VERIFIER)
  {
    hide Contains;
    Lacks(LOAD_FAILED_MESSAGE, CAPABILITY, 0);
    Lacks(LOAD_FAILED_MESSAGE, VERIFIER, 0);
  }

  lemma LoadFailedLacks5()
    ensures !Contains(LOAD_FAILED_MESSAGE, ALREADY)
    ensures !Contains(LOAD_FAILED_MESSAGE, NOT_ATTACHED)
  {
    hide Contains;
    Lacks(LOAD_FAILED_MESSAGE, ALREADY, 13);
    Lacks(LOAD_FAILED_MESSAGE, NOT_ATTACHED, 0);
  }

  /** A load whose file cannot be read or parsed is reported with this context message only, so the code is
      Internal, whatever the cause: NotFound and VerifierError never come out of it. */
  lemma LoadFailedText()
    ensures ErrorResponse(LOAD_FAILED_MESSAGE) == Internal
  {
    hide Contains;
    LoadFailedLacks1();
    LoadFailedLacks2();
    LoadFailedLacks3();
    LoadFailedLacks4();
    LoadFailedLacks5();
  }

  const CAPABILITY_MESSAGE := "Capability not in permitted set"

  lemma CapabilityLacks1()
    ensures !Contains(CAPABILITY_MESSAGE, POLICY)
    ensures !Contains(CAPABILITY_MESSAGE, NO_MAP)
  {
    hide Contains;
    Lacks(CAPABILITY_MESSAGE, POLICY, 7);
    Lacks(CAPABILITY_MESSAGE, NO_MAP, 8);
  }

  lemma CapabilityLacks2()
    ensures !Contains(CAPABILITY_MESSAGE, INVALID)
    ensures !Contains(CAPABILITY_MESSAGE, NO_PROGRAM)
  {
    hide Contains;
    Lacks(CAPABILITY_MESSAGE, INVALID, 2);
    Lacks(CAPABILITY_MESSAGE, NO_PROGRAM, 12);
  }

  lemma CapabilityLacks3()
    ensures !Contains(CAPABILITY_MESSAGE, NOT_FOUND)
    ensures !Contains(CAPABILITY_MESSAGE, NO_FILE)
  {
    hide Contains;
    Lacks(CAPABILITY_MESSAGE, NOT_FOUND, 4);
    Lacks(CAPABILITY_MESSAGE, NO_FILE, 8);
  }

  lemma CapabilityText()
    ensures ErrorResponse(CAPABILITY_MESSAGE) == CapabilityError
  {
    hide Contains;
    CapabilityLacks1();
    CapabilityLacks2();
    CapabilityLacks3();
    Occurs(CAPABILITY_MESSAGE, CAPABILITY, 0);
  }

  // messages of the map operations

  const MAP_NOT_FOUND_MESSAGE := "Map not found"
  const HEX_KEY_MESSAGE := "Invalid hex key"
  const KEY_MESSAGE := "Invalid key"
  const HEX_VALUE_MESSAGE := "Invalid hex value"
  const VALUE_MESSAGE := "Invalid value"

  lemma MapNotFoundText()
    ensures ErrorResponse("Map not found") == MapNotFound
  {
    hide Contains;
    Lacks(MAP_NOT_FOUND_MESSAGE, POLICY, 0);
    assert MAP_NOT_FOUND_MESSAGE[0..13] == NO_MAP;
    Occurs(MAP_NOT_FOUND_MESSAGE, NO_MAP, 0);
  }

  const NO_FILE_MESSAGE := "No such file or directory"
  const PERMISSION_MESSAGE := "Permission denied"

  lemma NoFileLacks()
    ensures !Contains(NO_FILE_MESSAGE, POLICY) && !Contains(NO_FILE_MESSAGE, NO_MAP)
  {
    hide Contains;
    Lacks(NO_FILE_MESSAGE, POLICY, 0);
    Lacks(NO_FILE_MESSAGE, NO_MAP, 0);
  }

  lemma NoFileText()
    ensures ErrorResponse("No such file or directory") == NotFound
  {
    hide Contains;
    NoFileLacks();
    assert !Contains(NO_FILE_MESSAGE, INVALID) by { Lacks(NO_FILE_MESSAGE, INVALID, 0); }
    assert !Contains(NO_FILE_MESSAGE, NO_PROGRAM) by { Lacks(NO_FILE_MESSAGE, NO_PROGRAM, 0); }
    assert NO_FILE_MESSAGE[0..12] == NO_FILE;
    Occurs(NO_FILE_MESSAGE, NO_FILE, 0);
  }

  lemma PermissionLacks1()
    ensures !Contains(PERMISSION_MESSAGE, POLICY) && !Contains(PERMISSION_MESSAGE, NO_MAP)
    ensures !Contains(PERMISSION_MESSAGE, INVALID)
  {
    hide Contains;
    Lacks(PERMISSION_MESSAGE, POLICY, 7);
    Lacks(PERMISSION_MESSAGE, NO_MAP, 0);
    Lacks(PERMISSION_MESSAGE, INVALID, 0);
  }

  lemma PermissionLacks2()
    ensures !Contains(PERMISSION_MESSAGE, NO_PROGRAM) && !Contains(PERMISSION_MESSAGE, NOT_FOUND)
    ensures !Contains(PERMISSION_MESSAGE, NO_FILE)
  {
    hide Contains;
    Lacks(PERMISSION_MESSAGE, NO_PROGRAM, 10);
    Lacks(PERMISSION_MESSAGE, NOT_FOUND, 2);
    Lacks(PERMISSION_MESSAGE, NO_FILE, 0);
  }

  lemma PermissionText()
    ensures ErrorResponse("Permission denied") == CapabilityError
  {
    hide Contains;
    PermissionLacks1();
    PermissionLacks2();
    assert PERMISSION_MESSAGE[0..10] == PERMISSION;
    Occurs(PERMISSION_MESSAGE, PERMISSION, 0);
  }

  lemma HexKeyText()
    ensures ErrorResponse("Invalid hex key") == InvalidKey
  {
    hide Contains;
    var s := HEX_KEY_MESSAGE;
    Lacks(s, POLICY, 0);
    Lacks(s, NO_MAP, 0);
    assert s[0..7] == INVALID && s[12..15] == KEY;
    Occurs(s, INVALID, 0);
    Occurs(s, KEY, 12);
  }

  lemma KeyText()
    ensures ErrorResponse("Invalid key") == InvalidKey
  {
    hide Contains;
    var s := KEY_MESSAGE;
    Lacks(s, POLICY, 0);
    Lacks(s, NO_MAP, 0);
    assert s[0..7] == INVALID && s[8..11] == KEY;
    Occurs(s, INVALID, 0);
    Occurs(s, KEY, 8);
  }

  lemma HexValueText()
    ensures ErrorResponse("Invalid hex value") == InvalidValue
  {
    hide Contains;
    var s := HEX_VALUE_MESSAGE;
    Lacks(s, POLICY, 0);
    Lacks(s, NO_MAP, 0);
    Lacks(s, KEY, 0);
    assert s[0..7] == INVALID && s[12..17] == VALUE;
    Occurs(s, INVALID, 0);
    Occurs(s, VALUE, 12);
  }

  lemma ValueText()
    ensures ErrorResponse("Invalid value") == InvalidValue
  {
    hide Contains;
    var s := VALUE_MESSAGE;
    Lacks(s, POLICY, 0);
    Lacks(s, NO_MAP, 0);
    Lacks(s, KEY, 0);
    assert s[0..7] == INVALID && s[8..13] == VALUE;
    Occurs(s, INVALID, 0);
    Occurs(s, VALUE, 8);
  }

  lemma PolicyText(rest: string)
    ensures ErrorResponse(POLICY_MESSAGE + rest) == PolicyViolation
  {
    hide Contains;
    var s := POLICY_MESSAGE + rest;
    assert s[..16] == POLICY_MESSAGE[..16] == POLICY;
    Occurs(s, POLICY, 0);
  }

  // ---- the one message that quotes its user ----

  const ALREADY_PREFIX := "Program " + (ALREADY + " to Some(\"")

  const ALREADY_SUFFIX := "\")"

  function AlreadyMessage(point: string): string {
    ALREADY_PREFIX + point + ALREADY_SUFFIX
  }

  /** The words in an attach point that the tests before "already attached" react to. */
  predicate Misleading(point: string) {
    || Contains(point, POLICY)
    || Contains(point, NO_MAP)
    || (Contains(point, INVALID) && (Contains(point, KEY) || Contains(point, VALUE)))
    || Contains(point, NOT_FOUND)
    || Contains(point, NO_FILE)
    || Contains(point, PERMISSION)
    || Contains(point, CAPABILITY)
    || Contains(point, VERIFIER)
  }

  /** A word with a character that neither the prefix nor the suffix has, and without a quote, occurs in the
      message exactly when it occurs in the attach point. */
  lemma InMessageIff(point: string, w: string, k: nat)
    requires k < |w| && '"' !in w && w[k] !in ALREADY_PREFIX && w[k] !in ALREADY_SUFFIX
    ensures Contains(AlreadyMessage(point), w) <==> Contains(point, w)
  {
    hide Contains;
    Lacks(ALREADY_PREFIX, w, k);
    Lacks(ALREADY_SUFFIX, w, k);
    OnlyBetweenQuotes(ALREADY_PREFIX, point, ALREADY_SUFFIX, w);
  }

  lemma EarlyTests1(point: string)
    ensures Contains(AlreadyMessage(point), POLICY) <==> Contains(point, POLICY)
  {
    hide Contains, AlreadyMessage;
    InMessageIff(point, POLICY, 7);
  }

  lemma EarlyTests3(point: string)
    ensures Contains(AlreadyMessage(point), NO_MAP) <==> Contains(point, NO_MAP)
  {
    hide Contains, AlreadyMessage;
    InMessageIff(point, NO_MAP, 8);
  }

  lemma EarlyTests2(point: string)
    ensures Contains(AlreadyMessage(point), INVALID) <==> Contains(point, INVALID)
    ensures Contains(AlreadyMessage(point), KEY) <==> Contains(point, KEY)
    ensures Contains(AlreadyMessage(point), VALUE) <==> Contains(point, VALUE)
  {
    hide Contains, AlreadyMessage;
    InMessageIff(point, INVALID, 2);
    InMessageIff(point, KEY, 0);
    InMessageIff(point, VALUE, 0);
  }

  lemma LaterTests1(point: string)
    ensures Contains(AlreadyMessage(point), NO_PROGRAM) <==> Contains(point, NO_PROGRAM)
    ensures Contains(AlreadyMessage(point), NOT_FOUND) <==> Contains(point, NOT_FOUND)
  {
    hide Contains, AlreadyMessage;
    InMessageIff(point, NO_PROGRAM, 12);
    InMessageIff(point, NOT_FOUND, 4);
  }

  lemma LaterTests2(point: string)
    ensures Contains(AlreadyMessage(point), NO_FILE) <==> Contains(point, NO_FILE)
    ensures Contains(AlreadyMessage(point), PERMISSION) <==> Contains(point, PERMISSION)
  {
    hide Contains, AlreadyMessage;
    InMessageIff(point, NO_FILE, 8);
    InMessageIff(point, PERMISSION, 4);
  }

  lemma LaterTests3(point: string)
    ensures Contains(AlreadyMessage(point), CAPABILITY) <==> Contains(point, CAPABILITY)
    ensures Contains(AlreadyMessage(point), VERIFIER) <==> Contains(point, VERIFIER)
  {
    hide Contains, AlreadyMessage;
    InMessageIff(point, CAPABILITY, 0);
    InMessageIff(point, VERIFIER, 0);
  }

  lemma NotFoundInside(point: string)
    requires Contains(point, NO_PROGRAM)
    ensures Contains(point, NOT_FOUND)
  {
    var i :| 0 <= i <= |point| - |NO_PROGRAM| && OccursAt(point, NO_PROGRAM, i);
    assert point[i + 8..i + 17] == point[i..i + 17][8..] == NO_PROGRAM[8..] == NOT_FOUND;
    Occurs(point, NOT_FOUND, i + 8);
  }

  /** Attaching a program twice is reported as AlreadyAttached exactly when the first attach point contains
      none of those words. */
  lemma AlreadyAttachedIff(point: string)
    ensures ErrorResponse(AlreadyMessage(point)) == AlreadyAttached <==> !Misleading(point)
  {
    hide Contains, AlreadyMessage;
    EarlyTests1(point);
    EarlyTests2(point);
    EarlyTests3(point);
    LaterTests1(point);
    LaterTests2(point);
    LaterTests3(point);
    if Contains(point, NO_PROGRAM) {
      NotFoundInside(point);
    }
    SaysAlready(point);
  }

  lemma SaysAlready(point: string)
    ensures Contains(AlreadyMessage(point), ALREADY)
  {
    var s := AlreadyMessage(point);
    var rest := " to Some(\"" + point + ALREADY_SUFFIX;
    assert s == "Program " + (ALREADY + rest);
    assert s[8..24] == (ALREADY + rest)[..16] == ALREADY;
    Occurs(s, ALREADY, 8);
  }

  /** How `{:?}` shows a string inside quotes. */
  function Escape(s: string): string {
    if s == "" then ""
    else (if s[0] == '"' || s[0] == '\\' then ['\\', s[0]] else [s[0]]) + Escape(s[1..])
  }

  /** What stands between the quotes, read back; None if a quote stands there by itself. */
  function Unescape(s: string): Option<string> {
    if s == "" then Some("")
    else if s[0] == '"' then None
    else if s[0] == '\\' then
      if |s| < 2 then None
      else match Unescape(s[2..]) case None => None case Some(rest) => Some([s[1]] + rest)
    else match Unescape(s[1..]) case None => None case Some(rest) => Some([s[0]] + rest)
  }

  /** The quoted text is read back, so it never ends before its closing quote. */
  lemma {:induction false} EscapeRoundTrip(s: string)
    ensures Unescape(Escape(s)) == Some(s)
  {
    if s != "" {
      EscapeRoundTrip(s[1..]);
      var e := Escape(s);
      assert s == [s[0]] + s[1..];
      if s[0] == '"' || s[0] == '\\' {
        assert e[0] == '\\' && e[1] == s[0] && e[2..] == Escape(s[1..]);
      } else {
        assert e[1..] == Escape(s[1..]);
      }
    }
  }

  predicate Plain(w: string) {
    w != "" && forall i :: 0 <= i < |w| ==> w[i] != '"' && w[i] != '\\'
  }

  lemma {:induction false} PrefixEscaped(p: string, w: string)
    requires Plain(w)
    ensures w <= Escape(p) <==> w <= p
  {
    if p != "" && p[0] == w[0] && |w| > 1 {
      PrefixEscaped(p[1..], w[1..]);
      assert w == [w[0]] + w[1..] && p == [p[0]] + p[1..];
      assert w <= p <==> w[1..] <= p[1..];
      assert w <= Escape(p) <==> w[1..] <= Escape(p[1..]);
    }
  }

  lemma Shifted(c: char, s: string, i: nat, n: nat)
    requires i + n <= |s|
    ensures ([c] + s)[i + 1..i + 1 + n] == s[i..i + n]
  {
    var t := [c] + s;
    assert t[1..] == s;
    assert t[i + 1..i + 1 + n] == t[1..][i..i + n];
  }

  lemma FoundBehind(c: char, s: string, w: string)
    requires w <= [c] + s || Contains(s, w)
    ensures Contains([c] + s, w)
  {
    var t := [c] + s;
    if w <= t {
      assert t[0..|w|] == w;
      Occurs(t, w, 0);
    } else {
      var i :| 0 <= i <= |s| - |w| && OccursAt(s, w, i);
      Shifted(c, s, i, |w|);
      Occurs(t, w, i + 1);
    }
  }

  lemma ContainsTail(c: char, s: string, w: string)
    ensures Contains([c] + s, w) <==> w <= [c] + s || Contains(s, w)
  {
    var t := [c] + s;
    if w <= t || Contains(s, w) {
      FoundBehind(c, s, w);
    } else if Contains(t, w) {
      var i :| 0 <= i <= |t| - |w| && OccursAt(t, w, i);
      if i > 0 {
        Shifted(c, s, i - 1, |w|);
        Occurs(s, w, i - 1);
      }
    }
  }

  lemma BehindBackslash(c: char, e: string, w: string)
    requires Plain(w) && (c == '"' || c == '\\')
    ensures Contains(['\\', c] + e, w) <==> Contains(e, w)
  {
    hide Contains;
    var t := [c] + e;
    assert ['\\', c] + e == ['\\'] + t;
    ContainsTail('\\', t, w);
    ContainsTail(c, e, w);
    assert (['\\'] + t)[0] == '\\' && t[0] == c;
    assert w[0] != c && w[0] != '\\';
  }

  lemma EscapedHead(p: string, w: string)
    requires Plain(w) && p != ""
    ensures Contains(Escape(p), w) <==> w <= Escape(p) || Contains(Escape(p[1..]), w)
  {
    hide Contains;
    var c, e := p[0], Escape(p[1..]);
    if c == '"' || c == '\\' {
      BehindBackslash(c, e, w);
      assert Escape(p)[0] == '\\' && w[0] != '\\';
    } else {
      ContainsTail(c, e, w);
    }
  }

  /** Escaping neither hides nor makes an occurrence of a word without quotes and backslashes. */
  lemma {:induction false} EscapedIff(p: string, w: string)
    requires Plain(w)
    ensures Contains(Escape(p), w) <==> Contains(p, w)
  {
    hide Contains, Plain;
    if p != "" {
      EscapedIff(p[1..], w);
      EscapedHead(p, w);
      PrefixEscaped(p, w);
      assert p == [p[0]] + p[1..];
      ContainsTail(p[0], p[1..], w);
    }
  }

  lemma MisleadingEscaped(p: string)
    ensures Misleading(Escape(p)) <==> Misleading(p)
  {
    hide Contains, Escape;
    EscapedIff(p, POLICY);
    EscapedIff(p, NO_MAP);
    EscapedIff(p, INVALID);
    EscapedIff(p, KEY);
    EscapedIff(p, VALUE);
    EscapedIff(p, NOT_FOUND);
    EscapedIff(p, NO_FILE);
    EscapedIff(p, PERMISSION);
    EscapedIff(p, CAPABILITY);
    EscapedIff(p, VERIFIER);
  }

  const PROBE := "bpf_verifier_log_write"

  /** A kernel function whose name trips the search: the second attach is reported as a verifier error. */
  lemma VerifierProbe()
    ensures ErrorResponse(AlreadyMessage(PROBE)) == VerifierError
  {
    hide Contains, AlreadyMessage;
    EarlyTests1(PROBE);
    EarlyTests2(PROBE);
    EarlyTests3(PROBE);
    LaterTests1(PROBE);
    LaterTests2(PROBE);
    LaterTests3(PROBE);
    ProbeLacks1();
    ProbeLacks2();
    ProbeLacks3();
    ProbeLacks4();
    assert PROBE[4..12] == VERIFIER;
    Occurs(PROBE, VERIFIER, 4);
  }

  lemma ProbeLacks1()
    ensures !Contains(PROBE, POLICY)
    ensures !Contains(PROBE, NO_MAP)
  {
    hide Contains;
    Lacks(PROBE, POLICY, 0);
    Lacks(PROBE, NO_MAP, 0);
  }

  lemma ProbeLacks2()
    ensures !Contains(PROBE, INVALID)
    ensures !Contains(PROBE, NO_PROGRAM)
  {
    hide Contains;
    Lacks(PROBE, INVALID, 0);
    Lacks(PROBE, NO_PROGRAM, 0);
  }

  lemma ProbeLacks3()
    ensures !Contains(PROBE, NOT_FOUND)
    ensures !Contains(PROBE, NO_FILE)
  {
    hide Contains;
    Lacks(PROBE, NOT_FOUND, 0);
    Lacks(PROBE, NO_FILE, 0);
  }

  lemma ProbeLacks4()
    ensures !Contains(PROBE, PERMISSION)
    ensures !Contains(PROBE, CAPABILITY)
  {
    hide Contains;
    Lacks(PROBE, PERMISSION, 0);
    Lacks(PROBE, CAPABILITY, 0);
  }
}
