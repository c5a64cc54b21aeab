/** The host end of the vsock channel (vsock_client.rs), connected to a guest agent. */
module HostLink {
  import opened Common
  import opened Framing
  import opened Protocol
  import opened GuestLoader
  import opened GuestAgent

  datatype VmError =
    | MessageTooLarge
    | Disconnected
    | StillWaiting
    | ResponseTooLarge
    | BadReply
    | GuestRefused(message: string)
    | Unexpected

  /** How the operating system treats one exchange. A broken write may still deliver a prefix of the frame. */
  datatype Io = Fine | BrokenWrite(delivered: nat) | BrokenRead

  /** Both ends of one connection: the guest, the bytes it has not consumed, the bytes the host has not. */
  datatype Link = Link(guest: Guest, toGuest: seq<byte>, toHost: seq<byte>, open: bool)

  /** Bytes arrive at the guest, which runs until it needs more. */
  function Deliver(c: Codec, l: Link, bytes: seq<byte>): Link {
    var p := Parse(l.toGuest + bytes);
    var (g, replies) := AnswerAll(c, l.guest, p.items);
    l.(guest := g, toGuest := if g.alive then p.rest else [], toHost := l.toHost + Frames(c, replies))
  }

  /** The reading half of send_command. */
  function ReadReply(c: Codec, b: seq<byte>): (Result<GuestResponse, VmError>, seq<byte>) {
    if |b| < 4 then (Err(StillWaiting), b)
    else
      var n := FromLe(b[..4]);
      if n > MAX_MESSAGE_SIZE then (Err(ResponseTooLarge), b[4..])
      else if |b| < 4 + n then (Err(StillWaiting), b)
      else
        var m := c.decResp(b[4..4 + n]);
        (if m.None? then Err(BadReply) else Ok(m.value), b[4 + n..])
  }

  function Delivered(frame: seq<byte>, io: Io): seq<byte> {
    if io.BrokenWrite? && io.delivered < |frame| then frame[..io.delivered] else frame
  }

  /** send_command, on a serialised command. StillWaiting stands for a read that never returns: the connection
      holds, the guest waits as well, and no more bytes come. Nothing but the end of the connection ends it. */
  function Exchange(c: Codec, l: Link, payload: seq<byte>, io: Io): (Link, Result<GuestResponse, VmError>) {
    if |payload| > MAX_MESSAGE_SIZE then (l, Err(MessageTooLarge))
    else if !l.open then (l, Err(Disconnected))
    else
      var l1 := Deliver(c, l, Delivered(ToLe(|payload|) + payload, io));
      if !io.Fine? then (l1.(open := false), Err(Disconnected))
      else
        var (r, rest) := ReadReply(c, l1.toHost);
        if r == Err(StillWaiting) then
          (l1.(open := false), Err(if l1.guest.alive then StillWaiting else Disconnected))
        else
          (l1.(toHost := rest), r)
  }

  /** What a run of exchanges on a healthy connection goes through. */
  function Trail(c: Codec, l: Link, payloads: seq<seq<byte>>): seq<(Link, Result<GuestResponse, VmError>)>
    decreases |payloads|
  {
    if payloads == [] then []
    else
      var step := Exchange(c, l, payloads[0], Fine);
      [step] + Trail(c, step.0, payloads[1..])
  }

  // ---- one exchange ----

  /** The guest has consumed everything the host wrote. */
  predicate Ready(l: Link) {
    l.open && l.guest.alive && l.toGuest == []
  }

  predicate Aligned(l: Link) {
    Ready(l) && l.toHost == []
  }

  predicate Sendable(c: Codec, payload: seq<byte>) {
    |payload| <= MAX_MESSAGE_SIZE && c.decCmd(payload) != Some(Shutdown)
  }

  lemma StaysAlive(c: Codec, g: Guest, payload: seq<byte>)
    requires g.alive && Sendable(c, payload)
    ensures Answer(c, g, Payload(payload)).0.alive
  {
  }

  /** A complete frame reaching a waiting guest is answered by exactly one reply. */
  lemma DeliverOne(c: Codec, l: Link, payload: seq<byte>)
    requires Ready(l) && Sendable(c, payload)
    ensures var (g, reply) := Answer(c, l.guest, Payload(payload));
      && g.alive
      && Deliver(c, l, ToLe(|payload|) + payload) == l.(guest := g, toHost := l.toHost + Frame(c, reply))
  {
    hide Answer, Frame, FromLe, ToLe;
    StaysAlive(c, l.guest, payload);
    var frame, item := ToLe(|payload|) + payload, Payload(payload);
    ParseCons(item, []);
    assert ItemBytes(item) + [] == frame == l.toGuest + frame;
    assert Parse([]) == Parsed([], []);
    assert [item] + [] == [item];
    assert AnswerAll(c, l.guest, []) == (l.guest, []);
    assert [] + [item] == [item];
    AnswerOneMore(c, l.guest, [], item);
    var reply := Answer(c, l.guest, item).1;
    assert [] + [reply] == [reply];
    FramesOneMore(c, [], reply);
    assert [] + Frame(c, reply) == Frame(c, reply);
  }

  /** An incomplete frame is kept by the guest, unanswered. */
  lemma DeliverPart(c: Codec, l: Link, payload: seq<byte>, k: nat)
    requires Ready(l) && |payload| <= MAX_MESSAGE_SIZE && k < 4 + |payload|
    ensures var l1 := Deliver(c, l, (ToLe(|payload|) + payload)[..k]);
      l1.guest == l.guest && l1.toHost == l.toHost
  {
    var frame := ToLe(|payload|) + payload;
    var part := frame[..k];
    assert l.toGuest + part == part;
    if k >= 4 {
      assert part[..4] == ToLe(|payload|);
      LeRoundTrip(|payload|, ToLe(|payload|));
    }
    assert Parse(part).items == [];
    assert l.toHost + [] == l.toHost;
  }

  lemma ReadWhole(c: Codec, m: GuestResponse, rest: seq<byte>)
    requires c.Valid() && |c.encResp(m)| <= MAX_MESSAGE_SIZE
    ensures ReadReply(c, Frame(c, m) + rest) == (Ok(m), rest)
  {
    var p := c.encResp(m);
    var b := Frame(c, m) + rest;
    LeRoundTrip(|p|, ToLe(|p|));
    assert b[..4] == ToLe(|p|);
    assert b[4..4 + |p|] == p;
    SplitConcat(Frame(c, m), rest);
  }

  /** Printable bytes where a length is expected: an over-limit length, four bytes consumed. */
  lemma ReadJunk(c: Codec, junk: seq<byte>, rest: seq<byte>)
    requires Printable(junk) && |junk| >= 4
    ensures ReadReply(c, junk + rest) == (Err(ResponseTooLarge), junk[4..] + rest)
  {
    var b := junk + rest;
    assert b[..4] == junk[..4] && b[4..] == junk[4..] + rest;
    var top: int := junk[3];
    assert FromLe(junk[..4]) >= 0x100_0000 * top;
  }

  /** A reply over the limit: the host gives up after its length and leaves the payload in the stream. */
  lemma ReadOversize(c: Codec, m: GuestResponse)
    requires MAX_MESSAGE_SIZE < |c.encResp(m)| < 0x1_0000_0000
    ensures ReadReply(c, Frame(c, m)) == (Err(ResponseTooLarge), c.encResp(m))
  {
    var n := |c.encResp(m)|;
    LeRoundTrip(n, ToLe(n));
    SplitConcat(ToLe(n), c.encResp(m));
  }

  /** A reply that does not fit, of any length: it is never delivered as such. */
  lemma ReadTooLong(c: Codec, m: GuestResponse)
    requires c.Valid() && |c.encResp(m)| > MAX_MESSAGE_SIZE
    ensures ReadReply(c, Frame(c, m)).0.Err?
  {
    var p := c.encResp(m);
    var n := |p| % 0x1_0000_0000;
    LeRoundTrip(n, ToLe(n));
    SplitConcat(ToLe(n), p);
    if n <= MAX_MESSAGE_SIZE {
      assert Frame(c, m)[4..4 + n] == p[..n];
      CutShort(c, m, n);
    }
  }

  /** One exchange on an aligned connection, with a reply that fits. */
  lemma ExchangeOne(c: Codec, l: Link, payload: seq<byte>)
    requires c.Valid() && Aligned(l) && Sendable(c, payload)
    requires |c.encResp(Answer(c, l.guest, Payload(payload)).1)| <= MAX_MESSAGE_SIZE
    ensures var (g, reply) := Answer(c, l.guest, Payload(payload));
      Exchange(c, l, payload, Fine) == (l.(guest := g), Ok(reply)) && Aligned(l.(guest := g))
  {
    var reply := Answer(c, l.guest, Payload(payload)).1;
    DeliverOne(c, l, payload);
    ReadWhole(c, reply, []);
    assert [] + Frame(c, reply) == Frame(c, reply) + [];
  }

  // ---- runs of exchanges ----

  function Payloads(ps: seq<seq<byte>>): seq<Item> {
    seq(|ps|, i requires 0 <= i < |ps| => Payload(ps[i]))
  }

  lemma PayloadsTail(ps: seq<seq<byte>>)
    requires ps != []
    ensures Payloads(ps)[0] == Payload(ps[0]) && Payloads(ps)[1..] == Payloads(ps[1..])
  {
  }

  predicate AllFit(c: Codec, replies: seq<GuestResponse>) {
    forall i :: 0 <= i < |replies| ==> |c.encResp(replies[i])| <= MAX_MESSAGE_SIZE
  }

  lemma FitSplit(c: Codec, m: GuestResponse, ms: seq<GuestResponse>)
    requires AllFit(c, [m] + ms)
    ensures |c.encResp(m)| <= MAX_MESSAGE_SIZE && AllFit(c, ms)
  {
    assert ([m] + ms)[0] == m;
    assert forall i :: 0 <= i < |ms| ==> ms[i] == ([m] + ms)[i + 1];
  }

  /** The exchange returned this reply and left both directions of the stream empty. */
  predicate Paired(step: (Link, Result<GuestResponse, VmError>), reply: GuestResponse) {
    Aligned(step.0) && step.1 == Ok(reply)
  }

  /** In every run of within-limit messages on an aligned connection, the k-th exchange returns the guest's
      answer to the k-th message, also when the guest cannot parse it, and both directions of the stream
      are empty after each exchange. */
  lemma {:induction false} Pairing(c: Codec, l: Link, payloads: seq<seq<byte>>)
    requires c.Valid() && Aligned(l)
    requires forall i :: 0 <= i < |payloads| ==> Sendable(c, payloads[i])
    requires AllFit(c, AnswerAll(c, l.guest, Payloads(payloads)).1)
    ensures var (g, replies) := AnswerAll(c, l.guest, Payloads(payloads));
      var trail := Trail(c, l, payloads);
      && |trail| == |payloads| == |replies|
      && (forall i :: 0 <= i < |trail| ==> Paired(trail[i], replies[i]))
      && (trail != [] ==> trail[|trail| - 1].0.guest == g)
    decreases |payloads|
  {
    hide Exchange, Answer, Deliver;
    if payloads != [] {
      PayloadsTail(payloads);
      var (g, reply) := Answer(c, l.guest, Payload(payloads[0]));
      var (g2, replies) := AnswerAll(c, g, Payloads(payloads[1..]));
      assert AnswerAll(c, l.guest, Payloads(payloads)) == (g2, [reply] + replies);
      FitSplit(c, reply, replies);
      ExchangeOne(c, l, payloads[0]);
      Pairing(c, l.(guest := g), payloads[1..]);
    }
  }

  /** One exchange with printable bytes in the way: they are taken for the length, and the guest has acted. */
  lemma JunkOne(c: Codec, l: Link, payload: seq<byte>, junk: seq<byte>, tail: seq<byte>)
    requires Ready(l) && l.toHost == junk + tail && Printable(junk) && |junk| >= 4 && Sendable(c, payload)
    ensures var (g, reply) := Answer(c, l.guest, Payload(payload));
      && g.alive
      && Exchange(c, l, payload, Fine)
        == (l.(guest := g, toHost := junk[4..] + (tail + Frame(c, reply))), Err(ResponseTooLarge))
  {
    hide Answer, Deliver, ReadReply, Frame, Printable;
    DeliverOne(c, l, payload);
    var reply := Answer(c, l.guest, Payload(payload)).1;
    ConcatAssoc(junk, tail, Frame(c, reply));
    ReadJunk(c, junk, tail + Frame(c, reply));
  }

  /** While printable bytes are left at the front of the stream, every exchange fails, and yet the guest
      carries out every one of the commands. */
  lemma {:induction false} JunkFailsAll(c: Codec, l: Link, payloads: seq<seq<byte>>, junk: seq<byte>, tail: seq<byte>)
    requires Ready(l) && l.toHost == junk + tail && Printable(junk) && 4 * |payloads| <= |junk|
    requires forall i :: 0 <= i < |payloads| ==> Sendable(c, payloads[i])
    ensures var trail := Trail(c, l, payloads);
      && |trail| == |payloads|
      && (forall i :: 0 <= i < |trail| ==> trail[i].1 == Err(ResponseTooLarge))
      && (trail != [] ==> trail[|trail| - 1].0.guest == AnswerAll(c, l.guest, Payloads(payloads)).0)
    decreases |payloads|
  {
    hide Answer, Exchange, Frame;
    if payloads != [] {
      PayloadsTail(payloads);
      JunkOne(c, l, payloads[0], junk, tail);
      var reply := Answer(c, l.guest, Payload(payloads[0])).1;
      JunkFailsAll(c, Exchange(c, l, payloads[0], Fine).0, payloads[1..], junk[4..], tail + Frame(c, reply));
    }
  }

  /** After an unread reply of N bytes the next N/4 exchanges fail too, although the guest executes them. */
  lemma OversizeReply(c: Codec, l: Link, first: seq<byte>, next: seq<seq<byte>>)
    requires c.Valid() && Aligned(l) && Sendable(c, first)
    requires forall i :: 0 <= i < |next| ==> Sendable(c, next[i])
    requires MAX_MESSAGE_SIZE < |c.encResp(Answer(c, l.guest, Payload(first)).1)| < 0x1_0000_0000
    requires |next| <= |c.encResp(Answer(c, l.guest, Payload(first)).1)| / 4
    ensures var trail := Trail(c, l, [first] + next);
      && |trail| == 1 + |next|
      && (forall i :: 0 <= i < |trail| ==> trail[i].1 == Err(ResponseTooLarge))
      && trail[|next|].0.guest == AnswerAll(c, l.guest, Payloads([first] + next)).0
  {
    hide Answer, Deliver, ReadReply;
    var (g, reply) := Answer(c, l.guest, Payload(first));
    DeliverOne(c, l, first);
    ReadOversize(c, reply);
    assert [] + Frame(c, reply) == Frame(c, reply);
    var l1 := Exchange(c, l, first, Fine).0;
    assert c.encResp(reply) + [] == c.encResp(reply);
    JunkFailsAll(c, l1, next, c.encResp(reply), []);
    assert ([first] + next)[1..] == next;
    PayloadsTail([first] + next);
    assert Trail(c, l, [first] + next) == [Exchange(c, l, first, Fine)] + Trail(c, l1, next);
    if next == [] {
      assert AnswerAll(c, g, Payloads(next)).0 == g;
    }
  }

  /** The connection after a run of exchanges. */
  function After(c: Codec, l: Link, payloads: seq<seq<byte>>): Link
    decreases |payloads|
  {
    if payloads == [] then l else After(c, Exchange(c, l, payloads[0], Fine).0, payloads[1..])
  }

  lemma {:induction false} TrailConcat(c: Codec, l: Link, a: seq<seq<byte>>, b: seq<seq<byte>>)
    ensures Trail(c, l, a + b) == Trail(c, l, a) + Trail(c, After(c, l, a), b)
    decreases |a|
  {
    hide Exchange;
    if a == [] {
      assert a + b == b;
      assert [] + Trail(c, l, b) == Trail(c, l, b);
    } else {
      assert (a + b)[1..] == a[1..] + b;
      var step := Exchange(c, l, a[0], Fine);
      TrailConcat(c, step.0, a[1..], b);
      ConcatAssoc([step], Trail(c, step.0, a[1..]), Trail(c, After(c, l, a), b));
    }
  }

  /** What a run of exchanges over printable bytes leaves unread. */
  lemma {:induction false} AfterJunk(c: Codec, l: Link, payloads: seq<seq<byte>>, junk: seq<byte>, tail: seq<byte>)
    requires Ready(l) && l.toHost == junk + tail && Printable(junk) && 4 * |payloads| <= |junk|
    requires forall i :: 0 <= i < |payloads| ==> Sendable(c, payloads[i])
    ensures var (g, replies) := AnswerAll(c, l.guest, Payloads(payloads));
      && g.alive && |replies| == |payloads|
      && After(c, l, payloads) == l.(guest := g, toHost := junk[4 * |payloads|..] + (tail + Frames(c, replies)))
    decreases |payloads|
  {
    hide Answer, Exchange, Frame;
    if payloads == [] {
      assert tail + Frames(c, []) == tail;
    } else {
      PayloadsTail(payloads);
      JunkOne(c, l, payloads[0], junk, tail);
      var (g, reply) := Answer(c, l.guest, Payload(payloads[0]));
      var replies := AnswerAll(c, g, Payloads(payloads[1..])).1;
      var tail1 := tail + Frame(c, reply);
      AfterJunk(c, l.(guest := g, toHost := junk[4..] + tail1), payloads[1..], junk[4..], tail1);
      ConcatAssoc(tail, Frame(c, reply), Frames(c, replies));
      assert ([reply] + replies)[1..] == replies;
      assert junk[4..][4 * |payloads[1..]|..] == junk[4 * |payloads|..];
    }
  }

  /** With whole replies waiting to be read, an exchange returns the oldest of them. */
  lemma LateOne(c: Codec, l: Link, payload: seq<byte>, queue: seq<GuestResponse>)
    requires c.Valid() && Ready(l) && l.toHost == Frames(c, queue) && Sendable(c, payload)
    requires AllFit(c, queue) && |c.encResp(Answer(c, l.guest, Payload(payload)).1)| <= MAX_MESSAGE_SIZE
    ensures var (g, reply) := Answer(c, l.guest, Payload(payload));
      var all := queue + [reply];
      && g.alive && AllFit(c, all[1..])
      && Exchange(c, l, payload, Fine) == (l.(guest := g, toHost := Frames(c, all[1..])), Ok(all[0]))
  {
    hide Answer, Deliver, ReadReply, Frame, Codec.Valid;
    DeliverOne(c, l, payload);
    var reply := Answer(c, l.guest, Payload(payload)).1;
    FramesOneMore(c, queue, reply);
    var all := queue + [reply];
    assert forall i :: 0 <= i < |all| ==> all[i] == if i < |queue| then queue[i] else reply;
    ReadWhole(c, all[0], Frames(c, all[1..]));
  }

  /** ... and so does every exchange of a run, instead of its own. */
  lemma {:induction false} LateReplies(c: Codec, l: Link, payloads: seq<seq<byte>>, queue: seq<GuestResponse>)
    requires c.Valid() && Ready(l) && l.toHost == Frames(c, queue)
    requires forall i :: 0 <= i < |payloads| ==> Sendable(c, payloads[i])
    requires AllFit(c, queue) && AllFit(c, AnswerAll(c, l.guest, Payloads(payloads)).1)
    ensures var (trail, replies) := (Trail(c, l, payloads), AnswerAll(c, l.guest, Payloads(payloads)).1);
      && |trail| == |payloads| == |replies|
      && forall i :: 0 <= i < |trail| ==> trail[i].1 == Ok((queue + replies)[i])
    decreases |payloads|
  {
    hide Answer, Exchange, Frames, Codec.Valid, AllFit;
    if payloads != [] {
      PayloadsTail(payloads);
      var (g, reply) := Answer(c, l.guest, Payload(payloads[0]));
      var replies := AnswerAll(c, g, Payloads(payloads[1..])).1;
      FitSplit(c, reply, replies);
      LateOne(c, l, payloads[0], queue);
      var all := queue + [reply];
      LateReplies(c, l.(guest := g, toHost := Frames(c, all[1..])), payloads[1..], all[1..]);
      assert queue + ([reply] + replies) == [all[0]] + (all[1..] + replies);
    }
  }

  /** An unread reply of N bytes, 4 dividing N, never heals: when its bytes are used up after N/4 failing
      exchanges, the replies to those are still waiting, and from then on every exchange returns the reply to
      the message sent N/4 exchanges before its own. */
  lemma LateForever(c: Codec, l: Link, first: seq<byte>, next: seq<seq<byte>>, later: seq<seq<byte>>)
    requires c.Valid() && Aligned(l) && Sendable(c, first)
    requires forall i :: 0 <= i < |next| ==> Sendable(c, next[i])
    requires forall i :: 0 <= i < |later| ==> Sendable(c, later[i])
    requires MAX_MESSAGE_SIZE < |c.encResp(Answer(c, l.guest, Payload(first)).1)| < 0x1_0000_0000
    requires |c.encResp(Answer(c, l.guest, Payload(first)).1)| == 4 * |next|
    requires AllFit(c, AnswerAll(c, Answer(c, l.guest, Payload(first)).0, Payloads(next + later)).1)
    ensures var trail := Trail(c, l, [first] + next + later);
      var replies := AnswerAll(c, Answer(c, l.guest, Payload(first)).0, Payloads(next + later)).1;
      && |trail| == 1 + |next| + |later| && |replies| == |next| + |later|
      && forall i :: 0 <= i < |later| ==> trail[1 + |next| + i].1 == Ok(replies[i])
  {
    hide Answer, Deliver, ReadReply, Frame, Frames, AnswerAll, Codec.Valid, Exchange, Printable;
    var (g, reply) := Answer(c, l.guest, Payload(first));
    OversizeUnread(c, l, first);
    var l1 := Exchange(c, l, first, Fine).0;
    AfterJunk(c, l1, next, c.encResp(reply), []);
    var (g1, early) := AnswerAll(c, g, Payloads(next));
    PayloadsConcat(next, later);
    AnswerAllConcat(c, g, Payloads(next), Payloads(later));
    var late := AnswerAll(c, g1, Payloads(later)).1;
    FitParts(c, early, late);
    assert [] + ([] + Frames(c, early)) == Frames(c, early);
    LateReplies(c, After(c, l1, next), later, early);
    assert [first] + next + later == [first] + (next + later);
    assert ([first] + (next + later))[1..] == next + later;
    TrailConcat(c, l1, next, later);
    TrailLength(c, l1, next);
  }

  lemma OversizeUnread(c: Codec, l: Link, payload: seq<byte>)
    requires c.Valid() && Aligned(l) && Sendable(c, payload)
    requires MAX_MESSAGE_SIZE < |c.encResp(Answer(c, l.guest, Payload(payload)).1)| < 0x1_0000_0000
    ensures var (g, reply) := Answer(c, l.guest, Payload(payload));
      && g.alive && Printable(c.encResp(reply))
      && Exchange(c, l, payload, Fine) == (l.(guest := g, toHost := c.encResp(reply) + []), Err(ResponseTooLarge))
  {
    hide Deliver, ReadReply, Answer, Frame;
    DeliverOne(c, l, payload);
    var reply := Answer(c, l.guest, Payload(payload)).1;
    ReadOversize(c, reply);
    assert [] + Frame(c, reply) == Frame(c, reply);
    assert c.encResp(reply) + [] == c.encResp(reply);
  }

  lemma PayloadsConcat(a: seq<seq<byte>>, b: seq<seq<byte>>)
    ensures Payloads(a + b) == Payloads(a) + Payloads(b)
  {
  }

  lemma FitParts(c: Codec, a: seq<GuestResponse>, b: seq<GuestResponse>)
    requires AllFit(c, a + b)
    ensures AllFit(c, a) && AllFit(c, b)
  {
    assert forall i :: 0 <= i < |a| ==> a[i] == (a + b)[i];
    assert forall i :: 0 <= i < |b| ==> b[i] == (a + b)[|a| + i];
  }

  lemma {:induction false} TrailLength(c: Codec, l: Link, payloads: seq<seq<byte>>)
    ensures |Trail(c, l, payloads)| == |payloads|
    decreases |payloads|
  {
    if payloads != [] {
      TrailLength(c, Exchange(c, l, payloads[0], Fine).0, payloads[1..]);
    }
  }

  // ---- replies cannot be misread ----

  /** Wherever in the bytes of the replies sent the host's reader has ended up, inside a length or a payload
      included, it returns a reply only by reading the frame of a reply that was sent, from its first byte to
      its last. Nothing is ever made up from misaligned bytes. */
  lemma {:induction false} OnlyGenuineReplies(c: Codec, sent: seq<GuestResponse>, at: nat) returns (i: nat)
    requires c.ValidResponses() && at <= |Frames(c, sent)| && ReadReply(c, Frames(c, sent)[at..]).0.Ok?
    ensures i < |sent| && Frames(c, sent)[at..] == Frames(c, sent[i..])
    ensures ReadReply(c, Frames(c, sent)[at..]) == (Ok(sent[i]), Frames(c, sent[i + 1..]))
    decreases |sent|
  {
    hide ReadReply, Frame, Codec.ValidResponses, Printable;
    if sent == [] {
      NothingToRead(c);
      assert false;
    } else if at < |Frame(c, sent[0])| {
      var f, tail := Frame(c, sent[0]), Frames(c, sent[1..]);
      if at > 0 {
        NothingInside(c, sent[0], sent[1..], at);
        assert false;
      } else {
        i := 0;
        assert (f + tail)[0..] == f + tail;
        assert sent[0..] == sent;
        WholeOrNothing(c, sent[0], tail);
      }
    } else {
      var f, tail := Frame(c, sent[0]), Frames(c, sent[1..]);
      assert (f + tail)[at..] == tail[at - |f|..];
      i := OnlyGenuineReplies(c, sent[1..], at - |f|);
      i := i + 1;
      assert sent[1..][i - 1..] == sent[i..] && sent[1..][i..] == sent[i + 1..];
    }
  }

  /** A read that goes on waiting has consumed nothing that counts. */
  lemma WaitingReadsNone(c: Codec, b: seq<byte>)
    requires ReadReply(c, b).0 == Err(StillWaiting)
    ensures ReadReply(c, b).1 == b
  {
  }

  lemma NothingToRead(c: Codec)
    ensures ReadReply(c, Frames(c, [])).0.Err?
  {
  }

  /** At the beginning of a frame the reader gets this frame's reply or none. */
  lemma WholeOrNothing(c: Codec, m: GuestResponse, tail: seq<byte>)
    requires c.ValidResponses() && ReadReply(c, Frame(c, m) + tail).0.Ok?
    ensures ReadReply(c, Frame(c, m) + tail) == (Ok(m), tail)
  {
    hide Codec.ValidResponses, Printable;
    var p := c.encResp(m);
    var b, n := Frame(c, m) + tail, |p| % 0x1_0000_0000;
    LeRoundTrip(n, ToLe(n));
    assert b[..4] == ToLe(n);
    assert b[4..] == p + tail;
    if n == |p| {
      assert b[4..4 + n] == p;
      SplitConcat(Frame(c, m), tail);
      RoundTrip(c, m);
    } else if n <= MAX_MESSAGE_SIZE {
      assert b[4..4 + n] == p[..n];
      CutShort(c, m, n);
    }
  }

  lemma RoundTrip(c: Codec, m: GuestResponse)
    requires c.ValidResponses()
    ensures c.decResp(c.encResp(m)) == Some(m) && Printable(c.encResp(m)) && |c.encResp(m)| >= 4
  {
  }

  /** Behind the first byte of a frame: either printable bytes are taken for the top of a length, which is too
      large then, or the length straddles two frames, and what is read as a payload begins with the end of the
      second frame's length. */
  lemma NothingInside(c: Codec, m: GuestResponse, next: seq<GuestResponse>, at: nat)
    requires c.ValidResponses() && 0 < at < |Frame(c, m)|
    ensures ReadReply(c, (Frame(c, m) + Frames(c, next))[at..]).0.Err?
  {
    hide Codec.ValidResponses;
    RoundTrip(c, m);
    var p, f := c.encResp(m), Frame(c, m);
    var b := (f + Frames(c, next))[at..];
    if |b| >= 4 {
      var b0: int, b3: int := b[0], b[3];
      assert FromLe(b[..4]) >= b0 && FromLe(b[..4]) >= 0x100_0000 * b3;
      if at + 3 < |f| {
        assert b[3] == f[at + 3] == p[at - 1];
      } else if next != [] {
        var j := |f| - at;
        assert b[0] == f[at] == p[at - 4];
        assert b == p[|p| - j..] + Frames(c, next);
        Straddling(c, p[|p| - j..], next);
      }
    }
  }

  /** The payload behind a length that takes |end| bytes of one frame and the others from the next. */
  lemma StraddledPayload(end: seq<byte>, le: seq<byte>, q: seq<byte>, tail: seq<byte>, n: nat)
    requires 1 <= |end| <= 3 && |le| == 4 && |end| <= n && n <= |end| + |q| + |tail|
    ensures var b := end + (le + q + tail);
      && b[4..4 + n] == le[4 - |end|..] + (q + tail)[..n - |end|]
      && (n - |end| <= |q| ==> (q + tail)[..n - |end|] == q[..n - |end|])
  {
    var b, w, rest := end + (le + q + tail), le[4 - |end|..], q + tail;
    assert b[4..] == w + rest;
    assert b[4..4 + n] == (w + rest)[..n];
  }

  lemma Straddling(c: Codec, end: seq<byte>, next: seq<GuestResponse>)
    requires c.ValidResponses() && next != [] && 1 <= |end| <= 3 && end[0] >= 0x20
    ensures ReadReply(c, end + Frames(c, next)).0.Err?
  {
    hide Codec.ValidResponses, Printable, FromLe, ToLe;
    var j, q, tail := |end|, c.encResp(next[0]), Frames(c, next[1..]);
    var b, le := end + Frames(c, next), ToLe(|q| % 0x1_0000_0000);
    assert b == end + (le + q + tail);
    var n := FromLe(b[..4]);
    LowByte(b[..4]);
    if n <= MAX_MESSAGE_SIZE && |b| >= 4 + n {
      StraddledPayload(end, le, q, tail, n);
      if |q| < 0x100_0000 {
        TopByte(|q|);
        assert le[4 - j..][j - 1] == 0;
        assert b[4..4 + n][j - 1] == 0;
        NoZeroRead(c, b[4..4 + n]);
      } else {
        CutWithBytes(c, next[0], le[4 - j..], n - j);
      }
    }
  }

  lemma LowByte(b: seq<byte>)
    requires |b| == 4
    ensures FromLe(b) >= b[0]
  {
    var b0: int := b[0];
    assert FromLe(b) >= b0;
  }

  lemma TopByte(n: u32)
    requires n < 0x100_0000
    ensures ToLe(n)[3] == 0
  {
  }

  lemma NoZeroRead(c: Codec, b: seq<byte>)
    requires c.ValidResponses() && 0 in b
    ensures c.decResp(b).None?
  {
  }

  lemma CutWithBytes(c: Codec, m: GuestResponse, w: seq<byte>, k: nat)
    requires c.ValidResponses() && |w| <= 3 && k < |c.encResp(m)|
    ensures c.decResp(w + c.encResp(m)[..k]).None?
  {
  }

  /** A reply that was not among those before it is read off its own frame, and nothing is left unread then. */
  lemma NewReplyIsGenuine(c: Codec, sent: seq<GuestResponse>, last: GuestResponse, at: nat)
    requires c.ValidResponses() && last !in sent && at <= |Frames(c, sent + [last])|
    requires ReadReply(c, Frames(c, sent + [last])[at..]).0 == Ok(last)
    ensures ReadReply(c, Frames(c, sent + [last])[at..]).1 == []
  {
    hide ReadReply, Frame, Codec.ValidResponses;
    var all := sent + [last];
    var i := OnlyGenuineReplies(c, all, at);
    assert all[i + 1..] == [];
  }

  // ---- the object ----

  class GuestClient {
    const codec: Codec
    const conn: Connection
    var open: bool

    function Abs(): Link
      reads this, conn, conn.handler, conn.handler.loader
    {
      Link(conn.handler.Abs(), if conn.handler.exited then [] else conn.inbox, conn.outbox, open)
    }

    constructor (conn: Connection)
      ensures this.conn == conn && codec == conn.codec && open
    {
      this.conn, this.codec, open := conn, conn.codec, true;
    }

    /** write_all and flush, and the guest's turn. */
    method Write(bytes: seq<byte>)
      requires conn.codec == codec
      modifies conn, conn.handler, conn.handler.loader
      ensures Abs() == Deliver(codec, old(Abs()), bytes)
    {
      conn.inbox := if conn.handler.exited then [] else conn.inbox + bytes;
      if conn.handler.exited {
        AnswerStops(codec, conn.handler.Abs(), [], Parse(bytes).items);
        assert conn.outbox + [] == conn.outbox;
      } else {
        conn.HandleConnection();
      }
    }

    method SendCommand(cmd: GuestCommand, io: Io) returns (r: Result<GuestResponse, VmError>)
      requires conn.codec == codec
      modifies this, conn, conn.handler, conn.handler.loader
      ensures (Abs(), r) == Exchange(codec, old(Abs()), codec.encCmd(cmd), io)
    {
      hide Deliver, Frames, AnswerAll;
      var payload := codec.encCmd(cmd);
      if |payload| > MAX_MESSAGE_SIZE {
        return Err(MessageTooLarge);
      }
      if !open {
        return Err(Disconnected);
      }
      Write(Delivered(ToLe(|payload|) + payload, io));
      if !io.Fine? {
        open := false;
        return Err(Disconnected);
      }
      if |conn.outbox| < 4 {
        open := false;
        return Err(if conn.handler.exited then Disconnected else StillWaiting);
      }
      var len := FromLe(conn.outbox[..4]);
      if len > MAX_MESSAGE_SIZE {
        conn.outbox := conn.outbox[4..];
        return Err(ResponseTooLarge);
      }
      if |conn.outbox| < 4 + len {
        open := false;
        return Err(if conn.handler.exited then Disconnected else StillWaiting);
      }
      var reply := codec.decResp(conn.outbox[4..4 + len]);
      conn.outbox := conn.outbox[4 + len..];
      r := if reply.None? then Err(BadReply) else Ok(reply.value);
    }
  }
}
