/** The wire format of the vsock channel: a 4-byte little-endian length, then that many payload bytes.
    Used by both ends (vsock_client.rs, agent main.rs). */
module Framing {
  import opened Common

  type byte = n: nat | n < 256

  /** MAX_MESSAGE_SIZE, 16 MiB. */
  const MAX_MESSAGE_SIZE: nat := 16 * 1024 * 1024

  function ToLe(n: u32): (b: seq<byte>)
    ensures |b| == 4
  {
    [n % 256, n / 0x100 % 256, n / 0x1_0000 % 256, n / 0x100_0000]
  }

  function FromLe(b: seq<byte>): u32
    requires |b| == 4
  {
    var b0: int, b1: int, b2: int, b3: int := b[0], b[1], b[2], b[3];
    b0 + 0x100 * b1 + 0x1_0000 * b2 + 0x100_0000 * b3
  }

  /** The length prefix is a bijection between u32 and four bytes. */
  lemma LeRoundTrip(n: u32, b: seq<byte>)
    requires |b| == 4
    ensures FromLe(ToLe(n)) == n
    ensures ToLe(FromLe(b)) == b
  {
    var q: int := n / 0x100;
    assert n == n % 256 + 0x100 * q;
    assert n / 0x1_0000 == q / 0x100 && n / 0x100_0000 == q / 0x1_0000;
    assert q / 0x1_0000 == q / 0x100 / 0x100;
    var b0: int, b1: int, b2: int, b3: int := b[0], b[1], b[2], b[3];
    var m: int, m1: int := FromLe(b), b1 + 0x100 * b2 + 0x1_0000 * b3;
    assert m == b0 + 0x100 * m1 && m / 0x100 == m1;
    assert m / 0x1_0000 == m1 / 0x100 == b2 + 0x100 * b3;
    assert m / 0x100_0000 == m1 / 0x1_0000 == b3;
  }

  /** What a reader makes of the stream: a payload within the limit, or a length over it whose payload
      it does not read. */
  datatype Item = Payload(bytes: seq<byte>) | Oversize(length: u32)

  datatype Parsed = Parsed(items: seq<Item>, rest: seq<byte>)

  /** Reads frames until the stream holds no complete one. An over-limit length consumes four bytes only. */
  function Parse(stream: seq<byte>): Parsed
  {
    if |stream| < 4 then
      Parsed([], stream)
    else
      var n := FromLe(stream[..4]);
      if n > MAX_MESSAGE_SIZE then
        var p := Parse(stream[4..]);
        Parsed([Oversize(n)] + p.items, p.rest)
      else if |stream| < 4 + n then
        Parsed([], stream)
      else
        var p := Parse(stream[4 + n..]);
        Parsed([Payload(stream[4..4 + n])] + p.items, p.rest)
  }

  predicate ValidItem(item: Item) {
    match item
    case Payload(p) => |p| <= MAX_MESSAGE_SIZE
    case Oversize(n) => n > MAX_MESSAGE_SIZE
  }

  /** The reader is waiting for more bytes before it can report anything. */
  predicate Incomplete(rest: seq<byte>) {
    |rest| < 4 || (FromLe(rest[..4]) <= MAX_MESSAGE_SIZE && |rest| < 4 + FromLe(rest[..4]))
  }

  predicate ValidItems(items: seq<Item>) {
    forall i :: 0 <= i < |items| ==> ValidItem(items[i])
  }

  function ItemBytes(item: Item): seq<byte>
    requires ValidItem(item)
  {
    match item
    case Payload(p) => ToLe(|p|) + p
    case Oversize(n) => ToLe(n)
  }

  function Unparse(items: seq<Item>): seq<byte>
    requires ValidItems(items)
  {
    if items == [] then [] else ItemBytes(items[0]) + Unparse(items[1..])
  }

  lemma ConcatAssoc<T>(a: seq<T>, b: seq<T>, c: seq<T>)
    ensures (a + b) + c == a + (b + c)
  {
  }

  lemma SplitAt<T>(s: seq<T>, k: nat)
    requires k <= |s|
    ensures s == s[..k] + s[k..]
  {
  }

  lemma SplitConcat<T>(a: seq<T>, b: seq<T>)
    ensures (a + b)[|a|..] == b && (a + b)[..|a|] == a
  {
  }

  lemma ValidCons(item: Item, items: seq<Item>)
    requires ValidItem(item) && ValidItems(items)
    ensures ValidItems([item] + items)
  {
  }

  /** The first item of a stream that holds one, and what is left behind it. */
  lemma ParseHead(stream: seq<byte>) returns (skip: nat)
    ensures !Incomplete(stream) ==>
      && 4 <= skip <= |stream|
      && Parse(stream).items != []
      && Parse(stream).items[1..] == Parse(stream[skip..]).items
      && Parse(stream).rest == Parse(stream[skip..]).rest
      && ValidItem(Parse(stream).items[0])
      && ItemBytes(Parse(stream).items[0]) == stream[..skip]
    ensures Incomplete(stream) ==> Parse(stream) == Parsed([], stream)
  {
    skip := 4;
    if !Incomplete(stream) {
      var n := FromLe(stream[..4]);
      LeRoundTrip(n, stream[..4]);
      if n <= MAX_MESSAGE_SIZE {
        skip := 4 + n;
        assert stream[..skip] == stream[..4] + stream[4..skip];
      }
    }
  }

  /** Parsing loses nothing: every byte stream is its items followed by an incomplete tail. */
  lemma {:induction false} ParseLossless(stream: seq<byte>)
    ensures ValidItems(Parse(stream).items)
    ensures Incomplete(Parse(stream).rest)
    ensures Unparse(Parse(stream).items) + Parse(stream).rest == stream
    decreases |stream|
  {
    var skip := ParseHead(stream);
    if !Incomplete(stream) {
      ParseLossless(stream[skip..]);
      var items, tail := Parse(stream).items, Parse(stream[skip..]);
      ValidCons(items[0], tail.items);
      assert items == [items[0]] + tail.items;
      assert Unparse(items) == stream[..skip] + Unparse(tail.items);
      ConcatAssoc(stream[..skip], Unparse(tail.items), tail.rest);
      SplitAt(stream, skip);
    }
  }

  /** One item put before a stream is read first. */
  lemma ParseCons(item: Item, stream: seq<byte>)
    requires ValidItem(item)
    ensures Parse(ItemBytes(item) + stream) == Parsed([item] + Parse(stream).items, Parse(stream).rest)
  {
    var head := ItemBytes(item);
    var all := head + stream;
    SplitConcat(head, stream);
    var n := if item.Payload? then |item.bytes| else item.length;
    LeRoundTrip(n, ToLe(n));
    assert all[..4] == head[..4] == ToLe(n);
    if item.Payload? {
      assert all[4..4 + n] == head[4..] == item.bytes;
    }
  }

  /** ... and those items are the only ones: serialising items and parsing them gives them back. */
  lemma {:induction false} ParseUnparse(items: seq<Item>, rest: seq<byte>)
    requires ValidItems(items)
    requires Incomplete(rest)
    ensures Parse(Unparse(items) + rest) == Parsed(items, rest)
  {
    hide ItemBytes, FromLe;
    if items == [] {
      assert Unparse(items) + rest == rest;
    } else {
      var head := ItemBytes(items[0]);
      ConcatAssoc(head, Unparse(items[1..]), rest);
      ParseUnparse(items[1..], rest);
      ParseCons(items[0], Unparse(items[1..]) + rest);
    }
  }

  /** The limit is 16,777,216 bytes: a message of that length is read, and of the next greater length only the prefix. */
  lemma LimitExact(p: seq<byte>, n: u32)
    ensures |p| <= 16_777_216 ==> Parse(ToLe(|p|) + p) == Parsed([Payload(p)], [])
    ensures n > 16_777_216 ==> Parse(ToLe(n) + p) == Parsed([Oversize(n)] + Parse(p).items, Parse(p).rest)
  {
    if |p| <= 16_777_216 {
      ParseCons(Payload(p), []);
      assert ItemBytes(Payload(p)) + [] == ToLe(|p|) + p;
      assert [Payload(p)] + [] == [Payload(p)];
    }
    if n > 16_777_216 {
      ParseCons(Oversize(n), p);
    }
  }

  /** The low byte comes first. */
  lemma LowByteFirst(n: u32)
    ensures ToLe(n)[0] == n % 256 && (n >= 256 ==> ToLe(n)[1..] == ToLe(n / 256)[..3])
  {
    assert n / 0x100 / 0x100 == n / 0x1_0000 && n / 0x100 / 0x1_0000 == n / 0x100_0000;
    assert n / 0x100_0000 % 256 == n / 0x100_0000;
  }

  lemma UnparseConcat(a: seq<Item>, b: seq<Item>)
    requires ValidItems(a) && ValidItems(b)
    ensures ValidItems(a + b) && Unparse(a + b) == Unparse(a) + Unparse(b)
  {
    if a == [] {
      assert a + b == b;
    } else {
      assert (a + b)[1..] == a[1..] + b;
      UnparseConcat(a[1..], b);
      ConcatAssoc(ItemBytes(a[0]), Unparse(a[1..]), Unparse(b));
    }
  }

  /** A reader that carries its unfinished tail over sees the same items as one that had all bytes at once. */
  lemma ParseAppend(a: seq<byte>, b: seq<byte>)
    ensures var p, q := Parse(a), Parse(Parse(a).rest + b);
      Parse(a + b) == Parsed(p.items + q.items, q.rest)
  {
    ParseLossless(a);
    var p := Parse(a);
    ParseLossless(p.rest + b);
    var q := Parse(p.rest + b);
    UnparseConcat(p.items, q.items);
    ConcatAssoc(Unparse(p.items), Unparse(q.items), q.rest);
    ConcatAssoc(Unparse(p.items), p.rest, b);
    ParseUnparse(p.items + q.items, q.rest);
  }

  function Flatten(chunks: seq<seq<byte>>): seq<byte> {
    if chunks == [] then [] else chunks[0] + Flatten(chunks[1..])
  }

  /** A reader that is handed the stream chunk by chunk, starting from an unfinished tail. */
  function Feed(carry: seq<byte>, chunks: seq<seq<byte>>): Parsed
    decreases |chunks|
  {
    if chunks == [] then
      Parsed([], carry)
    else
      var p := Parse(carry + chunks[0]);
      var q := Feed(p.rest, chunks[1..]);
      Parsed(p.items + q.items, q.rest)
  }

  lemma {:induction false} FeedIsParse(carry: seq<byte>, chunks: seq<seq<byte>>)
    requires Incomplete(carry)
    ensures Feed(carry, chunks) == Parse(carry + Flatten(chunks))
    decreases |chunks|
  {
    if chunks == [] {
      assert carry + Flatten(chunks) == Unparse([]) + carry;
      ParseUnparse([], carry);
    } else {
      var p := Parse(carry + chunks[0]);
      ParseLossless(carry + chunks[0]);
      FeedIsParse(p.rest, chunks[1..]);
      ParseAppend(carry + chunks[0], Flatten(chunks[1..]));
      ConcatAssoc(carry, chunks[0], Flatten(chunks[1..]));
    }
  }

  /** Decoding concatenated frames yields exactly their payloads, however the bytes are chunked. */
  lemma FramingRoundTrip(items: seq<Item>, chunks: seq<seq<byte>>)
    requires ValidItems(items)
    requires Flatten(chunks) == Unparse(items)
    ensures Feed([], chunks) == Parsed(items, [])
  {
    FeedIsParse([], chunks);
    assert [] + Flatten(chunks) == Unparse(items) + [];
    ParseUnparse(items, []);
  }

  /** No byte below 0x20: what compact JSON looks like (control characters are escaped, section 7 of RFC 8259). */
  ghost predicate Printable(b: seq<byte>) {
    forall i :: 0 <= i < |b| ==> b[i] >= 0x20
  }

  /** Printable bytes taken for lengths are always over the limit, so N of them yield N/4 oversize items
      and leave the last N mod 4 bytes as an unfinished tail. */
  lemma {:induction false} PrintableNeverParses(p: seq<byte>)
    requires Printable(p)
    ensures var r := Parse(p);
      && |r.items| == |p| / 4
      && (forall i :: 0 <= i < |r.items| ==> r.items[i].Oversize?)
      && r.rest == p[|p| - |p| % 4..]
  {
    if |p| >= 4 {
      var t := p[4..];
      PrintableNeverParses(t);
      var top: int := p[3];
      assert FromLe(p[..4]) >= 0x100_0000 * top > MAX_MESSAGE_SIZE;
      assert |t| / 4 == |p| / 4 - 1 && |t| % 4 == |p| % 4;
      assert p[|p| - |p| % 4..] == t[|t| - |t| % 4..];
    }
  }
}
