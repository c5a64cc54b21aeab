/** Reading and writing BPF maps as text (crates/ebpf-assistd/src/loader.rs:333-520). */
module MapText {
  import opened Common
  import opened Numbers

  const DUMP_LIMIT: nat := 100

  const HEX_PREFIX := "0x"

  function Min(a: nat, b: nat): nat {
    if a < b then a else b
  }

  // ---- hash maps, u32 to u64 ----

  function HashEntry(p: (u32, u64)): MapEntry {
    MapEntry(Hex(p.0, 8), Hex(p.1, 16), p.1)
  }

  /** The entries that the kernel's iteration delivers; a None item is a read that failed. */
  function Delivered(items: seq<Option<(u32, u64)>>): seq<(u32, u64)> {
    if items == [] then []
    else (if items[0].Some? then [items[0].value] else []) + Delivered(items[1..])
  }

  function Entries(ps: seq<(u32, u64)>): seq<MapEntry> {
    if ps == [] then [] else [HashEntry(ps[0])] + Entries(ps[1..])
  }

  function HashDump(items: seq<Option<(u32, u64)>>): seq<MapEntry> {
    var ps := Delivered(items);
    Entries(ps[..Min(|ps|, DUMP_LIMIT)])
  }

  function Contents(ps: seq<(u32, u64)>): map<u32, u64> {
    if ps == [] then map[] else Contents(ps[..|ps| - 1])[ps[|ps| - 1].0 := ps[|ps| - 1].1]
  }

  predicate DistinctKeys(ps: seq<(u32, u64)>) {
    forall i, j :: 0 <= i < j < |ps| ==> ps[i].0 != ps[j].0
  }

  /** write_map on a hash map; the kernel refuses a new key when the map is full. */
  function WriteHash(m: map<u32, u64>, capacity: nat, key: string, value: string): Option<map<u32, u64>> {
    var k, v := ParseKey(key), ParseValue(value);
    if k.None? || v.None? then None
    else if k.value >= U32 || v.value >= U64 then None
    else if k.value !in m && |m| >= capacity then None
    else Some(m[k.value := v.value])
  }

  /** Writing the entries one after the other, with the prefix put before key and value. */
  function ReplayHash(m: map<u32, u64>, capacity: nat, es: seq<MapEntry>): Option<map<u32, u64>> {
    if es == [] then Some(m)
    else
      match ReplayHash(m, capacity, es[..|es| - 1])
      case None => None
      case Some(m1) => WriteHash(m1, capacity, HEX_PREFIX + es[|es| - 1].key, HEX_PREFIX + es[|es| - 1].value)
  }

  lemma {:induction false} EntriesSnoc(ps: seq<(u32, u64)>, p: (u32, u64))
    ensures Entries(ps + [p]) == Entries(ps) + [HashEntry(p)]
  {
    if ps == [] {
      assert ps + [p] == [p];
      assert [p][1..] == [];
    } else {
      assert (ps + [p])[1..] == ps[1..] + [p];
      EntriesSnoc(ps[1..], p);
    }
  }

  lemma {:induction false} InContents(ps: seq<(u32, u64)>, k: u32)
    ensures k in Contents(ps) <==> exists i :: 0 <= i < |ps| && ps[i].0 == k
  {
    if ps != [] {
      var n := |ps| - 1;
      InContents(ps[..n], k);
      if i :| 0 <= i < n && ps[i].0 == k {
        assert ps[..n][i].0 == k;
      }
    }
  }

  lemma {:induction false} ContentsSize(ps: seq<(u32, u64)>)
    requires DistinctKeys(ps)
    ensures |Contents(ps)| == |ps|
  {
    if ps != [] {
      var n := |ps| - 1;
      ContentsSize(ps[..n]);
      InContents(ps[..n], ps[n].0);
    }
  }

  /** Replaying the entries of distinct pairs into an empty map with room rebuilds them. */
  lemma {:induction false} ReplayEntries(ps: seq<(u32, u64)>, capacity: nat)
    requires DistinctKeys(ps) && |ps| <= capacity
    ensures ReplayHash(map[], capacity, Entries(ps)) == Some(Contents(ps))
  {
    if ps != [] {
      var n := |ps| - 1;
      assert ps == ps[..n] + [ps[n]];
      EntriesSnoc(ps[..n], ps[n]);
      var es := Entries(ps);
      assert es[..|es| - 1] == Entries(ps[..n]);
      ReplayEntries(ps[..n], capacity);
      ContentsSize(ps[..n]);
      HexRoundTrip(ps[n].0, ps[n].1);
    }
  }

  lemma {:induction false} DeliveredAll(ps: seq<(u32, u64)>)
    ensures Delivered(Quiescent(ps)) == ps
  {
    if ps != [] {
      assert Quiescent(ps)[1..] == Quiescent(ps[1..]);
      DeliveredAll(ps[1..]);
    }
  }

  /** An iteration that nothing disturbs. */
  function Quiescent(ps: seq<(u32, u64)>): seq<Option<(u32, u64)>> {
    seq(|ps|, i requires 0 <= i < |ps| => Some(ps[i]))
  }

  /** Dump and replay. A dump of an undisturbed hash map, replayed with the prefix into an empty map with room,
      rebuilds the entries that were iterated first, up to 100; it rebuilds the whole map exactly when that has
      at most 100 entries. */
  lemma HashDumpReplay(ps: seq<(u32, u64)>, capacity: nat)
    requires DistinctKeys(ps) && Min(|ps|, DUMP_LIMIT) <= capacity
    ensures var r := ReplayHash(map[], capacity, HashDump(Quiescent(ps)));
      && r == Some(Contents(ps[..Min(|ps|, DUMP_LIMIT)]))
      && (r == Some(Contents(ps)) <==> |ps| <= DUMP_LIMIT)
  {
    var front := ps[..Min(|ps|, DUMP_LIMIT)];
    DeliveredAll(ps);
    ReplayEntries(front, capacity);
    ContentsSize(front);
    ContentsSize(ps);
    if |ps| <= DUMP_LIMIT {
      assert front == ps;
    }
  }

  /** What an entry says: its texts, behind the prefix, and its number are the pair. */
  lemma HashEntryMeans(k: u32, v: u64)
    ensures var e := HashEntry((k, v));
      && PrefixedText("0x" + e.key, k) && |e.key| == 8
      && PrefixedText("0x" + e.value, v) && |e.value| == 16
      && e.valueU64 == v
  {
    hide PrefixedText;
    HexRoundTrip(k, v);
    ParseKeyIff("0x" + Hex(k, 8), k);
    ParseValueIff("0x" + Hex(v, 16), v);
    HexIsLower(k, 8, 0);
    HexIsLower(v, 16, 0);
  }

  lemma {:induction false} DeliveredConcat(a: seq<Option<(u32, u64)>>, b: seq<Option<(u32, u64)>>)
    ensures Delivered(a + b) == Delivered(a) + Delivered(b)
  {
    if a == [] {
      assert a + b == b;
    } else {
      assert (a + b)[1..] == a[1..] + b;
      DeliveredConcat(a[1..], b);
    }
  }

  /** A read that fails in the course of a dump makes no difference to it, wherever it happens. */
  lemma FailedReadsSkipped(a: seq<Option<(u32, u64)>>, b: seq<Option<(u32, u64)>>)
    ensures HashDump(a + [None] + b) == HashDump(a + b)
  {
    var failed: seq<Option<(u32, u64)>> := [None];
    DeliveredConcat(a, b);
    DeliveredConcat(a + failed, b);
    DeliveredConcat(a, failed);
    assert failed[1..] == [] && Delivered(failed) == [];
    assert Delivered(a) + [] == Delivered(a);
  }

  /** A dump has at most 100 entries, and fewer only if fewer reads succeeded. */
  lemma {:induction false} DumpLimit(ps: seq<(u32, u64)>)
    ensures |Entries(ps)| == |ps|
    ensures |HashDump(Quiescent(ps))| == if |ps| < 100 then |ps| else 100
  {
    DeliveredAll(ps);
    EntriesLength(ps);
    EntriesLength(ps[..Min(|ps|, DUMP_LIMIT)]);
  }

  lemma {:induction false} EntriesLength(ps: seq<(u32, u64)>)
    ensures |Entries(ps)| == |ps|
  {
    if ps != [] {
      EntriesLength(ps[1..]);
    }
  }

  predicate Sets(m: map<u32, u64>, capacity: nat, k: u32, v: u64, after: map<u32, u64>) {
    (k in m || |m| < capacity) && after == m[k := v]
  }

  /** A write goes through exactly if both texts are those of numbers in range and the key is present or there is
      room, and it sets exactly this key, replacing what was there. */
  lemma WriteHashIff(m: map<u32, u64>, capacity: nat, key: string, value: string, after: map<u32, u64>)
    ensures WriteHash(m, capacity, key, value) == Some(after) <==>
      exists k: u32, v: u64 :: PrefixedText(key, k) && PrefixedText(value, v) && Sets(m, capacity, k, v, after)
  {
    hide PrefixedText, ParseKey, ParseValue;
    var k, v := ParseKey(key), ParseValue(value);
    if k.Some? { ParseKeyIff(key, k.value); }
    if v.Some? { ParseValueIff(value, v.value); }
    if k1: u32, v1: u64 :| PrefixedText(key, k1) && PrefixedText(value, v1) && Sets(m, capacity, k1, v1, after) {
      ParseKeyIff(key, k1);
      ParseValueIff(value, v1);
    }
  }

  /** Decimal texts write the numbers that they show, for a new key and for one that is there already. */
  lemma WriteDecimal(m: map<u32, u64>, capacity: nat, k: u32, v: u64)
    requires k in m || |m| < capacity
    ensures WriteHash(m, capacity, Decimal(k), Decimal(v)) == Some(m[k := v])
  {
    hide ParseKey, ParseValue, Decimal;
    DecimalIsRead(k, v);
  }

  // ---- arrays of u64 ----

  function CellEntry(i: u32, v: u64): MapEntry {
    MapEntry(Decimal(i), Hex(v, 16), v)
  }

  /** The entries of the first n cells. */
  function CellEntries(cells: seq<u64>, n: nat): seq<MapEntry>
    requires n <= |cells| < U32
  {
    if n == 0 then [] else CellEntries(cells, n - 1) + [CellEntry(n - 1, cells[n - 1])]
  }

  /** write_map on an array: the index is decimal, with no hexadecimal form. */
  function WriteArray(cells: seq<u64>, key: string, value: string): Option<seq<u64>> {
    var i, v := FromStrRadix(key, 10, U32), ParseValue(value);
    if i.None? || v.None? then None
    else if i.value >= |cells| || v.value >= U64 then None
    else Some(cells[i.value := v.value])
  }

  /** An index is decimal and in range, and exactly its cell is set. */
  lemma WriteArrayIff(cells: seq<u64>, key: string, value: string, after: seq<u64>)
    ensures WriteArray(cells, key, value) == Some(after) <==>
      exists i: u32, v: u64 :: NumberText(key, 10, i) && PrefixedText(value, v)
        && i < |cells| && after == cells[i := v]
  {
    hide PrefixedText, NumberText, FromStrRadix, ParseValue;
    var i, v := FromStrRadix(key, 10, U32), ParseValue(value);
    if i.Some? { ParseIndexIff(key, i.value); }
    if v.Some? { ParseValueIff(value, v.value); }
    if j: u32, w: u64 :| NumberText(key, 10, j) && PrefixedText(value, w) && j < |cells| && after == cells[j := w] {
      ParseIndexIff(key, j);
      ParseValueIff(value, w);
    }
  }

  /** What an entry of an array says. */
  lemma CellEntryMeans(i: u32, v: u64)
    ensures var e := CellEntry(i, v);
      NumberText(e.key, 10, i) && PrefixedText("0x" + e.value, v) && |e.value| == 16 && e.valueU64 == v
  {
    hide PrefixedText, NumberText;
    DecimalRoundTrip(i);
    ParseIndexIff(Decimal(i), i);
    HexRoundTrip(0, v);
    ParseValueIff("0x" + Hex(v, 16), v);
    HexIsLower(v, 16, 0);
  }

  function ReplayArray(cells: seq<u64>, es: seq<MapEntry>): Option<seq<u64>> {
    if es == [] then Some(cells)
    else
      match ReplayArray(cells, es[..|es| - 1])
      case None => None
      case Some(c) => WriteArray(c, es[|es| - 1].key, HEX_PREFIX + es[|es| - 1].value)
  }

  /** Replayed into any array of the same length, a dump sets the first min(length, 100) cells and no others. */
  lemma {:induction false} ArrayDumpReplay(cells: seq<u64>, target: seq<u64>, n: nat)
    requires n <= |cells| == |target| < U32
    ensures ReplayArray(target, CellEntries(cells, n)) == Some(cells[..n] + target[n..])
  {
    hide FromStrRadix, ParseValue, Decimal, Hex;
    if n == 0 {
      assert cells[..0] + target[0..] == target;
    } else {
      var es := CellEntries(cells, n);
      assert es[..|es| - 1] == CellEntries(cells, n - 1);
      ArrayDumpReplay(cells, target, n - 1);
      CellWritten(cells[..n - 1] + target[n - 1..], n - 1, cells[n - 1]);
      OneMoreCell(cells, target, n - 1);
    }
  }

  lemma OneMoreCell(cells: seq<u64>, target: seq<u64>, i: nat)
    requires i < |cells| == |target|
    ensures (cells[..i] + target[i..])[i := cells[i]] == cells[..i + 1] + target[i + 1..]
  {
  }

  lemma CellWritten(now: seq<u64>, i: u32, v: u64)
    requires i < |now|
    ensures WriteArray(now, CellEntry(i, v).key, HEX_PREFIX + CellEntry(i, v).value) == Some(now[i := v])
  {
    hide FromStrRadix, ParseValue, Decimal, Hex;
    DecimalRoundTrip(i);
    HexRoundTrip(0, v);
  }

  // ---- the objects ----

  /** The dump loop has read i items, delivered the pairs ps, and made these entries of them. */
  ghost predicate Dumped(items: seq<Option<(u32, u64)>>, i: nat, ps: seq<(u32, u64)>, entries: seq<MapEntry>) {
    && i <= |items| && |entries| == |ps| <= DUMP_LIMIT && entries == Entries(ps)
    && Delivered(items) == ps + Delivered(items[i..])
  }

  lemma DumpStarts(items: seq<Option<(u32, u64)>>)
    ensures Dumped(items, 0, [], [])
  {
    assert items[0..] == items;
  }

  lemma DeliveredNext(items: seq<Option<(u32, u64)>>)
    requires items != []
    ensures Delivered(items) == (if items[0].Some? then [items[0].value] else []) + Delivered(items[1..])
  {
  }

  lemma Regroup(a: seq<(u32, u64)>, p: (u32, u64), b: seq<(u32, u64)>)
    ensures a + ([p] + b) == (a + [p]) + b && [] + b == b
  {
  }

  lemma DumpGoesOn(items: seq<Option<(u32, u64)>>, i: nat, ps: seq<(u32, u64)>, entries: seq<MapEntry>)
    requires Dumped(items, i, ps, entries) && i < |items|
    ensures items[i].None? ==> Dumped(items, i + 1, ps, entries)
    ensures items[i].Some? && |entries| < DUMP_LIMIT ==>
      Dumped(items, i + 1, ps + [items[i].value], entries + [HashEntry(items[i].value)])
  {
    hide HashEntry, Entries, Delivered;
    DeliveredNext(items[i..]);
    assert items[i..][1..] == items[i + 1..];
    if items[i].Some? {
      EntriesSnoc(ps, items[i].value);
      Regroup(ps, items[i].value, Delivered(items[i + 1..]));
    } else {
      Regroup(ps, (0, 0), Delivered(items[i + 1..]));
    }
  }

  lemma DumpEnds(items: seq<Option<(u32, u64)>>, i: nat, ps: seq<(u32, u64)>, entries: seq<MapEntry>)
    requires Dumped(items, i, ps, entries) && (i == |items| || |entries| == DUMP_LIMIT)
    ensures entries == HashDump(items)
  {
    hide HashEntry, Entries;
    assert i == |items| ==> Delivered(items[i..]) == [];
    assert Delivered(items)[..Min(|Delivered(items)|, DUMP_LIMIT)] == ps;
  }

  class HashMapFile {
    var contents: map<u32, u64>
    const capacity: nat

    constructor (capacity: nat)
      ensures contents == map[] && this.capacity == capacity
    {
      contents, this.capacity := map[], capacity;
    }

    /** read_hash_map without a key, over whatever the iteration delivers. */
    method Dump(items: seq<Option<(u32, u64)>>) returns (entries: seq<MapEntry>)
      ensures entries == HashDump(items) && |entries| <= DUMP_LIMIT
    {
      hide Dumped, HashDump, HashEntry;
      entries := [];
      var count, i := 0, 0;
      ghost var ps: seq<(u32, u64)> := [];
      DumpStarts(items);
      while i < |items|
        invariant 0 <= i <= |items| && count == |entries| <= DUMP_LIMIT && Dumped(items, i, ps, entries)
      {
        if count >= DUMP_LIMIT {
          break;
        }
        DumpGoesOn(items, i, ps, entries);
        if items[i].Some? {
          entries := entries + [HashEntry(items[i].value)];
          ps := ps + [items[i].value];
          count := count + 1;
        }
        i := i + 1;
      }
      DumpEnds(items, i, ps, entries);
    }

    /** read_hash_map with a key. */
    method Read(key: string) returns (entry: Option<MapEntry>)
      ensures entry.Some? <==> ParseKey(key).Some? && ParseKey(key).value in contents.Keys
      ensures entry.Some? ==> entry.value == HashEntry((ParseKey(key).value, contents[ParseKey(key).value]))
    {
      var k := ParseKey(key);
      if k.None? || k.value >= U32 || k.value !in contents {
        return None;
      }
      entry := Some(HashEntry((k.value, contents[k.value])));
    }

    method Write(key: string, value: string) returns (ok: bool)
      modifies this
      ensures ok == WriteHash(old(contents), capacity, key, value).Some?
      ensures contents == if ok then WriteHash(old(contents), capacity, key, value).value else old(contents)
    {
      var k, v := ParseKey(key), ParseValue(value);
      ok := k.Some? && v.Some? && k.value < U32 && v.value < U64 && (k.value in contents || |contents| < capacity);
      if ok {
        contents := contents[k.value := v.value];
      }
    }

    method Delete(key: string) returns (ok: bool)
      modifies this
      ensures ok <==> ParseKey(key).Some? && ParseKey(key).value in old(contents).Keys
      ensures contents == if ok then old(contents) - {ParseKey(key).value} else old(contents)
    {
      var k := ParseKey(key);
      ok := k.Some? && k.value < U32 && k.value in contents;
      if ok {
        contents := contents - {k.value};
      }
    }
  }

  class ArrayFile {
    const cells: array<u64>

    constructor (cells: array<u64>)
      ensures this.cells == cells
    {
      this.cells := cells;
    }

    method Dump() returns (entries: seq<MapEntry>)
      requires cells.Length < U32
      ensures entries == CellEntries(cells[..], Min(cells.Length, DUMP_LIMIT))
    {
      entries := [];
      for i := 0 to Min(cells.Length, DUMP_LIMIT)
        invariant entries == CellEntries(cells[..], i)
      {
        entries := entries + [CellEntry(i, cells[i])];
      }
    }

    method Write(key: string, value: string) returns (ok: bool)
      modifies cells
      ensures ok == WriteArray(old(cells[..]), key, value).Some?
      ensures cells[..] == if ok then WriteArray(old(cells[..]), key, value).value else old(cells[..])
    {
      var i, v := FromStrRadix(key, 10, U32), ParseValue(value);
      ok := i.Some? && v.Some? && i.value < cells.Length && v.value < U64;
      if ok {
        cells[i.value] := v.value;
      }
    }
  }
}
