/**
 The hand-written WebAssembly export lookup, against the binary format of sections 5.2.2 (LEB128), 5.5.2 (sections)
 and 5.5.10 (exports) of the WebAssembly Core Specification 1.0.
 */
module WasmExports {
  import opened Basics

  const U32 := 0x1_0000_0000
  const EXPORT_SECTION: Byte := 7
  const MAGIC: seq<Byte> := [0x00, 0x61, 0x73, 0x6d]
  const VERSION: seq<Byte> := [1, 0, 0, 0]

  // ---- LEB128 as the format defines it ----

  function Pow2(n: nat): nat { if n == 0 then 1 else 2 * Pow2(n - 1) }

  /** What the last byte of an integer of so many bits stays below. */
  function Limit(bits: nat): nat {
    if bits >= 7 then 128 else if bits == 6 then 64 else if bits == 5 then 32 else if bits == 4 then 16
    else if bits == 3 then 8 else if bits == 2 then 4 else if bits == 1 then 2 else 1
  }

  lemma LimitIsPower(bits: nat, b: Byte)
    ensures b < Limit(bits) <==> b < 128 && b < Pow2(bits)
  {
    assert Pow2(0) == 1 && Pow2(1) == 2 && Pow2(2) == 4 && Pow2(3) == 8 && Pow2(4) == 16 && Pow2(5) == 32 &&
      Pow2(6) == 64;
    if bits >= 7 { Pow2Seven(bits - 7); }
  }

  /** The value of an encoding of an unsigned integer of so many bits; padded encodings included. */
  function Unsigned(bs: seq<Byte>, bits: nat): Option<nat> {
    if bs == [] then None
    else if bs[0] < 128 then if |bs| == 1 && bs[0] < Limit(bits) then Some(bs[0]) else None
    else if bits <= 7 then None
    else
      match Unsigned(bs[1..], bits - 7)
      case None => None
      case Some(m) => Some(128 * m + (bs[0] - 128))
  }

  // ---- LEB128 as the reader takes it ----

  /** The bytes up to and with the first one below 128, among the first `most`; 0 when there is none. */
  function Extent(data: seq<Byte>, most: nat): nat {
    if data == [] || most == 0 then 0
    else if data[0] < 128 then 1
    else if Extent(data[1..], most - 1) == 0 then 0
    else 1 + Extent(data[1..], most - 1)
  }

  /** Seven bits a byte, the first byte lowest. */
  function Groups(bs: seq<Byte>): nat {
    if bs == [] then 0 else bs[0] % 128 + 128 * Groups(bs[1..])
  }

  lemma ExtentBound(data: seq<Byte>, most: nat)
    ensures Extent(data, most) <= |data| && Extent(data, most) <= most
  {
  }

  /** The value, kept to 32 bits, and how many bytes it took; no bytes means there is no value. */
  function Leb(data: seq<Byte>): (r: (nat, nat))
    ensures r.1 <= |data| && r.1 <= 5
  {
    ExtentBound(data, 5);
    var n := Extent(data, 5);
    if n == 0 then (0, 0) else (Groups(data[..n]) % U32, n)
  }

  function Pow128(n: nat): nat { if n == 0 then 1 else 128 * Pow128(n - 1) }

  lemma {:induction false} GroupsSnoc(bs: seq<Byte>, b: Byte)
    ensures Groups(bs + [b]) == Groups(bs) + (b % 128) * Pow128(|bs|)
  {
    if bs == [] {
      assert bs + [b] == [b];
    } else {
      assert (bs + [b])[1..] == bs[1..] + [b];
      GroupsSnoc(bs[1..], b);
    }
  }

  lemma {:induction false} GroupsBound(bs: seq<Byte>)
    ensures Groups(bs) < Pow128(|bs|)
  {
    if bs != [] { GroupsBound(bs[1..]); }
  }

  /** Bitwise or. */
  function BitOr(a: nat, b: nat): nat
    decreases a + b
  {
    if a == 0 then b
    else if b == 0 then a
    else (if a % 2 == 1 || b % 2 == 1 then 1 else 0) + 2 * BitOr(a / 2, b / 2)
  }

  /** A word below 2^k, or-ed with a multiple of 2^k, is their sum. */
  lemma {:induction false} OrIsAdd(a: nat, c: nat, k: nat)
    requires a < Pow2(k)
    ensures BitOr(a, c * Pow2(k)) == a + c * Pow2(k)
  {
    if k > 0 && a > 0 && c > 0 {
      var half := c * Pow2(k - 1);
      assert c * Pow2(k) == 2 * half;
      assert half > 0;
      OrIsAdd(a / 2, c, k - 1);
    }
  }

  /** A group that stays within 32 bits. */
  lemma ShiftLow(word: nat, group: nat, k: nat, x: nat)
    requires word < Pow2(k) && x == group * Pow2(k) && word + x < U32
    ensures BitOr(word, x % U32) == (word + x) % U32
  {
    OrIsAdd(word, group, k);
    Below32(x);
    Below32(word + x);
  }

  lemma Below32(x: nat)
    requires x < U32
    ensures x % U32 == x
  {
  }

  /** The fifth group, of which four bits stay. */
  lemma ShiftTop(word: nat, group: nat)
    requires word < 0x1000_0000 && group < 128
    ensures BitOr(word, (group * 0x1000_0000) % U32) == (word + group * 0x1000_0000) % U32
  {
    PowersAgree();
    var low := group % 16 * 0x1000_0000;
    TopBits(group, word);
    TopBits(group, 0);
    assert BitOr(word, low) == word + low by { OrIsAdd(word, group % 16, 28); }
  }

  lemma TopBits(group: nat, word: nat)
    requires group < 128 && word < 0x1000_0000
    ensures (word + group * 0x1000_0000) % U32 == word + group % 16 * 0x1000_0000
  {
    assert word + group * 0x1000_0000 == (group / 16) * U32 + (word + group % 16 * 0x1000_0000);
  }

  /** Or-ing the next group into the word, kept to 32 bits, is adding it. */
  lemma ShiftIn(word: nat, group: nat, i: nat)
    requires i <= 4 && word < Pow128(i) && group < 128
    ensures BitOr(word, (group * Pow128(i)) % U32) == (word + group * Pow128(i)) % U32
  {
    PowersAgree();
    assert Pow128(1) == 128 && Pow128(2) == 0x4000 && Pow128(3) == 0x20_0000 && Pow128(4) == 0x1000_0000;
    if i == 0 {
      ShiftLow(word, group, 0, group);
    } else if i == 1 {
      ShiftLow(word, group, 7, group * 128);
    } else if i == 2 {
      ShiftLow(word, group, 14, group * 0x4000);
    } else if i == 3 {
      ShiftLow(word, group, 21, group * 0x20_0000);
    } else {
      ShiftTop(word, group);
    }
  }

  lemma PowersAgree()
    ensures Pow2(0) == 1 && Pow2(7) == 128 && Pow2(14) == 0x4000 && Pow2(21) == 0x20_0000 && Pow2(28) == 0x1000_0000
  {
    Pow2Seven(0);
    Pow2Seven(7);
    Pow2Seven(14);
    Pow2Seven(21);
  }

  /** All bytes go on. */
  ghost predicate GoesOn(bs: seq<Byte>) { forall i :: 0 <= i < |bs| ==> bs[i] >= 128 }

  lemma {:induction false} ExtentAt(data: seq<Byte>, most: nat, i: nat)
    requires i < |data| && i < most && GoesOn(data[..i]) && data[i] < 128
    ensures Extent(data, most) == i + 1
  {
    if i > 0 {
      assert data[..i][0] == data[0] && data[1..][..i - 1] == data[..i][1..];
      ExtentAt(data[1..], most - 1, i - 1);
    }
  }

  lemma {:induction false} ExtentNone(data: seq<Byte>, most: nat)
    requires GoesOn(if |data| <= most then data else data[..most])
    ensures Extent(data, most) == 0
  {
    if data != [] && most > 0 {
      assert data[0] >= 128 by { assert |data| > most ==> data[..most][0] == data[0]; }
      assert |data| > most ==> data[1..][..most - 1] == data[..most][1..];
      ExtentNone(data[1..], most - 1);
    }
  }

  method ReadU32Leb(data: seq<Byte>) returns (value: nat, n: nat)
    ensures (value, n) == Leb(data)
  {
    var result, unit, shift := 0, 1, 0;
    var i := 0;
    while i < |data|
      invariant 0 <= i <= |data| && i <= 4 && shift == 7 * i && unit == Pow128(i)
      invariant GoesOn(data[..i]) && result == Groups(data[..i])
    {
      var b := data[i];
      assert data[..i + 1] == data[..i] + [b];
      GroupsSnoc(data[..i], b);
      GroupsBound(data[..i]);
      ShiftIn(result, b % 128, i);
      result := BitOr(result, ((b % 128) * unit) % U32);
      assert result == Groups(data[..i + 1]) % U32;
      if b < 128 {
        ExtentAt(data, 5, i);
        return result, i + 1;
      }
      shift, unit := shift + 7, unit * 128;
      if shift >= 32 {
        ExtentNone(data, 5);
        return 0, 0;
      }
      SmallGroups(data[..i + 1]);
      i := i + 1;
    }
    assert data[..i] == data;
    ExtentNone(data, 5);
    return 0, 0;
  }

  lemma SmallGroups(bs: seq<Byte>)
    requires |bs| <= 4
    ensures Groups(bs) % U32 == Groups(bs)
  {
    GroupsBound(bs);
    assert Pow128(1) == 128 && Pow128(2) == 0x4000 && Pow128(3) == 0x20_0000 && Pow128(4) == 0x1000_0000;
  }

  /** What the format's definition gives: the groups, within the bits, in a number of bytes. */
  lemma {:induction false} UnsignedMeans(bs: seq<Byte>, bits: nat)
    requires Unsigned(bs, bits).Some?
    ensures Unsigned(bs, bits).value == Groups(bs) < Pow2(bits)
    ensures 0 < |bs| && 7 * (|bs| - 1) < bits + (if |bs| == 1 then 1 else 0)
    ensures GoesOn(bs[..|bs| - 1]) && bs[|bs| - 1] < 128
  {
    if bs[0] >= 128 {
      UnsignedMeans(bs[1..], bits - 7);
      Pow2Seven(bits - 7);
      assert Groups(bs) == bs[0] % 128 + 128 * Groups(bs[1..]);
      assert bs[..|bs| - 1] == [bs[0]] + bs[1..][..|bs| - 2];
    } else {
      assert bs[1..] == [];
      LimitIsPower(bits, bs[0]);
    }
  }

  lemma Pow2Seven(n: nat)
    ensures Pow2(n + 7) == 128 * Pow2(n)
  {
    assert Pow2(n + 1) == 2 * Pow2(n) && Pow2(n + 2) == 4 * Pow2(n) && Pow2(n + 3) == 8 * Pow2(n);
    assert Pow2(n + 4) == 16 * Pow2(n) && Pow2(n + 5) == 32 * Pow2(n) && Pow2(n + 6) == 64 * Pow2(n);
  }

  lemma Pow2U32()
    ensures Pow2(32) == U32
  {
    Pow2Seven(25);
    Pow2Seven(18);
    Pow2Seven(11);
    Pow2Seven(4);
    assert Pow2(4) == 16;
  }

  lemma LebAt(data: seq<Byte>, n: nat)
    requires 0 < n <= 5 && n <= |data| && GoesOn(data[..n - 1]) && data[n - 1] < 128 && Groups(data[..n]) < U32
    ensures Leb(data) == (Groups(data[..n]), n)
  {
    ExtentAt(data, 5, n - 1);
  }

  lemma UnsignedMeans32(bs: seq<Byte>)
    requires Unsigned(bs, 32).Some?
    ensures Unsigned(bs, 32).value == Groups(bs) < U32
    ensures 0 < |bs| <= 5 && GoesOn(bs[..|bs| - 1]) && bs[|bs| - 1] < 128
  {
    UnsignedMeans(bs, 32);
    Pow2U32();
  }

  /** Every encoding of a u32, padded or not, is read back, whatever follows. */
  lemma LebReadsBack(bs: seq<Byte>, rest: seq<Byte>)
    requires Unsigned(bs, 32).Some?
    ensures Leb(bs + rest) == (Unsigned(bs, 32).value, |bs|) && 0 < |bs|
  {
    UnsignedMeans32(bs);
    var data, n := bs + rest, |bs|;
    assert data[..n] == bs && data[..n - 1] == bs[..n - 1];
    LebAt(data, n);
  }

  /** Cut short, an encoding is refused. */
  lemma LebCutShort(bs: seq<Byte>, k: nat)
    requires Unsigned(bs, 32).Some? && k < |bs|
    ensures Leb(bs[..k]).1 == 0
  {
    UnsignedMeans32(bs);
    assert bs[..k] == bs[..|bs| - 1][..k];
    ExtentNone(bs[..k], 5);
  }

  // ---- the lookup ----

  /** How many bytes the header and the content of the section at the front take; the rest follows. */
  datatype Frame = NoFrame | Frame(head: nat, end: nat)

  function FrontFrame(wasm: seq<Byte>): (f: Frame)
    requires wasm != []
    ensures f.Frame? ==> 0 < f.head <= f.end <= |wasm|
  {
    var (size, n) := Leb(wasm[1..]);
    if n == 0 || 1 + n + size > |wasm| then NoFrame else Frame(1 + n, 1 + n + size)
  }

  /** The content of the first export section. */
  function ExportSection(wasm: seq<Byte>): Option<seq<Byte>>
    decreases |wasm|
  {
    if wasm == [] then None
    else
      var f := FrontFrame(wasm);
      if f.NoFrame? then None
      else if wasm[0] == EXPORT_SECTION then Some(wasm[f.head..f.end])
      else ExportSection(wasm[f.end..])
  }

  /** Where the name of the export at the front lies, and where the next export starts. */
  datatype Entry = NoEntry | Entry(start: nat, end: nat, next: nat)

  function FrontEntry(sec: seq<Byte>): (e: Entry)
    ensures e.Entry? ==> 0 < e.start <= e.end < e.next <= |sec|
  {
    var (size, n) := Leb(sec);
    var end := n + size;
    if n == 0 || end >= |sec| then NoEntry
    else
      var m := Leb(sec[end + 1..]).1;
      if m == 0 then NoEntry else Entry(n, end, end + 1 + m)
  }

  /** One of the next `count` exports has the name; a malformed one ends the search. */
  predicate Lists(sec: seq<Byte>, count: nat, name: seq<Byte>)
    decreases count
  {
    count > 0 &&
    var e := FrontEntry(sec);
    e.Entry? && (sec[e.start..e.end] == name || Lists(sec[e.next..], count - 1, name))
  }

  predicate HasExport(wasm: seq<Byte>, name: seq<Byte>) {
    && |wasm| >= 8 && wasm[..4] == MAGIC
    && (var sec := ExportSection(wasm[8..]);
        sec.Some? && Leb(sec.value).1 > 0 && Lists(sec.value[Leb(sec.value).1..], Leb(sec.value).0, name))
  }

  method ReadEntry(sec: seq<Byte>, cursor: nat) returns (e: Entry)
    requires cursor <= |sec|
    ensures e == FrontEntry(sec[cursor..])
  {
    var nameLen, n := ReadU32Leb(sec[cursor..]);
    if n == 0 {
      return NoEntry;
    }
    var start := cursor + n;
    if start + nameLen > |sec| {
      return NoEntry;
    }
    var kind := start + nameLen;
    if kind >= |sec| {
      return NoEntry;
    }
    assert sec[cursor..][n + nameLen + 1..] == sec[kind + 1..];
    var _, m := ReadU32Leb(sec[kind + 1..]);
    if m == 0 {
      return NoEntry;
    }
    return Entry(n, n + nameLen, n + nameLen + 1 + m);
  }

  method SearchExports(sec: seq<Byte>, name: seq<Byte>) returns (found: bool)
    ensures found <==> Leb(sec).1 > 0 && Lists(sec[Leb(sec).1..], Leb(sec).0, name)
  {
    var count, first := ReadU32Leb(sec);
    if first == 0 {
      return false;
    }
    found := SearchEntries(sec, first, count, name);
  }

  lemma SliceOfTail(s: seq<Byte>, c: nat, a: nat, b: nat)
    requires a <= b && c + b <= |s|
    ensures s[c..][a..b] == s[c + a..c + b]
  {
  }

  lemma TailOfTail(s: seq<Byte>, c: nat, a: nat)
    requires c + a <= |s|
    ensures s[c..][a..] == s[c + a..]
  {
  }

  datatype Verdict = Malformed | Matched | Goon(cursor: nat)

  /** One export: malformed, the one asked for, or passed over. */
  function LookAt(sec: seq<Byte>, cursor: nat, name: seq<Byte>): (v: Verdict)
    requires cursor <= |sec|
    ensures v.Goon? ==> v.cursor <= |sec|
  {
    var e := FrontEntry(sec[cursor..]);
    if e.NoEntry? then Malformed
    else if sec[cursor + e.start..cursor + e.end] == name then Matched
    else Goon(cursor + e.next)
  }

  lemma LookStep(sec: seq<Byte>, cursor: nat, count: nat, name: seq<Byte>)
    requires cursor <= |sec| && count > 0
    ensures
      var v := LookAt(sec, cursor, name);
      Lists(sec[cursor..], count, name) <==> v.Matched? || (v.Goon? && Lists(sec[v.cursor..], count - 1, name))
  {
    var tail := sec[cursor..];
    var e := FrontEntry(tail);
    if e.Entry? {
      SliceOfTail(sec, cursor, e.start, e.end);
      TailOfTail(sec, cursor, e.next);
    }
  }

  method SearchOne(sec: seq<Byte>, cursor: nat, name: seq<Byte>) returns (v: Verdict)
    requires cursor <= |sec|
    ensures v == LookAt(sec, cursor, name)
  {
    var e := ReadEntry(sec, cursor);
    if e.NoEntry? {
      return Malformed;
    }
    if sec[cursor + e.start..cursor + e.end] == name {
      return Matched;
    }
    return Goon(cursor + e.next);
  }

  method SearchEntries(sec: seq<Byte>, first: nat, count: nat, name: seq<Byte>) returns (found: bool)
    requires first <= |sec|
    ensures found <==> Lists(sec[first..], count, name)
  {
    ghost var goal := Lists(sec[first..], count, name);
    var cursor: nat := first;
    var i := 0;
    while i < count
      invariant 0 <= i <= count && cursor <= |sec|
      invariant goal <==> Lists(sec[cursor..], count - i, name)
    {
      var v := SearchOne(sec, cursor, name);
      LookStep(sec, cursor, count - i, name);
      if v.Malformed? {
        return false;
      }
      if v.Matched? {
        return true;
      }
      cursor, i := v.cursor, i + 1;
    }
    return false;
  }

  method ReadFrame(wasm: seq<Byte>, off: nat) returns (f: Frame)
    requires off < |wasm|
    ensures f == FrontFrame(wasm[off..])
  {
    assert wasm[off..][1..] == wasm[off + 1..];
    var secLen, n := ReadU32Leb(wasm[off + 1..]);
    if n == 0 {
      return NoFrame;
    }
    if off + 1 + n + secLen > |wasm| {
      return NoFrame;
    }
    return Frame(1 + n, 1 + n + secLen);
  }

  datatype Passed = Ended(sec: Option<seq<Byte>>) | Past(off: nat)

  /** One section: malformed, the export section, or passed over. */
  function PassAt(wasm: seq<Byte>, off: nat): (p: Passed)
    requires off < |wasm|
    ensures p.Past? ==> off < p.off <= |wasm|
  {
    var f := FrontFrame(wasm[off..]);
    if f.NoFrame? then Ended(None)
    else if wasm[off] == EXPORT_SECTION then Ended(Some(wasm[off + f.head..off + f.end]))
    else Past(off + f.end)
  }

  lemma PassStep(wasm: seq<Byte>, off: nat)
    requires off < |wasm|
    ensures
      var p := PassAt(wasm, off);
      ExportSection(wasm[off..]) == if p.Ended? then p.sec else ExportSection(wasm[p.off..])
  {
    var tail := wasm[off..];
    var f := FrontFrame(tail);
    if f.Frame? {
      SliceOfTail(wasm, off, f.head, f.end);
      TailOfTail(wasm, off, f.end);
    }
  }

  method PassSection(wasm: seq<Byte>, off: nat) returns (p: Passed)
    requires off < |wasm|
    ensures p == PassAt(wasm, off)
  {
    var sectionId := wasm[off];
    var f := ReadFrame(wasm, off);
    if f.NoFrame? {
      return Ended(None);
    }
    if sectionId == EXPORT_SECTION {
      return Ended(Some(wasm[off + f.head..off + f.end]));
    }
    return Past(off + f.end);
  }

  method FindExports(wasm: seq<Byte>) returns (sec: Option<seq<Byte>>)
    requires |wasm| >= 8
    ensures sec == ExportSection(wasm[8..])
  {
    ghost var goal := ExportSection(wasm[8..]);
    var off := 8;
    while off < |wasm|
      invariant 8 <= off <= |wasm| && goal == ExportSection(wasm[off..])
    {
      var p := PassSection(wasm, off);
      PassStep(wasm, off);
      if p.Ended? {
        return p.sec;
      }
      off := p.off;
    }
    return None;
  }

  /** In bounds and ending on any bytes at all. */
  method WasmHasExport(wasm: seq<Byte>, name: seq<Byte>) returns (found: bool)
    ensures found <==> HasExport(wasm, name)
  {
    if |wasm| < 8 {
      return false;
    }
    if wasm[..4] != MAGIC {
      return false;
    }
    var sec := FindExports(wasm);
    if sec.None? {
      return false;
    }
    found := SearchExports(sec.value, name);
  }

  predicate ValidWasm(wasm: seq<Byte>) {
    && |wasm| >= 8 && wasm[..4] == MAGIC
    && wasm[4] as int + 0x100 * wasm[5] as int + 0x1_0000 * wasm[6] as int + 0x100_0000 * wasm[7] as int == 1
  }

  /** Exactly the eight bytes of the magic and of version 1. */
  lemma ValidIff(wasm: seq<Byte>)
    ensures ValidWasm(wasm) <==> |wasm| >= 8 && wasm[..8] == [0, 0x61, 0x73, 0x6d, 1, 0, 0, 0]
  {
    if |wasm| >= 8 {
      assert wasm[..8] == wasm[..4] + [wasm[4], wasm[5], wasm[6], wasm[7]];
      if wasm[..8] == [0, 0x61, 0x73, 0x6d, 1, 0, 0, 0] {
        assert wasm[..4] == wasm[..8][..4];
        assert wasm[4] == wasm[..8][4] && wasm[5] == wasm[..8][5] && wasm[6] == wasm[..8][6] && wasm[7] == wasm[..8][7];
      }
    }
  }

  // ---- modules ----

  /** An export as written: the length and the index in any of their encodings. */
  datatype Export = Export(size: seq<Byte>, name: seq<Byte>, kind: Byte, index: seq<Byte>)

  predicate ExportOk(e: Export) { Unsigned(e.size, 32) == Some(|e.name|) && Unsigned(e.index, 32).Some? }

  function ExportBytes(e: Export): seq<Byte> { e.size + e.name + [e.kind] + e.index }

  function AllExports(es: seq<Export>): seq<Byte> {
    if es == [] then [] else ExportBytes(es[0]) + AllExports(es[1..])
  }

  datatype Section = Section(id: Byte, size: seq<Byte>, content: seq<Byte>)

  predicate SectionOk(s: Section) { Unsigned(s.size, 32) == Some(|s.content|) }

  function SectionBytes(s: Section): seq<Byte> { [s.id] + s.size + s.content }

  function AllSections(secs: seq<Section>): seq<Byte> {
    if secs == [] then [] else SectionBytes(secs[0]) + AllSections(secs[1..])
  }

  /** The export section: its size, the count of exports, and the exports. */
  datatype ExportList = ExportList(size: seq<Byte>, count: seq<Byte>, exports: seq<Export>)

  predicate ExportListOk(x: ExportList) {
    && SectionOk(AsSection(x))
    && Unsigned(x.count, 32) == Some(|x.exports|)
    && forall i :: 0 <= i < |x.exports| ==> ExportOk(x.exports[i])
  }

  function AsSection(x: ExportList): Section { Section(EXPORT_SECTION, x.size, x.count + AllExports(x.exports)) }

  /** A module: its sections, with the export section at most once. */
  datatype Module = NoExports(sections: seq<Section>)
                  | WithExports(before: seq<Section>, list: ExportList, rest: seq<Section>)

  predicate Others(secs: seq<Section>) {
    forall i :: 0 <= i < |secs| ==> secs[i].id != EXPORT_SECTION && SectionOk(secs[i])
  }

  predicate ModuleOk(m: Module) {
    match m
    case NoExports(secs) => Others(secs)
    case WithExports(before, x, rest) => Others(before) && ExportListOk(x) && Others(rest)
  }

  function Encode(m: Module): seq<Byte> {
    MAGIC + VERSION +
    match m
    case NoExports(secs) => AllSections(secs)
    case WithExports(before, x, rest) => AllSections(before) + (SectionBytes(AsSection(x)) + AllSections(rest))
  }

  ghost predicate NameAmong(es: seq<Export>, name: seq<Byte>) { exists i :: 0 <= i < |es| && es[i].name == name }

  // ---- reading an encoded module ----

  lemma SectionSlices(s: Section, post: seq<Byte>)
    ensures var wasm, n := SectionBytes(s) + post, 1 + |s.size|;
      && |wasm| == |SectionBytes(s)| + |post| && wasm[0] == s.id && wasm[1..] == s.size + (s.content + post)
      && |SectionBytes(s)| == n + |s.content| && wasm[n..n + |s.content|] == s.content &&
        wasm[n + |s.content|..] == post
  {
  }

  /** The section at the front is read whole. */
  lemma ReadSection(s: Section, post: seq<Byte>)
    requires SectionOk(s)
    ensures ExportSection(SectionBytes(s) + post) ==
            if s.id == EXPORT_SECTION then Some(s.content) else ExportSection(post)
  {
    SectionSlices(s, post);
    LebReadsBack(s.size, s.content + post);
    var f := FrontFrame(SectionBytes(s) + post);
    assert f == Frame(1 + |s.size|, |SectionBytes(s)|);
  }

  /** The walk passes over sections that are not the export section. */
  lemma {:induction false} WalkOver(secs: seq<Section>, post: seq<Byte>)
    requires Others(secs)
    ensures ExportSection(AllSections(secs) + post) == ExportSection(post)
  {
    if secs == [] {
      assert AllSections(secs) + post == post;
    } else {
      var b, rest := SectionBytes(secs[0]), AllSections(secs[1..]);
      assert AllSections(secs) + post == b + (rest + post);
      ReadSection(secs[0], rest + post);
      WalkOver(secs[1..], post);
    }
  }

  lemma EntrySlices(e: Export, post: seq<Byte>)
    ensures var sec, k := ExportBytes(e) + post, |e.size| + |e.name|;
      && |sec| == |ExportBytes(e)| + |post| && sec == e.size + sec[|e.size|..]
      && |ExportBytes(e)| == k + 1 + |e.index|
      && sec[|e.size|..k] == e.name && sec[k + 1..] == e.index + post && sec[k + 1 + |e.index|..] == post
  {
  }

  lemma EntryFrom(sec: seq<Byte>, size: nat, n: nat, m: nat)
    requires Leb(sec) == (size, n) && n > 0 && n + size < |sec| && Leb(sec[n + size + 1..]).1 == m > 0
    ensures FrontEntry(sec) == Entry(n, n + size, n + size + 1 + m)
  {
  }

  lemma ExportEntry(e: Export, post: seq<Byte>)
    requires ExportOk(e)
    ensures FrontEntry(ExportBytes(e) + post) == Entry(|e.size|, |e.size| + |e.name|, |ExportBytes(e)|)
  {
    EntrySlices(e, post);
    NameLength(e, post);
    IndexLength(e, post);
    EntryFrom(ExportBytes(e) + post, |e.name|, |e.size|, |e.index|);
  }

  lemma NameLength(e: Export, post: seq<Byte>)
    requires ExportOk(e)
    ensures Leb(ExportBytes(e) + post) == (|e.name|, |e.size|) && |e.size| > 0
  {
    var sec := ExportBytes(e) + post;
    assert sec == e.size + sec[|e.size|..];
    LebReadsBack(e.size, sec[|e.size|..]);
  }

  lemma IndexLength(e: Export, post: seq<Byte>)
    requires ExportOk(e)
    ensures
      var sec, k := ExportBytes(e) + post, |e.size| + |e.name| + 1;
      k <= |sec| && Leb(sec[k..]).1 == |e.index| > 0
  {
    var sec, k := ExportBytes(e) + post, |e.size| + |e.name| + 1;
    assert sec[k..] == e.index + post;
    LebReadsBack(e.index, post);
  }

  /** The export at the front is read whole. */
  lemma ReadExport(e: Export, post: seq<Byte>, count: nat, name: seq<Byte>)
    requires ExportOk(e) && count > 0
    ensures Lists(ExportBytes(e) + post, count, name) <==> e.name == name || Lists(post, count - 1, name)
  {
    var sec := ExportBytes(e) + post;
    ExportEntry(e, post);
    EntrySlices(e, post);
    assert sec[|e.size|..|e.size| + |e.name|] == e.name && sec[|ExportBytes(e)|..] == post;
  }

  lemma NameAmongSplit(es: seq<Export>, name: seq<Byte>)
    requires es != []
    ensures NameAmong(es, name) <==> es[0].name == name || NameAmong(es[1..], name)
  {
    if NameAmong(es, name) && es[0].name != name {
      var i :| 0 <= i < |es| && es[i].name == name;
      assert es[1..][i - 1].name == name;
    }
    if NameAmong(es[1..], name) {
      var i :| 0 <= i < |es[1..]| && es[1..][i].name == name;
      assert es[i + 1].name == name;
    }
  }

  lemma {:induction false} ListsExactly(es: seq<Export>, name: seq<Byte>)
    requires forall i :: 0 <= i < |es| ==> ExportOk(es[i])
    ensures Lists(AllExports(es), |es|, name) <==> NameAmong(es, name)
  {
    if es != [] {
      ReadExport(es[0], AllExports(es[1..]), |es|, name);
      ListsExactly(es[1..], name);
      NameAmongSplit(es, name);
    }
  }

  /** Any bytes after the header whose export section is this one. */
  lemma Answers(wasm: seq<Byte>, x: ExportList, name: seq<Byte>)
    requires ExportListOk(x) && |wasm| >= 8 && wasm[..4] == MAGIC
    requires ExportSection(wasm[8..]) == Some(AsSection(x).content)
    ensures HasExport(wasm, name) <==> NameAmong(x.exports, name)
  {
    var c := AsSection(x).content;
    LebReadsBack(x.count, AllExports(x.exports));
    assert c[|x.count|..] == AllExports(x.exports);
    ListsExactly(x.exports, name);
  }

  lemma Header(body: seq<Byte>)
    ensures var wasm := MAGIC + VERSION + body;
      |wasm| == 8 + |body| && wasm[..4] == MAGIC && wasm[8..] == body && ValidWasm(wasm)
  {
    var wasm := MAGIC + VERSION + body;
    assert wasm[4] == 1 && wasm[5] == 0 && wasm[6] == 0 && wasm[7] == 0;
  }

  /** For every module in the binary format, the lookup answers exactly whether the module exports the name. */
  lemma ExportFoundExactly(m: Module, name: seq<Byte>)
    requires ModuleOk(m)
    ensures HasExport(Encode(m), name) <==> m.WithExports? && NameAmong(m.list.exports, name)
    ensures ValidWasm(Encode(m))
  {
    match m {
      case NoExports(secs) =>
        Header(AllSections(secs));
        WalkOver(secs, []);
        assert AllSections(secs) + [] == AllSections(secs);
      case WithExports(before, x, rest) =>
        var tail := SectionBytes(AsSection(x)) + AllSections(rest);
        Header(AllSections(before) + tail);
        WalkOver(before, tail);
        ReadSection(AsSection(x), AllSections(rest));
        Answers(Encode(m), x, name);
    }
  }

  // ---- a module cut short ----

  /** Cut inside a section: nothing is found there. */
  lemma CutInSection(s: Section, k: nat)
    requires SectionOk(s) && k < |SectionBytes(s)|
    ensures ExportSection(SectionBytes(s)[..k]) == None
  {
    if k > 0 {
      var cut := SectionBytes(s)[..k];
      if k - 1 < |s.size| {
        assert cut[1..] == s.size[..k - 1];
        LebCutShort(s.size, k - 1);
      } else {
        assert cut[1..] == s.size + s.content[..k - 1 - |s.size|];
        LebReadsBack(s.size, s.content[..k - 1 - |s.size|]);
      }
      assert FrontFrame(cut) == NoFrame;
    }
  }

  /** Cut before the end of the export section: nothing is found. */
  lemma {:induction false} CutBefore(secs: seq<Section>, e: Section, k: nat)
    requires Others(secs) && SectionOk(e) && k < |AllSections(secs)| + |SectionBytes(e)|
    ensures ExportSection((AllSections(secs) + SectionBytes(e))[..k]) == None
  {
    var all := AllSections(secs) + SectionBytes(e);
    if secs == [] {
      assert all == SectionBytes(e);
      CutInSection(e, k);
    } else {
      var b, more := SectionBytes(secs[0]), AllSections(secs[1..]) + SectionBytes(e);
      assert all == b + more;
      if k < |b| {
        assert all[..k] == b[..k];
        CutInSection(secs[0], k);
      } else {
        assert all[..k] == b + more[..k - |b|];
        ReadSection(secs[0], more[..k - |b|]);
        CutBefore(secs[1..], e, k - |b|);
      }
    }
  }

  /** The bytes a module needs to answer for its exports. */
  function ExportsEnd(m: Module): nat
    requires m.WithExports?
  {
    8 + |AllSections(m.before)| + |SectionBytes(AsSection(m.list))|
  }

  /** A module cut to its first k bytes still answers for its exports exactly when the whole export section is
      among them: what follows it may be missing. */
  lemma CutModule(m: Module, name: seq<Byte>, k: nat)
    requires ModuleOk(m) && m.WithExports? && k <= |Encode(m)|
    ensures HasExport(Encode(m)[..k], name) <==> NameAmong(m.list.exports, name) && k >= ExportsEnd(m)
  {
    var b, e := AllSections(m.before), AsSection(m.list);
    var body := b + (SectionBytes(e) + AllSections(m.rest));
    Header(body);
    if k >= 8 {
      var cut := Encode(m)[..k];
      assert cut[..4] == MAGIC && cut[8..] == body[..k - 8];
      if k >= ExportsEnd(m) {
        var post := AllSections(m.rest)[..k - ExportsEnd(m)];
        assert body[..k - 8] == b + (SectionBytes(e) + post);
        WalkOver(m.before, SectionBytes(e) + post);
        ReadSection(e, post);
        Answers(cut, m.list, name);
      } else {
        assert body[..k - 8] == (b + SectionBytes(e))[..k - 8];
        CutBefore(m.before, e, k - 8);
      }
    }
  }
}
