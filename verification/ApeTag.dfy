/**
 APEv2 tags of go_backend/ape_tags.go: items printed and parsed, a tag appended
 to a file, found again, replaced. Strings are their bytes.
 */
module ApeTag {
  import opened Options
  import opened Endian

  const PREAMBLE: Buffer := [0x41, 0x50, 0x45, 0x54, 0x41, 0x47, 0x45, 0x58]
  const HEADER_SIZE: nat := 32
  const ID3V1_SIZE: nat := 128
  const MAX_ITEMS: nat := 1000
  const IS_HEADER: int := 0x2000_0000
  const HAS_HEADER: int := 0x8000_0000
  const READ_ONLY: int := 1

  datatype Item = Item(key: Buffer, value: Buffer, flags: int)

  datatype Tag = Tag(version: int, items: seq<Item>, readOnly: bool)

  predicate Bit(flags: int, weight: int)
    requires weight > 0
  {
    flags / weight % 2 == 1
  }

  // ---------------------------------------------------------------- items

  function ItemBytes(i: Item): Buffer {
    Le32(|i.value|) + Le32(i.flags) + i.key + [0] + i.value
  }

  function ItemsBytes(items: seq<Item>, n: nat): Buffer
    requires n <= |items|
  {
    if n == 0 then [] else ItemsBytes(items, n - 1) + ItemBytes(items[n - 1])
  }

  /** The first zero at or behind `p`, or the end. */
  function KeyEnd(data: Buffer, p: nat): (e: nat)
    requires p <= |data|
    ensures p <= e <= |data|
    decreases |data| - p
  {
    if p == |data| || data[p] == 0 then p else KeyEnd(data, p + 1)
  }

  /** parseAPEItems from `pos` on, for at most `count` items; it stops silently at what does not fit. */
  function ParseItems(data: Buffer, pos: nat, count: nat): (items: seq<Item>)
    requires pos <= |data|
    ensures |items| <= count
    decreases count
  {
    if count == 0 || pos + 8 > |data| then []
    else
      var size, flags, end := U32Le(data, pos), U32Le(data, pos + 4), KeyEnd(data, pos + 8);
      if end >= |data| || end + 1 + size > |data| then []
      else
        [Item(data[pos + 8..end], data[end + 1..end + 1 + size], flags)]
          + ParseItems(data, end + 1 + size, count - 1)
  }

  ghost predicate NulFree(key: Buffer) {
    forall i :: 0 <= i < |key| ==> key[i] != 0
  }

  /** Sizes and flags are 32-bit fields. */
  ghost predicate Fits(i: Item) {
    |i.value| < TWO32 && 0 <= i.flags < TWO32
  }

  lemma {:induction false} KeyEndFinds(data: Buffer, p: nat, e: nat)
    requires p <= e < |data| && data[e] == 0 && forall k :: p <= k < e ==> data[k] != 0
    ensures KeyEnd(data, p) == e
    decreases e - p
  {
    if p < e { KeyEndFinds(data, p + 1, e); }
  }

  lemma {:induction false} KeyEndIsFirst(data: Buffer, p: nat)
    requires p <= |data|
    ensures KeyEnd(data, p) < |data| ==> data[KeyEnd(data, p)] == 0
    ensures forall k :: p <= k < KeyEnd(data, p) ==> data[k] != 0
    decreases |data| - p
  {
    if p < |data| && data[p] != 0 { KeyEndIsFirst(data, p + 1); }
  }

  /** Where the parts of a printed item stand. */
  lemma {:induction false} ItemParts(front: Buffer, i: Item, rest: Buffer)
    requires Fits(i)
    ensures var d, p := front + ItemBytes(i) + rest, |front|;
      var k := p + 8 + |i.key|;
      && |ItemBytes(i)| == 9 + |i.key| + |i.value|
      && U32Le(d, p) == |i.value| && U32Le(d, p + 4) == i.flags
      && d[p + 8..k] == i.key && d[k] == 0 && d[k + 1..k + 1 + |i.value|] == i.value
  {
    hide U32Le, Le32;
    var d, p := front + ItemBytes(i) + rest, |front|;
    var k := p + 8 + |i.key|;
    assert d[p..p + 4] == Le32(|i.value|);
    assert d[p + 4..p + 8] == Le32(i.flags);
    U32OfLe32(d, p, |i.value|);
    U32OfLe32(d, p + 4, i.flags);
    assert d[p + 8..k] == i.key;
    assert d[k + 1..k + 1 + |i.value|] == i.value;
  }

  /** A printed item is parsed back, and parsing goes on behind it. */
  lemma {:induction false} ItemParsed(front: Buffer, i: Item, rest: Buffer, count: nat)
    requires Fits(i) && NulFree(i.key) && count > 0
    ensures var d, p := front + ItemBytes(i) + rest, |front|;
      ParseItems(d, p, count) == [i] + ParseItems(d, p + |ItemBytes(i)|, count - 1)
  {
    hide U32Le, Le32, KeyEnd, ItemBytes;
    var d, p := front + ItemBytes(i) + rest, |front|;
    ItemParts(front, i, rest);
    var k := p + 8 + |i.key|;
    forall q | p + 8 <= q < k ensures d[q] != 0 {
      assert d[q] == d[p + 8..k][q - p - 8];
    }
    KeyEndFinds(d, p + 8, k);
  }

  /** With a zero in its key an item never comes back. */
  lemma {:induction false} ItemLost(front: Buffer, i: Item, rest: Buffer, count: nat)
    requires Fits(i) && !NulFree(i.key) && count > 0
    ensures var items := ParseItems(front + ItemBytes(i) + rest, |front|, count);
      items == [] || items[0] != i
  {
    hide U32Le, Le32, KeyEnd, ItemBytes;
    var d, p := front + ItemBytes(i) + rest, |front|;
    ItemParts(front, i, rest);
    KeyEndIsFirst(d, p + 8);
    var z :| 0 <= z < |i.key| && i.key[z] == 0;
    assert d[p + 8 + z] == d[p + 8..p + 8 + |i.key|][z];
    assert KeyEnd(d, p + 8) <= p + 8 + z;
  }

  lemma {:induction false} ItemsGrow(items: seq<Item>, m: nat, n: nat)
    requires m <= n <= |items|
    ensures ItemsBytes(items, m) <= ItemsBytes(items, n)
    decreases n
  {
    if m < n { ItemsGrow(items, m, n - 1); }
  }

  /** The bytes of all items around item `k`. */
  lemma {:induction false} AroundItem(items: seq<Item>, k: nat)
    requires k < |items|
    ensures |ItemsBytes(items, k + 1)| == |ItemsBytes(items, k)| + |ItemBytes(items[k])| <= |ItemsBytes(items, |items|)|
    ensures ItemsBytes(items, |items|)
      == ItemsBytes(items, k) + ItemBytes(items[k]) + ItemsBytes(items, |items|)[|ItemsBytes(items, k + 1)|..]
  {
    hide ItemBytes;
    ItemsGrow(items, k + 1, |items|);
  }

  lemma {:induction false} ParsedFrom(items: seq<Item>, k: nat)
    requires k <= |items| && forall i :: 0 <= i < |items| ==> Fits(items[i])
    ensures |ItemsBytes(items, k)| <= |ItemsBytes(items, |items|)|
    ensures ParseItems(ItemsBytes(items, |items|), |ItemsBytes(items, k)|, |items| - k) == items[k..]
      <==> forall i :: k <= i < |items| ==> NulFree(items[i].key)
    decreases |items| - k
  {
    hide ParseItems, ItemBytes, ItemsBytes, Fits, NulFree;
    ItemsGrow(items, k, |items|);
    if k == |items| {
      NothingParsed(ItemsBytes(items, |items|), |ItemsBytes(items, k)|);
    } else {
      var d := ItemsBytes(items, |items|);
      AroundItem(items, k);
      var rest := d[|ItemsBytes(items, k + 1)|..];
      ParsedFrom(items, k + 1);
      assert items[k..] == [items[k]] + items[k + 1..];
      assert Fits(items[k]);
      if NulFree(items[k].key) {
        ItemParsed(ItemsBytes(items, k), items[k], rest, |items| - k);
      } else {
        ItemLost(ItemsBytes(items, k), items[k], rest, |items| - k);
      }
    }
  }

  lemma {:induction false} NothingParsed(data: Buffer, pos: nat)
    requires pos <= |data|
    ensures ParseItems(data, pos, 0) == []
  {
  }

  /** Printing and parsing give the same items exactly when no key holds a zero byte. */
  lemma {:induction false} ItemsRoundTrip(items: seq<Item>)
    requires forall i :: 0 <= i < |items| ==> Fits(items[i])
    ensures ParseItems(ItemsBytes(items, |items|), 0, |items|) == items <==> forall i :: 0 <= i < |items| ==>
      NulFree(items[i].key)
  {
    hide ParseItems, NulFree;
    ParsedFrom(items, 0);
    assert items[0..] == items;
  }

  // ---------------------------------------------------------------- the tag

  function Block(version: int, tagSize: int, count: int, flags: int): (r: Buffer)
    ensures |r| == HEADER_SIZE
  {
    PREAMBLE + Le32(version) + Le32(tagSize) + Le32(count) + Le32(flags) + [0, 0, 0, 0, 0, 0, 0, 0]
  }

  function StoredVersion(tag: Tag): int {
    if tag.version != 0 then tag.version else 2000
  }

  /** marshalAPETag: header, items, footer; None for an empty tag. */
  function Marshal(tag: Tag): Option<Buffer> {
    if tag.items == [] then None
    else
      var body := ItemsBytes(tag.items, |tag.items|);
      var size, version := |body| + HEADER_SIZE, StoredVersion(tag);
      Some(Block(version, size, |tag.items|, IS_HEADER + HAS_HEADER) + body
        + Block(version, size, |tag.items|, HAS_HEADER))
  }

  /** readAPETagAtOffset. */
  function ReadAt(file: Buffer, offset: int): Option<Tag> {
    if offset < 0 || offset + HEADER_SIZE > |file| then None
    else if file[offset..offset + 8] != PREAMBLE then None
    else
      var version, size := U32Le(file, offset + 8), U32Le(file, offset + 12);
      var count, flags := U32Le(file, offset + 16), U32Le(file, offset + 20);
      if (version != 2000 && version != 1000) || size < HEADER_SIZE || count > MAX_ITEMS ||
        Bit(flags, IS_HEADER) then None
      else
        var start := offset - (size - HEADER_SIZE);
        if start < 0 then None
        else Some(Tag(version, ParseItems(file[start..offset], 0, count), Bit(flags, READ_ONLY)))
  }

  /** ReadAPETags: the footer at the end of the file, or in front of an ID3v1 tag. */
  function Read(file: Buffer): Option<Tag> {
    if |file| < HEADER_SIZE then None
    else
      match ReadAt(file, |file| - HEADER_SIZE)
      case Some(tag) => Some(tag)
      case None =>
        if |file| > HEADER_SIZE + ID3V1_SIZE then ReadAt(file, |file| - HEADER_SIZE - ID3V1_SIZE) else None
  }

  /** The size of the tag whose footer stands at `offset`, with everything behind it; None if there is no footer. */
  function SizeAt(file: Buffer, offset: int): Option<int> {
    if offset < 0 || offset + HEADER_SIZE > |file| || file[offset..offset + 8] != PREAMBLE then None
    else
      var flags := U32Le(file, offset + 20);
      if Bit(flags, IS_HEADER) then None
      else
        Some(U32Le(file, offset + 12) + (if Bit(flags, HAS_HEADER) then HEADER_SIZE else 0)
          + (|file| - (offset + HEADER_SIZE)))
  }

  /** findExistingAPETagSize. */
  function Existing(file: Buffer): int {
    match SizeAt(file, |file| - HEADER_SIZE)
    case Some(n) => n
    case None =>
      if |file| > HEADER_SIZE + ID3V1_SIZE then
        match SizeAt(file, |file| - HEADER_SIZE - ID3V1_SIZE) case Some(n) => n case None => 0
      else 0
  }

  /** WriteAPETags: None when the tag is empty or the existing tag claims more than the file. */
  function Write(file: Buffer, tag: Tag): Option<Buffer> {
    match Marshal(tag)
    case None => None
    case Some(data) =>
      var n := Existing(file);
      if n > |file| then None
      else if n > 0 then Some(file[..|file| - n] + data)
      else Some(file + data)
  }

  /** The sizes of the tag fit their 32-bit fields. */
  ghost predicate FitsTag(tag: Tag) {
    && |ItemsBytes(tag.items, |tag.items|)| + HEADER_SIZE < TWO32 && 0 <= tag.version < TWO32 && |tag.items| < TWO32
    && forall i :: 0 <= i < |tag.items| ==> Fits(tag.items[i])
  }

  /** The fields of a header or footer block inside a file. */
  lemma {:induction false} BlockRead(front: Buffer, rest: Buffer, version: int, size: int, count: int, flags: int)
    requires 0 <= version < TWO32 && 0 <= size < TWO32 && 0 <= count < TWO32 && 0 <= flags < TWO32
    ensures var f, o := front + Block(version, size, count, flags) + rest, |front|;
      && f[o..o + 8] == PREAMBLE && U32Le(f, o + 8) == version && U32Le(f, o + 12) == size
      && U32Le(f, o + 16) == count && U32Le(f, o + 20) == flags
  {
    hide Le32, U32Le;
    var f, o := front + Block(version, size, count, flags) + rest, |front|;
    assert f[o + 8..o + 12] == Le32(version);
    assert f[o + 12..o + 16] == Le32(size);
    assert f[o + 16..o + 20] == Le32(count);
    assert f[o + 20..o + 24] == Le32(flags);
    U32OfLe32(f, o + 8, version);
    U32OfLe32(f, o + 12, size);
    U32OfLe32(f, o + 16, count);
    U32OfLe32(f, o + 20, flags);
  }

  lemma {:induction false} FooterBits()
    ensures !Bit(HAS_HEADER, IS_HEADER) && Bit(HAS_HEADER, HAS_HEADER) && !Bit(HAS_HEADER, READ_ONLY)
  {
  }

  /** A file that ends with a marshalled tag. */
  lemma {:induction false} EndsWithTag(front: Buffer, tag: Tag)
    requires FitsTag(tag) && tag.items != []
    ensures var data := Marshal(tag).value; Existing(front + data) == |data|
    ensures ReadAt(front + Marshal(tag).value, |front| + |Marshal(tag).value| - HEADER_SIZE) ==
      (var v := StoredVersion(tag);
       if (v == 2000 || v == 1000) && |tag.items| <= MAX_ITEMS
       then Some(Tag(v, ParseItems(ItemsBytes(tag.items, |tag.items|), 0, |tag.items|), false)) else None)
  {
    hide Block, U32Le, ParseItems, ItemsBytes, Fits, Bit;
    var body, v := ItemsBytes(tag.items, |tag.items|), StoredVersion(tag);
    var size := |body| + HEADER_SIZE;
    var head, foot := Block(v, size, |tag.items|, IS_HEADER + HAS_HEADER), Block(v, size, |tag.items|, HAS_HEADER);
    var file := front + (head + body + foot);
    var before := front + head + body;
    FooterBits();
    BlockRead(before, [], v, size, |tag.items|, HAS_HEADER);
    assert file == before + foot + [];
    assert file[|front| + HEADER_SIZE..|before|] == body;
  }

  /** Writing replaces: a second write leaves the file as if the first had not happened. */
  lemma {:induction false} WriteReplaces(file: Buffer, a: Tag, b: Tag)
    requires FitsTag(a) && Write(file, a).Some?
    ensures Write(Write(file, a).value, b) == Write(file, b)
  {
    hide Marshal, Existing, FitsTag, ReadAt;
    var data := Marshal(a).value;
    var n := Existing(file);
    var kept := if n > 0 then file[..|file| - n] else file;
    MarshalSome(a);
    EndsWithTag(kept, a);
    assert (kept + data)[..|kept|] == kept;
  }

  // ---------------------------------------------------------------- tags by other writers

  /** Bytes 8 to 11 hold the version, 12 to 15 the size, then the number of items and the flags. */
  ghost predicate Footer(foot: Buffer, version: int, size: int, count: int, flags: int) {
    && |foot| == 32 && foot[..8] == [0x41, 0x50, 0x45, 0x54, 0x41, 0x47, 0x45, 0x58]
    && U32Le(foot, 8) == version && U32Le(foot, 12) == size && U32Le(foot, 16) == count && U32Le(foot, 20) == flags
  }

  /** A tag as the APEv2 format has it: items and footer, and a header in front where the flags say so. */
  ghost predicate Foreign(head: Buffer, body: Buffer, foot: Buffer, version: int, count: int, flags: int) {
    && Footer(foot, version, |body| + 32, count, flags) && (flags / 0x2000_0000) % 2 == 0
    && |head| == if (flags / 0x8000_0000) % 2 == 1 then 32 else 0
  }

  /** What may stand behind the tag: nothing, or 128 bytes of ID3v1, in which no footer is recognised. */
  ghost predicate Trailer(tail: Buffer) {
    tail == [] || (|tail| == 128 && tail[96..104] != [0x41, 0x50, 0x45, 0x54, 0x41, 0x47, 0x45, 0x58])
  }

  /** The footer seen from the whole file. */
  lemma {:induction false} FooterInside(front: Buffer, foot: Buffer, tail: Buffer)
    requires |foot| == 32
    ensures var f, o := front + foot + tail, |front|;
      && f[o..o + 8] == foot[..8] && U32Le(f, o + 8) == U32Le(foot, 8) && U32Le(f, o + 12) == U32Le(foot, 12)
      && U32Le(f, o + 16) == U32Le(foot, 16) && U32Le(f, o + 20) == U32Le(foot, 20)
  {
    var f, o := front + foot + tail, |front|;
    assert forall i :: 0 <= i < 32 ==> f[o + i] == foot[i];
  }

  lemma {:induction false} ForeignFound(
      front: Buffer, head: Buffer, body: Buffer, foot: Buffer, tail: Buffer, version: int, count: int, flags: int)
    requires Foreign(head, body, foot, version, count, flags) && Trailer(tail)
    requires tail != [] ==> |front| + |head| + |body| > 0
    ensures Existing(front + head + body + foot + tail) == |head| + |body| + 32 + |tail|
    ensures (version == 2000 || version == 1000) && count <= 1000 ==>
      Read(front + head + body + foot + tail) == Some(Tag(version, ParseItems(body, 0, count), flags % 2 == 1))
  {
    hide U32Le, ParseItems;
    var before := front + head + body;
    var file := before + foot + tail;
    FooterInside(before, foot, tail);
    assert file[|front| + |head|..|before|] == body;
    if tail != [] { assert file[|file| - 32..|file| - 24] == tail[96..104]; }
  }

  /**
   Whoever wrote the tag, with a header or without, at the end of the file or in front of
   an ID3v1 tag: writing takes it away with what is behind it, and reading finds its items.
   */
  lemma {:induction false} ForeignReplaced(
      front: Buffer, head: Buffer, body: Buffer, foot: Buffer, tail: Buffer, version: int, count: int, flags: int,
      b: Tag)
    requires Foreign(head, body, foot, version, count, flags) && Trailer(tail)
    requires tail != [] ==> |front| + |head| + |body| > 0
    ensures b.items != [] ==> Write(front + head + body + foot + tail, b) == Some(front + Marshal(b).value)
  {
    hide Marshal, Read, Existing;
    ForeignFound(front, head, body, foot, tail, version, count, flags);
    assert Marshal(b).Some? == (b.items != []) by { MarshalSomeExactly(b); }
    var file := front + head + body + foot + tail;
    assert file[..|front|] == front;
  }

  lemma {:induction false} MarshalSomeExactly(tag: Tag)
    ensures Marshal(tag).Some? <==> tag.items != []
  {
  }

  /** The items that were printed are the ones read, whoever wrote the footer. */
  lemma {:induction false} ForeignRead(
      front: Buffer, head: Buffer, items: seq<Item>, foot: Buffer, tail: Buffer, version: int, flags: int)
    requires Foreign(head, ItemsBytes(items, |items|), foot, version, |items|, flags) && Trailer(tail)
    requires tail != [] ==> |front| + |head| + |ItemsBytes(items, |items|)| > 0
    requires (version == 2000 || version == 1000) && |items| <= 1000
    requires forall i :: 0 <= i < |items| ==> Fits(items[i]) && NulFree(items[i].key)
    ensures Read(front + head + ItemsBytes(items, |items|) + foot + tail) == Some(Tag(version, items, flags % 2 == 1))
  {
    hide Read, Existing, ParseItems, ItemsBytes, Fits, NulFree;
    ForeignFound(front, head, ItemsBytes(items, |items|), foot, tail, version, |items|, flags);
    ItemsRoundTrip(items);
  }

  lemma {:induction false} MarshalSome(tag: Tag)
    requires Marshal(tag).Some?
    ensures tag.items != [] && |Marshal(tag).value| >= 2 * HEADER_SIZE
  {
  }

  /** Whatever is read has a supported version and not too many items. */
  lemma {:induction false} ReadSupported(file: Buffer)
    requires Read(file).Some?
    ensures (Read(file).value.version == 2000 || Read(file).value.version == 1000) &&
      |Read(file).value.items| <= MAX_ITEMS
  {
    hide ParseItems, Bit, U32Le;
  }

  lemma {:induction false} ReadBack(file: Buffer, tag: Tag)
    requires FitsTag(tag) && Write(file, tag).Some?
    requires StoredVersion(tag) == 2000 || StoredVersion(tag) == 1000
    requires |tag.items| <= MAX_ITEMS
    ensures Read(Write(file, tag).value) == Some(Tag(StoredVersion(tag), tag.items, false))
      <==> forall i :: 0 <= i < |tag.items| ==> NulFree(tag.items[i].key)
  {
    hide Marshal, Existing, ReadAt, ParseItems, ItemsBytes, NulFree;
    var n := Existing(file);
    var kept := if n > 0 then file[..|file| - n] else file;
    MarshalSome(tag);
    EndsWithTag(kept, tag);
    assert Write(file, tag).value == kept + Marshal(tag).value;
    ItemsRoundTrip(tag.items);
  }

  /**
   Reading after writing: the items come back, with the stored version and without
   the read-only mark, exactly when the version is supported, there are at most
   1000 items and no key holds a zero byte.
   */
  lemma {:induction false} WriteThenRead(file: Buffer, tag: Tag)
    requires FitsTag(tag) && Write(file, tag).Some?
    ensures Read(Write(file, tag).value) == Some(Tag(StoredVersion(tag), tag.items, false))
      <==>
      && (StoredVersion(tag) == 2000 || StoredVersion(tag) == 1000) && |tag.items| <= MAX_ITEMS
      && forall i :: 0 <= i < |tag.items| ==> NulFree(tag.items[i].key)
  {
    hide Write, Read, NulFree;
    if (StoredVersion(tag) == 2000 || StoredVersion(tag) == 1000) && |tag.items| <= MAX_ITEMS {
      ReadBack(file, tag);
    } else if Read(Write(file, tag).value).Some? {
      ReadSupported(Write(file, tag).value);
    }
  }

  // ---------------------------------------------------------------- merging

  function UpperByte(b: byte): byte {
    if 0x61 <= b <= 0x7a then b - 0x20 else b
  }

  /** Keys are ASCII and compared without regard to case. */
  function Upper(key: Buffer): Buffer {
    seq(|key|, i requires 0 <= i < |key| => UpperByte(key[i]))
  }

  function Keys(items: seq<Item>): set<Buffer> {
    set i | 0 <= i < |items| :: Upper(items[i].key)
  }

  /** The items with a key in `keys`, or with none of them. */
  function Select(items: seq<Item>, n: nat, keys: set<Buffer>, inside: bool): seq<Item>
    requires n <= |items|
  {
    if n == 0 then []
    else Select(items, n - 1, keys, inside) + if (Upper(items[n - 1].key) in keys) == inside then [items[n - 1]] else []
  }

  method MergeAPEItems(existing: seq<Item>, newItems: seq<Item>, overrideKeys: set<Buffer>) returns (merged: seq<Item>)
    ensures merged == Merged(existing, newItems, overrideKeys)
  {
    var combined := (set k | k in overrideKeys :: Upper(k)) + Keys(newItems);
    merged := [];
    for i := 0 to |existing|
      invariant merged == Select(existing, i, combined, false)
    {
      if Upper(existing[i].key) !in combined { merged := merged + [existing[i]]; }
    }
    merged := merged + newItems;
  }

  function Overwritten(newItems: seq<Item>, overrideKeys: set<Buffer>): set<Buffer> {
    (set k | k in overrideKeys :: Upper(k)) + Keys(newItems)
  }

  function Merged(existing: seq<Item>, newItems: seq<Item>, overrideKeys: set<Buffer>): seq<Item> {
    Select(existing, |existing|, Overwritten(newItems, overrideKeys), false) + newItems
  }

  lemma {:induction false} SelectConcat(a: seq<Item>, b: seq<Item>, n: nat, keys: set<Buffer>, inside: bool)
    requires n <= |a| + |b|
    ensures Select(a + b, n, keys, inside) ==
      if n <= |a| then Select(a, n, keys, inside) else Select(a, |a|, keys, inside) + Select(b, n - |a|, keys, inside)
    decreases n
  {
    if n > 0 { SelectConcat(a, b, n - 1, keys, inside); }
  }

  lemma {:induction false} SelectSingle(i: Item, keys: set<Buffer>)
    ensures Select([i], 1, keys, true) == if Upper(i.key) in keys then [i] else []
  {
    assert Select([i], 0, keys, true) == [];
  }

  lemma {:induction false} SelectStep(items: seq<Item>, n: nat, keys: set<Buffer>, inside: bool)
    requires 0 < n <= |items|
    ensures Select(items, n, keys, inside) ==
      if (Upper(items[n - 1].key) in keys) == inside then Select(items, n - 1, keys, inside) + [items[n - 1]]
      else Select(items, n - 1, keys, inside)
  {
    hide Upper;
  }

  lemma {:induction false} SelectNone(items: seq<Item>, keys: set<Buffer>, inside: bool)
    ensures Select(items, 0, keys, inside) == []
  {
  }

  lemma {:induction false} SelectOne(items: seq<Item>, n: nat, drop: set<Buffer>, k: Buffer)
    requires n <= |items|
    ensures var kept := Select(items, n, drop, false);
      Select(kept, |kept|, {k}, true) == if k in drop then [] else Select(items, n, {k}, true)
    decreases n
  {
    hide Upper, Select;
    SelectNone(items, drop, false);
    SelectNone(items, {k}, true);
    SelectNone([], {k}, true);
    if n > 0 {
      SelectOne(items, n - 1, drop, k);
      SelectStep(items, n, drop, false);
      SelectStep(items, n, {k}, true);
      var kept := Select(items, n - 1, drop, false);
      if Upper(items[n - 1].key) !in drop {
        SelectConcat(kept, [items[n - 1]], |kept| + 1, {k}, true);
        SelectSingle(items[n - 1], {k});
      }
    }
  }

  /** Under every key a reader finds the new items if the key is overwritten, and otherwise the old ones, in order. */
  lemma {:induction false} MergedLookup(existing: seq<Item>, newItems: seq<Item>, overrideKeys: set<Buffer>,
    key: Buffer)
    ensures var m, k := Merged(existing, newItems, overrideKeys), {Upper(key)};
      Select(m, |m|, k, true) ==
        if Upper(key) in Overwritten(newItems, overrideKeys) then Select(newItems, |newItems|, k, true)
        else Select(existing, |existing|, k, true)
  {
    hide Upper, Select;
    var drop := Overwritten(newItems, overrideKeys);
    var kept := Select(existing, |existing|, drop, false);
    SelectConcat(kept, newItems, |kept| + |newItems|, {Upper(key)}, true);
    SelectOne(existing, |existing|, drop, Upper(key));
    SelectNone(newItems, {Upper(key)}, true);
    if Upper(key) !in drop { NoneSelected(newItems, |newItems|, Upper(key)); }
  }

  lemma {:induction false} NoneSelected(items: seq<Item>, n: nat, k: Buffer)
    requires n <= |items| && k !in Keys(items)
    ensures Select(items, n, {k}, true) == []
    decreases n
  {
    if n > 0 { NoneSelected(items, n - 1, k); }
  }

  // ---------------------------------------------------------------- the code

  method ParseAPEItems(data: Buffer, count: nat) returns (items: seq<Item>)
    ensures items == ParseItems(data, 0, count)
  {
    hide U32Le, KeyEnd;
    items := [];
    var pos: nat, i: nat := 0, 0;
    while i < count && pos < |data|
      invariant i <= count && pos <= |data| && ParseItems(data, 0, count) == items + ParseItems(data, pos, count - i)
      decreases count - i
    {
      if pos + 8 > |data| { return; }
      var valueSize, itemFlags := U32Le(data, pos), U32Le(data, pos + 4);
      var keyEnd := FindKeyEnd(data, pos + 8);
      if keyEnd >= |data| || keyEnd + 1 + valueSize > |data| { return; }
      items := items + [Item(data[pos + 8..keyEnd], data[keyEnd + 1..keyEnd + 1 + valueSize], itemFlags)];
      pos, i := keyEnd + 1 + valueSize, i + 1;
    }
  }

  method FindKeyEnd(data: Buffer, from: nat) returns (keyEnd: nat)
    requires from <= |data|
    ensures keyEnd == KeyEnd(data, from)
  {
    keyEnd := from;
    while keyEnd < |data| && data[keyEnd] != 0
      invariant from <= keyEnd <= |data| && KeyEnd(data, from) == KeyEnd(data, keyEnd)
    {
      keyEnd := keyEnd + 1;
    }
  }

  method MarshalAPETag(tag: Tag) returns (r: Option<Buffer>)
    ensures r == Marshal(tag)
  {
    hide ItemBytes, Block;
    if |tag.items| == 0 { return None; }
    var itemsData: Buffer := [];
    for i := 0 to |tag.items|
      invariant itemsData == ItemsBytes(tag.items, i)
    {
      itemsData := itemsData + ItemBytes(tag.items[i]);
    }
    var tagSize := |itemsData| + HEADER_SIZE;
    var version := 2000;
    if tag.version != 0 { version := tag.version; }
    var header := Block(version, tagSize, |tag.items|, IS_HEADER + HAS_HEADER);
    var footer := Block(version, tagSize, |tag.items|, HAS_HEADER);
    return Some(header + itemsData + footer);
  }

  method FindExistingAPETagSize(file: Buffer) returns (n: int)
    ensures n == Existing(file)
  {
    var offsets := [|file| - HEADER_SIZE];
    if |file| > HEADER_SIZE + ID3V1_SIZE { offsets := offsets + [|file| - HEADER_SIZE - ID3V1_SIZE]; }
    for i := 0 to |offsets|
      invariant forall j :: 0 <= j < i ==> SizeAt(file, offsets[j]).None?
    {
      var offset := offsets[i];
      if offset >= 0 && file[offset..offset + 8] == PREAMBLE {
        var flags := U32Le(file, offset + 20);
        if !Bit(flags, IS_HEADER) {
          var totalSize := U32Le(file, offset + 12);
          if Bit(flags, HAS_HEADER) { totalSize := totalSize + HEADER_SIZE; }
          if i == 1 { assert SizeAt(file, offsets[0]).None?; }
          return totalSize + (|file| - (offset + HEADER_SIZE));
        }
      }
    }
    assert SizeAt(file, offsets[0]).None?;
    if |offsets| > 1 { assert SizeAt(file, offsets[1]).None?; }
    return 0;
  }

  /** A file on disk. */
  class File {
    var data: Buffer

    constructor (data: Buffer)
      ensures this.data == data
    {
      this.data := data;
    }

    method WriteAPETags(tag: Tag) returns (ok: bool)
      modifies this
      ensures ok <==> Write(old(data), tag).Some?
      ensures data == if ok then Write(old(data), tag).value else old(data)
    {
      hide Marshal, Existing;
      var existingSize := FindExistingAPETagSize(data);
      var tagData := MarshalAPETag(tag);
      if tagData.None? { return false; }
      if existingSize > 0 {
        var newSize := |data| - existingSize;
        if newSize < 0 { return false; }
        data := data[..newSize];
      }
      data := data + tagData.value;
      return true;
    }
  }
}
