/**
 What the patterned transform makes of a file, block by block: cipher block
 chaining and the counter mode as NIST SP 800-38A gives them in sections 6.2 and
 6.5, in terms of the block cipher and of block numbers alone.
 */
module PatternedBlocks {
  import opened PatternedTransform

  // ---------------------------------------------------------------- counter blocks as numbers

  function Value(b: Bytes): nat {
    if b == [] then 0 else Value(b[..|b| - 1]) * 256 + b[|b| - 1] as nat
  }

  function Power(n: nat): (r: nat)
    ensures r > 0
  {
    if n == 0 then 1 else 256 * Power(n - 1)
  }

  /** The `n` bytes whose big-endian value is `v`. */
  function Digits(v: nat, n: nat): (r: Bytes)
    requires v < Power(n)
    ensures |r| == n && Value(r) == v
  {
    if n == 0 then []
    else
      ByteOfInt(v % 256);
      var head := Digits(v / 256, n - 1);
      assert (head + [(v % 256) as bv8])[..n - 1] == head;
      head + [(v % 256) as bv8]
  }

  lemma {:induction false} ByteOfInt(v: nat)
    requires v < 256
    ensures (v as bv8) as nat == v
    decreases v
  {
    if v > 0 {
      ByteOfInt(v - 1);
      Successor((v - 1) as bv8);
      assert ((v - 1) as bv8 + 1) as nat == v;
    }
  }

  lemma {:induction false} IntOfByte(x: bv8)
    ensures x as nat < 256 && (x as nat) as bv8 == x
  {
  }

  lemma {:induction false} ValueBelow(b: Bytes)
    ensures Value(b) < Power(|b|)
  {
    if b != [] {
      ValueBelow(b[..|b| - 1]);
      IntOfByte(b[|b| - 1]);
    }
  }

  lemma {:induction false} DigitsOfValue(b: Bytes)
    ensures Value(b) < Power(|b|) && Digits(Value(b), |b|) == b
  {
    ValueBelow(b);
    if b != [] {
      var n := |b| - 1;
      DigitsOfValue(b[..n]);
      DigitsOfNext(b[..n], b[n]);
      assert b == b[..n] + [b[n]];
    }
  }

  lemma {:induction false} DigitsOfNext(head: Bytes, x: bv8)
    requires Value(head) < Power(|head|) && Digits(Value(head), |head|) == head
    requires Value(head + [x]) < Power(|head| + 1)
    ensures Digits(Value(head + [x]), |head| + 1) == head + [x]
  {
    hide Value, Power, Digits;
    ValueOfNext(head, x);
    IntOfByte(x);
    DigitsUnfolded(Value(head), x as nat, |head|);
  }

  lemma {:induction false} DigitsUnfolded(v: nat, x: nat, n: nat)
    requires x < 256 && v < Power(n) && v * 256 + x < Power(n + 1)
    ensures Digits(v * 256 + x, n + 1) == Digits(v, n) + [x as bv8]
  {
    hide Value, Power;
    LastDigit(v, x);
  }

  lemma {:induction false} LastDigit(v: nat, x: nat)
    requires x < 256
    ensures (v * 256 + x) / 256 == v && (v * 256 + x) % 256 == x
  {
  }

  lemma {:induction false} ValueOfNext(head: Bytes, x: bv8)
    ensures Value(head + [x]) == Value(head) * 256 + x as nat && Value([]) == 0
  {
    assert (head + [x])[..|head|] == head;
  }

  lemma {:induction false} Successor(x: bv8)
    ensures x == 255 ==> x as nat == 255
    ensures x != 255 ==> (x + 1) as nat == x as nat + 1
  {
  }

  /** Counting up wraps around at the size of the block. */
  lemma {:induction false} NextValue(b: Bytes)
    ensures Value(Next(b)) == (Value(b) + 1) % Power(|b|)
  {
    if b != [] {
      hide Value, Power;
      var n := |b| - 1;
      var head, x := b[..n], b[n];
      assert b == head + [x];
      NextValue(head);
      ValueBelow(head);
      ValueOfNext(head, x);
      Successor(x);
      Carried(Value(head), x as nat, Power(n));
      PowerOfNext(n);
      if x == 255 { ValueOfNext(Next(head), 0); } else { ValueOfNext(head, x + 1); }
    }
  }

  lemma {:induction false} PowerOfNext(n: nat)
    ensures Power(n + 1) == 256 * Power(n)
  {
  }

  lemma {:induction false} Carried(v: nat, x: nat, p: nat)
    requires v < p && x < 256
    ensures x == 255 ==> ((v + 1) % p) * 256 == (v * 256 + x + 1) % (256 * p)
    ensures x != 255 ==> v * 256 + x + 1 == (v * 256 + x + 1) % (256 * p)
  {
    if v + 1 < p { Small(v + 1, p); }
    else { BlocksLeft(p, p); BlocksLeft(256 * p, 256 * p); }
    if v * 256 + x + 1 < 256 * p { Small(v * 256 + x + 1, 256 * p); }
  }

  lemma {:induction false} Small(v: nat, p: nat)
    requires v < p
    ensures v % p == v
  {
  }

  /** Counter block `k` of section 6.5 behind the initial block: its number, modulo the number of blocks. */
  function Counter(iv: Bytes, k: nat): (r: Bytes)
    ensures |r| == |iv| && Value(r) == (Value(iv) + k) % Power(|iv|)
  {
    Digits((Value(iv) + k) % Power(|iv|), |iv|)
  }

  lemma {:induction false} CounterOfNext(iv: Bytes, k: nat)
    ensures Counter(iv, 0) == iv && Counter(Next(iv), k) == Counter(iv, k + 1)
  {
    hide Digits, Value, Power;
    ValueBelow(iv);
    DigitsOfValue(iv);
    NextValue(iv);
    Small(Value(iv), Power(|iv|));
    OneMore(Value(iv), k, Power(|iv|));
  }

  lemma {:induction false} OneMore(v: nat, k: nat, p: nat)
    requires v < p
    ensures ((v + 1) % p + k) % p == (v + (k + 1)) % p
  {
    if v + 1 < p {
      Small(v + 1, p);
    } else {
      BlocksLeft(p, p);
      BlocksLeft(p + k, p);
    }
  }

  // ---------------------------------------------------------------- one segment

  /** Block `k` of a text cut into blocks of `n` bytes. */
  function Block(b: Bytes, n: nat, k: nat): (r: Bytes)
    requires k * n + n <= |b|
    ensures |r| == n
  {
    b[k * n..k * n + n]
  }

  /** The block before block `k`, which is the initial one for the first. */
  function Previous(first: Bytes, b: Bytes, k: nat): (r: Bytes)
    requires k * |first| <= |b|
    ensures |r| == |first|
  {
    if k == 0 then first
    else
      NextSegment(k - 1, |first|);
      Block(b, |first|, k - 1)
  }

  ghost predicate EncryptedBlock(c: Cipher, iv: Bytes, text: Bytes, out: Bytes, k: nat)
    requires |iv| == c.size && k * c.size + c.size <= |text| == |out|
  {
    Block(out, c.size, k) == Image(c.code, Xor(Block(text, c.size, k), Previous(iv, out, k)))
  }

  ghost predicate DecryptedBlock(c: Cipher, iv: Bytes, text: Bytes, out: Bytes, k: nat)
    requires Permutation(c) && |iv| == c.size && k * c.size + c.size <= |text| == |out|
  {
    BlockPaired(c, Block(text, c.size, k));
    Block(out, c.size, k) == Xor(Image(c.back, Block(text, c.size, k)), Previous(iv, text, k))
  }

  /** Block `k`, or as much of it as there is. */
  ghost predicate CountedBlock(c: Cipher, iv: Bytes, text: Bytes, out: Bytes, k: nat)
    requires Permutation(c) && |iv| == c.size && |text| == |out|
  {
    BlockPaired(c, Counter(iv, k));
    var key := Image(c.code, Counter(iv, k));
    forall j: nat :: j < c.size && k * c.size + j < |text| ==>
      out[k * c.size + j] == text[k * c.size + j] ^ key[j]
  }

  /** Sections 6.2 and 6.5 of SP 800-38A. */
  ghost predicate Transformed(o: Options, text: Bytes, out: Bytes)
    requires Permutation(o.cipher)
  {
    var c := o.cipher;
    && |out| == |text|
    && (o.mode == CTR ==> forall k: nat :: CountedBlock(c, c.iv, text, out, k))
    && (o.mode == CBC ==>
      && |text| % c.size == 0
      && forall k: nat :: k * c.size + c.size <= |text| ==>
        if o.operation == Encrypt then EncryptedBlock(c, c.iv, text, out, k)
        else DecryptedBlock(c, c.iv, text, out, k))
  }

  /** Block `k` behind one more block in front. */
  lemma {:induction false} Behind(head: Bytes, rest: Bytes, k: nat)
    requires k > 0 && k * |head| + |head| <= |head| + |rest|
    ensures (k - 1) * |head| + |head| == k * |head| && (k - 1) * |head| + |head| <= |rest|
    ensures Block(head + rest, |head|, k) == Block(rest, |head|, k - 1)
    ensures Previous(head, rest, k - 1) == Block(head + rest, |head|, k - 1)
  {
    NextSegment(k - 1, |head|);
    if k > 1 { NextSegment(k - 2, |head|); }
    if k > 1 {
      assert Block(rest, |head|, k - 2) == Block(head + rest, |head|, k - 1);
    }
  }

  lemma {:induction false} First(head: Bytes, rest: Bytes)
    ensures Block(head + rest, |head|, 0) == head
  {
  }

  lemma {:induction false} EncryptedBehind(
      c: Cipher, iv: Bytes, head: Bytes, tail: Bytes, b: Bytes, rest: Bytes, k: nat)
    requires |iv| == |head| == |b| == c.size && |tail| == |rest| && k > 0 && k * c.size <= |tail|
    requires (k - 1) * c.size + c.size == k * c.size && EncryptedBlock(c, b, tail, rest, k - 1)
    ensures EncryptedBlock(c, iv, head + tail, b + rest, k)
  {
    hide Xor, Image, Block;
    Behind(head, tail, k);
    Behind(b, rest, k);
  }

  /** The first block of a text that has a block `k`. */
  lemma {:induction false} FirstBlock(c: Cipher, iv: Bytes, text: Bytes, k: nat)
    requires Permutation(c) && |iv| == c.size && |text| % c.size == 0 && k * c.size + c.size <= |text|
    ensures c.size <= |text| && |text[c.size..]| % c.size == 0 && text == text[..c.size] + text[c.size..]
    ensures |EncryptBlock(c, Xor(text[..c.size], iv))| == |DecryptBlock(c, text[..c.size])| == c.size
    ensures var head, tail := text[..c.size], text[c.size..];
      var b := EncryptBlock(c, Xor(head, iv));
      && CbcEncrypt(c, iv, text) == b + CbcEncrypt(c, b, tail)
      && CbcDecrypt(c, iv, text) == Xor(DecryptBlock(c, head), iv) + CbcDecrypt(c, head, tail)
  {
    AtLeast(c.size, k + 1);
    hide Xor, CbcEncrypt, CbcDecrypt, Image, Permutation;
    BlocksLeft(|text|, c.size);
    BlockPaired(c, text[..c.size]);
    BlockPaired(c, Xor(text[..c.size], iv));
    CbcOfParts(c, iv, text[..c.size], text[c.size..]);
  }

  lemma {:induction false} EncryptedFirst(c: Cipher, iv: Bytes, head: Bytes, tail: Bytes, rest: Bytes)
    requires Permutation(c) && |iv| == |head| == c.size && |tail| == |rest|
    ensures var b := EncryptBlock(c, Xor(head, iv));
      |b| == c.size && EncryptedBlock(c, iv, head + tail, b + rest, 0)
  {
    hide Xor, Image, Block, Permutation;
    BlockPaired(c, Xor(head, iv));
    First(head, tail);
    First(EncryptBlock(c, Xor(head, iv)), rest);
  }

  lemma {:induction false} CbcEncryptAt(c: Cipher, iv: Bytes, text: Bytes, k: nat)
    requires Permutation(c) && |iv| == c.size && |text| % c.size == 0 && k * c.size + c.size <= |text|
    ensures EncryptedBlock(c, iv, text, CbcEncrypt(c, iv, text), k)
    decreases k
  {
    hide Xor, CbcEncrypt, Image, Permutation, EncryptedBlock;
    FirstBlock(c, iv, text, k);
    var head, tail := text[..c.size], text[c.size..];
    var b := EncryptBlock(c, Xor(head, iv));
    var rest := CbcEncrypt(c, b, tail);
    if k == 0 {
      EncryptedFirst(c, iv, head, tail, rest);
    } else {
      NextSegment(k - 1, c.size);
      CbcEncryptAt(c, b, tail, k - 1);
      EncryptedBehind(c, iv, head, tail, b, rest, k);
    }
  }

  lemma {:induction false} DecryptedBehind(
      c: Cipher, iv: Bytes, head: Bytes, tail: Bytes, p: Bytes, rest: Bytes, k: nat)
    requires Permutation(c) && |iv| == |head| == |p| == c.size && |tail| == |rest| && k > 0 && k * c.size <= |tail|
    requires (k - 1) * c.size + c.size == k * c.size && DecryptedBlock(c, head, tail, rest, k - 1)
    ensures DecryptedBlock(c, iv, head + tail, p + rest, k)
  {
    hide Xor, Image, Block, Permutation;
    Behind(head, tail, k);
    Behind(p, rest, k);
  }

  lemma {:induction false} DecryptedFirst(c: Cipher, iv: Bytes, head: Bytes, tail: Bytes, rest: Bytes)
    requires Permutation(c) && |iv| == |head| == c.size && |tail| == |rest|
    ensures |DecryptBlock(c, head)| == c.size
    ensures DecryptedBlock(c, iv, head + tail, Xor(DecryptBlock(c, head), iv) + rest, 0)
  {
    hide Xor, Image, Block, Permutation;
    BlockPaired(c, head);
    First(head, tail);
    First(Xor(DecryptBlock(c, head), iv), rest);
  }

  lemma {:induction false} CbcDecryptAt(c: Cipher, iv: Bytes, text: Bytes, k: nat)
    requires Permutation(c) && |iv| == c.size && |text| % c.size == 0 && k * c.size + c.size <= |text|
    ensures DecryptedBlock(c, iv, text, CbcDecrypt(c, iv, text), k)
    decreases k
  {
    hide Xor, CbcDecrypt, Image, Permutation, DecryptedBlock;
    FirstBlock(c, iv, text, k);
    var head, tail := text[..c.size], text[c.size..];
    var p := Xor(DecryptBlock(c, head), iv);
    var rest := CbcDecrypt(c, head, tail);
    if k == 0 {
      DecryptedFirst(c, iv, head, tail, rest);
    } else {
      NextSegment(k - 1, c.size);
      CbcDecryptAt(c, head, tail, k - 1);
      DecryptedBehind(c, iv, head, tail, p, rest, k);
    }
  }

  lemma {:induction false} CtrAt(c: Cipher, iv: Bytes, text: Bytes, k: nat)
    requires Permutation(c) && |iv| == c.size
    ensures CountedBlock(c, iv, text, Ctr(c, iv, text), k)
    decreases k
  {
    hide Counter, Permutation, Image, Ctr, CountedBlock;
    if k == 0 {
      CtrFirst(c, iv, text);
    } else if |text| > c.size {
      CtrAt(c, Next(iv), text[c.size..], k - 1);
      CtrBehind(c, iv, text, k);
    } else {
      Nothing(c, iv, text, k);
    }
  }

  lemma {:induction false} Nothing(c: Cipher, iv: Bytes, text: Bytes, k: nat)
    requires Permutation(c) && |iv| == c.size && k > 0 && |text| <= c.size
    ensures CountedBlock(c, iv, text, Ctr(c, iv, text), k)
  {
    hide Counter, Permutation, Image, Ctr;
    NextSegment(k - 1, c.size);
  }

  lemma {:induction false} CtrFirst(c: Cipher, iv: Bytes, text: Bytes)
    requires Permutation(c) && |iv| == c.size
    ensures CountedBlock(c, iv, text, Ctr(c, iv, text), 0)
  {
    hide Counter, Permutation, Image;
    CounterOfNext(iv, 0);
    BlockPaired(c, iv);
  }

  lemma {:induction false} CtrBehind(c: Cipher, iv: Bytes, text: Bytes, k: nat)
    requires Permutation(c) && |iv| == c.size && k > 0 && |text| > c.size
    requires CountedBlock(c, Next(iv), text[c.size..], Ctr(c, Next(iv), text[c.size..]), k - 1)
    ensures CountedBlock(c, iv, text, Ctr(c, iv, text), k)
  {
    hide Counter, Permutation, Image;
    CounterOfNext(iv, k - 1);
    NextSegment(k - 1, c.size);
    BlockPaired(c, iv);
    BlockPaired(c, Counter(iv, k));
    var first := Xor(text[..c.size], EncryptBlock(c, iv));
    assert text == text[..c.size] + text[c.size..];
    CountedBehind(text[..c.size], first, text[c.size..], Ctr(c, Next(iv), text[c.size..]),
                  EncryptBlock(c, Counter(iv, k)), k);
  }

  lemma {:induction false} CountedBehind(head: Bytes, first: Bytes, tail: Bytes, rest: Bytes, key: Bytes, k: nat)
    requires k > 0 && |head| == |first| == |key| && |tail| == |rest|
    requires k * |head| == (k - 1) * |head| + |head|
    requires forall j: nat :: j < |head| && (k - 1) * |head| + j < |tail| ==>
      rest[(k - 1) * |head| + j] == tail[(k - 1) * |head| + j] ^ key[j]
    ensures forall j: nat :: j < |head| && k * |head| + j < |head| + |tail| ==>
      (first + rest)[k * |head| + j] == (head + tail)[k * |head| + j] ^ key[j]
  {
    var at, n := (k - 1) * |head|, |head|;
    forall j: nat | j < n && k * n + j < n + |tail|
      ensures (first + rest)[k * n + j] == (head + tail)[k * n + j] ^ key[j]
    {
      assert rest[at + j] == tail[at + j] ^ key[j];
    }
  }

  lemma {:induction false} SegmentTransformed(o: Options, text: Bytes)
    requires Accepted(o) && (o.mode == CBC ==> |text| % o.cipher.size == 0)
    ensures Transformed(o, text, Segment(o, text))
  {
    hide CbcEncrypt, CbcDecrypt, Ctr, EncryptedBlock, DecryptedBlock, CountedBlock;
    var c, out := o.cipher, Segment(o, text);
    if o.mode == CTR {
      forall k: nat ensures CountedBlock(c, c.iv, text, out, k) { CtrAt(c, c.iv, text, k); }
    } else {
      forall k: nat | k * c.size + c.size <= |text|
        ensures if o.operation == Encrypt then EncryptedBlock(c, c.iv, text, out, k)
                else DecryptedBlock(c, c.iv, text, out, k)
      {
        if o.operation == Encrypt { CbcEncryptAt(c, c.iv, text, k); } else { CbcDecryptAt(c, c.iv, text, k); }
      }
    }
  }

  // ---------------------------------------------------------------- the whole file

  ghost predicate Begins(o: Options, file: Bytes, i: nat) {
    i * o.segmentSize < |file|
  }

  /** Segment `i` is one of those to transform, and whole unless partial ones are asked for. */
  ghost predicate Chosen(o: Options, file: Bytes, i: nat)
    requires o.transformEvery > 0
  {
    i % o.transformEvery == o.transformOffset && (i * o.segmentSize + o.segmentSize <= |file| || o.transformPartial)
  }

  /** Bytes [i * segmentSize, (i + 1) * segmentSize), or as many of them as there are. */
  ghost function Stretch(o: Options, b: Bytes, i: nat): Bytes
    requires Begins(o, b, i)
  {
    var start := i * o.segmentSize;
    if start + o.segmentSize <= |b| then b[start..start + o.segmentSize] else b[start..]
  }

  ghost predicate SegmentDone(o: Options, file: Bytes, out: Bytes, i: nat)
    requires Accepted(o) && |out| == |file|
  {
    Begins(o, file, i) ==>
      if Chosen(o, file, i) then Transformed(o, Stretch(o, file, i), Stretch(o, out, i))
      else Stretch(o, out, i) == Stretch(o, file, i)
  }

  /** Every chosen segment is transformed, every other one is as it was, and both are counted. */
  ghost predicate OutputOf(o: Options, file: Bytes, out: Bytes, segments: nat, transformed: nat)
    requires Accepted(o)
  {
    && |out| == |file|
    && (forall i: nat :: SegmentDone(o, file, out, i))
    && (forall i: nat :: Begins(o, file, i) <==> i < segments)
    && transformed == |ChosenIn(o, file, 0, segments)|
  }

  ghost function ChosenIn(o: Options, file: Bytes, from: nat, to: nat): set<nat>
    requires o.transformEvery > 0
  {
    set i: nat | from <= i < to && Chosen(o, file, i)
  }

  lemma {:induction false} ChosenIsSelected(o: Options, file: Bytes, i: nat)
    requires Accepted(o) && Begins(o, file, i)
    ensures var at := i * o.segmentSize;
      && Stretch(o, file, i) == file[at..EndOf(o, file, at)]
      && (Chosen(o, file, i) <==> Selected(o, i, EndOf(o, file, at) - at))
  {
    hide Permutation;
  }

  /** Segment `i` in the output for everything from segment `index` on. */
  lemma {:induction false} PieceAt(o: Options, file: Bytes, pos: nat, index: nat, i: nat)
    requires Accepted(o) && pos == index * o.segmentSize && index <= i && Begins(o, file, i)
    requires pos <= |file| && Whole(o, file, pos, index).Done?
    ensures var out, at := Whole(o, file, pos, index).bytes, i * o.segmentSize;
      var end := EndOf(o, file, at);
      && pos <= at < end <= |file| && |out| == |file| - pos && Takes(o, i, end - at)
      && out[at - pos..end - pos] == Piece(o, i, file[at..end])
    decreases i - index
  {
    hide Whole, Piece, Permutation, Takes, Selected;
    var out, at := Whole(o, file, pos, index).bytes, i * o.segmentSize;
    Later(index, i, o.segmentSize);
    var next := EndOf(o, file, pos);
    WholeKeepsLength(o, file, pos, index);
    WholeStep(o, file, pos, next, index);
    WholeKeepsLength(o, file, next, index + 1);
    if index < i {
      NextSegment(index, o.segmentSize);
      Later(index + 1, i, o.segmentSize);
      PieceAt(o, file, next, index + 1, i);
      PartBehind(Piece(o, index, file[pos..next]), Whole(o, file, next, index + 1).bytes,
                 at - pos, EndOf(o, file, at) - pos);
    } else {
      PartInFront(Piece(o, index, file[pos..next]), Whole(o, file, next, index + 1).bytes);
    }
  }

  lemma {:induction false} PartBehind(head: Bytes, rest: Bytes, from: nat, to: nat)
    requires |head| <= from <= to <= |head| + |rest|
    ensures (head + rest)[from..to] == rest[from - |head|..to - |head|]
  {
  }

  lemma {:induction false} PartInFront(head: Bytes, rest: Bytes)
    ensures (head + rest)[0..|head|] == head
  {
  }

  lemma {:induction false} SegmentAt(o: Options, file: Bytes, i: nat)
    requires Accepted(o) && Whole(o, file, 0, 0).Done? && |Whole(o, file, 0, 0).bytes| == |file|
    ensures SegmentDone(o, file, Whole(o, file, 0, 0).bytes, i)
  {
    hide Whole, Permutation, Transformed, Segment;
    if Begins(o, file, i) {
      var out, at := Whole(o, file, 0, 0).bytes, i * o.segmentSize;
      PieceAt(o, file, 0, 0, i);
      ChosenIsSelected(o, file, i);
      var text := file[at..EndOf(o, file, at)];
      assert Stretch(o, out, i) == Piece(o, i, text);
      if Chosen(o, file, i) { SegmentTransformed(o, text); }
    }
  }

  lemma {:induction false} CountsFrom(o: Options, file: Bytes, pos: nat, index: nat)
    requires Accepted(o) && Whole(o, file, pos, index).Done?
    requires pos == index * o.segmentSize || (pos == |file| <= index * o.segmentSize)
    ensures var r := Whole(o, file, pos, index);
      && (forall i: nat :: index <= i ==> (Begins(o, file, i) <==> i < index + r.segments))
      && r.transformed == |ChosenIn(o, file, index, index + r.segments)|
    decreases |file| - pos
  {
    hide Permutation, Begins, Chosen, ChosenIn;
    if pos >= |file| {
      CountsAtEnd(o, file, index);
    } else {
      var end := EndOf(o, file, pos);
      NextSegment(index, o.segmentSize);
      CountsFrom(o, file, end, index + 1);
      var rest := Whole(o, file, end, index + 1);
      CountedStep(o, file, pos, end, index);
      ChosenStep(o, file, index, index + 1 + rest.segments);
    }
  }

  lemma {:induction false} CountsAtEnd(o: Options, file: Bytes, index: nat)
    requires o.transformEvery > 0 && |file| <= index * o.segmentSize
    ensures forall i: nat :: index <= i ==> !Begins(o, file, i)
    ensures |ChosenIn(o, file, index, index)| == 0
  {
    forall i: nat | index <= i ensures !Begins(o, file, i) { Later(index, i, o.segmentSize); }
    assert ChosenIn(o, file, index, index) == {};
  }

  lemma {:induction false} CountedStep(o: Options, file: Bytes, pos: nat, end: nat, index: nat)
    requires Accepted(o) && pos == index * o.segmentSize < |file| && end == EndOf(o, file, pos)
    requires Whole(o, file, pos, index).Done?
    ensures Begins(o, file, index)
    ensures var r, rest := Whole(o, file, pos, index), Whole(o, file, end, index + 1);
      && rest.Done? && r.segments == rest.segments + 1
      && r.transformed == rest.transformed + if Chosen(o, file, index) then 1 else 0
  {
    hide Segment, Permutation;
    ChosenIsSelected(o, file, index);
  }

  lemma {:induction false} ChosenStep(o: Options, file: Bytes, from: nat, to: nat)
    requires o.transformEvery > 0 && from < to
    ensures |ChosenIn(o, file, from, to)|
      == |ChosenIn(o, file, from + 1, to)| + if Chosen(o, file, from) then 1 else 0
  {
    hide Chosen;
    var rest := ChosenIn(o, file, from + 1, to);
    assert ChosenIn(o, file, from, to) == if Chosen(o, file, from) then rest + {from} else rest;
  }

  /** The segment-by-segment definition gives this output, and is refused exactly for an unfit segment. */
  lemma {:induction false} WholeByBlocks(o: Options, file: Bytes)
    requires Accepted(o)
    ensures var r := Whole(o, file, 0, 0);
      && (r.Done? ==> OutputOf(o, file, r.bytes, r.segments, r.transformed))
      && (r.Refused? ==> Unfit(o, file, r.segment))
      && (r.Refused? <==> exists k :: Unfit(o, file, k))
  {
    hide Whole, Unfit, SegmentDone, Begins, ChosenIn;
    var r := Whole(o, file, 0, 0);
    RefusedFrom(o, file, 0, 0);
    RefusedExactly(o, file);
    if r.Done? {
      WholeKeepsLength(o, file, 0, 0);
      CountsFrom(o, file, 0, 0);
      forall i: nat ensures SegmentDone(o, file, r.bytes, i) { SegmentAt(o, file, i); }
    }
  }
}
