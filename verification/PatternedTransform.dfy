/**
 fileTransformPatternedBlocks of go_backend/extension_runtime_file_transform.go:
 selected fixed-size segments of a file go through CBC or CTR (NIST SP 800-38A,
 sections 6.2 and 6.5) over an abstract block permutation. Here: segment by
 segment, and decrypting undoes encrypting.
 */
module PatternedTransform {
  type Bytes = seq<bv8>

  /** A block cipher under one key, as the table of its blocks both ways, and the initialization vector. */
  datatype Cipher = Cipher(size: nat, code: map<Bytes, Bytes>, back: map<Bytes, Bytes>, iv: Bytes)

  function Image(table: map<Bytes, Bytes>, b: Bytes): Bytes {
    if b in table then table[b] else b
  }

  function EncryptBlock(c: Cipher, b: Bytes): Bytes {
    Image(c.code, b)
  }

  function DecryptBlock(c: Cipher, b: Bytes): Bytes {
    Image(c.back, b)
  }

  ghost predicate Permutation(c: Cipher) {
    && c.size > 0 && |c.iv| == c.size
    && forall b :: |b| == c.size ==> Paired(c, b)
  }

  ghost predicate Paired(c: Cipher, b: Bytes) {
    && |EncryptBlock(c, b)| == c.size && |DecryptBlock(c, b)| == c.size
    && DecryptBlock(c, EncryptBlock(c, b)) == b && EncryptBlock(c, DecryptBlock(c, b)) == b
  }

  lemma {:induction false} BlockPaired(c: Cipher, b: Bytes)
    requires Permutation(c) && |b| == c.size
    ensures Paired(c, b)
  {
  }

  datatype Mode = CBC | CTR

  datatype Operation = Encrypt | Decrypt

  datatype Options = Options(
    cipher: Cipher, mode: Mode, operation: Operation,
    segmentSize: nat, transformEvery: nat, transformOffset: nat, transformPartial: bool)

  /** What the option checks let through. */
  ghost predicate Accepted(o: Options) {
    && Permutation(o.cipher) && 0 < o.segmentSize && o.transformOffset < o.transformEvery
    && (o.mode == CBC ==> o.segmentSize % o.cipher.size == 0)
  }

  // ---------------------------------------------------------------- one segment

  function Xor(a: Bytes, b: Bytes): (r: Bytes)
    requires |a| <= |b|
    ensures |r| == |a| && forall i :: 0 <= i < |a| ==> r[i] == a[i] ^ b[i]
  {
    seq(|a|, i requires 0 <= i < |a| => a[i] ^ b[i])
  }

  lemma {:induction false} XorTwice(a: Bytes, b: Bytes)
    requires |a| <= |b|
    ensures Xor(Xor(a, b), b) == a
  {
    forall i | 0 <= i < |a| ensures Xor(Xor(a, b), b)[i] == a[i] {
      XorSelf(a[i], b[i]);
    }
  }

  lemma {:induction false} XorSelf(x: bv8, y: bv8)
    ensures (x ^ y) ^ y == x
  {
  }

  /** CBC encryption behind the block `prev`; the text consists of whole blocks. */
  function CbcEncrypt(c: Cipher, prev: Bytes, text: Bytes): (r: Bytes)
    requires Permutation(c) && |prev| == c.size && |text| % c.size == 0
    ensures |r| == |text|
    decreases |text|
  {
    if |text| < c.size then text
    else
      BlocksLeft(|text|, c.size);
      BlockPaired(c, Xor(text[..c.size], prev));
      var b := EncryptBlock(c, Xor(text[..c.size], prev));
      b + CbcEncrypt(c, b, text[c.size..])
  }

  function CbcDecrypt(c: Cipher, prev: Bytes, text: Bytes): (r: Bytes)
    requires Permutation(c) && |prev| == c.size && |text| % c.size == 0
    ensures |r| == |text|
    decreases |text|
  {
    if |text| < c.size then text
    else
      BlocksLeft(|text|, c.size);
      BlockPaired(c, text[..c.size]);
      Xor(DecryptBlock(c, text[..c.size]), prev) + CbcDecrypt(c, text[..c.size], text[c.size..])
  }

  lemma {:induction false} BlocksLeft(n: nat, size: nat)
    requires size > 0 && n >= size
    ensures (n - size) % size == n % size
  {
    var q, r, a, b := n / size, n % size, (n - size) / size, (n - size) % size;
    assert n == size * q + r && n - size == size * a + b;
    assert size * (q - 1 - a) == b - r by { Distribute(size, q, a); }
    OnlyZero(size, q - 1 - a);
  }

  lemma {:induction false} Distribute(size: int, q: int, a: int)
    ensures size * (q - 1 - a) == size * q - size - size * a
  {
  }

  lemma {:induction false} OnlyZero(size: int, k: int)
    requires size > 0 && -size < size * k < size
    ensures k == 0
  {
    if k >= 1 { AtLeast(size, k); } else if k <= -1 { AtLeast(size, -k); }
  }

  lemma {:induction false} AtLeast(size: int, k: int)
    requires size > 0 && k >= 1
    ensures size * k >= size
  {
  }

  lemma {:induction false} NoBlocks(n: nat, size: nat)
    requires size > 0 && n % size == 0 && n < size
    ensures n == 0
  {
  }

  /** The counter block after `b`, big-endian with wrap-around. */
  function Next(b: Bytes): (r: Bytes)
    ensures |r| == |b|
  {
    if b == [] then []
    else
      var n := |b| - 1;
      if b[n] == 255 then Next(b[..n]) + [0] else b[..n] + [b[n] + 1]
  }

  /** CTR from the counter block `counter` on; the last block may be short. */
  function Ctr(c: Cipher, counter: Bytes, text: Bytes): (r: Bytes)
    requires Permutation(c) && |counter| == c.size
    ensures |r| == |text|
    decreases |text|
  {
    if |text| <= c.size then Xor(text, EncryptBlock(c, counter))
    else Xor(text[..c.size], EncryptBlock(c, counter)) + Ctr(c, Next(counter), text[c.size..])
  }

  lemma {:induction false} CbcOfParts(c: Cipher, prev: Bytes, head: Bytes, rest: Bytes)
    requires Permutation(c) && |prev| == c.size == |head| && |rest| % c.size == 0
    ensures |head + rest| % c.size == 0
    ensures CbcDecrypt(c, prev, head + rest) == Xor(DecryptBlock(c, head), prev) + CbcDecrypt(c, head, rest)
    ensures var b := EncryptBlock(c, Xor(head, prev)); CbcEncrypt(c, prev, head + rest) == b + CbcEncrypt(c, b, rest)
  {
    hide Xor;
    BlocksLeft(|head + rest|, c.size);
    assert (head + rest)[..c.size] == head && (head + rest)[c.size..] == rest;
  }

  lemma {:induction false} CbcDecryptUndoes(c: Cipher, prev: Bytes, text: Bytes)
    requires Permutation(c) && |prev| == c.size && |text| % c.size == 0
    ensures CbcDecrypt(c, prev, CbcEncrypt(c, prev, text)) == text
    decreases |text|
  {
    if |text| < c.size {
      NoBlocks(|text|, c.size);
    } else {
      hide Xor, CbcEncrypt, CbcDecrypt;
      BlocksLeft(|text|, c.size);
      var head, tail := text[..c.size], text[c.size..];
      assert text == head + tail;
      var b := EncryptBlock(c, Xor(head, prev));
      CbcOfParts(c, prev, head, tail);
      CbcOfParts(c, prev, b, CbcEncrypt(c, b, tail));
      CbcDecryptUndoes(c, b, tail);
      XorTwice(head, prev);
    }
  }

  lemma {:induction false} CbcEncryptUndoes(c: Cipher, prev: Bytes, text: Bytes)
    requires Permutation(c) && |prev| == c.size && |text| % c.size == 0
    ensures CbcEncrypt(c, prev, CbcDecrypt(c, prev, text)) == text
    decreases |text|
  {
    if |text| < c.size {
      NoBlocks(|text|, c.size);
    } else {
      hide Xor, CbcEncrypt, CbcDecrypt;
      BlocksLeft(|text|, c.size);
      var head, tail := text[..c.size], text[c.size..];
      assert text == head + tail;
      var p := Xor(DecryptBlock(c, head), prev);
      CbcOfParts(c, prev, head, tail);
      CbcOfParts(c, prev, p, CbcDecrypt(c, head, tail));
      CbcEncryptUndoes(c, head, tail);
      XorTwice(DecryptBlock(c, head), prev);
    }
  }

  lemma {:induction false} Joined(text: Bytes, n: nat)
    requires n <= |text|
    ensures text[..n] + text[n..] == text
  {
  }

  lemma {:induction false} CtrUndoes(c: Cipher, counter: Bytes, text: Bytes)
    requires Permutation(c) && |counter| == c.size
    ensures Ctr(c, counter, Ctr(c, counter, text)) == text
    decreases |text|
  {
    hide Next, Xor;
    if |text| <= c.size {
      XorTwice(text, EncryptBlock(c, counter));
    } else {
      var head, rest := Xor(text[..c.size], EncryptBlock(c, counter)), Ctr(c, Next(counter), text[c.size..]);
      XorTwice(text[..c.size], EncryptBlock(c, counter));
      CtrUndoes(c, Next(counter), text[c.size..]);
      CtrOfParts(c, counter, head, rest);
      Joined(text, c.size);
    }
  }

  lemma {:induction false} CtrOfParts(c: Cipher, counter: Bytes, head: Bytes, rest: Bytes)
    requires Permutation(c) && |counter| == c.size == |head| && rest != []
    ensures Ctr(c, counter, head + rest) == Xor(head, EncryptBlock(c, counter)) + Ctr(c, Next(counter), rest)
  {
    hide Next, Xor;
    assert (head + rest)[..c.size] == head && (head + rest)[c.size..] == rest;
  }

  /** transformPatternedSegment. */
  function Segment(o: Options, text: Bytes): (r: Bytes)
    requires Accepted(o) && (o.mode == CBC ==> |text| % o.cipher.size == 0)
    ensures |r| == |text|
  {
    match o.mode
    case CTR => Ctr(o.cipher, o.cipher.iv, text)
    case CBC =>
      match o.operation
      case Encrypt => CbcEncrypt(o.cipher, o.cipher.iv, text)
      case Decrypt => CbcDecrypt(o.cipher, o.cipher.iv, text)
  }

  function Opposite(o: Options): Options {
    o.(operation := if o.operation == Encrypt then Decrypt else Encrypt)
  }

  lemma {:induction false} SegmentUndone(o: Options, text: Bytes)
    requires Accepted(o) && (o.mode == CBC ==> |text| % o.cipher.size == 0)
    ensures Segment(Opposite(o), Segment(o, text)) == text
  {
    match o.mode
    case CTR => CtrUndoes(o.cipher, o.cipher.iv, text);
    case CBC =>
      if o.operation == Encrypt { CbcDecryptUndoes(o.cipher, o.cipher.iv, text); }
      else { CbcEncryptUndoes(o.cipher, o.cipher.iv, text); }
  }

  // ---------------------------------------------------------------- the whole file

  datatype Outcome = Refused(segment: nat) | Done(bytes: Bytes, segments: nat, transformed: nat)

  predicate Selected(o: Options, index: nat, size: nat)
    requires o.transformEvery > 0
  {
    index % o.transformEvery == o.transformOffset && (size == o.segmentSize || o.transformPartial)
  }

  function EndOf(o: Options, file: Bytes, pos: nat): nat {
    if pos + o.segmentSize < |file| then pos + o.segmentSize else |file|
  }

  /** `done` bytes in front, and their counts. */
  function Ahead(done: Bytes, segments: nat, transformed: nat, rest: Outcome): Outcome {
    match rest
    case Refused(i) => Refused(i)
    case Done(b, s, t) => Done(done + b, segments + s, transformed + t)
  }

  /** Segment `index` at `pos` and everything behind it, each segment on its own. */
  ghost function Whole(o: Options, file: Bytes, pos: nat, index: nat): Outcome
    requires Accepted(o)
    decreases |file| - pos
  {
    if pos >= |file| then Done([], 0, 0)
    else
      var end := EndOf(o, file, pos);
      var segment := file[pos..end];
      if !Selected(o, index, |segment|) then Ahead(segment, 1, 0, Whole(o, file, end, index + 1))
      else if o.mode == CBC && |segment| % o.cipher.size != 0 then Refused(index)
      else Ahead(Segment(o, segment), 1, 1, Whole(o, file, end, index + 1))
  }

  lemma {:induction false} AheadTwice(a: Bytes, s: nat, t: nat, b: Bytes, s': nat, t': nat, rest: Outcome)
    ensures Ahead(a, s, t, Ahead(b, s', t', rest)) == Ahead(a + b, s + s', t + t', rest)
  {
    if rest.Done? { assert a + (b + rest.bytes) == (a + b) + rest.bytes; }
  }

  lemma {:induction false} WholeKeepsLength(o: Options, file: Bytes, pos: nat, index: nat)
    requires Accepted(o) && pos <= |file| && Whole(o, file, pos, index).Done?
    ensures |Whole(o, file, pos, index).bytes| == |file| - pos
    decreases |file| - pos
  {
    hide Segment;
    if pos < |file| { WholeKeepsLength(o, file, EndOf(o, file, pos), index + 1); }
  }

  /** What becomes of segment `index`. */
  function Piece(o: Options, index: nat, segment: Bytes): (r: Bytes)
    requires Accepted(o)
    ensures |r| == |segment|
  {
    if Selected(o, index, |segment|) &&
      (o.mode == CBC ==> |segment| % o.cipher.size == 0) then Segment(o, segment) else segment
  }

  lemma {:induction false} PieceUndone(o: Options, index: nat, segment: Bytes)
    requires Accepted(o)
    ensures Accepted(Opposite(o)) && Piece(Opposite(o), index, Piece(o, index, segment)) == segment
  {
    hide Segment;
    if Selected(o, index, |segment|) &&
      (o.mode == CBC ==> |segment| % o.cipher.size == 0) { SegmentUndone(o, segment); }
  }

  predicate Takes(o: Options, index: nat, size: nat)
    requires Accepted(o)
  {
    Selected(o, index, size) && o.mode == CBC ==> size % o.cipher.size == 0
  }

  lemma {:induction false} WholeStep(o: Options, file: Bytes, pos: nat, end: nat, index: nat)
    requires Accepted(o) && pos < |file| && end == EndOf(o, file, pos)
    ensures pos < end <= |file|
    ensures Whole(o, file, pos, index).Done? <==>
      Takes(o, index, end - pos) && Whole(o, file, end, index + 1).Done?
    ensures Whole(o, file, pos, index).Done? ==>
      Whole(o, file, pos, index).bytes == Piece(o, index, file[pos..end]) + Whole(o, file, end, index + 1).bytes
  {
    hide Segment, Permutation;
  }

  /** The opposite operation with the same layout gives the file back, for any file length. */
  lemma {:induction false} WholeUndone(o: Options, file: Bytes, g: Bytes, pos: nat, index: nat)
    requires Accepted(o) && Accepted(Opposite(o)) && pos <= |file| == |g|
    requires Whole(o, file, pos, index).Done? && g[pos..] == Whole(o, file, pos, index).bytes
    ensures Whole(Opposite(o), g, pos, index).Done? && Whole(Opposite(o), g, pos, index).bytes == file[pos..]
    decreases |file| - pos
  {
    hide Whole, Piece, Permutation, Selected, Accepted, Takes;
    if pos < |file| {
      var end := EndOf(o, file, pos);
      WholeStep(o, file, pos, end, index);
      WholeKeepsLength(o, file, end, index + 1);
      Parts(g, pos, end, Piece(o, index, file[pos..end]), Whole(o, file, end, index + 1).bytes);
      WholeUndone(o, file, g, end, index + 1);
      StepUndone(o, file, g, pos, end, index);
    } else {
      WholeAtEnd(Opposite(o), g);
    }
  }

  lemma {:induction false} StepUndone(o: Options, file: Bytes, g: Bytes, pos: nat, end: nat, index: nat)
    requires Accepted(o) && Accepted(Opposite(o)) && pos < |file| == |g| && end == EndOf(o, file, pos) &&
      pos <= end <= |file|
    requires Takes(o, index, end - pos) && g[pos..end] == Piece(o, index, file[pos..end])
    requires Whole(Opposite(o), g, end, index + 1).Done? && Whole(Opposite(o), g, end, index + 1).bytes == file[end..]
    ensures Whole(Opposite(o), g, pos, index).Done? && Whole(Opposite(o), g, pos, index).bytes == file[pos..]
  {
    hide Whole, Piece, Permutation, Accepted;
    WholeStep(Opposite(o), g, pos, end, index);
    PieceUndone(o, index, file[pos..end]);
    assert file[pos..] == file[pos..end] + file[end..];
  }

  lemma {:induction false} Parts(g: Bytes, pos: nat, end: nat, out: Bytes, rest: Bytes)
    requires pos <= end <= |g| && g[pos..] == out + rest && |out| == end - pos
    ensures g[pos..end] == out && g[end..] == rest
  {
    assert g[pos..end] == g[pos..][..end - pos];
    assert g[end..] == g[pos..][end - pos..];
  }

  lemma {:induction false} WholeAtEnd(o: Options, file: Bytes)
    requires Accepted(o)
    ensures forall pos, index :: pos >= |file| ==> Whole(o, file, pos, index) == Done([], 0, 0)
  {
  }

  /** A whole file: decrypting with the same options undoes encrypting, and the other way round. */
  lemma {:induction false} TransformUndone(o: Options, file: Bytes)
    requires Accepted(o) && Whole(o, file, 0, 0).Done?
    ensures Accepted(Opposite(o))
    ensures Whole(Opposite(o), Whole(o, file, 0, 0).bytes, 0, 0).Done?
    ensures Whole(Opposite(o), Whole(o, file, 0, 0).bytes, 0, 0).bytes == file
  {
    var g := Whole(o, file, 0, 0).bytes;
    WholeKeepsLength(o, file, 0, 0);
    assert g[0..] == g && file[0..] == file;
    PieceUndone(o, 0, []);
    WholeUndone(o, file, g, 0, 0);
  }

  // ---------------------------------------------------------------- when the file is refused

  /** Segment `k` is a selected last piece that CBC cannot take. */
  ghost predicate Unfit(o: Options, file: Bytes, k: nat)
    requires Accepted(o)
  {
    var start := k * o.segmentSize;
    && start < |file| < start + o.segmentSize
    && o.mode == CBC && o.transformPartial && k % o.transformEvery == o.transformOffset
    && (|file| - start) % o.cipher.size != 0
  }

  lemma {:induction false} RefusedFrom(o: Options, file: Bytes, pos: nat, index: nat)
    requires Accepted(o) && pos == index * o.segmentSize
    ensures Whole(o, file, pos, index).Refused? <==> exists k :: index <= k && Unfit(o, file, k)
    ensures Whole(o, file, pos, index).Refused? ==> Unfit(o, file, Whole(o, file, pos, index).segment)
    decreases |file| - pos
  {
    hide Whole, Unfit;
    NextSegment(index, o.segmentSize);
    if pos >= |file| {
      AtTheEnd(o, file, pos, index);
    } else if pos + o.segmentSize <= |file| {
      RefusedFrom(o, file, pos + o.segmentSize, index + 1);
      FullSegment(o, file, pos, index);
      SkipFirst(o, file, index);
    } else {
      RefusedAtEnd(o, file, pos, index);
    }
  }

  lemma {:induction false} AtTheEnd(o: Options, file: Bytes, pos: nat, index: nat)
    requires Accepted(o) && pos == index * o.segmentSize && pos >= |file|
    ensures !Whole(o, file, pos, index).Refused?
    ensures forall k :: index <= k ==> !Unfit(o, file, k)
  {
    forall k | index <= k ensures !Unfit(o, file, k) { Later(index, k, o.segmentSize); }
  }

  lemma {:induction false} SkipFirst(o: Options, file: Bytes, index: nat)
    requires Accepted(o) && !Unfit(o, file, index)
    ensures (exists k :: index <= k && Unfit(o, file, k)) <==> exists k :: index + 1 <= k && Unfit(o, file, k)
  {
    hide Unfit;
  }

  /** A full segment is never the one that is refused. */
  lemma {:induction false} FullSegment(o: Options, file: Bytes, pos: nat, index: nat)
    requires Accepted(o) && pos == index * o.segmentSize && pos + o.segmentSize <= |file|
    ensures !Unfit(o, file, index)
    ensures var rest := Whole(o, file, pos + o.segmentSize, index + 1);
      && (Whole(o, file, pos, index).Refused? <==> rest.Refused?)
      && (rest.Refused? ==> Whole(o, file, pos, index).segment == rest.segment)
  {
    hide Segment, Permutation;
  }

  lemma {:induction false} RefusedAtEnd(o: Options, file: Bytes, pos: nat, index: nat)
    requires Accepted(o) && pos == index * o.segmentSize && pos < |file| < pos + o.segmentSize
    ensures Whole(o, file, pos, index).Refused? <==> Unfit(o, file, index)
    ensures Whole(o, file, pos, index).Refused? ==> Whole(o, file, pos, index).segment == index
    ensures forall k :: index < k ==> !Unfit(o, file, k)
  {
    hide Segment;
    NextSegment(index, o.segmentSize);
    forall k | index < k ensures !Unfit(o, file, k) { Later(index + 1, k, o.segmentSize); }
    assert Whole(o, file, |file|, index + 1) == Done([], 0, 0);
  }

  lemma {:induction false} NextSegment(k: nat, size: nat)
    ensures (k + 1) * size == k * size + size
  {
  }

  lemma {:induction false} Later(j: nat, k: nat, size: nat)
    requires j <= k
    ensures j * size <= k * size
    decreases k
  {
    if j < k {
      Later(j, k - 1, size);
      NextSegment(k - 1, size);
    }
  }

  /** The transform fails exactly when the last segment is partial, selected anyway, and not whole blocks in CBC. */
  lemma {:induction false} RefusedExactly(o: Options, file: Bytes)
    requires Accepted(o)
    ensures Whole(o, file, 0, 0).Refused? <==> exists k :: Unfit(o, file, k)
  {
    RefusedFrom(o, file, 0, 0);
  }
}
