/**
 The loop of fileTransformPatternedBlocks over one reused buffer: for every
 buffer size its output is the transformed file, block by block.
 */
module PatternedFile {
  import opened PatternedTransform
  import opened PatternedBlocks

  const MAX_BUFFER: nat := 0x100_0000

  /** The buffer size the code settles on: whole segments, at least one. */
  method PickBufferSize(requested: int, segmentSize: nat) returns (size: nat)
    requires 0 < segmentSize <= MAX_BUFFER
    ensures size > 0 && size % segmentSize == 0
    ensures requested <= segmentSize ==> size == segmentSize
    ensures segmentSize <= requested <= MAX_BUFFER ==> size <= requested < size + segmentSize
    ensures MAX_BUFFER <= requested ==> size <= MAX_BUFFER < size + segmentSize
  {
    var b: int := requested;
    if b < segmentSize { b := segmentSize; }
    if b > MAX_BUFFER { b := MAX_BUFFER; }
    RoundedDown(b, segmentSize);
    size := b - b % segmentSize;
  }

  lemma {:induction false} RoundedDown(b: nat, n: nat)
    requires 0 < n <= b
    ensures (b - b % n) % n == 0 && n <= b - b % n <= b < b - b % n + n
  {
    assert b == n * (b / n) + b % n;
    WholeMultiple(b / n, n);
    AtLeast(n, b / n);
  }

  lemma {:induction false} WholeMultiple(q: nat, size: nat)
    requires size > 0
    ensures (size * q) % size == 0
    decreases q
  {
    if q > 0 {
      WholeMultiple(q - 1, size);
      Distribute(size, q, 0);
      AtLeast(size, q);
      BlocksLeft(size * q, size);
    }
  }

  /** The segment at [from, to) of the buffer, transformed in place. */
  method TransformInPlace(o: Options, buffer: array<bv8>, from: nat, to: nat)
    requires Accepted(o) && from <= to <= buffer.Length && (o.mode == CBC ==> (to - from) % o.cipher.size == 0)
    modifies buffer
    ensures buffer[from..to] == Segment(o, old(buffer[from..to]))
    ensures buffer[..from] == old(buffer[..from]) && buffer[to..] == old(buffer[to..])
  {
    hide Segment;
    var out := Segment(o, buffer[from..to]);
    forall i | from <= i < to { buffer[i] := out[i - from]; }
  }

  function Sub(b: Bytes, i: nat, j: nat): Bytes
    requires i <= j <= |b|
  {
    b[i..j]
  }

  /** The first step of the definition. */
  lemma {:induction false} WholeUnfolded(o: Options, file: Bytes, pos: nat, end: nat, index: nat)
    requires Accepted(o) && pos < |file| && end == EndOf(o, file, pos)
    ensures !Takes(o, index, end - pos) ==> Whole(o, file, pos, index) == Refused(index)
    ensures Takes(o, index, end - pos) ==>
      Whole(o, file, pos, index)
      == Ahead(Piece(o, index, file[pos..end]), 1, if Selected(o, index, end - pos) then 1
        else 0, Whole(o, file, end, index + 1))
  {
    hide Segment, Permutation;
  }

  /** Segment `index` of the file, standing at [from, to) of the buffer. */
  method TransformOne(o: Options, buffer: array<bv8>, from: nat, to: nat, ghost file: Bytes, ghost pos: nat, index: nat)
      returns (refused: bool, changed: nat)
    requires Accepted(o) && from < to <= buffer.Length && pos < |file| && pos + (to - from) == EndOf(o, file, pos)
    requires Sub(buffer[..], from, to) == Sub(file, pos, pos + (to - from))
    modifies buffer
    ensures ChangedWithin(old(buffer[..]), buffer[..], from, to)
    ensures refused ==> Whole(o, file, pos, index) == Refused(index)
    ensures !refused ==>
      Whole(o, file, pos, index)
      == Ahead(Sub(buffer[..], from, to), 1, changed, Whole(o, file, pos + (to - from), index + 1))
  {
    hide Segment, Whole;
    assert buffer[..][from..to] == buffer[from..to];
    WholeUnfolded(o, file, pos, pos + (to - from), index);
    var selected := index % o.transformEvery == o.transformOffset;
    var full := to - from == o.segmentSize;
    if selected && (full || o.transformPartial) {
      if o.mode == CBC && (to - from) % o.cipher.size != 0 { return true, 0; }
      TransformInPlace(o, buffer, from, to);
      assert buffer[..][from..to] == buffer[from..to];
      assert buffer[..][..from] == buffer[..from] && buffer[..][to..] == buffer[to..];
      return false, 1;
    }
    return false, 0;
  }

  /** What is left of the buffer is whole segments, unless the file ends with it. */
  ghost predicate Aligned(o: Options, file: Bytes, pos: nat, count: nat, offset: nat)
    requires o.segmentSize > 0 && offset <= count
  {
    (count - offset) % o.segmentSize == 0 || pos + count == |file|
  }

  ghost predicate ChangedWithin(a: Bytes, b: Bytes, from: nat, to: nat) {
    from <= to <= |a| == |b| && b[..from] == a[..from] && b[to..] == a[to..]
  }

  /** The segments before `offset` are done, the rest of the buffer is still the file. */
  ghost predicate Progress(
      o: Options, file: Bytes, pos: nat, index: nat, count: nat, b: Bytes, offset: nat, segments: nat, transformed: nat)
  {
    && Accepted(o) && offset <= count <= |b| && pos + count <= |file| && Aligned(o, file, pos, count, offset)
    && Sub(b, offset, count) == Sub(file, pos + offset, pos + count)
    && Whole(o, file, pos, index) == Ahead(Sub(b, 0, offset), segments, transformed,
      Whole(o, file, pos + offset, index + segments))
  }

  /** The segments of one filled buffer, where the file continues at `pos` with segment `index`. */
  method TransformBuffer(o: Options, buffer: array<bv8>, count: nat, ghost file: Bytes, ghost pos: nat, index: nat)
      returns (refused: bool, segments: nat, transformed: nat)
    requires count <= buffer.Length && Progress(o, file, pos, index, count, buffer[..], 0, 0, 0)
    modifies buffer
    ensures refused ==> Whole(o, file, pos, index) == Refused(index + segments)
    ensures !refused ==> Progress(o, file, pos, index, count, buffer[..], count, segments, transformed)
  {
    hide *;
    var offset := 0;
    segments, transformed := 0, 0;
    while offset < count
      invariant offset <= count && Progress(o, file, pos, index, count, buffer[..], offset, segments, transformed)
    {
      ghost var before := buffer[..];
      var end := if offset + o.segmentSize < count then offset + o.segmentSize else count;
      BeforeStep(o, file, pos, index, count, before, offset, end, segments, transformed);
      var refusedHere, changed := TransformOne(o, buffer, offset, end, file, pos + offset, index + segments);
      if refusedHere {
        RefusedStep(o, file, pos, index, count, before, offset, segments, transformed);
        return true, segments, transformed;
      }
      AfterStep(o, file, pos, index, count, before, buffer[..], offset, end, segments, transformed, changed);
      segments, transformed, offset := segments + 1, transformed + changed, end;
    }
    return false, segments, transformed;
  }

  lemma {:induction false} BeforeStep(
      o: Options, file: Bytes, pos: nat, index: nat, count: nat, b: Bytes, offset: nat, end: nat, segments: nat,
        transformed: nat)
    requires Progress(o, file, pos, index, count, b, offset, segments, transformed) && offset < count
    requires end == if offset + o.segmentSize < count then offset + o.segmentSize else count
    ensures Accepted(o) && offset < end <= count <= |b| && pos + offset < |file| &&
      pos + offset + (end - offset) == EndOf(o, file, pos + offset)
    ensures pos + offset + (end - offset) <= |file|
    ensures Sub(b, offset, end) == Sub(file, pos + offset, pos + offset + (end - offset))
  {
    hide Whole, Ahead, Sub;
    SegmentEnd(o, file, pos, count, offset, end);
    Halves(b, offset, end, count, file, pos);
  }

  lemma {:induction false} RefusedStep(
      o: Options, file: Bytes, pos: nat, index: nat, count: nat, b: Bytes, offset: nat, segments: nat, transformed: nat)
    requires Progress(o, file, pos, index, count, b, offset, segments, transformed)
    requires Whole(o, file, pos + offset, index + segments) == Refused(index + segments)
    ensures Whole(o, file, pos, index) == Refused(index + segments)
  {
    hide Whole;
  }

  lemma {:induction false} AfterStep(
      o: Options, file: Bytes, pos: nat, index: nat, count: nat, a: Bytes, b: Bytes, offset: nat, end: nat,
      segments: nat, transformed: nat, changed: nat)
    requires Progress(o, file, pos, index, count, a, offset, segments, transformed) && offset < count
    requires end == if offset + o.segmentSize < count then offset + o.segmentSize else count
    requires ChangedWithin(a, b, offset, end)
    requires Whole(o, file, pos + offset, index + segments)
      == Ahead(Sub(b, offset, end), 1, changed, Whole(o, file, pos + offset + (end - offset), index + segments + 1))
    ensures Progress(o, file, pos, index, count, b, end, segments + 1, transformed + changed)
  {
    hide Whole, Ahead, Sub, ChangedWithin;
    SegmentEnd(o, file, pos, count, offset, end);
    Halves(a, offset, end, count, file, pos);
    Advance(a, b, offset, end, count);
    AheadTwice(Sub(a, 0, offset), segments, transformed, Sub(b, offset, end), 1, changed,
               Whole(o, file, pos + end, index + segments + 1));
  }

  lemma {:induction false} Halves(b: Bytes, offset: nat, end: nat, count: nat, file: Bytes, pos: nat)
    requires offset <= end <= count <= |b| && pos + count <= |file|
    requires Sub(b, offset, count) == Sub(file, pos + offset, pos + count)
    ensures Sub(b, offset, end) == Sub(file, pos + offset, pos + end)
    ensures Sub(b, end, count) == Sub(file, pos + end, pos + count)
  {
    assert b[offset..end] == b[offset..count][..end - offset];
    assert b[end..count] == b[offset..count][end - offset..];
    assert file[pos + offset..pos + end] == file[pos + offset..pos + count][..end - offset];
    assert file[pos + end..pos + count] == file[pos + offset..pos + count][end - offset..];
  }

  lemma {:induction false} Advance(a: Bytes, b: Bytes, offset: nat, end: nat, count: nat)
    requires ChangedWithin(a, b, offset, end) && end <= count <= |a|
    ensures |a| == |b| && Sub(b, 0, end) == Sub(a, 0, offset) + Sub(b, offset, end)
    ensures Sub(b, end, count) == Sub(a, end, count)
  {
    assert b[..end] == b[..offset] + b[offset..end];
    assert b[end..count] == b[end..][..count - end] && a[end..count] == a[end..][..count - end];
  }

  /** A freshly filled buffer. */
  lemma {:induction false} FilledBuffer(o: Options, file: Bytes, pos: nat, index: nat, count: nat, b: Bytes)
    requires Accepted(o) && count <= |b| && pos + count <= |file| && b[..count] == file[pos..pos + count]
    requires count % o.segmentSize == 0 || pos + count == |file|
    ensures Progress(o, file, pos, index, count, b, 0, 0, 0)
  {
    hide Whole;
    var goal := Whole(o, file, pos, index);
    assert Sub(b, 0, 0) == [] && Sub(b, 0, count) == b[..count];
    if goal.Done? { assert [] + goal.bytes == goal.bytes; }
  }

  lemma {:induction false} SegmentEnd(o: Options, file: Bytes, pos: nat, count: nat, offset: nat, end: nat)
    requires Accepted(o) && pos + count <= |file| && offset < count
    requires Aligned(o, file, pos, count, offset)
    requires end == if offset + o.segmentSize < count then offset + o.segmentSize else count
    ensures pos + end == EndOf(o, file, pos + offset)
    ensures Aligned(o, file, pos, count, end)
  {
    if count - offset >= o.segmentSize { BlocksLeft(count - offset, o.segmentSize); }
    else if (count - offset) % o.segmentSize == 0 { NoBlocks(count - offset, o.segmentSize); }
  }

  /**
   The loop over the file with one reused buffer: for every buffer size each chosen segment
   comes out in cipher block chaining or counter mode and every other one as it was.
   */
  method TransformFile(o: Options, input: Bytes, bufferSize: nat) returns (r: Outcome)
    requires Accepted(o) && bufferSize > 0 && bufferSize % o.segmentSize == 0
    ensures r == Whole(o, input, 0, 0)
    ensures r.Done? ==> OutputOf(o, input, r.bytes, r.segments, r.transformed)
    ensures r.Refused? ==> Unfit(o, input, r.segment)
    ensures r.Refused? <==> exists k :: Unfit(o, input, k)
  {
    hide Whole, OutputOf, Unfit;
    WholeByBlocks(o, input);
    var buffer := new bv8[bufferSize](_ => 0);
    var output: Bytes := [];
    var pos, index, transformed := 0, 0, 0;
    WholeAtEnd(o, input);
    ghost var goal := Whole(o, input, 0, 0);
    assert Ahead([], 0, 0, goal) == goal;
    while true
      invariant pos <= |input| && goal == Ahead(output, index, transformed, Whole(o, input, pos, index))
      decreases |input| - pos
    {
      var count := if |input| - pos < bufferSize then |input| - pos else bufferSize;
      if count == 0 { return Done(output, index, transformed); }
      forall i | 0 <= i < count { buffer[i] := input[pos + i]; }
      assert buffer[..][..count] == input[pos..pos + count];
      FilledBuffer(o, input, pos, index, count, buffer[..]);
      var refused, s, t := TransformBuffer(o, buffer, count, input, pos, index);
      if refused { return Refused(index + s); }
      assert Sub(buffer[..], 0, count) == buffer[..count];
      AheadTwice(output, index, transformed, buffer[..count], s, t, Whole(o, input, pos + count, index + s));
      output := output + buffer[..count];
      pos, index, transformed := pos + count, index + s, transformed + t;
      if count < bufferSize { return Done(output, index, transformed); }
    }
  }
}
