/**
 The unsynchronization scheme (section 6.1 of the ID3v2.4.0 structure) in
 go_backend/id3_reader.go and go_backend/audio_metadata.go: the streaming reader
 gives, over any sequence of read sizes, what the batch function gives, and both
 undo the scheme.
 */
module Unsynchronization {
  import opened Endian

  type Bytes = seq<byte>

  // ---------------------------------------------------------------- the batch form

  /** removeUnsync from index `i` on: a zero behind 0xFF is dropped with it. */
  function RemoveFrom(data: Bytes, i: nat): Bytes
    decreases |data| - i
  {
    if i >= |data| then []
    else
      var skip := if data[i] == 0xff && i + 1 < |data| && data[i + 1] == 0 then 2 else 1;
      [data[i]] + RemoveFrom(data, i + skip)
  }

  method RemoveUnsync(data: Bytes) returns (out: Bytes)
    ensures out == RemoveFrom(data, 0)
  {
    if |data| == 0 { return data; }
    out := [];
    var i := 0;
    while i < |data|
      invariant RemoveFrom(data, 0) == out + RemoveFrom(data, i)
      decreases |data| - i
    {
      var b := data[i];
      out := out + [b];
      if b == 0xff && i + 1 < |data| && data[i + 1] == 0 { i := i + 1; }
      i := i + 1;
    }
  }

  // ---------------------------------------------------------------- the streaming form

  /** What the reader still has to give from position `pos`, knowing whether the byte before was 0xFF. */
  function Rest(source: Bytes, pos: nat, afterFF: bool): Bytes
    decreases |source| - pos
  {
    if pos >= |source| then []
    else if afterFF && source[pos] == 0 then Rest(source, pos + 1, false)
    else [source[pos]] + Rest(source, pos + 1, source[pos] == 0xff)
  }

  /** The two forms agree. */
  lemma {:induction false} StreamIsBatch(source: Bytes, pos: nat)
    ensures Rest(source, pos, false) == RemoveFrom(source, pos)
    decreases |source| - pos
  {
    if pos < |source| {
      if source[pos] == 0xff {
        AfterFF(source, pos + 1);
      } else {
        StreamIsBatch(source, pos + 1);
      }
    }
  }

  lemma {:induction false} AfterFF(source: Bytes, pos: nat)
    ensures Rest(source, pos, true) == RemoveFrom(source, if pos < |source| && source[pos] == 0 then pos + 1 else pos)
    decreases |source| - pos, 0
  {
    if pos < |source| {
      if source[pos] == 0 {
        StreamIsBatch(source, pos + 1);
      } else if source[pos] == 0xff {
        AfterFF(source, pos + 1);
      } else {
        StreamIsBatch(source, pos + 1);
      }
    }
  }

  class UnsyncReader {
    const source: Bytes
    var pos: nat
    var afterFF: bool

    constructor (source: Bytes)
      ensures this.source == source && pos == 0 && !afterFF
    {
      this.source, pos, afterFF := source, 0, false;
    }

    /** What Read has not delivered yet. */
    function Remaining(): Bytes
      reads this
    {
      Rest(source, pos, afterFF)
    }

    /** Fills the buffer, or stops short at the end of the source. */
    method Read(output: array<byte>) returns (count: nat, eof: bool)
      modifies this`pos, this`afterFF, output
      ensures count <= output.Length && old(Remaining()) == output[..count] + Remaining()
      ensures eof <==> count < output.Length
      ensures eof ==> Remaining() == []
      ensures forall i :: count <= i < output.Length ==> output[i] == old(output[i])
    {
      count := 0;
      while count < output.Length
        invariant count <= output.Length && old(Remaining()) == output[..count] + Remaining()
        invariant forall i :: count <= i < output.Length ==> output[i] == old(output[i])
        decreases |source| - pos
      {
        if pos >= |source| { return count, true; }
        var value := source[pos];
        pos := pos + 1;
        if afterFF && value == 0 {
          afterFF := false;
        } else {
          afterFF := value == 0xff;
          output[count] := value;
          assert output[..count + 1] == output[..count] + [value];
          count := count + 1;
        }
      }
      return count, false;
    }

    /** Any sequence of read sizes delivers the batch result piece by piece. */
    method ReadSizes(sizes: seq<nat>) returns (out: Bytes)
      requires pos == 0 && !afterFF
      modifies this
      ensures out + Remaining() == RemoveFrom(source, 0)
      ensures Sum(sizes, |sizes|) >= |RemoveFrom(source, 0)| ==> out == RemoveFrom(source, 0)
    {
      StreamIsBatch(source, 0);
      out := [];
      var i := 0;
      while i < |sizes|
        invariant i <= |sizes| && out + Remaining() == RemoveFrom(source, 0)
        invariant |out| == Sum(sizes, i) || Remaining() == []
      {
        var output := new byte[sizes[i]](_ => 0);
        var count, eof := Read(output);
        var piece := output[..count];
        Associative(out, piece, Remaining());
        out := out + piece;
        i := i + 1;
      }
    }
  }

  lemma {:induction false} Associative(a: Bytes, b: Bytes, c: Bytes)
    ensures a + (b + c) == (a + b) + c
  {
  }

  function Sum(sizes: seq<nat>, n: nat): nat
    requires n <= |sizes|
  {
    if n == 0 then 0 else Sum(sizes, n - 1) + sizes[n - 1]
  }

  // ---------------------------------------------------------------- the scheme undone

  /** A zero goes behind every 0xFF that is followed by a zero, by 0b111xxxxx, or by nothing. */
  function Unsynchronized(data: Bytes): Bytes {
    if data == [] then []
    else
      var rest := Unsynchronized(data[1..]);
      if data[0] == 0xff && (|data| == 1 || data[1] == 0 || data[1] >= 0xe0) then [data[0], 0] + rest
      else [data[0]] + rest
  }

  lemma {:induction false} FirstKept(data: Bytes)
    requires data != []
    ensures Unsynchronized(data) != [] && Unsynchronized(data)[0] == data[0]
  {
  }

  lemma {:induction false} RemoveBehind(front: Bytes, back: Bytes, i: nat)
    requires i == |front|
    ensures RemoveFrom(front + back, i) == RemoveFrom(back, 0)
  {
    Shift(front, back, 0);
  }

  lemma {:induction false} Shift(front: Bytes, back: Bytes, i: nat)
    ensures RemoveFrom(front + back, |front| + i) == RemoveFrom(back, i)
    decreases |back| - i
  {
    if i < |back| {
      var all := front + back;
      assert all[|front| + i] == back[i];
      if i + 1 < |back| { assert all[|front| + i + 1] == back[i + 1]; }
      var skip := if back[i] == 0xff && i + 1 < |back| && back[i + 1] == 0 then 2 else 1;
      Shift(front, back, i + skip);
    }
  }

  /** Removing undoes the scheme, for all data. */
  lemma {:induction false} RemoveUndoes(data: Bytes)
    ensures RemoveFrom(Unsynchronized(data), 0) == data
    decreases |data|
  {
    if data != [] {
      var rest := Unsynchronized(data[1..]);
      RemoveUndoes(data[1..]);
      if data[0] == 0xff && (|data| == 1 || data[1] == 0 || data[1] >= 0xe0) {
        RemoveBehind([data[0], 0], rest, 2);
      } else {
        RemoveBehind([data[0]], rest, 1);
        if |data| > 1 { FirstKept(data[1..]); }
      }
      assert data == [data[0]] + data[1..];
    }
  }

  /** The encoded bytes contain nothing that looks like an MPEG frame sync. */
  lemma {:induction false} NoFalseSync(data: Bytes, i: nat)
    requires i + 1 < |Unsynchronized(data)| && Unsynchronized(data)[i] == 0xff
    ensures Unsynchronized(data)[i + 1] < 0xe0
    decreases |data|
  {
    var rest := Unsynchronized(data[1..]);
    var n := if data[0] == 0xff && (|data| == 1 || data[1] == 0 || data[1] >= 0xe0) then 2 else 1;
    if i >= n {
      NoFalseSync(data[1..], i - n);
    } else if n == 1 && |data| > 1 {
      FirstKept(data[1..]);
    }
  }
}
