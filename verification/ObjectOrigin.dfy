/**
 The world of the resumable downloads: the staged file with its cursor, and an
 origin that names every version of an object by a validator and honours
 If-Range (section 13.1.5 of RFC 9110).
 */
module ObjectOrigin {
  import opened Options

  type Bytes = seq<int>

  // ---------------------------------------------------------------- the staged file

  function Zeros(n: nat): Bytes {
    seq(n, _ => 0)
  }

  /** The file after writing `b` at position `pos`; a gap reads as zeros. */
  function WrittenAt(data: Bytes, pos: nat, b: Bytes): Bytes {
    if b == [] then data
    else
      var front := if pos <= |data| then data[..pos] else data + Zeros(pos - |data|);
      front + b + (if pos + |b| <= |data| then data[pos + |b|..] else [])
  }

  class StagedFile {
    var data: Bytes
    var pos: nat
    /** The beginning that a loss of power surely keeps; behind it anything may be left. */
    var durable: Bytes

    constructor (content: Bytes)
      ensures data == durable == content && pos == 0
    {
      data, durable, pos := content, content, 0;
    }

    method Truncate(n: nat)
      modifies this`data, this`durable
      ensures data == if n <= |old(data)| then old(data)[..n] else old(data) + Zeros(n - |old(data)|)
      ensures durable == Take(old(durable), n)
    {
      data := if n <= |data| then data[..n] else data + Zeros(n - |data|);
      durable := Take(durable, n);
    }

    method Seek(n: nat)
      modifies this`pos
      ensures pos == n
    {
      pos := n;
    }

    method Write(b: Bytes)
      modifies this`data, this`pos
      ensures data == WrittenAt(old(data), old(pos), b) && pos == old(pos) + |b|
    {
      data, pos := WrittenAt(data, pos, b), pos + |b|;
    }

    method Sync()
      modifies this`durable
      ensures durable == data
    {
      durable := data;
    }
  }

  /** Writing at the end appends. */
  lemma {:induction false} WriteAppends(data: Bytes, b: Bytes)
    ensures WrittenAt(data, |data|, b) == data + b
  {
  }

  // ---------------------------------------------------------------- the origin

  /** One version of the object; an empty validator means the origin sends none. */
  datatype Version = Version(validator: string, body: Bytes)

  /**
   A 2xx answer. `start` and `total` are those of Content-Range (negative when
   missing), `length` is Content-Length (not positive when missing); the body
   comes in pieces and ends cleanly if `eof`.
   */
  datatype Reply = Reply(code: nat, validator: string, start: int, total: int, length: int, pieces: seq<Bytes>,
    eof: bool)

  datatype Answer = Unreachable | Status(code: nat) | Got(reply: Reply)

  function Concat(ps: seq<Bytes>, n: nat): Bytes
    requires n <= |ps|
  {
    if n == 0 then [] else Concat(ps, n - 1) + ps[n - 1]
  }

  function Data(r: Reply): Bytes {
    Concat(r.pieces, |r.pieces|)
  }

  const OK: nat := 200
  const PARTIAL: nat := 206

  /**
   Bytes of `whole` from `from` on: all of them, or a part; an origin may send less of a
   range than was asked for (section 15.3.7 of RFC 9110). A declared length is that of
   the part and a clean end delivers it; a stated total is the length of `whole`.
   */
  ghost predicate Sends(r: Reply, whole: Bytes, from: nat) {
    && from <= |whole| && Data(r) <= whole[from..]
    && (r.length > 0 ==> |Data(r)| <= r.length <= |whole| - from && (r.eof ==> |Data(r)| == r.length))
    && (r.total >= 0 ==> r.total == |whole|)
  }

  /** A full answer; if it states a length, that is the length of the object. */
  ghost predicate SendsAll(r: Reply, whole: Bytes) {
    Sends(r, whole, 0) && (r.length > 0 ==> r.length == |whole|)
  }

  /** What an honest answer appends stays inside the version. */
  lemma {:induction false} Appended(data: Bytes, r: Reply, body: Bytes)
    requires data <= body && Sends(r, body, |data|)
    ensures data + Data(r) <= body
  {
    assert body == body[..|data|] + body[|data|..];
  }

  lemma {:induction false} PartBehind(data: Bytes, body: Bytes, n: nat)
    requires data <= body && |data| + n <= |body|
    ensures var part := body[|data|..|data| + n];
      |part| == n && part <= body[|data|..] && data + part == body[..|data| + n]
  {
    assert body[|data|..|data| + n] == body[|data|..][..n];
  }

  /** transferTotalLength: the length of the whole object as far as the answer tells. */
  function TotalLength(r: Reply, rangeFrom: nat): int {
    if r.code == PARTIAL then
      if r.total >= 0 then r.total
      else if r.length > 0 then rangeFrom + r.length
      else 0
    else r.length
  }

  /** An answer of the origin holding version `v` to a request from `rangeFrom` on under If-Range `validator`. */
  ghost predicate Honest(a: Answer, v: Version, rangeFrom: nat, validator: string) {
    a.Got? ==>
      var r := a.reply;
      && r.validator == v.validator
      && (r.code == PARTIAL ==>
            && rangeFrom > 0 && validator == v.validator
            && (r.start == rangeFrom ==> Sends(r, v.body, rangeFrom)))
      && (r.code != PARTIAL ==> SendsAll(r, v.body))
  }

  /** One validator, one body. */
  ghost predicate Faithful(versions: nat -> Version) {
    forall i, j :: SameObject(versions(i), versions(j))
  }

  /** Versions of one name have one body; a version without a name may be any. */
  predicate SameObject(v: Version, w: Version) {
    v.validator == w.validator != "" ==> v.body == w.body
  }

  /** `v` agrees with every version of the same name. */
  ghost predicate Known(versions: nat -> Version, v: Version) {
    forall i :: SameObject(versions(i), v)
  }

  // ---------------------------------------------------------------- checkpoints

  datatype Checkpoint = Checkpoint(validator: string, bytes: nat, total: int)

  /** The test loadTransferCheckpoint makes. */
  predicate Loadable(c: Option<Checkpoint>) {
    c.Some? && c.value.validator != "" && c.value.bytes > 0
  }

  /** The checkpoint tells the truth: the bytes it counts are on stable storage and begin that version. */
  ghost predicate Truthful(c: Option<Checkpoint>, v: Version, durable: Bytes) {
    Names(c, v) && (c.Some? ==> c.value.bytes <= |durable| && durable[..c.value.bytes] <= v.body)
  }

  ghost predicate Names(c: Option<Checkpoint>, v: Version) {
    c.Some? ==> c.value.validator == v.validator && (c.value.total > 0 ==> c.value.total == |v.body|)
  }

  /** Whatever a crash leaves behind the durable bytes, a resume starts from a beginning of the version. */
  ghost predicate Survives(bytes: nat, v: Version, durable: Bytes) {
    forall left :: durable <= left ==> Take(left, bytes) <= v.body
  }

  /** That is what truth means: a checkpoint that counts one byte too many can be left lying. */
  lemma {:induction false} TruthSurvives(c: Checkpoint, v: Version, durable: Bytes)
    requires c.validator == v.validator && (c.total > 0 ==> c.total == |v.body|)
    ensures Truthful(Some(c), v, durable) <==> Survives(c.bytes, v, durable)
  {
    if Survives(c.bytes, v, durable) {
      assert Take(durable, c.bytes) <= v.body;
      if c.bytes > |durable| {
        var left := Overcounted(c.bytes, v, durable);
      }
    } else {
      var left :| durable <= left && !(Take(left, c.bytes) <= v.body);
      if c.bytes <= |durable| { assert left[..c.bytes] == durable[..c.bytes]; }
    }
  }

  /** One byte that is not the version's, left where the checkpoint counts more than was synced. */
  lemma {:induction false} Overcounted(bytes: nat, v: Version, durable: Bytes) returns (left: Bytes)
    requires bytes > |durable|
    ensures durable <= left && !(Take(left, bytes) <= v.body)
  {
    left := durable + [if |durable| < |v.body| then v.body[|durable|] + 1 else 0];
    assert Take(left, bytes) == left;
    assert |durable| < |v.body| ==> left[|durable|] != v.body[|durable|];
  }

  // ---------------------------------------------------------------- storing checkpoints

  /** The staged file, what a crash surely keeps of it, and the checkpoint file. */
  datatype Disk = Disk(data: Bytes, durable: Bytes, checkpoint: Option<Checkpoint>)

  /** What comes of one opportunity to store a checkpoint. */
  datatype Save = Save(due: bool, synced: bool, renamed: bool)

  /** An attempt that is made in any case. */
  function Last(o: Save): Save {
    o.(due := true)
  }

  /** Data first, then the pointer to it; with `force` a failed sync is ignored. */
  function Saved(d: Disk, name: string, total: int, o: Save, force: bool): Disk {
    if !o.due || name == "" || d.data == [] then d
    else
      var e := if o.synced then d.(durable := d.data) else d;
      if (o.synced || force) && o.renamed then e.(checkpoint := Some(Checkpoint(name, |d.data|, total))) else e
  }

  /** What the next call continues from, if a crash leaves `left` in the staged file. */
  function Resumed(left: Bytes, c: Option<Checkpoint>): Bytes {
    if c.None? then [] else Take(left, c.value.bytes)
  }

  ghost predicate True(d: Disk, v: Version) {
    Truthful(d.checkpoint, v, d.durable)
  }

  /** The staged file begins `v`, and the checkpoint names it. */
  ghost predicate Of(d: Disk, v: Version) {
    && d.durable <= d.data <= v.body && Names(d.checkpoint, v)
    && (d.checkpoint.Some? ==> d.checkpoint.value.bytes > 0)
  }

  /** The attempt makes the checkpoint true, whatever it was. */
  predicate Mends(d: Disk, name: string, o: Save) {
    && o.due && name != "" && d.data != [] && o.synced
    && (o.renamed || d.checkpoint.None? || d.checkpoint.value.bytes <= |d.data|)
  }

  /** Nothing is lost when a failed sync is honoured. */
  lemma {:induction false} SavedExactly(d: Disk, v: Version, total: int, o: Save)
    requires Of(d, v) && (total > 0 ==> total == |v.body|)
    ensures var e := Saved(d, v.validator, total, o, false);
      && Of(e, v) && e.data == d.data && d.durable <= e.durable
      && (True(e, v) <==> True(d, v) || Mends(d, v.validator, o))
      && (True(e, v) || e.checkpoint == d.checkpoint)
  {
    assert d.data[..|d.data|] == d.data;
    var e := Saved(d, v.validator, total, o, false);
    if d.checkpoint.Some? && d.checkpoint.value.bytes <= |d.durable| {
      assert e.durable[..d.checkpoint.value.bytes] <= v.body;
    }
  }

  /**
   When it is ignored: the checkpoint stored is true exactly if the sync worked or
   there was nothing to sync.
   */
  lemma {:induction false} ForcedExactly(d: Disk, v: Version, total: int, o: Save)
    requires Of(d, v) && True(d, v) && (total > 0 ==> total == |v.body|)
    ensures var e := Saved(d, v.validator, total, o, true);
      && Of(e, v) && e.data == d.data
      && (True(e, v) <==>
            !o.due || v.validator == "" || o.synced || !o.renamed || d.durable == d.data)
  {
    var e := Saved(d, v.validator, total, o, true);
    assert d.data[..|d.data|] == d.data;
    assert |d.durable| == |d.data| ==> d.durable == d.data;
    if d.checkpoint.Some? { assert e.durable[..d.checkpoint.value.bytes] == d.durable[..d.checkpoint.value.bytes]; }
  }

  // ---------------------------------------------------------------- results

  /** `attempts` requests were made; `storage` is set when the local file failed. */
  datatype Result = Published(file: Bytes, attempts: nat) | Failed(attempts: nat, storage: bool)

  /** What truncating the file and seeking to its end come to. */
  datatype Rewind = Fine | Stuck | Lost

  /** A status worth another attempt. */
  predicate Retryable(code: nat) {
    code == 408 || code == 425 || code == 429 || code >= 500
  }

  lemma {:induction false} ConcatNext(ps: seq<Bytes>, i: nat)
    requires i < |ps|
    ensures Concat(ps, i + 1) == Concat(ps, i) + ps[i]
  {
  }

  lemma {:induction false} ConcatPrefix(ps: seq<Bytes>, i: nat, n: nat)
    requires i <= n <= |ps|
    ensures Concat(ps, i) <= Concat(ps, n)
    decreases n - i
  {
    if i < n { ConcatPrefix(ps, i, n - 1); }
  }
}
