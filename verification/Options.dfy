/** The small vocabulary the other modules share. */
module Options {
  datatype Option<+T> = None | Some(value: T)

  /** The first `n` elements, or all there are. */
  function Take<T>(s: seq<T>, n: nat): (r: seq<T>) {
    if n <= |s| then s[..n] else s
  }
}
