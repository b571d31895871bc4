/** Types that several modules share. */
module Common {
  type byte = bv8

  datatype Option<+T> = None | Some(value: T)

  /** What is left of a sequence behind its first k elements, if it has that many. */
  function Drop<T>(s: seq<T>, k: nat): seq<T> {
    if k <= |s| then s[k..] else []
  }

  lemma Assoc<T>(a: seq<T>, b: seq<T>, c: seq<T>)
    ensures a + (b + c) == (a + b) + c
  {}
}
