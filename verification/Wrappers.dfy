/** Optional values and results, shared by every component of the model. */
module Wrappers {

  datatype Option<+T> = None | Some(value: T)

  datatype Result<+T, +E> = Ok(value: T) | Err(error: E)

  /** The last element of a non-empty sequence. */
  function Last<T>(s: seq<T>): (x: T)
    requires s != []
  {
    s[|s| - 1]
  }

  /** Everything but the last element of a non-empty sequence. */
  function Front<T>(s: seq<T>): (r: seq<T>)
    requires s != []
  {
    s[..|s| - 1]
  }

  lemma FrontLast<T>(s: seq<T>)
    requires s != []
    ensures Front(s) + [Last(s)] == s
  {}

  lemma PushFrontLast<T>(s: seq<T>, x: T)
    ensures s + [x] != []
    ensures Front(s + [x]) == s && Last(s + [x]) == x
  {}

  lemma Assoc<T>(a: seq<T>, b: seq<T>, c: seq<T>)
    ensures (a + b) + c == a + (b + c)
  {}

  lemma Regroup<T>(a: seq<T>, b: seq<T>, c: seq<T>, d: seq<T>, e: seq<T>)
    ensures a + (b + (c + (d + e))) == (a + (b + (c + d))) + e
  {
    Assoc(c, d, e);
    Assoc(b, c + d, e);
    Assoc(a, b + (c + d), e);
  }
}
