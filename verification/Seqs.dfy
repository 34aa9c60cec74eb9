/** Facts about sequences of any type, kept apart so that proofs need not look inside their elements. */
module Seqs {

  function Front<T>(s: seq<T>): seq<T> {
    if s == [] then [] else s[..|s| - 1]
  }

  lemma FrontOfCons<T>(x: T, s: seq<T>)
    ensures Front([x] + s) == if s == [] then [] else [x] + Front(s)
  {
  }

  lemma ConsConcat<T>(x: T, a: seq<T>, b: seq<T>)
    ensures ([x] + a) + b == [x] + (a + b)
  {
  }

  lemma ReplaceLast<T>(s: seq<T>, x: T)
    requires s != []
    ensures var n := |s| - 1; s == s[..n] + [s[n]] && s[n := x] == s[..n] + [x]
  {
  }

  lemma ConcatAssoc<T>(a: seq<T>, b: seq<T>, c: seq<T>)
    ensures (a + b) + c == a + (b + c)
  {
  }
}
