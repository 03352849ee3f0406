/// Laws of concatenation, to be called where they are needed.
module Sequences {
  lemma PlusAssoc<T>(a: seq<T>, b: seq<T>, c: seq<T>)
    ensures a + (b + c) == a + b + c
  {
  }

  lemma EmptyPlus<T>(x: seq<T>)
    ensures [] + x == x
  {
  }
}
