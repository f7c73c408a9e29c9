/** Result types shared by the components. */
module Wrappers {
  import opened Words

  datatype Option<+T> = None | Some(value: T)

  datatype Result<+T, +E> = Ok(value: T) | Err(error: E)

  /** A serializer; `Correct` says that decoding undoes encoding. */
  datatype Codec<!T(!new)> = Codec(encode: T -> Bytes, decode: Bytes -> Option<T>) {
    ghost predicate Correct() {
      forall x :: decode(encode(x)) == Some(x)
    }
  }

  /** The step every induction over a concatenation takes. */
  lemma TailOfConcat<T>(a: seq<T>, b: seq<T>)
    requires a != []
    ensures (a + b)[0] == a[0] && (a + b)[1..] == a[1..] + b
  {
  }

  lemma ConcatAssociates<T>(a: seq<T>, b: seq<T>, c: seq<T>)
    ensures a + (b + c) == a + b + c
  {
  }
}
