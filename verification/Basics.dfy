/** Stock types: optional values, results of statements that can fail, and identifiers. */
module Basics {
  datatype Option<+T> = None | Some(value: T)

  datatype Result<+T> = Ok(value: T) | Err

  /** Identifiers are drawn from counters: a fresh UUID never repeats one used before. */
  type Id = nat

  lemma NoMore<X>(s: seq<X>)
    ensures s + [] == s
  {
  }

  lemma Regroup<X>(a: seq<X>, b: seq<X>, c: seq<X>)
    ensures a + b + c == a + (b + c)
  {
  }
}
