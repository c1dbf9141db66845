/** Small facts about sequences used by the proofs of the other modules. */
module Sequences {
  lemma SplitAt<T>(a: seq<T>, b: seq<T>, i: nat)
    requires i <= |b|
    ensures a + b == (a + b[..i]) + b[i..]
  {
    assert b == b[..i] + b[i..];
  }

  lemma TakeSnoc<T>(s: seq<T>, i: nat)
    requires i < |s|
    ensures s[..i + 1] == s[..i] + [s[i]]
  {
  }

  lemma UpdatePrefix<T>(s: seq<T>, i: nat, v: T)
    requires i < |s|
    ensures s[i := v][..i + 1] == s[..i] + [v]
  {
  }

  lemma SnocAssoc<T>(a: seq<T>, b: seq<T>, c: T)
    ensures a + (b + [c]) == (a + b) + [c]
  {
  }

  /** Dropping the last element of `a + b` drops it from `b`. */
  lemma ConcatInit<T>(a: seq<T>, b: seq<T>)
    requires b != []
    ensures (a + b)[..|a + b| - 1] == a + b[..|b| - 1]
    ensures (a + b)[|a + b| - 1] == b[|b| - 1]
  {
  }

  /** Dropping the first element of `a + b` drops it from `a`. */
  lemma ConcatTail<T>(a: seq<T>, b: seq<T>)
    requires a != []
    ensures (a + b)[0] == a[0] && (a + b)[1..] == a[1..] + b
  {
  }

  lemma Assoc<T>(a: seq<T>, b: seq<T>, c: seq<T>)
    ensures a + (b + c) == (a + b) + c
  {
  }
}
