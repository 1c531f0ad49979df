/** Shared idioms. */
module Basics {
  datatype Option<+T> = None | Some(value: T)

  lemma TakeNext<T>(s: seq<T>, i: nat)
    requires i < |s|
    ensures s[..i + 1][..|s[..i + 1]| - 1] == s[..i] && s[..i + 1][i] == s[i]
  {}
}
