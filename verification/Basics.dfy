/** Small definitions that several components share. */
module Basics {

  type Byte = bv8

  datatype Option<+T> = None | Some(value: T)

  ghost predicate NoDup(l: seq<nat>) {
    forall i, j :: 0 <= i < j < |l| ==> l[i] != l[j]
  }

  lemma ToEnd<T>(s: seq<T>, i: nat, j: nat)
    requires i <= j == |s|
    ensures s[i..j] == s[i..]
  {
  }

  function Min(a: int, b: int): int { if a <= b then a else b }

  function Max(a: int, b: int): int { if a <= b then b else a }

  function Abs(a: int): (r: int)
    ensures 0 <= r
  {
    if a >= 0 then a else -a
  }

  function Signed(minus: bool, v: int): int { if minus then -v else v }
}
