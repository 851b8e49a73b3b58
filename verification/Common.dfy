// Small datatypes and sequence facts shared by the other modules.
module Common {

  datatype Option<+T> = None | Some(value: T) {
    function GetOr(default: T): T {
      match this
      case Some(v) => v
      case None => default
    }
  }

  function Min(a: int, b: int): int {
    if a < b then a else b
  }

  function Max(a: int, b: int): int {
    if a < b then b else a
  }

  ghost predicate NoDuplicates<T(!new)>(s: seq<T>) {
    forall i, j :: 0 <= i < j < |s| ==> s[i] != s[j]
  }

  /** The first n elements of s, or all of s when it is shorter. */
  function Prefix<T>(s: seq<T>, n: nat): (p: seq<T>)
    ensures |p| == Min(n, |s|) && p <= s
  {
    if n <= |s| then s[..n] else s
  }

  lemma PrefixConcat<T>(a: seq<T>, b: seq<T>, n: nat)
    ensures n <= |a| ==> Prefix(a + b, n) == Prefix(a, n)
    ensures n >= |a| ==> Prefix(a + b, n) == a + Prefix(b, n - |a|)
  {
  }
}
