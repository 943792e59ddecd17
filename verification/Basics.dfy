/** What several modules share. */
module Basics {

  datatype Option<T> = None | Some(value: T)

  /** `(i + 1) % n` for an index below n. */
  function Next(i: nat, n: nat): (j: nat)
    requires i < n
    ensures j == (i + 1) % n < n
  {
    if i + 1 == n then 0 else i + 1
  }

  /** No element appears twice. */
  predicate Distinct<T(==)>(s: seq<T>) {
    forall i, j :: 0 <= i < j < |s| ==> s[i] != s[j]
  }

  function Reversed<T>(s: seq<T>): (r: seq<T>)
    ensures |r| == |s| && forall i :: 0 <= i < |s| ==> r[i] == s[|s| - 1 - i]
  {
    seq(|s|, i requires 0 <= i < |s| => s[|s| - 1 - i])
  }

  lemma {:induction false} SubsetSize<T>(a: set<T>, b: set<T>)
    requires a <= b
    ensures |a| <= |b|
  {
    if a != {} {
      var x :| x in a;
      SubsetSize(a - {x}, b - {x});
    }
  }

  /** Where in s the elements with property p are. */
  function Places<T>(s: seq<T>, p: T -> bool): set<nat> {
    set i: nat | i < |s| && p(s[i])
  }

  lemma PlacesStep<T>(s: seq<T>, p: T -> bool, n: nat)
    requires |s| == n + 1
    ensures n !in Places(s[..n], p)
    ensures Places(s, p) == if p(s[n]) then Places(s[..n], p) + {n} else Places(s[..n], p)
    ensures |Places(s, p)| == |Places(s[..n], p)| + if p(s[n]) then 1 else 0
  {
    assert Places(s, p) == if p(s[n]) then Places(s[..n], p) + {n} else Places(s[..n], p);
  }
}
