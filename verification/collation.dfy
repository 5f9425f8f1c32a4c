/**
 The string comparison used by the name, category and user sorts.

 `String.prototype.localeCompare` follows the host's collation tables, which are
 not part of this model. `Collate` stands in for it with the lexicographic order
 on characters; what the sort needs from any collation is that its `<= 0`
 relation is total and transitive, and the lemmas below establish exactly that.
 */
module Collation {

  /** Negative, zero or positive as `a` sorts before, together with, or after `b`. */
  function Collate(a: string, b: string): (r: int)
    ensures -1 <= r <= 1
    ensures r == 0 <==> a == b
    decreases |a|
  {
    if |a| == 0 then (if |b| == 0 then 0 else -1)
    else if |b| == 0 then 1
    else if a[0] < b[0] then -1
    else if a[0] > b[0] then 1
    else
      var r := Collate(a[1..], b[1..]);
      assert a == [a[0]] + a[1..] && b == [b[0]] + b[1..];
      r
  }

  /** Swapping the arguments flips the sign. */
  lemma {:induction false} CollateAntisymmetric(a: string, b: string)
    ensures Collate(a, b) == -Collate(b, a)
    decreases |a|
  {
    if |a| > 0 && |b| > 0 && a[0] == b[0] {
      CollateAntisymmetric(a[1..], b[1..]);
    }
  }

  /** Sorting before-or-together is transitive. */
  lemma {:induction false} CollateTransitive(a: string, b: string, c: string)
    requires Collate(a, b) <= 0 && Collate(b, c) <= 0
    ensures Collate(a, c) <= 0
    decreases |a|
  {
    if |a| > 0 && |b| > 0 && |c| > 0 && a[0] == b[0] && b[0] == c[0] {
      CollateTransitive(a[1..], b[1..], c[1..]);
    }
  }
}
