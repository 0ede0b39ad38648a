/** Small facts about sequences shared by the build scripts' models. */
module SeqUtil {
  import opened Wrappers

  /** No element occurs twice. */
  predicate Distinct<T(==)>(s: seq<T>) {
    forall i, j :: 0 <= i < j < |s| ==> s[i] != s[j]
  }

  /** Every element is strictly smaller than the ones after it. */
  predicate StrictlyIncreasing(s: seq<int>) {
    forall i, j :: 0 <= i < j < |s| ==> s[i] < s[j]
  }

  /** The index of the first `false`, the place where a fail-fast scan stops. */
  function FirstFalse(s: seq<bool>): (r: Option<nat>)
    ensures r.None? <==> forall i :: 0 <= i < |s| ==> s[i]
    ensures r.Some? ==> r.value < |s| && !s[r.value] && forall i :: 0 <= i < r.value ==> s[i]
  {
    if s == [] then None
    else if !s[0] then Some(0)
    else match FirstFalse(s[1..]) {
      case None => None
      case Some(k) => Some(k + 1)
    }
  }

  /** A scan that finds `false` at `j` after only `true`s stops at `j`. */
  lemma FirstFalseAt(s: seq<bool>, j: nat)
    requires j < |s| && !s[j] && forall i :: 0 <= i < j ==> s[i]
    ensures FirstFalse(s) == Some(j)
  {
  }

  /** Two strictly increasing sequences with the same elements are the same sequence:
      a strictly increasing sequence is the sorted listing of its element set. */
  lemma {:induction false} StrictlyIncreasingUnique(a: seq<int>, b: seq<int>)
    requires StrictlyIncreasing(a) && StrictlyIncreasing(b)
    requires forall x :: x in a <==> x in b
    ensures a == b
  {
    if a != [] { assert a[0] in a; }
    if b != [] { assert b[0] in b; }
    if a != [] && b != [] {
      assert a[0] == b[0] by {
        assert a[0] in a && b[0] in b;
        var i :| 0 <= i < |a| && a[i] == b[0];
        var j :| 0 <= j < |b| && b[j] == a[0];
        assert a[0] <= a[i] && b[0] <= b[j];
      }
      forall x ensures x in a[1..] <==> x in b[1..] {
        if x in a[1..] {
          assert x in b;
          assert x != b[0];
        }
        if x in b[1..] {
          assert x in a;
          assert x != a[0];
        }
      }
      StrictlyIncreasingUnique(a[1..], b[1..]);
      assert a == [a[0]] + a[1..];
      assert b == [b[0]] + b[1..];
    }
  }
}
