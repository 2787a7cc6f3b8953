/** Sequences without repetition, increasing indexes, and a sequence without one element. */
module Seqs {

  ghost predicate Distinct<T>(s: seq<T>) {
    forall i, j :: 0 <= i < j < |s| ==> s[i] != s[j]
  }

  // Strictly increasing indexes below n.
  ghost predicate Ascending(ix: seq<nat>, n: nat) {
    && (forall i :: 0 <= i < |ix| ==> ix[i] < n)
    && forall i, j :: 0 <= i < j < |ix| ==> ix[i] < ix[j]
  }

  lemma AscendingPush(ix: seq<nat>, n: nat)
    requires Ascending(ix, n)
    ensures Ascending(ix, n + 1) && Ascending(ix + [n], n + 1) && n !in ix
  {
  }

  function Without<T(==)>(s: seq<T>, x: T): seq<T> {
    if s == [] then [] else if s[0] == x then Without(s[1..], x) else [s[0]] + Without(s[1..], x)
  }

  lemma {:induction false} WithoutMeans<T>(s: seq<T>, x: T)
    requires Distinct(s)
    ensures Distinct(Without(s, x)) && (forall y :: y in Without(s, x) <==> y in s && y != x)
    ensures |Without(s, x)| == if x in s then |s| - 1 else |s|
  {
    if s != [] {
      WithoutMeans(s[1..], x);
      assert s[0] !in s[1..];
    }
  }

  lemma {:induction false} WithoutAbsent<T>(s: seq<T>, x: T)
    requires x !in s
    ensures Without(s, x) == s
  {
    if s != [] { WithoutAbsent(s[1..], x); }
  }

  // Taking one element out leaves the others in their order.
  lemma {:induction false} WithoutAt<T>(s: seq<T>, i: nat)
    requires Distinct(s) && i < |s|
    ensures Without(s, s[i]) == s[..i] + s[i + 1..]
  {
    if i == 0 {
      assert s[0] !in s[1..];
      WithoutAbsent(s[1..], s[0]);
    } else {
      WithoutAt(s[1..], i - 1);
      assert s[..i] == [s[0]] + s[1..][..i - 1] && s[i + 1..] == s[1..][i..];
    }
  }

  lemma WithoutHead<T>(s: seq<T>, x: T)
    requires x !in s
    ensures Without([x] + s, x) == s
  {
    WithoutAbsent(s, x);
    assert ([x] + s)[1..] == s;
  }
}
