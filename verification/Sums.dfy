/**
  Totals over a sequence of goroutines or a map of entries, and how they change when one
  element changes. The protocol models use them to say "exactly one copy", "the counter
  equals the work outstanding" and "the total equals the sum of the parts".
*/
module Sums {

  // ---- Multisets contributed by the elements of a sequence ------------------------------

  function Bag<T, K>(f: T -> multiset<K>, xs: seq<T>): multiset<K> {
    if xs == [] then multiset{} else f(xs[0]) + Bag(f, xs[1..])
  }

  lemma {:induction false} BagAppend<T, K>(f: T -> multiset<K>, xs: seq<T>, ys: seq<T>)
    ensures Bag(f, xs + ys) == Bag(f, xs) + Bag(f, ys)
  {
    if xs == [] {
      assert xs + ys == ys;
    } else {
      assert (xs + ys)[1..] == xs[1..] + ys;
      BagAppend(f, xs[1..], ys);
    }
  }

  lemma {:induction false} BagUpdate<T, K>(f: T -> multiset<K>, xs: seq<T>, i: nat, x: T)
    requires i < |xs|
    ensures Bag(f, xs[i := x]) + f(xs[i]) == Bag(f, xs) + f(x)
  {
    if i == 0 {
      assert xs[i := x][1..] == xs[1..];
    } else {
      var rest := xs[1..];
      assert xs[i := x][1..] == rest[i - 1 := x];
      BagUpdate(f, rest, i - 1, x);
      calc {
        Bag(f, xs[i := x]) + f(xs[i]);
        f(xs[0]) + Bag(f, rest[i - 1 := x]) + f(rest[i - 1]);
        f(xs[0]) + (Bag(f, rest[i - 1 := x]) + f(rest[i - 1]));
        f(xs[0]) + (Bag(f, rest) + f(x));
        Bag(f, xs) + f(x);
      }
    }
  }

  lemma BagPush<T, K>(f: T -> multiset<K>, xs: seq<T>, x: T)
    ensures Bag(f, xs + [x]) == Bag(f, xs) + f(x)
  {
    BagAppend(f, xs, [x]);
    assert [x][1..] == [];
  }

  // BagUpdate and BagPush, counting one value.
  lemma CountUpdate<T, K>(f: T -> multiset<K>, xs: seq<T>, i: nat, x: T, k: K)
    requires i < |xs|
    ensures Bag(f, xs[i := x])[k] + f(xs[i])[k] == Bag(f, xs)[k] + f(x)[k]
  {
    BagUpdate(f, xs, i, x);
    assert (Bag(f, xs[i := x]) + f(xs[i]))[k] == (Bag(f, xs) + f(x))[k];
  }

  lemma CountPush<T, K>(f: T -> multiset<K>, xs: seq<T>, x: T, k: K)
    ensures Bag(f, xs + [x])[k] == Bag(f, xs)[k] + f(x)[k]
  {
    BagPush(f, xs, x);
  }

  lemma {:induction false} BagMember<T, K>(f: T -> multiset<K>, xs: seq<T>, i: nat)
    requires i < |xs|
    ensures f(xs[i]) <= Bag(f, xs)
  {
    if i > 0 { BagMember(f, xs[1..], i - 1); }
  }

  lemma {:induction false} BagTwo<T, K>(f: T -> multiset<K>, xs: seq<T>, i: nat, j: nat)
    requires i < j < |xs|
    ensures f(xs[i]) + f(xs[j]) <= Bag(f, xs)
  {
    if i == 0 { BagMember(f, xs[1..], j - 1); } else { BagTwo(f, xs[1..], i - 1, j - 1); }
  }

  lemma {:induction false} BagNone<T, K>(f: T -> multiset<K>, xs: seq<T>)
    requires forall x :: x in xs ==> f(x) == multiset{}
    ensures Bag(f, xs) == multiset{}
  {
    if xs != [] { BagNone(f, xs[1..]); }
  }

  // Whatever the bag holds was put there by some element.
  lemma {:induction false} BagWitness<T, K>(f: T -> multiset<K>, xs: seq<T>, k: K) returns (i: nat)
    requires k in Bag(f, xs)
    ensures i < |xs| && k in f(xs[i])
  {
    if k in f(xs[0]) {
      i := 0;
    } else {
      i := BagWitness(f, xs[1..], k);
      i := i + 1;
    }
  }

  // ---- Integers contributed by the elements of a sequence -------------------------------

  function Sum<T>(f: T -> int, xs: seq<T>): int {
    if xs == [] then 0 else f(xs[0]) + Sum(f, xs[1..])
  }

  lemma {:induction false} SumAppend<T>(f: T -> int, xs: seq<T>, ys: seq<T>)
    ensures Sum(f, xs + ys) == Sum(f, xs) + Sum(f, ys)
  {
    if xs == [] {
      assert xs + ys == ys;
    } else {
      assert (xs + ys)[1..] == xs[1..] + ys;
      SumAppend(f, xs[1..], ys);
    }
  }

  lemma {:induction false} SumUpdate<T>(f: T -> int, xs: seq<T>, i: nat, x: T)
    requires i < |xs|
    ensures Sum(f, xs[i := x]) == Sum(f, xs) - f(xs[i]) + f(x)
  {
    if i == 0 {
      assert xs[i := x][1..] == xs[1..];
    } else {
      assert xs[i := x][1..] == xs[1..][i - 1 := x];
      SumUpdate(f, xs[1..], i - 1, x);
    }
  }

  lemma SumPush<T>(f: T -> int, xs: seq<T>, x: T)
    ensures Sum(f, xs + [x]) == Sum(f, xs) + f(x)
  {
    SumAppend(f, xs, [x]);
    assert [x][1..] == [];
  }

  lemma {:induction false} SumMember<T>(f: T -> int, xs: seq<T>, i: nat)
    requires i < |xs|
    requires forall x :: x in xs ==> f(x) >= 0
    ensures 0 <= f(xs[i]) <= Sum(f, xs)
  {
    if i > 0 {
      SumMember(f, xs[1..], i - 1);
    } else if |xs| > 1 {
      SumMember(f, xs[1..], 0);
    }
  }

  // A positive sum of non-negative parts has a positive part.
  lemma {:induction false} SumWitness<T>(f: T -> int, xs: seq<T>) returns (i: nat)
    requires Sum(f, xs) > 0
    ensures i < |xs| && f(xs[i]) > 0
  {
    if f(xs[0]) > 0 {
      i := 0;
    } else {
      i := SumWitness(f, xs[1..]);
      i := i + 1;
    }
  }

  // ---- Integers contributed by the values of a map --------------------------------------

  ghost function MapSum<K, V>(f: V -> int, m: map<K, V>): int
    decreases |m|
  {
    if m == map[] then 0 else
    var k :| k in m;
    assert (m - {k}).Keys == m.Keys - {k};
    f(m[k]) + MapSum(f, m - {k})
  }

  // The total does not depend on the order in which the keys are visited.
  lemma {:induction false} MapSumRemove<K, V>(f: V -> int, m: map<K, V>, k: K)
    requires k in m
    ensures MapSum(f, m) == f(m[k]) + MapSum(f, m - {k})
    decreases |m|
  {
    assert m != map[];
    var j :| j in m && MapSum(f, m) == f(m[j]) + MapSum(f, m - {j});
    assert (m - {j}).Keys == m.Keys - {j};
    if j != k {
      MapSumRemove(f, m - {j}, k);
      assert (m - {k}).Keys == m.Keys - {k};
      MapSumRemove(f, m - {k}, j);
      assert m - {j} - {k} == m - {k} - {j};
    }
  }

  lemma MapSumAdd<K, V>(f: V -> int, m: map<K, V>, k: K, v: V)
    requires k !in m
    ensures MapSum(f, m[k := v]) == MapSum(f, m) + f(v)
  {
    assert m[k := v] - {k} == m;
    MapSumRemove(f, m[k := v], k);
  }

  lemma {:induction false} MapSumNonNegative<K, V>(f: V -> int, m: map<K, V>)
    requires forall k :: k in m ==> f(m[k]) >= 0
    ensures MapSum(f, m) >= 0
    decreases |m|
  {
    if m != map[] {
      var k :| k in m;
      assert (m - {k}).Keys == m.Keys - {k};
      MapSumRemove(f, m, k);
      MapSumNonNegative(f, m - {k});
    }
  }
}
