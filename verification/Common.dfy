/** Bytes, optional values and sums over sequences, shared by every other module. */
module Common {

  newtype byte = x: int | 0 <= x < 256

  type Bytes = seq<byte>

  datatype Option<+T> = None | Some(value: T)

  function Min(a: int, b: int): int {
    if a < b then a else b
  }

  function Max(a: int, b: int): int {
    if a < b then b else a
  }

  /** The sum of f over the elements of xs. */
  ghost function Sum<T>(f: T -> nat, xs: seq<T>): nat {
    if xs == [] then 0 else f(xs[0]) + Sum(f, xs[1..])
  }

  lemma {:induction false} SumUpdate<T>(f: T -> nat, xs: seq<T>, i: nat, x: T)
    requires i < |xs|
    ensures Sum(f, xs[i := x]) + f(xs[i]) == Sum(f, xs) + f(x)
    ensures f(xs[i]) <= Sum(f, xs)
  {
    if i == 0 {
      assert xs[i := x][1..] == xs[1..];
    } else {
      SumUpdate(f, xs[1..], i - 1, x);
      assert xs[i := x][1..] == xs[1..][i - 1 := x];
    }
  }

  lemma {:induction false} SumConcat<T>(f: T -> nat, xs: seq<T>, ys: seq<T>)
    ensures Sum(f, xs + ys) == Sum(f, xs) + Sum(f, ys)
  {
    if xs == [] {
      assert xs + ys == ys;
    } else {
      assert (xs + ys)[1..] == xs[1..] + ys;
      SumConcat(f, xs[1..], ys);
    }
  }

  /** A sum of zeros and ones falls short of the length exactly when some element counts zero. */
  lemma {:induction false} SumOfOnes<T>(f: T -> nat, xs: seq<T>)
    requires forall x :: x in xs ==> f(x) <= 1
    ensures Sum(f, xs) <= |xs|
    ensures Sum(f, xs) == |xs| <==> forall i :: 0 <= i < |xs| ==> f(xs[i]) == 1
  {
    if xs != [] {
      var rest := xs[1..];
      SumOfOnes(f, rest);
      assert forall i :: 0 <= i < |rest| ==> rest[i] == xs[i + 1];
      assert forall i :: 0 < i < |xs| ==> xs[i] == rest[i - 1];
      assert xs[0] in xs;
    }
  }

  lemma {:induction false} SumOfZeros<T>(f: T -> nat, xs: seq<T>)
    ensures Sum(f, xs) == 0 <==> forall i :: 0 <= i < |xs| ==> f(xs[i]) == 0
  {
    if xs != [] {
      var rest := xs[1..];
      SumOfZeros(f, rest);
      assert forall i :: 0 <= i < |rest| ==> rest[i] == xs[i + 1];
      assert forall i :: 0 < i < |xs| ==> xs[i] == rest[i - 1];
    }
  }

  /** All the elements of a sequence of sequences, in order. */
  function Flatten<T>(xss: seq<seq<T>>): seq<T> {
    if xss == [] then [] else xss[0] + Flatten(xss[1..])
  }

  lemma {:induction false} FlattenConcat<T>(xss: seq<seq<T>>, yss: seq<seq<T>>)
    ensures Flatten(xss + yss) == Flatten(xss) + Flatten(yss)
  {
    if xss == [] {
      assert xss + yss == yss;
    } else {
      assert (xss + yss)[1..] == xss[1..] + yss;
      FlattenConcat(xss[1..], yss);
      assert xss[0] + (Flatten(xss[1..]) + Flatten(yss)) == (xss[0] + Flatten(xss[1..])) + Flatten(yss);
    }
  }

  lemma FlattenOne<T>(xs: seq<T>)
    ensures Flatten([xs]) == xs
  {
    assert [xs][1..] == [];
    assert Flatten([xs]) == xs + Flatten([]);
  }

  lemma {:induction false} SumTwice<T>(f: T -> nat, xs: seq<T>, i: nat, j: nat)
    requires i < j < |xs|
    ensures Sum(f, xs) >= f(xs[i]) + f(xs[j])
  {
    if i == 0 {
      assert xs[1..][j - 1] == xs[j];
      SumUpdate(f, xs[1..], j - 1, xs[j]);
    } else {
      SumTwice(f, xs[1..], i - 1, j - 1);
    }
  }

  lemma SumAppend<T>(f: T -> nat, xs: seq<T>, x: T)
    ensures Sum(f, xs + [x]) == Sum(f, xs) + f(x)
  {
    SumConcat(f, xs, [x]);
    assert [x][1..] == [];
    assert Sum(f, [x]) == f(x) + Sum(f, []);
  }

  /** Distinct numbers below n that leave one out are fewer than n. */
  lemma {:induction false} Pigeonhole(xs: seq<nat>, n: nat, gap: nat)
    requires forall k :: 0 <= k < |xs| ==> xs[k] < n && xs[k] != gap
    requires forall j, k :: 0 <= j < k < |xs| ==> xs[j] != xs[k]
    requires gap < n
    ensures |xs| < n
  {
    if xs == [] {
    } else if n - 1 in xs {
      var k :| 0 <= k < |xs| && xs[k] == n - 1;
      Pigeonhole(xs[..k] + xs[k + 1..], n - 1, gap);
    } else if gap == n - 1 {
      Pigeonhole(xs[1..], n - 1, xs[0]);
    } else {
      Pigeonhole(xs, n - 1, gap);
    }
  }

  /** The numbers below n in ascending order. */
  ghost function Numbers(n: nat): (s: seq<nat>)
    ensures |s| == n && forall k :: 0 <= k < n ==> s[k] == k
  {
    if n == 0 then [] else Numbers(n - 1) + [n - 1]
  }
}
