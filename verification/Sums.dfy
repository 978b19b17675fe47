/** Finite sums over sequences, and over the rows of a map. */
module Sums {

  /** The sum of `f` over the elements of `s`. */
  function SumBy<T>(s: seq<T>, f: T -> int): int {
    if s == [] then 0 else SumBy(s[..|s| - 1], f) + f(s[|s| - 1])
  }

  lemma SumByAppend<T>(s: seq<T>, x: T, f: T -> int)
    ensures SumBy(s + [x], f) == SumBy(s, f) + f(x)
  {
    assert (s + [x])[..|s|] == s;
  }

  lemma {:induction false} SumByUpdate<T>(s: seq<T>, i: nat, x: T, f: T -> int)
    requires i < |s|
    ensures SumBy(s[i := x], f) == SumBy(s, f) - f(s[i]) + f(x)
  {
    var n := |s| - 1;
    if i == n {
      assert s[i := x][..n] == s[..n];
    } else {
      assert s[i := x][..n] == s[..n][i := x];
      SumByUpdate(s[..n], i, x, f);
    }
  }

  /** Pointwise comparison carries over to the sums. */
  lemma {:induction false} SumByLe<T>(s: seq<T>, f: T -> int, g: T -> int)
    requires forall i :: 0 <= i < |s| ==> f(s[i]) <= g(s[i])
    ensures SumBy(s, f) <= SumBy(s, g)
  {
    if s != [] {
      var t := s[..|s| - 1];
      assert forall i :: 0 <= i < |t| ==> t[i] == s[i];
      SumByLe(t, f, g);
    }
  }

  /** Elements between 0 and c sum to at most c times their number. */
  lemma {:induction false} SumByBounds<T>(s: seq<T>, f: T -> int, c: nat)
    requires forall i :: 0 <= i < |s| ==> 0 <= f(s[i]) <= c
    ensures 0 <= SumBy(s, f) <= |s| * c
  {
    if s != [] {
      var t := s[..|s| - 1];
      assert forall i :: 0 <= i < |t| ==> t[i] == s[i];
      SumByBounds(t, f, c);
      assert |s| * c == |t| * c + c;
    }
  }

  /** Sums of pointwise sums. */
  lemma {:induction false} SumByPlus<T>(s: seq<T>, f: T -> int, g: T -> int, h: T -> int)
    requires forall i :: 0 <= i < |s| ==> f(s[i]) == g(s[i]) + h(s[i])
    ensures SumBy(s, f) == SumBy(s, g) + SumBy(s, h)
  {
    if s != [] {
      var t := s[..|s| - 1];
      assert forall i :: 0 <= i < |t| ==> t[i] == s[i];
      SumByPlus(t, f, g, h);
    }
  }

  lemma {:induction false} SumByNonneg<T>(s: seq<T>, f: T -> int)
    requires forall j :: 0 <= j < |s| ==> 0 <= f(s[j])
    ensures 0 <= SumBy(s, f)
  {
    if s != [] {
      var t := s[..|s| - 1];
      assert forall j :: 0 <= j < |t| ==> t[j] == s[j];
      SumByNonneg(t, f);
    }
  }

  /** The sum of the values stored under the keys in `ks`. */
  ghost function SumOver<K>(m: map<K, int>, ks: set<K>): int
    requires ks <= m.Keys
  {
    if ks == {} then 0 else
      var k :| k in ks;
      m[k] + SumOver(m, ks - {k})
  }

  /** The order in which keys are taken does not matter. */
  lemma {:induction false} SumOverTake<K>(m: map<K, int>, ks: set<K>, k: K)
    requires ks <= m.Keys && k in ks
    ensures SumOver(m, ks) == m[k] + SumOver(m, ks - {k})
    decreases |ks|
  {
    var k' :| k' in ks && SumOver(m, ks) == m[k'] + SumOver(m, ks - {k'});
    if k' != k {
      SumOverTake(m, ks - {k'}, k);
      SumOverTake(m, ks - {k}, k');
      assert ks - {k'} - {k} == ks - {k} - {k'};
    }
  }

  /** Only the listed keys matter. */
  lemma {:induction false} SumOverSame<K>(m: map<K, int>, m': map<K, int>, ks: set<K>)
    requires ks <= m.Keys && ks <= m'.Keys
    requires forall k :: k in ks ==> m[k] == m'[k]
    ensures SumOver(m, ks) == SumOver(m', ks)
    decreases |ks|
  {
    if ks != {} {
      var k :| k in ks;
      SumOverTake(m, ks, k);
      SumOverTake(m', ks, k);
      SumOverSame(m, m', ks - {k});
    }
  }
}
