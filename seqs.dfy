/** Generic sequence searches and list builders shared by the three scrapers. */
module Seqs {

  datatype Option<T> = None | Some(value: T)

  /** Index of the last element of `s` (in list order) that satisfies `p`:
      the search a `for x in reversed(s): if p(x): ... break` loop performs. */
  function LastWhere<T>(s: seq<T>, p: T -> bool): (r: Option<nat>)
    ensures r.Some? ==> r.value < |s| && p(s[r.value])
    ensures r.Some? ==> forall k :: r.value < k < |s| ==> !p(s[k])
    ensures r.None? <==> forall k :: 0 <= k < |s| ==> !p(s[k])
  {
    if s == [] then None
    else if p(s[|s| - 1]) then Some(|s| - 1)
    else LastWhere(s[..|s| - 1], p)
  }

  /** Least position in `from..n` (both ends included) where `p` holds:
      a leftmost regular-expression search over a text of length `n`. */
  function FirstFrom(n: nat, p: nat -> bool, from: nat): (r: Option<nat>)
    ensures r.Some? ==> from <= r.value <= n && p(r.value)
    ensures r.Some? ==> forall k :: from <= k < r.value ==> !p(k)
    ensures r.None? <==> forall k :: from <= k <= n ==> !p(k)
    decreases n + 1 - from
  {
    if from > n then None
    else if p(from) then Some(from)
    else FirstFrom(n, p, from + 1)
  }

  /** The values `f` yields on the elements of `xs` where it succeeds, in order:
      a loop that appends to a list only when a match is found. */
  function FilterMap<A, B>(f: A -> Option<B>, xs: seq<A>): seq<B>
  {
    if xs == [] then []
    else FilterMap(f, xs[..|xs| - 1]) + Emit(f(xs[|xs| - 1]))
  }

  function Emit<B>(o: Option<B>): (r: seq<B>)
    ensures |r| <= 1
    ensures r == [] <==> o.None?
    ensures o.Some? ==> r == [o.value]
  {
    match o
    case Some(y) => [y]
    case None => []
  }

  /** Building over `xs + ys` is building over `xs`, then over `ys`: the values
      keep the order of the elements they come from. */
  lemma {:induction false} FilterMapAppend<A, B>(f: A -> Option<B>, xs: seq<A>, ys: seq<A>)
    ensures FilterMap(f, xs + ys) == FilterMap(f, xs) + FilterMap(f, ys)
    decreases |ys|
  {
    if ys == [] {
      assert xs + ys == xs;
    } else {
      var ys' := ys[..|ys| - 1];
      assert (xs + ys)[..|xs + ys| - 1] == xs + ys';
      assert (xs + ys)[|xs + ys| - 1] == ys[|ys| - 1];
      FilterMapAppend(f, xs, ys');
    }
  }

  lemma FilterMapOne<A, B>(f: A -> Option<B>, x: A)
    ensures FilterMap(f, [x]) == Emit(f(x))
  {
    assert [x][..0] == [];
  }

  /** A value is produced exactly when some element yields it. */
  lemma {:induction false} FilterMapMember<A, B>(f: A -> Option<B>, xs: seq<A>, y: B)
    ensures y in FilterMap(f, xs) <==> exists i :: 0 <= i < |xs| && f(xs[i]) == Some(y)
  {
    if xs != [] {
      var xs' := xs[..|xs| - 1];
      FilterMapMember(f, xs', y);
      if y in FilterMap(f, xs) && y !in FilterMap(f, xs') {
        assert f(xs[|xs| - 1]) == Some(y);
      }
      if exists i :: 0 <= i < |xs| && f(xs[i]) == Some(y) {
        var i :| 0 <= i < |xs| && f(xs[i]) == Some(y);
        if i < |xs| - 1 {
          assert xs'[i] == xs[i];
        }
      }
    }
  }

  /** One value at most per element. */
  lemma {:induction false} FilterMapLength<A, B>(f: A -> Option<B>, xs: seq<A>)
    ensures |FilterMap(f, xs)| <= |xs|
    ensures (forall i :: 0 <= i < |xs| ==> f(xs[i]).Some?) ==> |FilterMap(f, xs)| == |xs|
  {
    if xs != [] {
      var xs' := xs[..|xs| - 1];
      FilterMapLength(f, xs');
      assert forall i :: 0 <= i < |xs'| ==> xs'[i] == xs[i];
    }
  }

  /** The elements of `xs` that satisfy `p`, in order: a list comprehension with a condition. */
  function Filter<T>(p: T -> bool, xs: seq<T>): (r: seq<T>)
    ensures |r| <= |xs|
    ensures forall i :: 0 <= i < |r| ==> r[i] in xs && p(r[i])
    ensures forall i :: 0 <= i < |xs| && p(xs[i]) ==> xs[i] in r
  {
    if xs == [] then []
    else Filter(p, xs[..|xs| - 1]) + (if p(xs[|xs| - 1]) then [xs[|xs| - 1]] else [])
  }

  /** Filtering a non-empty list: its head, when kept, then the filter of its tail. */
  lemma FilterCons<T>(p: T -> bool, xs: seq<T>)
    requires xs != []
    ensures Filter(p, xs) == (if p(xs[0]) then [xs[0]] else []) + Filter(p, xs[1..])
  {
    var x, tail := xs[0], xs[1..];
    calc {
      Filter(p, xs);
      { assert xs == [x] + tail; }
      Filter(p, [x] + tail);
      { FilterAppend(p, [x], tail); }
      Filter(p, [x]) + Filter(p, tail);
      { FilterOne(p, x); }
      (if p(x) then [x] else []) + Filter(p, tail);
    }
  }

  /** A one-element list keeps its element exactly when it passes. */
  lemma FilterOne<T>(p: T -> bool, x: T)
    ensures Filter(p, [x]) == if p(x) then [x] else []
  {
    assert [x][..0] == [];
  }

  /** Filtering `xs + ys` filters `xs`, then `ys`: kept elements keep their order. */
  lemma {:induction false} FilterAppend<T>(p: T -> bool, xs: seq<T>, ys: seq<T>)
    ensures Filter(p, xs + ys) == Filter(p, xs) + Filter(p, ys)
    decreases |ys|
  {
    if ys == [] {
      assert xs + ys == xs;
    } else {
      var ys' := ys[..|ys| - 1];
      assert (xs + ys)[..|xs + ys| - 1] == xs + ys';
      assert (xs + ys)[|xs + ys| - 1] == ys[|ys| - 1];
      FilterAppend(p, xs, ys');
    }
  }

  /** A fresh array holding the elements of `s`: the mutable list a loop then
      updates in place. */
  method ToArray<T>(s: seq<T>) returns (a: array<T>)
    ensures fresh(a) && a[..] == s
  {
    a := new T[|s|](i requires 0 <= i < |s| => s[i]);
  }

  /** How many elements satisfy `p`: `sum(1 for x in xs if p(x))`. */
  function Count<T>(p: T -> bool, xs: seq<T>): (n: nat)
    ensures n <= |xs|
  {
    if xs == [] then 0
    else Count(p, xs[..|xs| - 1]) + (if p(xs[|xs| - 1]) then 1 else 0)
  }

  /** The count is positive exactly when some element satisfies `p`. */
  lemma {:induction false} CountPositive<T>(p: T -> bool, xs: seq<T>)
    ensures Count(p, xs) >= 1 <==> exists i :: 0 <= i < |xs| && p(xs[i])
  {
    if xs != [] {
      var pre := xs[..|xs| - 1];
      CountPositive(p, pre);
      if exists i :: 0 <= i < |pre| && p(pre[i]) {
        var i :| 0 <= i < |pre| && p(pre[i]);
        assert xs[i] == pre[i];
      }
      if exists i :: 0 <= i < |xs| && p(xs[i]) {
        var i :| 0 <= i < |xs| && p(xs[i]);
        if i < |pre| {
          assert pre[i] == xs[i];
        }
      }
    }
  }

  /** The count is at least two exactly when two different elements satisfy `p`. */
  lemma CountTwo<T>(p: T -> bool, xs: seq<T>)
    ensures Count(p, xs) >= 2 <==> exists i, j :: 0 <= i < j < |xs| && p(xs[i]) && p(xs[j])
  {
    if Count(p, xs) >= 2 {
      CountTwoWitness(p, xs);
    }
    if exists i, j :: 0 <= i < j < |xs| && p(xs[i]) && p(xs[j]) {
      var i, j :| 0 <= i < j < |xs| && p(xs[i]) && p(xs[j]);
      CountTwoOf(p, xs, i, j);
    }
  }

  lemma {:induction false} CountTwoWitness<T>(p: T -> bool, xs: seq<T>)
    requires Count(p, xs) >= 2
    ensures exists i, j :: 0 <= i < j < |xs| && p(xs[i]) && p(xs[j])
  {
    var n := |xs|;
    var pre := xs[..n - 1];
    if Count(p, pre) >= 2 {
      CountTwoWitness(p, pre);
      var i, j :| 0 <= i < j < |pre| && p(pre[i]) && p(pre[j]);
      assert xs[i] == pre[i] && xs[j] == pre[j];
    } else {
      CountPositive(p, pre);
      var i :| 0 <= i < |pre| && p(pre[i]);
      assert xs[i] == pre[i] && p(xs[n - 1]);
    }
  }

  lemma {:induction false} CountTwoOf<T>(p: T -> bool, xs: seq<T>, i: nat, j: nat)
    requires i < j < |xs| && p(xs[i]) && p(xs[j])
    ensures Count(p, xs) >= 2
  {
    var n := |xs|;
    var pre := xs[..n - 1];
    assert pre[i] == xs[i];
    if j < n - 1 {
      assert pre[j] == xs[j];
      CountTwoOf(p, pre, i, j);
    } else {
      CountPositive(p, pre);
    }
  }
}
