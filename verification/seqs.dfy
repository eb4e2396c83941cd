/** Generic sequence helpers: filtering, filter-mapping and order-preserving de-duplication. */
module Seqs {
  import opened Wrappers

  /** No element occurs twice. */
  predicate NoDup<T(==)>(s: seq<T>) {
    forall i, j :: 0 <= i < j < |s| ==> s[i] != s[j]
  }

  /** Position of the first occurrence of `x` in `s`. */
  function FirstIndex<T(==)>(s: seq<T>, x: T): (i: nat)
    requires x in s
    ensures i < |s| && s[i] == x && x !in s[..i]
  {
    if s[0] == x then 0 else 1 + FirstIndex(s[1..], x)
  }

  lemma FirstIndexIsUnique<T>(s: seq<T>, x: T, k: nat)
    requires k < |s| && s[k] == x && x !in s[..k]
    ensures FirstIndex(s, x) == k
  {
  }

  /** The first occurrence of an element of a prefix is the same in the whole sequence. */
  lemma FirstIndexInPrefix<T>(s: seq<T>, n: nat, x: T)
    requires n <= |s| && x in s[..n]
    ensures x in s && FirstIndex(s, x) == FirstIndex(s[..n], x)
  {
    var k := FirstIndex(s[..n], x);
    assert s[..n][..k] == s[..k];
    FirstIndexIsUnique(s, x, k);
  }

  /**
   * The elements of `s` in order of first occurrence, each once; this is what
   * spreading a JavaScript `Set` built from `s` yields.
   */
  function Unique<T(==,!new)>(s: seq<T>): (r: seq<T>)
    ensures NoDup(r)
    ensures forall x :: x in r <==> x in s
    ensures |r| <= |s|
    decreases |s|
  {
    if s == [] then []
    else
      var init := s[..|s| - 1];
      if s[|s| - 1] in init then Unique(init) else Unique(init) + [s[|s| - 1]]
  }

  /** Distinct elements come out in the order of their first occurrence. */
  lemma {:induction false} UniqueKeepsFirstOccurrenceOrder<T(!new)>(s: seq<T>)
    ensures forall i, j :: 0 <= i < j < |Unique(s)| ==> FirstIndex(s, Unique(s)[i]) < FirstIndex(s, Unique(s)[j])
    decreases |s|
  {
    if s != [] {
      var n := |s| - 1;
      var init := s[..n];
      UniqueKeepsFirstOccurrenceOrder(init);
      var u := Unique(init);
      forall y | y in u
        ensures FirstIndex(s, y) == FirstIndex(init, y)
      {
        FirstIndexInPrefix(s, n, y);
      }
      if s[n] !in init {
        assert s[..n] == init;
        FirstIndexIsUnique(s, s[n], n);
        assert Unique(s) == u + [s[n]];
        forall i, j | 0 <= i < j < |Unique(s)|
          ensures FirstIndex(s, Unique(s)[i]) < FirstIndex(s, Unique(s)[j])
        {
          assert Unique(s)[i] == u[i];
          if j < |u| {
            assert Unique(s)[j] == u[j];
          }
        }
      }
    }
  }

  /** The first element of `Unique(s)` is the first element of `s`. */
  lemma UniqueHead<T(!new)>(s: seq<T>)
    requires s != []
    ensures Unique(s) != [] && Unique(s)[0] == s[0]
  {
    UniqueKeepsFirstOccurrenceOrder(s);
    var u := Unique(s);
    assert s[0] in u;
    var k :| 0 <= k < |u| && u[k] == s[0];
    assert FirstIndex(s, s[0]) == 0;
  }

  /** A sequence that already has no duplicates is left as it is. */
  lemma {:induction false} UniqueOfDistinct<T(!new)>(s: seq<T>)
    requires NoDup(s)
    ensures Unique(s) == s
    decreases |s|
  {
    if s != [] {
      var init := s[..|s| - 1];
      assert NoDup(init);
      UniqueOfDistinct(init);
      assert s[|s| - 1] !in init;
      assert init + [s[|s| - 1]] == s;
    }
  }

  /** The elements satisfying `p`, in order. */
  function Filter<T(!new)>(s: seq<T>, p: T -> bool): (r: seq<T>)
    ensures |r| <= |s|
    ensures forall i :: 0 <= i < |r| ==> p(r[i]) && r[i] in s
  {
    if s == [] then []
    else if p(s[0]) then [s[0]] + Filter(s[1..], p) else Filter(s[1..], p)
  }

  /** Filtering keeps every element satisfying `p` as often as it occurs, and no other. */
  lemma {:induction false} FilterCounts<T(!new)>(s: seq<T>, p: T -> bool)
    ensures forall x :: multiset(Filter(s, p))[x] == if p(x) then multiset(s)[x] else 0
  {
    if s != [] {
      FilterCounts(s[1..], p);
      assert s == [s[0]] + s[1..];
    }
  }

  /** Filtering a sequence whose every element passes changes nothing. */
  lemma {:induction false} FilterKeepsAll<T(!new)>(s: seq<T>, p: T -> bool)
    requires forall i :: 0 <= i < |s| ==> p(s[i])
    ensures Filter(s, p) == s
  {
    if s != [] {
      FilterKeepsAll(s[1..], p);
      assert s == [s[0]] + s[1..];
    }
  }

  lemma {:induction false} FilterAppend<T(!new)>(a: seq<T>, b: seq<T>, p: T -> bool)
    ensures Filter(a + b, p) == Filter(a, p) + Filter(b, p)
  {
    if a != [] {
      assert (a + b)[0] == a[0];
      assert (a + b)[1..] == a[1..] + b;
      FilterAppend(a[1..], b, p);
    } else {
      assert a + b == b;
    }
  }

  /** `f` applied to every element, keeping the present results in order (`map` then drop nullish). */
  function Keep<T, U>(s: seq<T>, f: T -> Option<U>): (r: seq<U>)
    ensures |r| <= |s|
    ensures forall y :: y in r ==> exists x :: x in s && f(x) == Some(y)
  {
    if s == [] then []
    else
      var rest := Keep(s[1..], f);
      assert forall y :: y in rest ==> exists x :: x in s && f(x) == Some(y) by {
        forall y | y in rest
          ensures exists x :: x in s && f(x) == Some(y)
        {
          var x :| x in s[1..] && f(x) == Some(y);
          assert x in s;
        }
      }
      match f(s[0])
      case Some(y) => [y] + rest
      case None => rest
  }

  lemma {:induction false} KeepAppend<T, U>(a: seq<T>, b: seq<T>, f: T -> Option<U>)
    ensures Keep(a + b, f) == Keep(a, f) + Keep(b, f)
  {
    if a != [] {
      assert (a + b)[1..] == a[1..] + b;
      KeepAppend(a[1..], b, f);
    } else {
      assert a + b == b;
    }
  }

  /** When `f` keeps every element as it is, so does `Keep`. */
  lemma {:induction false} KeepAll<T>(s: seq<T>, f: T -> Option<T>)
    requires forall i :: 0 <= i < |s| ==> f(s[i]) == Some(s[i])
    ensures Keep(s, f) == s
  {
    if s != [] {
      KeepAll(s[1..], f);
      assert s == [s[0]] + s[1..];
    }
  }

  /** Every present result of `f` on an element of `s` is kept. */
  lemma {:induction false} KeepComplete<T, U>(s: seq<T>, f: T -> Option<U>, x: T)
    requires x in s && f(x).Some?
    ensures f(x).value in Keep(s, f)
  {
    if s[0] != x {
      KeepComplete(s[1..], f, x);
    }
  }

  /** `f` applied to every element. */
  function Map<T, U>(s: seq<T>, f: T -> U): (r: seq<U>)
    ensures |r| == |s|
    ensures forall i :: 0 <= i < |s| ==> r[i] == f(s[i])
  {
    seq(|s|, i requires 0 <= i < |s| => f(s[i]))
  }
}
