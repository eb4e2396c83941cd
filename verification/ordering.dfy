/**
 * The listing order of projects (apps/web/src/lib/strapi.ts, `sortProjects`):
 * by creation time when both projects have one and they differ, otherwise by id.
 * `Array.prototype.sort` is stable, so the model is a stable insertion sort.
 */
module ProjectOrder {
  import opened Wrappers
  import opened Types

  /** The comparator handed to `sort`: negative when `a` goes first. */
  function Compare(a: Project, b: Project): int {
    if a.createdAt.Some? && b.createdAt.Some? && a.createdAt.value != b.createdAt.value
    then a.createdAt.value - b.createdAt.value
    else a.id - b.id
  }

  predicate Precedes(a: Project, b: Project) {
    Compare(a, b) <= 0
  }

  predicate Sorted(s: seq<Project>) {
    forall i, j :: 0 <= i < j < |s| ==> Precedes(s[i], s[j])
  }

  /** Every project has a creation time (`dated`) or none has. */
  predicate Uniform(s: seq<Project>, dated: bool) {
    forall i :: 0 <= i < |s| ==> s[i].createdAt.Some? == dated
  }

  /** `x` placed before the first element it does not come after. */
  function Insert(x: Project, s: seq<Project>): (r: seq<Project>)
    ensures multiset(r) == multiset(s) + multiset{x}
  {
    if s == [] then [x]
    else if Precedes(x, s[0]) then [x] + s
    else
      assert s == [s[0]] + s[1..];
      [s[0]] + Insert(x, s[1..])
  }

  /** `sortProjects`: a sorted copy; the input sequence is a value and is not changed. */
  function SortProjects(s: seq<Project>): (r: seq<Project>)
    ensures multiset(r) == multiset(s)
    ensures |r| == |s|
  {
    if s == [] then []
    else
      assert s == [s[0]] + s[1..];
      Insert(s[0], SortProjects(s[1..]))
  }

  /** The comparator is antisymmetric for every pair. */
  lemma CompareAntisymmetric(a: Project, b: Project)
    ensures Compare(b, a) == -Compare(a, b)
  {
  }

  /** Among projects that are all dated or all undated, the comparator is transitive. */
  lemma PrecedesTransitive(a: Project, b: Project, c: Project, dated: bool)
    requires a.createdAt.Some? == dated && b.createdAt.Some? == dated && c.createdAt.Some? == dated
    requires Precedes(a, b) && Precedes(b, c)
    ensures Precedes(a, c)
  {
  }

  /** A head that precedes every element of a sorted tail keeps the sequence sorted. */
  lemma SortedCons(h: Project, t: seq<Project>)
    requires Sorted(t)
    requires forall y :: y in t ==> Precedes(h, y)
    ensures Sorted([h] + t)
  {
    var r := [h] + t;
    forall i, j | 0 <= i < j < |r|
      ensures Precedes(r[i], r[j])
    {
      if i > 0 {
        assert r[i] == t[i - 1] && r[j] == t[j - 1];
      } else {
        assert r[j] == t[j - 1];
      }
    }
  }

  lemma {:induction false} InsertSorted(x: Project, s: seq<Project>, dated: bool)
    requires Sorted(s) && Uniform(s, dated) && x.createdAt.Some? == dated
    ensures Sorted(Insert(x, s))
  {
    if s != [] {
      if Precedes(x, s[0]) {
        forall y | y in s
          ensures Precedes(x, y)
        {
          var j :| 0 <= j < |s| && s[j] == y;
          if j > 0 {
            PrecedesTransitive(x, s[0], s[j], dated);
          }
        }
        SortedCons(x, s);
      } else {
        CompareAntisymmetric(x, s[0]);
        var t := s[1..];
        assert Sorted(t) && Uniform(t, dated);
        InsertSorted(x, t, dated);
        var u := Insert(x, t);
        forall y | y in u
          ensures Precedes(s[0], y)
        {
          assert y in multiset(u);
          if y != x {
            assert y in t;
          }
        }
        SortedCons(s[0], u);
      }
    }
  }

  /** When all projects are dated or none is, `sortProjects` leaves them in comparator order. */
  lemma {:induction false} SortedWhenUniform(s: seq<Project>, dated: bool)
    requires Uniform(s, dated)
    ensures Sorted(SortProjects(s))
  {
    if s != [] {
      var t := SortProjects(s[1..]);
      SortedWhenUniform(s[1..], dated);
      forall i | 0 <= i < |t|
        ensures t[i].createdAt.Some? == dated
      {
        assert t[i] in multiset(s[1..]);
      }
      InsertSorted(s[0], t, dated);
    }
  }

  /** A sequence already in comparator order is left as it is (the sort is stable). */
  lemma {:induction false} SortKeepsSorted(s: seq<Project>)
    requires Sorted(s)
    ensures SortProjects(s) == s
  {
    if s != [] {
      SortKeepsSorted(s[1..]);
      assert s == [s[0]] + s[1..];
      if |s| > 1 {
        assert Precedes(s[0], s[1]);
      }
    }
  }

  /** Dated projects come out by ascending creation time, ties by ascending id. */
  lemma SortByCreationTime(s: seq<Project>)
    requires forall i :: 0 <= i < |s| ==> s[i].createdAt.Some?
    ensures var r := SortProjects(s);
      forall i, j :: 0 <= i < j < |r| ==>
        r[i].createdAt.Some? && r[j].createdAt.Some? &&
        (r[i].createdAt.value < r[j].createdAt.value ||
         (r[i].createdAt.value == r[j].createdAt.value && r[i].id <= r[j].id))
  {
    var r := SortProjects(s);
    SortedWhenUniform(s, true);
    forall i | 0 <= i < |r|
      ensures r[i].createdAt.Some?
    {
      assert r[i] in multiset(s);
    }
  }

  /** Undated projects come out by ascending id. */
  lemma SortById(s: seq<Project>)
    requires forall i :: 0 <= i < |s| ==> s[i].createdAt.None?
    ensures var r := SortProjects(s);
      forall i, j :: 0 <= i < j < |r| ==> r[i].id <= r[j].id
  {
    var r := SortProjects(s);
    SortedWhenUniform(s, false);
    forall i | 0 <= i < |r|
      ensures r[i].createdAt.None?
    {
      assert r[i] in multiset(s);
    }
  }

  /** A project carrying only an id and an optional creation time. */
  function Stub(id: int, createdAt: Option<int>): Project {
    Project(id, "", "", "", None, None, None, None, NotArray, None, None, None, None, None, None, createdAt)
  }

  /**
   * With dated and undated projects mixed, the comparator has a cycle:
   * a before c (by time), c before b (by id), b before a (by id).
   */
  lemma MixedCreationTimesCycle()
    ensures var a, b, c := Stub(3, Some(1)), Stub(2, None), Stub(1, Some(2));
      Compare(a, c) < 0 && Compare(c, b) < 0 && Compare(b, a) < 0
  {
  }
}
