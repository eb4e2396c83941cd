/** Project listing selection (apps/web/src/lib/strapi.ts, `normalizeLimit` and `filterProjects`). */
module ProjectFilter {
  import opened Wrappers
  import opened Seqs
  import opened Types
  import opened ProjectOrder

  /** `normalizeLimit`: absent or non-positive means no limit (0); the limit is an integer already. */
  function NormalizeLimit(limit: Option<int>): (n: nat)
    ensures n == 0 <==> limit.None? || limit.value <= 0
    ensures n > 0 ==> limit == Some(n)
  {
    if limit.None? || limit.value <= 0 then 0 else limit.value
  }

  /** Some tag of the project (missing tags read as none) has exactly this slug. */
  predicate HasTagSlug(p: Project, slug: string) {
    var tags := p.tags.GetOr([]);
    exists k :: 0 <= k < |tags| && tags[k].slug == slug
  }

  /** The per-project test of `filterProjects`; an empty tag filters nothing. */
  predicate Matches(p: Project, featuredOnly: bool, tag: Option<string>) {
    && (featuredOnly ==> IsFeatured(p))
    && (tag.None? || tag.value == [] || HasTagSlug(p, tag.value))
  }

  /** `Matches` as the predicate handed to `filter`. */
  function KeepFor(featuredOnly: bool, tag: Option<string>): Project -> bool {
    p => Matches(p, featuredOnly, tag)
  }

  function Min(a: int, b: int): int {
    if a <= b then a else b
  }

  /** The matching projects in listing order, before any limit. */
  function Selection(ps: seq<Project>, featuredOnly: bool, tag: Option<string>): (r: seq<Project>)
    ensures forall i :: 0 <= i < |r| ==> Matches(r[i], featuredOnly, tag)
    ensures forall p :: multiset(r)[p] == if Matches(p, featuredOnly, tag) then multiset(ps)[p] else 0
  {
    var keep := KeepFor(featuredOnly, tag);
    var filtered := Filter(ps, keep);
    FilterCounts(ps, keep);
    var sorted := SortProjects(filtered);
    assert forall i :: 0 <= i < |sorted| ==> keep(sorted[i]) by {
      forall i | 0 <= i < |sorted|
        ensures keep(sorted[i])
      {
        assert sorted[i] in multiset(filtered);
      }
    }
    sorted
  }

  /**
   * `filterProjects`: the matching projects, sorted, cut to the first `limit`
   * when a positive limit is given.
   */
  function FilterProjects(ps: seq<Project>, opts: ProjectsOptions): (r: seq<Project>)
    ensures multiset(r) <= multiset(ps)
    ensures forall i :: 0 <= i < |r| ==> Matches(r[i], opts.featuredOnly, opts.tag)
    ensures opts.featuredOnly ==> forall i :: 0 <= i < |r| ==> IsFeatured(r[i])
    ensures opts.tag.Some? && opts.tag.value != [] ==>
      forall i :: 0 <= i < |r| ==> HasTagSlug(r[i], opts.tag.value)
    ensures NormalizeLimit(opts.limit) == 0 ==>
      forall p :: multiset(r)[p] == if Matches(p, opts.featuredOnly, opts.tag) then multiset(ps)[p] else 0
    ensures NormalizeLimit(opts.limit) > 0 ==> |r| <= NormalizeLimit(opts.limit)
  {
    var sorted := Selection(ps, opts.featuredOnly, opts.tag);
    assert multiset(sorted) <= multiset(ps);
    Truncate(sorted, NormalizeLimit(opts.limit))
  }

  /** `slice(0, limit)` for a positive limit; a zero limit keeps everything. */
  function Truncate(s: seq<Project>, limit: nat): (r: seq<Project>)
    ensures limit == 0 ==> r == s
    ensures limit > 0 ==> |r| == Min(limit, |s|)
    ensures r == s[..|r|]
    ensures multiset(r) <= multiset(s)
  {
    if limit == 0 then s
    else
      var n := Min(limit, |s|);
      assert s == s[..n] + s[n..];
      s[..n]
  }

  /** A limited listing is the first `limit` entries of the unlimited one, or all of them. */
  lemma LimitTakesPrefix(ps: seq<Project>, opts: ProjectsOptions)
    requires NormalizeLimit(opts.limit) > 0
    ensures var all := FilterProjects(ps, opts.(limit := None));
      var r := FilterProjects(ps, opts);
      |r| == Min(NormalizeLimit(opts.limit), |all|) && r == all[..|r|]
  {
  }

  /** The listing is in comparator order when all projects are dated or none is. */
  lemma FilterProjectsSorted(ps: seq<Project>, opts: ProjectsOptions, dated: bool)
    requires Uniform(ps, dated)
    ensures Sorted(FilterProjects(ps, opts))
  {
    var keep := KeepFor(opts.featuredOnly, opts.tag);
    var filtered := Filter(ps, keep);
    forall i | 0 <= i < |filtered|
      ensures filtered[i].createdAt.Some? == dated
    {
      assert filtered[i] in ps;
    }
    SortedWhenUniform(filtered, dated);
    assert Selection(ps, opts.featuredOnly, opts.tag) == SortProjects(filtered);
  }
}
