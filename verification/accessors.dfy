/**
 * The content accessors built on the fetch client (apps/web/src/lib/strapi.ts,
 * `getSite`, `getProjects`, `getProjectBySlug`, `getAllProjectSlugs`,
 * `checkStrapiConnection`). Each takes the breaker state, the clock reading,
 * what the CMS would answer, and the fallback data, and returns its value, the
 * new breaker state and the query it sent (if any).
 */
module Accessors {
  import opened Wrappers
  import opened Seqs
  import opened Strings
  import opened Types
  import opened Normalize
  import opened ProjectFilter
  import opened CacheTags
  import opened Breaker

  /** The `{ data }` envelope of a CMS response; `None` when `data` is null or missing. */
  datatype Envelope<+T> = Envelope(data: Option<T>)

  /** One `$eq` filter of a CMS query. */
  datatype QueryFilter = FeaturedIs(featured: bool) | TagSlugIs(tagSlug: string) | SlugIs(slug: string)

  /**
   * The parts of a CMS query that vary between calls: path, filters, sort
   * keys, page size and cache hints. Field selection and population are fixed
   * per accessor and are not modelled.
   */
  datatype Query = Query(
    path: string,
    filters: seq<QueryFilter>,
    sort: seq<string>,
    pageSize: Option<nat>,
    options: FetchOptions)

  /** An accessor's answer, the breaker state after it, and the query sent, if one was. */
  datatype Read<+T> = Read(value: T, next: Breaker, sent: Option<Query>)

  const SitePath := "/api/site"
  const ProjectsPath := "/api/projects"
  const CreationOrder := ["createdAt:asc", "id:asc"]
  const SlugPageSize := 200

  /** The query, if the fetch actually sent it. */
  function SentQuery<T>(f: Fetched<T>, q: Query): Option<Query> {
    if f.sent.Some? then Some(q) else None
  }

  /** The body's `data`, if the fetch returned a body that has one. */
  function LiveData<T>(f: Fetched<Envelope<T>>): Option<T> {
    if f.value.Some? then f.value.value.data else None
  }

  /** What the CMS answered, when the breaker let the request through and it succeeded with `data`. */
  function Answered<T>(b: Breaker, now: int, outcome: Outcome<Envelope<T>>): (d: Option<T>)
    ensures d.Some? <==> !IsOpen(b, now) && outcome.Ok? && outcome.data.data.Some?
    ensures d.Some? ==> d == outcome.data.data
  {
    if !IsOpen(b, now) && outcome.Ok? then outcome.data.data else None
  }

  // ------------------------------------------------------------------ getSite

  const SiteQuery := Query(SitePath, [], [], None, FetchOptions(Some(SiteWindow), Some([SiteTag, HomepageTag])))

  /** `getSite`: the CMS's site record, or the fallback site whenever there is none. */
  function GetSite(b: Breaker, now: int, outcome: Outcome<Envelope<Site>>, fallback: Site): (r: Read<Site>)
    ensures Answered(b, now, outcome).Some? ==> r.value == Answered(b, now, outcome).value
    ensures Answered(b, now, outcome).None? ==> r.value == fallback
    ensures r.next == StrapiFetch(b, now, SiteQuery.options, outcome).next
    ensures r.sent.Some? <==> !IsOpen(b, now)
    ensures r.sent.Some? ==> r.sent.value == SiteQuery
  {
    var f := StrapiFetch(b, now, SiteQuery.options, outcome);
    var data := LiveData(f);
    Read(if data.Some? then data.value else fallback, f.next, SentQuery(f, SiteQuery))
  }

  // -------------------------------------------------------------- getProjects

  /** `options.tag?.trim() ?? ''`. */
  function CleanTag(options: ProjectsOptions): string {
    if options.tag.Some? then Trim(options.tag.value) else []
  }

  /** The listing query: filters for the featured flag and tag, a page size for a positive limit. */
  function ProjectsQuery(options: ProjectsOptions): (q: Query)
    ensures FeaturedIs(true) in q.filters <==> options.featuredOnly
    ensures TagSlugIs(CleanTag(options)) in q.filters <==> CleanTag(options) != []
    ensures q.pageSize.Some? <==> NormalizeLimit(options.limit) > 0
    ensures q.pageSize.Some? ==> q.pageSize.value == NormalizeLimit(options.limit)
    ensures q.options.tags == Some(ProjectsTagSet(CleanTag(options)))
    ensures forall f :: f in q.filters ==> f == FeaturedIs(true) || f == TagSlugIs(CleanTag(options))
    ensures q.path == ProjectsPath && q.sort == CreationOrder && q.options.revalidate == Some(ProjectsWindow)
  {
    var tag := CleanTag(options);
    var limit := NormalizeLimit(options.limit);
    Query(
      ProjectsPath,
      (if options.featuredOnly then [FeaturedIs(true)] else []) + (if tag != [] then [TagSlugIs(tag)] else []),
      CreationOrder,
      if limit > 0 then Some(limit) else None,
      FetchOptions(Some(ProjectsWindow), Some(ProjectsTagSet(tag))))
  }

  /** The options the fallback listing is filtered with: the trimmed tag and the normalized limit. */
  function FallbackOptions(options: ProjectsOptions): ProjectsOptions {
    var tag := CleanTag(options);
    var limit := NormalizeLimit(options.limit);
    ProjectsOptions(options.featuredOnly, if tag == [] then None else Some(tag), if limit == 0 then None else Some(limit))
  }

  /**
   * `getProjects`: the CMS's list normalized, with no filtering, sorting or
   * limiting of its own (the query asks the CMS for that); when there is no
   * list, the fallback projects filtered, sorted and limited but not normalized.
   */
  function GetProjects(b: Breaker, now: int, options: ProjectsOptions,
                       outcome: Outcome<Envelope<seq<Project>>>, fallback: seq<Project>): (r: Read<seq<Project>>)
    ensures Answered(b, now, outcome).Some? ==> r.value == NormalizeProjects(Answered(b, now, outcome).value)
    ensures Answered(b, now, outcome).None? ==> r.value == FilterProjects(fallback, FallbackOptions(options))
    ensures r.next == StrapiFetch(b, now, ProjectsQuery(options).options, outcome).next
    ensures r.sent.Some? <==> !IsOpen(b, now)
    ensures r.sent.Some? ==> r.sent.value == ProjectsQuery(options)
  {
    var q := ProjectsQuery(options);
    var f := StrapiFetch(b, now, q.options, outcome);
    var data := LiveData(f);
    var value := if data.Some? then NormalizeProjects(data.value) else FilterProjects(fallback, FallbackOptions(options));
    Read(value, f.next, SentQuery(f, q))
  }

  /** Without a CMS answer the listing honours the featured flag, the trimmed tag and the limit. */
  lemma FallbackListingHonoursOptions(b: Breaker, now: int, options: ProjectsOptions,
                                      outcome: Outcome<Envelope<seq<Project>>>, fallback: seq<Project>)
    requires Answered(b, now, outcome).None?
    ensures var r := GetProjects(b, now, options, outcome, fallback).value;
      && multiset(r) <= multiset(fallback)
      && (options.featuredOnly ==> forall i :: 0 <= i < |r| ==> IsFeatured(r[i]))
      && (CleanTag(options) != [] ==> forall i :: 0 <= i < |r| ==> HasTagSlug(r[i], CleanTag(options)))
      && (NormalizeLimit(options.limit) > 0 ==> |r| <= NormalizeLimit(options.limit))
  {
    var opts := FallbackOptions(options);
    assert NormalizeLimit(opts.limit) == NormalizeLimit(options.limit);
  }

  // --------------------------------------------------------- getProjectBySlug

  /** `find` by exact slug: the first project with that slug. */
  function FindBySlug(ps: seq<Project>, slug: string): (r: Option<Project>)
    ensures r.None? <==> forall i :: 0 <= i < |ps| ==> ps[i].slug != slug
    ensures r.Some? ==> exists k :: (0 <= k < |ps| && ps[k] == r.value && ps[k].slug == slug &&
                                     forall j :: 0 <= j < k ==> ps[j].slug != slug)
  {
    if ps == [] then None
    else if ps[0].slug == slug then Some(ps[0])
    else
      var r := FindBySlug(ps[1..], slug);
      assert r.Some? ==> exists k :: (0 < k < |ps| && ps[k] == r.value && ps[k].slug == slug &&
                                      forall j :: 0 <= j < k ==> ps[j].slug != slug) by {
        if r.Some? {
          var k :| 0 <= k < |ps[1..]| && ps[1..][k] == r.value && ps[1..][k].slug == slug &&
            forall j :: 0 <= j < k ==> ps[1..][j].slug != slug;
          assert ps[k + 1] == r.value;
          assert forall j :: 1 <= j < k + 1 ==> ps[j] == ps[1..][j - 1];
        }
      }
      r
  }

  /** The query for one project by trimmed slug. */
  function ProjectQuery(cleanSlug: string): Query {
    Query(ProjectsPath, [SlugIs(cleanSlug)], [], Some(1),
          FetchOptions(Some(ProjectWindow), Some([ProjectsTag, ProjectPrefix + cleanSlug])))
  }

  /**
   * `getProjectBySlug`: a blank slug gives nothing without a request; a CMS
   * list gives its first entry normalized (nothing for an empty list); no list
   * gives the fallback project with exactly the trimmed slug, normalized.
   */
  function GetProjectBySlug(b: Breaker, now: int, slug: string,
                            outcome: Outcome<Envelope<seq<Project>>>, fallback: seq<Project>): (r: Read<Option<Project>>)
    ensures Trim(slug) == [] ==> r == Read(None, b, None)
    ensures Trim(slug) != [] ==> r.next == StrapiFetch(b, now, ProjectQuery(Trim(slug)).options, outcome).next
    ensures Trim(slug) != [] ==> (r.sent.Some? <==> !IsOpen(b, now))
    ensures r.sent.Some? ==> r.sent.value == ProjectQuery(Trim(slug))
    ensures Trim(slug) != [] && Answered(b, now, outcome).Some? ==>
      var data := Answered(b, now, outcome).value;
      r.value == if data == [] then None else Some(NormalizeProject(data[0]))
    ensures Trim(slug) != [] && Answered(b, now, outcome).None? ==>
      && (r.value.None? <==> forall i :: 0 <= i < |fallback| ==> fallback[i].slug != Trim(slug))
      && (r.value.Some? ==> exists k :: (0 <= k < |fallback| && fallback[k].slug == Trim(slug) &&
                                         r.value.value == NormalizeProject(fallback[k])))
  {
    var cleanSlug := Trim(slug);
    if cleanSlug == [] then Read(None, b, None)
    else
      var q := ProjectQuery(cleanSlug);
      var f := StrapiFetch(b, now, q.options, outcome);
      var data := LiveData(f);
      var value :=
        if data.Some? then (if data.value == [] then None else Some(NormalizeProject(data.value[0])))
        else
          var found := FindBySlug(fallback, cleanSlug);
          if found.Some? then Some(NormalizeProject(found.value)) else None;
      Read(value, f.next, SentQuery(f, q))
  }

  /** Without a CMS answer, the slug lookup is the fallback project `FindBySlug` picks, normalized. */
  lemma FallbackBySlug(b: Breaker, now: int, slug: string, outcome: Outcome<Envelope<seq<Project>>>,
                       fallback: seq<Project>, p: Project)
    requires Trim(slug) != [] && Answered(b, now, outcome).None?
    requires FindBySlug(fallback, Trim(slug)) == Some(p)
    ensures GetProjectBySlug(b, now, slug, outcome, fallback).value == Some(NormalizeProject(p))
  {
  }

  // ------------------------------------------------------- getAllProjectSlugs

  const SlugsQuery := Query(ProjectsPath, [], CreationOrder, Some(SlugPageSize),
                            FetchOptions(Some(SlugsWindow), Some([ProjectsTag, SitemapTag])))

  /** A listed slug, dropped when missing or empty. */
  function PresentSlug(slug: Option<string>): Option<string> {
    if slug.Some? && slug.value != [] then slug else None
  }

  function SlugOf(p: Project): string {
    p.slug
  }

  /**
   * `getAllProjectSlugs`: the CMS's slugs with missing and empty ones dropped,
   * or, without an answer, every fallback project's slug in order.
   */
  function GetAllProjectSlugs(b: Breaker, now: int, outcome: Outcome<Envelope<seq<Option<string>>>>,
                              fallback: seq<Project>): (r: Read<seq<string>>)
    ensures Answered(b, now, outcome).Some? ==>
      var data := Answered(b, now, outcome).value;
      && (forall i :: 0 <= i < |r.value| ==> r.value[i] != [] && Some(r.value[i]) in data)
      && (forall s :: Some(s) in data && s != [] ==> s in r.value)
    ensures Answered(b, now, outcome).None? ==>
      |r.value| == |fallback| && forall i :: 0 <= i < |fallback| ==> r.value[i] == fallback[i].slug
    ensures r.next == StrapiFetch(b, now, SlugsQuery.options, outcome).next
    ensures r.sent.Some? <==> !IsOpen(b, now)
    ensures r.sent.Some? ==> r.sent.value == SlugsQuery
  {
    var f := StrapiFetch(b, now, SlugsQuery.options, outcome);
    var data := LiveData(f);
    var value := if data.Some? then Keep(data.value, PresentSlug) else Map(fallback, SlugOf);
    if data.Some? then
      assert forall s :: Some(s) in data.value && s != [] ==> s in value by {
        forall s | Some(s) in data.value && s != []
          ensures s in value
        {
          KeepComplete(data.value, PresentSlug, Some(s));
        }
      }
      assert forall i :: 0 <= i < |value| ==> value[i] != [] && Some(value[i]) in data.value by {
        forall i | 0 <= i < |value|
          ensures value[i] != [] && Some(value[i]) in data.value
        {
          assert value[i] in value;
          var x :| x in data.value && PresentSlug(x) == Some(value[i]);
        }
      }
      Read(value, f.next, SentQuery(f, SlugsQuery))
    else
      Read(value, f.next, SentQuery(f, SlugsQuery))
  }

  // ---------------------------------------------------- checkStrapiConnection

  const HealthQuery := Query(ProjectsPath, [], [], Some(1), FetchOptions(Some(HealthWindow), Some([HealthTag])))

  /** `checkStrapiConnection`: true exactly when a probe request went out and succeeded. */
  function CheckStrapiConnection<T>(b: Breaker, now: int, outcome: Outcome<T>): (r: Read<bool>)
    ensures r.value <==> !IsOpen(b, now) && outcome.Ok?
    ensures r.next == StrapiFetch(b, now, HealthQuery.options, outcome).next
    ensures r.sent.Some? <==> !IsOpen(b, now)
    ensures r.sent.Some? ==> r.sent.value == HealthQuery
  {
    var f := StrapiFetch(b, now, HealthQuery.options, outcome);
    Read(f.value.Some?, f.next, SentQuery(f, HealthQuery))
  }
}
