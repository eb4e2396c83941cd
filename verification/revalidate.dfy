/**
 * The cache-revalidation webhook (apps/web/src/app/api/revalidate/route.ts).
 * A request is abstracted to its query parameters, its headers and its parsed
 * JSON body; a handler returns the response and the sequence of cache
 * invalidations it performs, tags first, then paths.
 */
module Revalidate {
  import opened Wrappers
  import opened Seqs
  import opened Strings
  import opened CacheTags

  datatype Entry = Entry(slug: Option<string>)

  /** The webhook body; every field is optional. */
  datatype Payload = Payload(
    secret: Option<string>,
    model: Option<string>,
    uid: Option<string>,
    event: Option<string>,
    slug: Option<string>,
    tags: Option<seq<string>>,
    paths: Option<seq<string>>,
    entry: Option<Entry>)

  const EmptyPayload := Payload(None, None, None, None, None, None, None, None)

  /**
   * A request: the first value of each query parameter, the headers keyed by
   * lower-case name, and the body (`None` when it is not valid JSON, or is
   * JSON without any of the payload's fields, such as a number or an array).
   */
  datatype Request = Request(query: map<string, string>, headers: map<string, string>, body: Option<Payload>)

  datatype Target = Target(tags: seq<string>, paths: seq<string>)

  /** One call into the caching layer. */
  datatype Effect = RevalidateTag(tag: string) | RevalidatePath(path: string)

  /** The JSON answer: `ok: false` with a message, or `ok: true` with what was revalidated. */
  datatype Response = Unauthorized | Revalidated(tags: seq<string>, paths: seq<string>, event: Option<string>)

  function Status(r: Response): int {
    if r.Unauthorized? then 401 else 200
  }

  datatype Handled = Handled(response: Response, trace: seq<Effect>)

  // ------------------------------------------------------------ value helpers

  /** `normalizePath`: a value is kept as it is when it starts with `/`, else dropped. */
  function NormalizePath(value: string): (r: Option<string>)
    ensures r.Some? <==> StartsWith(value, "/")
    ensures r.Some? ==> r.value == value
  {
    if value == [] then None
    else if !StartsWith(value, "/") then None
    else Some(value)
  }

  /** `normalizeTag`: the trimmed value, dropped when blank. */
  function NormalizeTag(value: string): (r: Option<string>)
    ensures r.Some? <==> !AllSpace(value)
    ensures r.Some? ==> r.value == Trim(value) && r.value != []
  {
    if value == [] then None
    else
      var trimmed := Trim(value);
      if trimmed == [] then None else Some(trimmed)
  }

  /** A normalized tag normalizes to itself. */
  lemma NormalizeTagIdempotent(value: string)
    requires NormalizeTag(value).Some?
    ensures NormalizeTag(NormalizeTag(value).value) == NormalizeTag(value)
  {
    TrimIdempotent(value);
  }

  /** Tags from an already comma-split list are already normalized, so `normalizeTag` keeps them all. */
  lemma DelimitedTagsAreNormal(value: Option<string>)
    ensures Keep(CommaList(value), NormalizeTag) == CommaList(value)
  {
    var items := CommaList(value);
    forall i | 0 <= i < |items|
      ensures NormalizeTag(items[i]) == Some(items[i])
    {
      assert Trim(items[i]) == items[i];
    }
    KeepAll(items, NormalizeTag);
  }

  /** `normalizeModel`: the first present of query, `model`, `uid`, lower-cased; empty when none is. */
  function ModelOf(payload: Payload, fromQuery: Option<string>): (r: string)
    ensures fromQuery.Some? ==> r == ToLower(fromQuery.value)
    ensures fromQuery.None? && payload.model.Some? ==> r == ToLower(payload.model.value)
    ensures fromQuery.None? && payload.model.None? && payload.uid.Some? ==> r == ToLower(payload.uid.value)
    ensures fromQuery.None? && payload.model.None? && payload.uid.None? ==> r == []
  {
    ToLower(OrElse(fromQuery, OrElse(payload.model, payload.uid)).GetOr([]))
  }

  /** `normalizeSlug`: the first present of query, `slug`, `entry.slug`, trimmed; empty when none is. */
  function SlugOf(payload: Payload, fromQuery: Option<string>): (r: string)
    ensures fromQuery.Some? ==> r == Trim(fromQuery.value)
    ensures fromQuery.None? && payload.slug.Some? ==> r == Trim(payload.slug.value)
    ensures fromQuery.None? && payload.slug.None? && payload.entry.Some? && payload.entry.value.slug.Some? ==>
      r == Trim(payload.entry.value.slug.value)
    ensures fromQuery.None? && payload.slug.None? && (payload.entry.None? || payload.entry.value.slug.None?) ==> r == []
  {
    var entrySlug := if payload.entry.Some? then payload.entry.value.slug else None;
    Trim(OrElse(fromQuery, OrElse(payload.slug, entrySlug)).GetOr([]))
  }

  // ------------------------------------------------------------ model targets

  const HomePath := "/"
  const ProjectsPath := "/projects"
  const SitemapPath := "/sitemap.xml"
  const ProjectPathPrefix := "/projects/"

  function SlugTags(project: bool, slug: string): seq<string> {
    if project && slug != [] then [ProjectPrefix + slug] else []
  }

  function SlugPaths(project: bool, slug: string): seq<string> {
    if project && slug != [] then [ProjectPathPrefix + slug] else []
  }

  /** The tags pushed in order, before de-duplication. */
  function TagsPushed(site: bool, project: bool, tag: bool, slug: string): seq<string> {
    (if site then [SiteTag, HomepageTag] else [])
    + (if project then [ProjectsTag, HomepageTag, SitemapTag] + SlugTags(project, slug) else [])
    + (if tag then [ProjectsTag, HomepageTag, SitemapTag] else [])
  }

  /** The paths pushed in order, before de-duplication. */
  function PathsPushed(site: bool, project: bool, tag: bool, slug: string): seq<string> {
    (if site then [HomePath] else [])
    + (if project then [HomePath, ProjectsPath, SitemapPath] + SlugPaths(project, slug) else [])
    + (if tag then [HomePath, ProjectsPath, SitemapPath] else [])
  }

  /** A per-project tag differs from the fixed tags, whatever the slug. */
  lemma ProjectTagIsDistinct(slug: string)
    ensures ProjectPrefix + slug !in [SiteTag, HomepageTag, ProjectsTag, SitemapTag]
  {
    var p := ProjectPrefix + slug;
    assert p[7] == 'p' && p[14] == ':';
    assert SiteTag[7] == 's' && HomepageTag[7] == 'h' && SitemapTag[7] == 's' && ProjectsTag[14] == 's';
  }

  /** A per-project path differs from the fixed paths, whatever the slug. */
  lemma ProjectPathIsDistinct(slug: string)
    ensures ProjectPathPrefix + slug !in [HomePath, ProjectsPath, SitemapPath]
  {
    var p := ProjectPathPrefix + slug;
    assert |p| >= 10 && p[1] == 'p';
    assert SitemapPath[1] == 's';
  }

  lemma TagsPushedMembers(site: bool, project: bool, tag: bool, slug: string)
    ensures var ts := TagsPushed(site, project, tag, slug);
      && (SiteTag in ts <==> site)
      && (HomepageTag in ts <==> site || project || tag)
      && (ProjectsTag in ts <==> project || tag)
      && (SitemapTag in ts <==> project || tag)
      && (ProjectPrefix + slug in ts <==> project && slug != [])
      && (forall t :: t in ts ==> t in [SiteTag, HomepageTag, ProjectsTag, SitemapTag, ProjectPrefix + slug])
  {
    ProjectTagIsDistinct(slug);
    assert SiteTag[7] == 's' && HomepageTag[7] == 'h' && SitemapTag[7] == 's' && ProjectsTag[7] == 'p';
  }

  lemma PathsPushedMembers(site: bool, project: bool, tag: bool, slug: string)
    ensures var ps := PathsPushed(site, project, tag, slug);
      && (HomePath in ps <==> site || project || tag)
      && (ProjectsPath in ps <==> project || tag)
      && (SitemapPath in ps <==> project || tag)
      && (ProjectPathPrefix + slug in ps <==> project && slug != [])
      && (forall q :: q in ps ==> q in [HomePath, ProjectsPath, SitemapPath, ProjectPathPrefix + slug])
  {
    ProjectPathIsDistinct(slug);
  }

  /**
   * `getRevalidateTargetByModel`: what a change to a model invalidates. A
   * model naming `site` invalidates the site and home page; one naming
   * `project` or `tag` invalidates the listings, home page and sitemap; a
   * `project` change with a slug also invalidates that project's page.
   */
  function TargetByModel(model: string, slug: string): (r: Target)
    ensures NoDup(r.tags) && NoDup(r.paths)
    ensures SiteTag in r.tags <==> Contains(model, "site")
    ensures HomepageTag in r.tags <==> Contains(model, "site") || Contains(model, "project") || Contains(model, "tag")
    ensures ProjectsTag in r.tags <==> Contains(model, "project") || Contains(model, "tag")
    ensures SitemapTag in r.tags <==> Contains(model, "project") || Contains(model, "tag")
    ensures ProjectPrefix + slug in r.tags <==> Contains(model, "project") && slug != []
    ensures forall t :: t in r.tags ==> t in [SiteTag, HomepageTag, ProjectsTag, SitemapTag, ProjectPrefix + slug]
    ensures HomePath in r.paths <==> Contains(model, "site") || Contains(model, "project") || Contains(model, "tag")
    ensures ProjectsPath in r.paths <==> Contains(model, "project") || Contains(model, "tag")
    ensures SitemapPath in r.paths <==> Contains(model, "project") || Contains(model, "tag")
    ensures ProjectPathPrefix + slug in r.paths <==> Contains(model, "project") && slug != []
    ensures forall q :: q in r.paths ==> q in [HomePath, ProjectsPath, SitemapPath, ProjectPathPrefix + slug]
    ensures !Contains(model, "site") && !Contains(model, "project") && !Contains(model, "tag") ==> r == Target([], [])
  {
    var site, project, tag := Contains(model, "site"), Contains(model, "project"), Contains(model, "tag");
    TagsPushedMembers(site, project, tag, slug);
    PathsPushedMembers(site, project, tag, slug);
    Target(Unique(TagsPushed(site, project, tag, slug)), Unique(PathsPushed(site, project, tag, slug)))
  }

  /** A `project` change with a slug invalidates exactly these tags and paths, in this order. */
  lemma ProjectModelNamesProjectOnly()
    ensures Contains("project", "project") && !Contains("project", "site") && !Contains("project", "tag")
  {
    assert Contains("project", "project") by {
      assert StartsWith("project", "project");
    }
    assert !Contains("project", "site") by {
      assert 's' in "site" && 's' !in "project";
      if Contains("project", "site") {
        ContainsChar("project", "site", 's');
      }
    }
    assert !Contains("project", "tag") by {
      assert 'g' in "tag" && 'g' !in "project";
      if Contains("project", "tag") {
        ContainsChar("project", "tag", 'g');
      }
    }
  }

  lemma ProjectTagsPushed(slug: string)
    requires slug != []
    ensures Unique(TagsPushed(false, true, false, slug)) == [ProjectsTag, HomepageTag, SitemapTag, ProjectPrefix + slug]
  {
    ProjectTagIsDistinct(slug);
    assert HomepageTag[7] == 'h' && SitemapTag[7] == 's' && ProjectsTag[7] == 'p';
    var ts := TagsPushed(false, true, false, slug);
    assert ts == [ProjectsTag, HomepageTag, SitemapTag, ProjectPrefix + slug];
    assert NoDup(ts);
    UniqueOfDistinct(ts);
  }

  lemma ProjectPathsPushed(slug: string)
    requires slug != []
    ensures Unique(PathsPushed(false, true, false, slug)) == [HomePath, ProjectsPath, SitemapPath, ProjectPathPrefix + slug]
  {
    ProjectPathIsDistinct(slug);
    var ps := PathsPushed(false, true, false, slug);
    assert ps == [HomePath, ProjectsPath, SitemapPath, ProjectPathPrefix + slug];
    assert NoDup(ps);
    UniqueOfDistinct(ps);
  }

  lemma ProjectTarget(slug: string)
    requires slug != []
    ensures TargetByModel("project", slug)
      == Target([ProjectsTag, HomepageTag, SitemapTag, ProjectPrefix + slug],
                [HomePath, ProjectsPath, SitemapPath, ProjectPathPrefix + slug])
  {
    ProjectModelNamesProjectOnly();
    ProjectTagsPushed(slug);
    ProjectPathsPushed(slug);
  }

  // ----------------------------------------------------------------- secrets

  /** The trimmed value, when it is present and not blank. */
  function Present(value: Option<string>): (r: Option<string>)
    ensures r.Some? <==> value.Some? && !AllSpace(value.value)
    ensures r.Some? ==> r.value == Trim(value.value)
  {
    if value.Some? && Trim(value.value) != [] then Some(Trim(value.value)) else None
  }

  /**
   * `extractAuthorizationSecret`: the second whitespace-separated word of the
   * `Authorization` header, when the first is `bearer` in any letter case.
   */
  function BearerToken(header: Option<string>): (r: Option<string>)
    ensures r.Some? ==> r.value != [] && NoSpace(r.value)
    ensures r.Some? ==> header.Some? && |Words(header.value)| >= 2 && ToLower(Words(header.value)[0]) == "bearer"
    ensures r.Some? ==> r.value == Words(header.value)[1]
    ensures header.Some? && |Words(header.value)| >= 2 && ToLower(Words(header.value)[0]) == "bearer" ==>
      r == Some(Words(header.value)[1])
  {
    if header.None? || header.value == [] then None
    else
      var words := Words(Trim(header.value));
      WordsOfTrim(header.value);
      if |words| >= 2 && ToLower(words[0]) == "bearer" then Some(words[1]) else None
  }

  /** The words of `<lead><scheme><gap><token><rest>` start with the scheme and the token. */
  lemma {:induction false} WordsOfSchemeAndToken(lead: string, scheme: string, gap: string, token: string, rest: string)
    requires AllSpace(lead) && scheme != [] && NoSpace(scheme)
    requires gap != [] && AllSpace(gap)
    requires token != [] && NoSpace(token)
    requires rest == [] || IsSpace(rest[0])
    ensures Words(lead + scheme + gap + token + rest) == [scheme, token] + Words(rest)
  {
    assert lead + scheme + gap + token + rest == lead + (scheme + (gap + (token + rest)));
    WordsSkipSpace(lead, scheme + (gap + (token + rest)));
    FirstWord(scheme, gap + (token + rest));
    WordsSkipSpace(gap, token + rest);
    FirstWord(token, rest);
  }

  /** A header `bearer <token>`, however padded and cased, and whatever follows, yields the token. */
  lemma BearerRoundTrip(lead: string, scheme: string, gap: string, token: string, rest: string)
    requires AllSpace(lead) && ToLower(scheme) == "bearer" && NoSpace(scheme)
    requires gap != [] && AllSpace(gap)
    requires token != [] && NoSpace(token)
    requires rest == [] || IsSpace(rest[0])
    ensures BearerToken(Some(lead + scheme + gap + token + rest)) == Some(token)
  {
    var h := lead + scheme + gap + token + rest;
    assert |scheme| == 6;
    WordsOfSchemeAndToken(lead, scheme, gap, token, rest);
    WordsOfTrim(h);
  }

  /** A header whose first word is not `bearer` in any case yields nothing. */
  lemma OtherSchemeGivesNothing(header: string)
    requires var ws := Words(header); ws == [] || ToLower(ws[0]) != "bearer"
    ensures BearerToken(Some(header)) == None
  {
  }

  const SecretParam := "secret"
  const SecretHeader := "x-revalidate-secret"
  const AuthorizationHeader := "authorization"

  /**
   * `getIncomingSecret`: the first non-blank of the body secret, the `secret`
   * query parameter and the `x-revalidate-secret` header, trimmed; otherwise
   * the bearer token.
   */
  function IncomingSecret(req: Request, payloadSecret: Option<string>): (r: Option<string>)
    ensures Present(payloadSecret).Some? ==> r == Present(payloadSecret)
    ensures Present(payloadSecret).None? && Present(Get(req.query, SecretParam)).Some? ==>
      r == Present(Get(req.query, SecretParam))
    ensures (Present(payloadSecret).None? && Present(Get(req.query, SecretParam)).None? &&
             Present(Get(req.headers, SecretHeader)).Some?) ==> r == Present(Get(req.headers, SecretHeader))
    ensures (Present(payloadSecret).None? && Present(Get(req.query, SecretParam)).None? &&
             Present(Get(req.headers, SecretHeader)).None?) ==> r == BearerToken(Get(req.headers, AuthorizationHeader))
    ensures r.Some? ==> r.value != [] && !IsSpace(r.value[0]) && !IsSpace(r.value[|r.value| - 1])
  {
    OrElse(Present(payloadSecret),
      OrElse(Present(Get(req.query, SecretParam)),
        OrElse(Present(Get(req.headers, SecretHeader)), BearerToken(Get(req.headers, AuthorizationHeader)))))
  }

  /** `validateSecret`: a secret must be configured and presented exactly. */
  function ValidateSecret(allowed: string, secret: Option<string>): (ok: bool)
    ensures ok ==> allowed != [] && secret == Some(allowed)
    ensures allowed != [] && secret == Some(allowed) ==> ok
    ensures allowed == [] ==> !ok
  {
    allowed != [] && secret == Some(allowed)
  }

  // ---------------------------------------------------------------- handlers

  /** `applyRevalidation`: every tag in order, then every path in order. */
  function Trace(tags: seq<string>, paths: seq<string>): (t: seq<Effect>)
    ensures |t| == |tags| + |paths|
    ensures forall i :: 0 <= i < |tags| ==> t[i] == RevalidateTag(tags[i])
    ensures forall j :: 0 <= j < |paths| ==> t[|tags| + j] == RevalidatePath(paths[j])
  {
    Map(tags, (tag: string) => RevalidateTag(tag)) + Map(paths, (path: string) => RevalidatePath(path))
  }

  /** Each tag and each path is invalidated exactly once, and no tag after a path. */
  lemma TraceOnce(tags: seq<string>, paths: seq<string>)
    requires NoDup(tags) && NoDup(paths)
    ensures var t := Trace(tags, paths);
      && NoDup(t)
      && (forall i, j :: 0 <= i < j < |t| && t[j].RevalidateTag? ==> t[i].RevalidateTag?)
  {
    var t := Trace(tags, paths);
    forall i, j | 0 <= i < j < |t|
      ensures t[i] != t[j]
    {
      if j < |tags| {
        assert t[i] == RevalidateTag(tags[i]) && t[j] == RevalidateTag(tags[j]);
      } else if i >= |tags| {
        assert t[i] == RevalidatePath(paths[i - |tags|]) && t[j] == RevalidatePath(paths[j - |tags|]);
      } else {
        assert t[i].RevalidateTag? && t[j].RevalidatePath?;
      }
    }
  }

  /** The authorized outcome: `unique(manual ++ modelDerived)` for tags and likewise for paths. */
  function Success(manualTags: seq<string>, manualPaths: seq<string>, target: Target, event: Option<string>): (h: Handled)
    ensures h.response.Revalidated? && h.response.event == event
    ensures NoDup(h.response.tags) && NoDup(h.response.paths)
    ensures forall t :: t in h.response.tags <==> t in manualTags || t in target.tags
    ensures forall q :: q in h.response.paths <==> q in manualPaths || q in target.paths
    ensures h.trace == Trace(h.response.tags, h.response.paths)
  {
    var tags := Unique(manualTags + target.tags);
    var paths := Unique(manualPaths + target.paths);
    Handled(Revalidated(tags, paths, event), Trace(tags, paths))
  }

  /** Tags named in a GET's `tag` parameter. */
  function QueryTags(req: Request): seq<string> {
    Keep(CommaList(Get(req.query, "tag")), NormalizeTag)
  }

  /** Paths named in a GET's `path` parameter that start with `/`. */
  function QueryPaths(req: Request): seq<string> {
    Keep(CommaList(Get(req.query, "path")), NormalizePath)
  }

  function GetTarget(req: Request): Target {
    TargetByModel(ModelOf(EmptyPayload, Get(req.query, "model")), SlugOf(EmptyPayload, Get(req.query, "slug")))
  }

  /**
   * `GET`: with a valid secret from the query, header or bearer token, the
   * tags and paths named in the query plus those of the query's model;
   * otherwise 401 and nothing invalidated.
   */
  function HandleGet(req: Request, allowed: string): (h: Handled)
    ensures Status(h.response) == 401 <==> !ValidateSecret(allowed, IncomingSecret(req, None))
    ensures h.response.Unauthorized? ==> h.trace == []
    ensures h.response.Revalidated? ==> h == Success(QueryTags(req), QueryPaths(req), GetTarget(req), None)
  {
    if !ValidateSecret(allowed, IncomingSecret(req, None)) then Handled(Unauthorized, [])
    else Success(QueryTags(req), QueryPaths(req), GetTarget(req), None)
  }

  function BodyOf(req: Request): Payload {
    req.body.GetOr(EmptyPayload)
  }

  function BodyTags(payload: Payload): seq<string> {
    Keep(payload.tags.GetOr([]), NormalizeTag)
  }

  function BodyPaths(payload: Payload): seq<string> {
    Keep(payload.paths.GetOr([]), NormalizePath)
  }

  function BodyTarget(payload: Payload): Target {
    TargetByModel(ModelOf(payload, None), SlugOf(payload, None))
  }

  /**
   * `POST`: with a valid secret from the body, query, header or bearer token,
   * the body's tags and paths plus those of the body's model, echoing its
   * event; otherwise 401 and nothing invalidated. A body that is not JSON
   * reads as empty.
   */
  function HandlePost(req: Request, allowed: string): (h: Handled)
    ensures Status(h.response) == 401 <==> !ValidateSecret(allowed, IncomingSecret(req, BodyOf(req).secret))
    ensures h.response.Unauthorized? ==> h.trace == []
    ensures h.response.Revalidated? ==>
      var payload := BodyOf(req);
      h == Success(BodyTags(payload), BodyPaths(payload), BodyTarget(payload), payload.event)
  {
    var payload := BodyOf(req);
    if !ValidateSecret(allowed, IncomingSecret(req, payload.secret)) then Handled(Unauthorized, [])
    else Success(BodyTags(payload), BodyPaths(payload), BodyTarget(payload), payload.event)
  }

  // ---------------------------------------------------------------- properties

  /** Non-empty with no whitespace at either end: what `trim` leaves alone. */
  predicate Clean(t: string) {
    t != [] && !IsSpace(t[0]) && !IsSpace(t[|t| - 1])
  }

  lemma CleanIsTrimmed(t: string)
    requires Clean(t)
    ensures Trim(t) == t
  {
    assert [] + t + [] == t;
    TrimOfPadded([], t, []);
  }

  lemma FixedTagsAreClean()
    ensures Clean(SiteTag) && Clean(HomepageTag) && Clean(ProjectsTag) && Clean(SitemapTag) && Clean(ProjectPrefix)
  {
    GraphicIsNotSpace('s');
    GraphicIsNotSpace('e');
    GraphicIsNotSpace('p');
    GraphicIsNotSpace(':');
  }

  lemma ProjectTagIsClean(slug: string)
    requires Trim(slug) == slug
    ensures Clean(ProjectPrefix + slug)
  {
    var t := ProjectPrefix + slug;
    GraphicIsNotSpace('s');
    GraphicIsNotSpace(':');
    if slug != [] {
      assert t[|t| - 1] == slug[|slug| - 1];
    }
  }

  /** For a trimmed slug, every model-derived tag is trimmed and non-empty. */
  lemma TargetTagsAreClean(model: string, slug: string)
    requires Trim(slug) == slug
    ensures forall t :: t in TargetByModel(model, slug).tags ==> t != [] && Trim(t) == t
  {
    CandidateTagsAreClean(slug);
    CleanTagsAreTrimmed(TargetByModel(model, slug).tags, [SiteTag, HomepageTag, ProjectsTag, SitemapTag, ProjectPrefix + slug]);
  }

  lemma CandidateTagsAreClean(slug: string)
    requires Trim(slug) == slug
    ensures var candidates := [SiteTag, HomepageTag, ProjectsTag, SitemapTag, ProjectPrefix + slug];
      forall i :: 0 <= i < |candidates| ==> Clean(candidates[i])
  {
    FixedTagsAreClean();
    ProjectTagIsClean(slug);
  }

  /** Tags drawn from a list of clean candidates are trimmed and non-empty. */
  lemma CleanTagsAreTrimmed(tags: seq<string>, candidates: seq<string>)
    requires forall t :: t in tags ==> t in candidates
    requires forall i :: 0 <= i < |candidates| ==> Clean(candidates[i])
    ensures forall t :: t in tags ==> t != [] && Trim(t) == t
  {
    forall t | t in tags
      ensures t != [] && Trim(t) == t
    {
      CleanIsTrimmed(t);
    }
  }

  /** The response lists only tags drawn from its two sources, so clean sources give clean tags. */
  lemma SuccessTagsAreClean(manualTags: seq<string>, manualPaths: seq<string>, target: Target, event: Option<string>)
    requires forall t :: t in manualTags ==> t != [] && Trim(t) == t
    requires forall t :: t in target.tags ==> t != [] && Trim(t) == t
    ensures var r := Success(manualTags, manualPaths, target, event).response;
      forall i :: 0 <= i < |r.tags| ==> r.tags[i] != [] && Trim(r.tags[i]) == r.tags[i]
  {
    var r := Success(manualTags, manualPaths, target, event).response;
    forall i | 0 <= i < |r.tags|
      ensures r.tags[i] != [] && Trim(r.tags[i]) == r.tags[i]
    {
      assert r.tags[i] in r.tags;
    }
  }

  lemma QueryTagsAreClean(req: Request)
    ensures forall t :: t in QueryTags(req) ==> t != [] && Trim(t) == t
  {
    DelimitedTagsAreNormal(Get(req.query, "tag"));
  }

  lemma QuerySlugIsTrimmed(req: Request)
    ensures var slug := SlugOf(EmptyPayload, Get(req.query, "slug")); Trim(slug) == slug
  {
    TrimIdempotent(Get(req.query, "slug").GetOr([]));
  }

  /** Every GET tag is trimmed and non-empty. */
  lemma GetTagsAreClean(req: Request, allowed: string)
    requires HandleGet(req, allowed).response.Revalidated?
    ensures var r := HandleGet(req, allowed).response;
      forall i :: 0 <= i < |r.tags| ==> r.tags[i] != [] && Trim(r.tags[i]) == r.tags[i]
  {
    QueryTagsAreClean(req);
    QuerySlugIsTrimmed(req);
    TargetTagsAreClean(ModelOf(EmptyPayload, Get(req.query, "model")), SlugOf(EmptyPayload, Get(req.query, "slug")));
    SuccessTagsAreClean(QueryTags(req), QueryPaths(req), GetTarget(req), None);
    assert HandleGet(req, allowed) == Success(QueryTags(req), QueryPaths(req), GetTarget(req), None);
  }

  /** Every POST tag is trimmed and non-empty. */
  lemma PostTagsAreClean(req: Request, allowed: string)
    requires HandlePost(req, allowed).response.Revalidated?
    ensures var r := HandlePost(req, allowed).response;
      forall i :: 0 <= i < |r.tags| ==> r.tags[i] != [] && Trim(r.tags[i]) == r.tags[i]
  {
    var payload := BodyOf(req);
    var tags := BodyTags(payload);
    forall t | t in tags
      ensures t != [] && Trim(t) == t
    {
      var x :| x in payload.tags.GetOr([]) && NormalizeTag(x) == Some(t);
      TrimIdempotent(x);
    }
    var slug := SlugOf(payload, None);
    var raw := OrElse(payload.slug, if payload.entry.Some? then payload.entry.value.slug else None).GetOr([]);
    TrimIdempotent(raw);
    assert Trim(slug) == slug;
    TargetTagsAreClean(ModelOf(payload, None), slug);
    SuccessTagsAreClean(tags, BodyPaths(payload), BodyTarget(payload), payload.event);
  }

  /** Every model-derived path starts with `/`. */
  lemma TargetPathsAreRooted(model: string, slug: string)
    ensures forall q :: q in TargetByModel(model, slug).paths ==> StartsWith(q, "/")
  {
    assert (ProjectPathPrefix + slug)[..1] == "/";
    assert HomePath[..1] == "/" && ProjectsPath[..1] == "/" && SitemapPath[..1] == "/";
  }

  /** Paths kept by `normalizePath` start with `/`, so the response's paths all do. */
  lemma SuccessPathsAreRooted(manualTags: seq<string>, manualPaths: seq<string>, target: Target, event: Option<string>)
    requires forall q :: q in target.paths ==> StartsWith(q, "/")
    ensures var r := Success(manualTags, Keep(manualPaths, NormalizePath), target, event).response;
      forall i :: 0 <= i < |r.paths| ==> StartsWith(r.paths[i], "/")
  {
    var kept := Keep(manualPaths, NormalizePath);
    var r := Success(manualTags, kept, target, event).response;
    forall i | 0 <= i < |r.paths|
      ensures StartsWith(r.paths[i], "/")
    {
      var q := r.paths[i];
      assert q in r.paths;
      if q in kept {
        var x :| x in manualPaths && NormalizePath(x) == Some(q);
      }
    }
  }

  /** Every path a GET invalidates starts with `/`. */
  lemma GetPathsAreRooted(req: Request, allowed: string)
    requires HandleGet(req, allowed).response.Revalidated?
    ensures var r := HandleGet(req, allowed).response;
      forall i :: 0 <= i < |r.paths| ==> StartsWith(r.paths[i], "/")
  {
    var h := HandleGet(req, allowed);
    assert h == Success(QueryTags(req), QueryPaths(req), GetTarget(req), None);
    TargetPathsAreRooted(ModelOf(EmptyPayload, Get(req.query, "model")), SlugOf(EmptyPayload, Get(req.query, "slug")));
    SuccessPathsAreRooted(QueryTags(req), CommaList(Get(req.query, "path")), GetTarget(req), None);
    assert QueryPaths(req) == Keep(CommaList(Get(req.query, "path")), NormalizePath);
  }

  /** Every path a POST invalidates starts with `/`. */
  lemma PostPathsAreRooted(req: Request, allowed: string)
    requires HandlePost(req, allowed).response.Revalidated?
    ensures var r := HandlePost(req, allowed).response;
      forall i :: 0 <= i < |r.paths| ==> StartsWith(r.paths[i], "/")
  {
    var payload := BodyOf(req);
    var h := HandlePost(req, allowed);
    assert h == Success(BodyTags(payload), BodyPaths(payload), BodyTarget(payload), payload.event);
    TargetPathsAreRooted(ModelOf(payload, None), SlugOf(payload, None));
    SuccessPathsAreRooted(BodyTags(payload), payload.paths.GetOr([]), BodyTarget(payload), payload.event);
    assert BodyPaths(payload) == Keep(payload.paths.GetOr([]), NormalizePath);
  }

  /** A wrong or missing secret is refused with 401 and no invalidation, on either method. */
  lemma WrongSecretRefused(req: Request, allowed: string)
    requires IncomingSecret(req, None) != Some(allowed)
    requires IncomingSecret(req, BodyOf(req).secret) != Some(allowed)
    ensures Status(HandleGet(req, allowed).response) == 401 && HandleGet(req, allowed).trace == []
    ensures Status(HandlePost(req, allowed).response) == 401 && HandlePost(req, allowed).trace == []
  {
  }

  /** With no secret configured, every request is refused. */
  lemma UnconfiguredSecretRefusesAll(req: Request)
    ensures HandleGet(req, []).response.Unauthorized? && HandlePost(req, []).response.Unauthorized?
  {
  }

  /** No incoming secret has white space at either end. */
  lemma PaddedSecretIsNoCandidate(req: Request, payloadSecret: Option<string>, allowed: string)
    requires allowed != [] && (IsSpace(allowed[0]) || IsSpace(allowed[|allowed| - 1]))
    ensures IncomingSecret(req, payloadSecret) != Some(allowed)
  {
  }

  /**
   * A configured secret with whitespace at either end can never be presented:
   * every candidate is trimmed, or is a whitespace-free token, before comparison.
   */
  lemma PaddedSecretRefusesAll(req: Request, allowed: string)
    requires allowed != [] && (IsSpace(allowed[0]) || IsSpace(allowed[|allowed| - 1]))
    ensures HandleGet(req, allowed).response.Unauthorized?
    ensures HandlePost(req, allowed).response.Unauthorized?
  {
    var fromGet := IncomingSecret(req, None);
    var fromPost := IncomingSecret(req, BodyOf(req).secret);
    PaddedSecretIsNoCandidate(req, None, allowed);
    PaddedSecretIsNoCandidate(req, BodyOf(req).secret, allowed);
    assert !ValidateSecret(allowed, fromGet) && !ValidateSecret(allowed, fromPost);
  }

  /** A GET presenting the secret as `<bearer in any case> <secret>` is authorized when no other source carries one. */
  lemma BearerAuthorizesGet(query: map<string, string>, headers: map<string, string>, scheme: string, allowed: string)
    requires allowed != [] && NoSpace(allowed)
    requires ToLower(scheme) == "bearer" && NoSpace(scheme)
    requires SecretParam !in query && SecretHeader !in headers
    requires Get(headers, AuthorizationHeader) == Some(scheme + " " + allowed)
    ensures HandleGet(Request(query, headers, None), allowed).response.Revalidated?
  {
    var req := Request(query, headers, None);
    assert scheme + " " + allowed == [] + scheme + " " + allowed + [];
    BearerRoundTrip([], scheme, " ", allowed, []);
    assert Get(query, SecretParam) == None && Get(headers, SecretHeader) == None;
    assert IncomingSecret(req, None) == Some(allowed);
  }

  /** A POST whose body carries the configured secret is answered from the body alone. */
  lemma AuthorizedPost(req: Request, allowed: string)
    requires allowed != [] && Present(BodyOf(req).secret) == Some(allowed)
    ensures var payload := BodyOf(req);
      HandlePost(req, allowed) == Success(BodyTags(payload), BodyPaths(payload), BodyTarget(payload), payload.event)
  {
  }

  const ProjectChange := EmptyPayload.(model := Some("project"), slug := Some("my-project"))

  lemma ProjectChangeTarget()
    ensures BodyTarget(ProjectChange)
      == Target([ProjectsTag, HomepageTag, SitemapTag, ProjectPrefix + "my-project"],
                [HomePath, ProjectsPath, SitemapPath, ProjectPathPrefix + "my-project"])
  {
    assert ToLower("project") == "project";
    GraphicIsNotSpace('m');
    GraphicIsNotSpace('t');
    CleanIsTrimmed("my-project");
    ProjectTarget("my-project");
  }

  /**
   * The webhook a CMS sends when a project changes: a POST with body
   * `{"model": "project", "slug": "my-project", "secret": <configured>}`
   * invalidates the project's own tag and page and the listing pages.
   */
  lemma ProjectWebhook(allowed: string, query: map<string, string>, headers: map<string, string>)
    requires allowed != [] && Trim(allowed) == allowed
    ensures var h := HandlePost(Request(query, headers, Some(ProjectChange.(secret := Some(allowed)))), allowed);
      && Status(h.response) == 200
      && h.response.event.None?
      && ProjectPrefix + "my-project" in h.response.tags
      && ProjectsTag in h.response.tags && HomepageTag in h.response.tags && SitemapTag in h.response.tags
      && ProjectPathPrefix + "my-project" in h.response.paths
      && HomePath in h.response.paths && ProjectsPath in h.response.paths && SitemapPath in h.response.paths
  {
    var body := ProjectChange.(secret := Some(allowed));
    var req := Request(query, headers, Some(body));
    assert BodyOf(req) == body;
    assert Present(body.secret) == Some(allowed);
    AuthorizedPost(req, allowed);
    assert BodyTarget(body) == BodyTarget(ProjectChange);
    ProjectChangeTarget();
    assert BodyTags(body) == [] && BodyPaths(body) == [];
  }
}
