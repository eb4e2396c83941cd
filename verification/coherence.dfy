/**
 * How the revalidation webhook's targets meet the tags the content accessors
 * attach to their requests: a cached answer is dropped when one of its tags
 * is revalidated, so each change reaches the answers it affects.
 */
module CacheCoherence {
  import opened Wrappers
  import opened Strings
  import opened CacheTags
  import Types
  import Accessors
  import Revalidate
  import Seqs

  /** Some tag of the cached request is among the revalidated tags. */
  predicate Invalidates(target: Revalidate.Target, q: Accessors.Query) {
    q.options.tags.Some? && exists t :: t in q.options.tags.value && t in target.tags
  }

  /** A change to the site record drops the cached site. */
  lemma SiteChangeRefreshesSite(model: string, slug: string)
    requires Contains(model, "site")
    ensures var target := Revalidate.TargetByModel(model, slug);
      forall t :: t in Accessors.SiteQuery.options.tags.value ==> t in target.tags
  {
  }

  /** A change to projects or tags drops every cached listing, whatever its filters. */
  lemma ProjectChangeRefreshesListings(model: string, slug: string, options: Types.ProjectsOptions)
    requires Contains(model, "project") || Contains(model, "tag")
    ensures Invalidates(Revalidate.TargetByModel(model, slug), Accessors.ProjectsQuery(options))
  {
    assert ProjectsTag in Accessors.ProjectsQuery(options).options.tags.value;
  }

  /** A change to projects or tags drops the cached sitemap slugs, by both of their tags. */
  lemma ProjectChangeRefreshesSlugs(model: string, slug: string)
    requires Contains(model, "project") || Contains(model, "tag")
    ensures var target := Revalidate.TargetByModel(model, slug);
      forall t :: t in Accessors.SlugsQuery.options.tags.value ==> t in target.tags
  {
  }

  /** A project change naming a slug drops that project's cached detail, by both of its tags. */
  lemma ProjectChangeRefreshesDetail(model: string, slug: string)
    requires Contains(model, "project") && slug != []
    ensures var target := Revalidate.TargetByModel(model, slug);
      forall t :: t in Accessors.ProjectQuery(slug).options.tags.value ==> t in target.tags
  {
  }

  lemma HealthTagIsNoTarget(slug: string)
    ensures HealthTag !in [SiteTag, HomepageTag, ProjectsTag, SitemapTag, ProjectPrefix + slug]
  {
    var p := ProjectPrefix + slug;
    assert HealthTag[7] == 'h' && HealthTag[8] == 'e';
    assert SiteTag[7] == 's' && HomepageTag[8] == 'o' && ProjectsTag[7] == 'p' && SitemapTag[7] == 's';
    assert p[7] == 'p';
  }

  /**
   * No model change drops the cached health probe: no target derived from a
   * model carries its tag. Naming the tag by hand still does (see below).
   */
  lemma HealthIsNeverRevalidated(model: string, slug: string)
    ensures !Invalidates(Revalidate.TargetByModel(model, slug), Accessors.HealthQuery)
  {
    HealthTagIsNoTarget(slug);
    assert Accessors.HealthQuery.options.tags.value == [HealthTag];
  }

  /** An authorized GET drops the cached health probe exactly when its `tag` parameter names it. */
  lemma GetRevalidatesHealthOnlyByName(req: Revalidate.Request, allowed: string)
    requires Revalidate.HandleGet(req, allowed).response.Revalidated?
    ensures HealthTag in Revalidate.HandleGet(req, allowed).response.tags <==> HealthTag in Revalidate.QueryTags(req)
  {
    var model := Revalidate.ModelOf(Revalidate.EmptyPayload, Get(req.query, "model"));
    var slug := Revalidate.SlugOf(Revalidate.EmptyPayload, Get(req.query, "slug"));
    HealthIsNeverRevalidated(model, slug);
    assert HealthTag in Accessors.HealthQuery.options.tags.value;
  }

  /** An authorized POST drops the cached health probe exactly when its body's `tags` name it. */
  lemma PostRevalidatesHealthOnlyByName(req: Revalidate.Request, allowed: string)
    requires Revalidate.HandlePost(req, allowed).response.Revalidated?
    ensures var payload := Revalidate.BodyOf(req);
      HealthTag in Revalidate.HandlePost(req, allowed).response.tags <==> HealthTag in Revalidate.BodyTags(payload)
  {
    var payload := Revalidate.BodyOf(req);
    HealthIsNeverRevalidated(Revalidate.ModelOf(payload, None), Revalidate.SlugOf(payload, None));
    assert HealthTag in Accessors.HealthQuery.options.tags.value;
  }

  /** The health tag names itself through `normalizeTag`. */
  lemma HealthTagIsNormal()
    ensures Revalidate.NormalizeTag(HealthTag) == Some(HealthTag)
  {
    TrimOfPadded([], HealthTag, []);
    assert [] + HealthTag + [] == HealthTag;
  }

  /** The GET request that names the health tag by hand, presenting `secret`. */
  function HealthRequest(secret: string): Revalidate.Request {
    Revalidate.Request(map["secret" := secret, "tag" := HealthTag], map[], None)
  }

  lemma HealthRequestTags(secret: string)
    ensures Revalidate.QueryTags(HealthRequest(secret)) == [HealthTag]
  {
    assert ',' !in HealthTag by { assert forall i :: 0 <= i < |HealthTag| ==> HealthTag[i] != ','; }
    CommaListOfOnePiece(HealthTag);
    HealthTagIsNormal();
    assert Trim(HealthTag) == HealthTag;
    assert [HealthTag][1..] == [];
  }

  lemma HealthRequestTarget(secret: string)
    ensures Revalidate.GetTarget(HealthRequest(secret)) == Revalidate.Target([], [])
  {
    assert Get(HealthRequest(secret).query, "model") == None;
    assert !Contains([], "site") && !Contains([], "project") && !Contains([], "tag");
  }

  lemma HealthRequestAuthorized(secret: string)
    requires Revalidate.Clean(secret)
    ensures Revalidate.IncomingSecret(HealthRequest(secret), None) == Some(secret)
  {
    TrimOfPadded([], secret, []);
    assert [] + secret + [] == secret;
    assert Get(HealthRequest(secret).query, Revalidate.SecretParam) == Some(secret);
  }

  /** A success naming one tag by hand, with no model, revalidates just that tag. */
  lemma SuccessOfOneTag(tag: string, paths: seq<string>)
    ensures Revalidate.Success([tag], paths, Revalidate.Target([], []), None).response.tags == [tag]
  {
    assert [tag] + [] == [tag];
    assert [tag][..0] == [];
  }

  /** `GET ?secret=<secret>&tag=strapi:health` revalidates the health probe's tag. */
  lemma ManualTagRevalidatesHealth(secret: string)
    requires Revalidate.Clean(secret)
    ensures var h := Revalidate.HandleGet(HealthRequest(secret), secret);
      h.response.Revalidated? && HealthTag in h.response.tags && Revalidate.RevalidateTag(HealthTag) in h.trace
  {
    var req := HealthRequest(secret);
    HealthRequestAuthorized(secret);
    HealthRequestTags(secret);
    HealthRequestTarget(secret);
    var h := Revalidate.HandleGet(req, secret);
    assert h == Revalidate.Success([HealthTag], Revalidate.QueryPaths(req), Revalidate.Target([], []), None);
    SuccessOfOneTag(HealthTag, Revalidate.QueryPaths(req));
    assert h.trace[0] == Revalidate.RevalidateTag(HealthTag);
  }
}
