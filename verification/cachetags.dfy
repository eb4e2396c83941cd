/** Cache tags and revalidation windows shared by the CMS client and the revalidation endpoint (apps/web/src/lib/strapi.ts). */
module CacheTags {
  import opened Wrappers
  import opened Seqs

  const SiteTag := "strapi:site"
  const HomepageTag := "strapi:homepage"
  const ProjectsTag := "strapi:projects"
  const SitemapTag := "strapi:sitemap"
  const HealthTag := "strapi:health"
  const ProjectPrefix := "strapi:project:"
  const TagPrefix := "strapi:tag:"

  /** Revalidation windows in seconds. */
  const SiteWindow := 6 * 60 * 60
  const ProjectsWindow := 30 * 60
  const ProjectWindow := 60 * 60
  const SlugsWindow := 24 * 60 * 60
  const HealthWindow := 5 * 60
  const DefaultRevalidateSeconds := 900

  /** `dedupeTags`: no tag list for a missing or empty one, otherwise each tag once in first-seen order. */
  function DedupeTags(tags: Option<seq<string>>): (r: Option<seq<string>>)
    ensures r.None? <==> tags.None? || tags.value == []
    ensures r.Some? ==> NoDup(r.value) && forall t :: t in r.value <==> t in tags.value
  {
    if tags.None? || tags.value == [] then None else Some(Unique(tags.value))
  }

  /** `getProjectsTagSet`: the listing tags, plus a per-tag tag when a tag filter is given. */
  function ProjectsTagSet(tag: string): (r: seq<string>)
    ensures ProjectsTag in r && HomepageTag in r
    ensures TagPrefix + tag in r <==> tag != []
    ensures |r| == if tag == [] then 2 else 3
  {
    var base := [ProjectsTag, HomepageTag];
    if tag != [] then
      base + [TagPrefix + tag]
    else
      assert (TagPrefix + tag)[..|TagPrefix|] == TagPrefix;
      assert TagPrefix + tag != ProjectsTag && TagPrefix + tag != HomepageTag;
      base
  }
}
