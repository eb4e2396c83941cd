/** Media URL resolution (apps/web/src/lib/strapi.ts, `getStrapiMediaUrl`). */
module MediaUrl {
  import opened Wrappers
  import opened Strings
  import opened Types

  /** The URL already names its `http` or `https` scheme. */
  predicate IsAbsolute(url: string) {
    StartsWith(url, "http://") || StartsWith(url, "https://")
  }

  /**
   * `getStrapiMediaUrl`: nothing for missing media or an empty URL, an absolute
   * URL unchanged, anything else handed to `resolve` (resolution against the
   * CMS base URL).
   */
  function GetStrapiMediaUrl(media: Option<Media>, resolve: string -> string): (r: Option<string>)
    ensures media.None? || media.value.url == [] ==> r.None?
    ensures media.Some? && IsAbsolute(media.value.url) ==> r == Some(media.value.url)
    ensures media.Some? && media.value.url != [] && !IsAbsolute(media.value.url) ==> r == Some(resolve(media.value.url))
  {
    if media.None? || media.value.url == [] then None
    else if IsAbsolute(media.value.url) then Some(media.value.url)
    else Some(resolve(media.value.url))
  }

  /**
   * When resolution always yields an absolute URL, resolving a resolved URL
   * again changes nothing.
   */
  lemma MediaUrlIsStable(media: Media, resolve: string -> string)
    requires forall u :: IsAbsolute(resolve(u))
    requires media.url != []
    ensures var r := GetStrapiMediaUrl(Some(media), resolve);
      r.Some? && IsAbsolute(r.value) &&
      GetStrapiMediaUrl(Some(media.(url := r.value)), resolve) == r
  {
    var r := GetStrapiMediaUrl(Some(media), resolve);
    assert r.value != [] by {
      assert IsAbsolute(r.value);
    }
  }
}
