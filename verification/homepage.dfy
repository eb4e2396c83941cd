/** The profile-link lookup of the home page (apps/web/src/app/page.tsx, `findSocial`). */
module HomePage {
  import opened Wrappers
  import opened Strings
  import opened Types
  import Fallback

  /** The placeholder link when there is no match. */
  const NoLink := "#"

  predicate LabelMatches(link: SocialLink, wanted: string) {
    ToLower(link.linkLabel) == ToLower(wanted)
  }

  /** `find`: the first link whose label equals `wanted` ignoring letter case. */
  function FirstMatch(links: seq<SocialLink>, wanted: string): (r: Option<SocialLink>)
    ensures r.None? <==> forall i :: 0 <= i < |links| ==> !LabelMatches(links[i], wanted)
    ensures r.Some? ==> exists k :: (0 <= k < |links| && links[k] == r.value && LabelMatches(links[k], wanted) &&
                                     forall j :: 0 <= j < k ==> !LabelMatches(links[j], wanted))
  {
    if links == [] then None
    else if LabelMatches(links[0], wanted) then Some(links[0])
    else
      var r := FirstMatch(links[1..], wanted);
      assert r.Some? ==> exists k :: (0 < k < |links| && links[k] == r.value && LabelMatches(links[k], wanted) &&
                                      forall j :: 0 <= j < k ==> !LabelMatches(links[j], wanted)) by {
        if r.Some? {
          var k :| 0 <= k < |links[1..]| && links[1..][k] == r.value && LabelMatches(links[1..][k], wanted) &&
            forall j :: 0 <= j < k ==> !LabelMatches(links[1..][j], wanted);
          assert links[k + 1] == r.value;
          assert forall j :: 1 <= j < k + 1 ==> links[j] == links[1..][j - 1];
        }
      }
      r
  }

  /**
   * `findSocial`: the url of the first link labelled `wanted` in any letter
   * case, or `#` when there are no links or none matches.
   */
  function FindSocial(socials: Option<seq<SocialLink>>, wanted: string): (r: string)
    ensures socials.None? ==> r == NoLink
    ensures socials.Some? && (forall i :: 0 <= i < |socials.value| ==> !LabelMatches(socials.value[i], wanted)) ==>
      r == NoLink
    ensures socials.Some? && FirstMatch(socials.value, wanted).Some? ==>
      exists k :: (0 <= k < |socials.value| && r == socials.value[k].url && LabelMatches(socials.value[k], wanted) &&
                   forall j :: 0 <= j < k ==> !LabelMatches(socials.value[j], wanted))
  {
    if socials.None? then NoLink
    else
      var found := FirstMatch(socials.value, wanted);
      if found.Some? then found.value.url else NoLink
  }

  /** The answer is always the placeholder or the url of one of the links. */
  lemma FindSocialIsSomeLink(socials: Option<seq<SocialLink>>, wanted: string)
    ensures var r := FindSocial(socials, wanted);
      r == NoLink || (socials.Some? && exists i :: 0 <= i < |socials.value| && r == socials.value[i].url)
  {
  }

  /** The home page's GitHub button on the fallback site links to the fallback profile. */
  lemma FallbackGithubLink()
    ensures FindSocial(Fallback.MockSite.socials, "github") == "https://github.com/tuusuario"
  {
    var links := Fallback.MockSite.socials.value;
    assert ToLower("GitHub") == "github";
    assert LabelMatches(links[0], "github");
  }
}
