# Portfolio content layer, modelled in Dafny

This project models the data layer of a personal-portfolio website built on
Next.js and backed by a Strapi CMS. It has three parts.

- **The CMS client** (`apps/web/src/lib/strapi.ts`):
  - a fetch client with a circuit breaker;
  - the content accessors for the site profile, the project listing, one
    project by slug, the sitemap's slugs and a health probe;
  - the helpers those accessors use: tag de-duplication, the listing order,
    the listing filter and limit, and record normalization;
  - the fallback content it serves when the CMS gives no answer
    (`apps/web/src/lib/mock.ts`).
- **The cache-revalidation webhook** (`apps/web/src/app/api/revalidate/route.ts`):
  - secret extraction and validation;
  - the tags and paths a change to a CMS model invalidates;
  - the GET and POST handlers, as pure functions from a request to a response
    plus the ordered sequence of cache invalidations.
- **Three small page and CMS helpers**:
  - the navigation bar's initials (`navbar.tsx`);
  - the home page's profile-link lookup (`page.tsx`);
  - the CMS's cross-origin allow-list (`apps/cms/config/middlewares.ts`).

## How the model is built

- **Nullish values and JavaScript idioms.**
  - `null` and `undefined` are both `Option.None`.
  - `??` is `OrElse`.
  - A JavaScript `Set` spread back into an array is `Seqs.Unique`, which
    keeps each element's first occurrence.
- **Strings.**
  - `trim` and `\s` use the ECMAScript white-space and line-terminator code
    points (`Strings.IsSpace`).
  - `trim().split(/\s+/).filter(Boolean)` is `Strings.Words`: the maximal runs
    of non-white-space characters.
  - `split(',').map(trim).filter(Boolean)` is `Strings.CommaList`.
- **Process-wide state and the outside world.**
  - The client's `strapiUnavailableUntil` and `strapiRequestCount` are
    threaded through as a `Breaker` value.
  - The clock reading is a parameter.
  - What the network would answer is a parameter: `Outcome` is either a
    parsed body, or a failure observed at some clock reading.
- **Accessors.**
  - Each accessor takes the breaker state, the clock, the would-be answer and
    the fallback data.
  - Each returns its value, the next breaker state and the query it sent, if
    any.
- **The webhook.**
  - A request is reduced to its query parameters, its lower-cased headers and
    its parsed body.
  - The configured `REVALIDATE_SECRET` is the `allowed` parameter; an unset
    variable is the empty string.
  - The `Authorization` header is split at runs of white space after
    trimming. Its first word is the scheme, compared without regard to
    letter case, as section 2.1 of RFC 7235 requires for auth-schemes. Its
    second word is the token, and any further words are ignored.
  - This accepts more than the bearer credential of section 2.1 of RFC 6750,
    `"Bearer" 1*SP b64token`. The RFC separates scheme and token by one or
    more spaces (U+0020); the code takes any run of ECMAScript white space,
    tabs, line terminators and Unicode spaces included. The code also allows
    white space before the scheme and after the token. The token may be any
    run of non-white-space characters, where the RFC asks for `b64token`
    syntax. Trailing words are dropped, where the RFC allows none.
- **The code is followed where the intended behaviour reads differently.**
  The data layer is meant to behave the same whichever source answers: fallback
  data is meant to be normalized and to pass through the same filter, sort
  and limit as live data. The code does two things differently, and the model
  does what the code does.
  - `getProjects` returns the fallback listing without normalizing it.
    `Fallback.FallbackListingIsNormalized` shows this makes no difference for
    the bundled fallback data.
  - `getProjects` returns the live listing normalized, but does not filter,
    sort or limit it locally. The query asks the CMS to do those.

## Model

| member | source | states |
|---|---|---|
| `CacheTags.DedupeTags` | apps/web/src/lib/strapi.ts:64-70 | a missing or empty tag list gives no list; otherwise each tag once, and exactly the input's tags |
| `CacheTags.ProjectsTagSet` | apps/web/src/lib/strapi.ts:151-159 | the listing and home-page tags are always present; the per-tag tag is present exactly when a tag is given |
| `ProjectOrder.SortProjects` | apps/web/src/lib/strapi.ts:72-85 | the sorted listing is a permutation of its input |
| `ProjectOrder.CompareAntisymmetric` | apps/web/src/lib/strapi.ts:79-83 | swapping the two projects negates the comparator |
| `ProjectOrder.PrecedesTransitive` | apps/web/src/lib/strapi.ts:74-83 | among projects that are all dated or all undated, the comparator is transitive |
| `ProjectOrder.SortedWhenUniform` | apps/web/src/lib/strapi.ts:72-85 | when every project has a creation time, or none has, the result is in comparator order |
| `ProjectOrder.SortKeepsSorted` | apps/web/src/lib/strapi.ts:73 | input already in order comes out unchanged, because the sort is stable |
| `ProjectOrder.SortByCreationTime` | apps/web/src/lib/strapi.ts:74-83 | dated projects come out by ascending creation time, ties by ascending id |
| `ProjectOrder.SortById` | apps/web/src/lib/strapi.ts:83 | undated projects come out by ascending id |
| `ProjectOrder.MixedCreationTimesCycle` | apps/web/src/lib/strapi.ts:74-83 | with dated and undated projects mixed, the comparator has a three-element cycle, so no order satisfies it |
| `ProjectFilter.NormalizeLimit` | apps/web/src/lib/strapi.ts:87-93 | no limit (0) exactly when the limit is absent or not positive; otherwise the limit itself |
| `ProjectFilter.Selection` | apps/web/src/lib/strapi.ts:96-108 | every result matches the featured flag and the tag slug; each matching project occurs as often as in the input, and no other project occurs |
| `ProjectFilter.Truncate` | apps/web/src/lib/strapi.ts:109-115 | a zero limit keeps everything; a positive limit keeps the first min(limit, length) entries |
| `ProjectFilter.FilterProjects` | apps/web/src/lib/strapi.ts:95-116 | the result is a sub-multiset of the input; every entry is featured when that is asked for and carries the tag slug when one is given; with no limit it holds exactly the matching projects; with a limit it is no longer than the limit |
| `ProjectFilter.LimitTakesPrefix` | apps/web/src/lib/strapi.ts:111-115 | a limited listing is the first `limit` entries of the unlimited one |
| `ProjectFilter.FilterProjectsSorted` | apps/web/src/lib/strapi.ts:108 | the listing is in comparator order when all projects are dated or none is |
| `Normalize.SafeStack` | apps/web/src/lib/strapi.ts:118-124 | a value that is not an array gives nothing; an array gives only strings that were among its entries |
| `Normalize.SafeStackAppend` | apps/web/src/lib/strapi.ts:123 | filtering an array part by part gives the parts' results concatenated, so order is kept |
| `Normalize.SafeStackKeepsStrings` | apps/web/src/lib/strapi.ts:123 | every string entry survives |
| `Normalize.SafeStackOfStrings` | apps/web/src/lib/strapi.ts:118-124 | an array of strings only comes back unchanged |
| `Normalize.NormalizeProject` | apps/web/src/lib/strapi.ts:126-134 | the field-by-field defaulting table, including `demoUrl` falling back to `liveUrl`, `featured` made boolean and `order` defaulting to 0; every other field unchanged |
| `Normalize.NormalizeFixesNormalized` | apps/web/src/lib/strapi.ts:126-134 | a record already in normalized shape is left as it is |
| `Normalize.NormalizeIdempotent` | apps/web/src/lib/strapi.ts:126-134 | normalizing twice is normalizing once |
| `Normalize.NormalizeProjects` | apps/web/src/lib/strapi.ts:136-138 | every record normalized, in order, nothing added or dropped |
| `MediaUrl.GetStrapiMediaUrl` | apps/web/src/lib/strapi.ts:161-171 | nothing for missing media or an empty URL; an `http://` or `https://` URL unchanged; anything else resolved against the CMS |
| `MediaUrl.MediaUrlIsStable` | apps/web/src/lib/strapi.ts:161-171 | when resolution yields absolute URLs, feeding the answer back in returns it unchanged |
| `Breaker.HintFor` | apps/web/src/lib/strapi.ts:198-202 | the window defaults to 900 seconds, and the tags are de-duplicated |
| `Breaker.StrapiFetch` | apps/web/src/lib/strapi.ts:173-226 | while open, nothing is sent and the state is unchanged; otherwise the request gets the next number; success returns the body and closes the breaker; failure returns nothing and opens it for 45000 ms from the failure |
| `Breaker.FailureHoldsOffRequests` | apps/web/src/lib/strapi.ts:178-181 | after a failure, every later call inside the back-off window sends nothing and changes nothing |
| `Breaker.BackoffExpires` | apps/web/src/lib/strapi.ts:220 | once the back-off window has passed, the next call is sent |
| `Breaker.SuccessCloses` | apps/web/src/lib/strapi.ts:214 | after a success, any call at a non-negative clock reading is sent |
| `Breaker.RequestIdsAreConsecutive` | apps/web/src/lib/strapi.ts:185 | over any sequence of calls, the sent requests are numbered consecutively and the counter counts exactly those |
| `Breaker.NoRequestsWhileOpen` | apps/web/src/lib/strapi.ts:178-181 | a sequence of calls that all fall inside the open window sends nothing and leaves the state alone |
| `Accessors.Answered` | apps/web/src/lib/strapi.ts:178-218 | an accessor has CMS data exactly when the breaker is closed, the request succeeds and the body has `data` |
| `Accessors.GetSite` | apps/web/src/lib/strapi.ts:228-254 | the CMS's site when it answers with one, else the fallback site; the site query with the site and home-page tags is sent exactly when the breaker is closed |
| `Accessors.ProjectsQuery` | apps/web/src/lib/strapi.ts:257-293 | sent to `/api/projects`, sorted by creation time then id, with the projects cache window; a featured filter exactly when asked for, a tag filter exactly when the trimmed tag is non-empty, and no other filter; a page size exactly for a positive limit; the cache tags from `getProjectsTagSet` |
| `Accessors.GetProjects` | apps/web/src/lib/strapi.ts:256-304 | a live list is normalized and otherwise left as the CMS gave it; without one, the fallback is filtered with the trimmed tag and normalized limit; the listing query is sent exactly when the breaker is closed |
| `Accessors.FallbackListingHonoursOptions` | apps/web/src/lib/strapi.ts:295-301 | the fallback listing honours the featured flag, the trimmed tag and the limit, and draws only on the fallback projects |
| `Accessors.FindBySlug` | apps/web/src/lib/strapi.ts:355 | the first project whose slug is exactly the one asked for, or nothing when no project has it |
| `Accessors.GetProjectBySlug` | apps/web/src/lib/strapi.ts:306-365 | a blank slug sends nothing and gives nothing; a live list gives its first entry normalized, or nothing when it is empty; without one, the fallback project with the trimmed slug, normalized |
| `Accessors.FallbackBySlug` | apps/web/src/lib/strapi.ts:354-357 | without a CMS answer, the lookup is the normalized fallback project that `find` picks |
| `Accessors.GetAllProjectSlugs` | apps/web/src/lib/strapi.ts:367-390 | live slugs: every non-empty slug listed and nothing else; without an answer, every fallback slug in order |
| `Accessors.CheckStrapiConnection` | apps/web/src/lib/strapi.ts:397-415 | true exactly when the breaker lets the probe through and it succeeds; the probe sent is the health query (health tag, health window, page size 1) |
| `Fallback.FallbackIsSorted` | apps/web/src/lib/mock.ts:32-99 | the fallback projects are undated with ascending ids, so already in listing order |
| `Fallback.FallbackIsNormalized` | apps/web/src/lib/mock.ts:32-99 | every fallback project is already in normalized shape |
| `Fallback.ListingOfNormalized` | apps/web/src/lib/strapi.ts:295-301 | a listing drawn from records in normalized shape is in normalized shape |
| `Fallback.FallbackListingIsNormalized` | apps/web/src/lib/strapi.ts:295-303 | the unnormalized fallback listing equals its normalization, whatever the options |
| `Fallback.DefaultListingIsTheFallback` | apps/web/src/lib/strapi.ts:295-300 | with no options, the fallback listing is the fallback projects in their written order |
| `Fallback.FeaturedListing` | apps/web/src/lib/mock.ts:44-89 | only the first two fallback projects are featured |
| `Fallback.TagListing` | apps/web/src/lib/mock.ts:50-53 | the `backend` tag selects only the first fallback project |
| `Fallback.BackendTagged` | apps/web/src/lib/strapi.ts:101-105 | tag slugs are matched exactly, over every tag of a project |
| `Fallback.LimitedListing` | apps/web/src/lib/strapi.ts:109-115 | a limit of two keeps the first two fallback projects |
| `Fallback.FirstTwoOfFullListing` | apps/web/src/lib/strapi.ts:111-115 | when the unfiltered listing is the input, a limit of two keeps its first two entries |
| `Fallback.FindBookingProject` | apps/web/src/lib/mock.ts:57-61 | `api-de-reservas` finds the second fallback project |
| `Fallback.FallbackProjectBySlug` | apps/web/src/lib/strapi.ts:306-357 | with the CMS down, a padded slug still finds its fallback project, normalized |
| `Fallback.BookingProjectNormalized` | apps/web/src/lib/mock.ts:57-77 | a project with neither demo nor live link keeps no demo link; its order, featured flag and tags are unchanged |
| `Fallback.FallbackSlugs` | apps/web/src/lib/strapi.ts:385-387 | with the CMS down, the sitemap lists the three fallback slugs in order |
| `Strings.CommaList` | apps/web/src/app/api/revalidate/route.ts:26-35 | a missing or empty value gives nothing; every piece is non-empty, trimmed and free of commas |
| `Strings.CommaListOfOnePiece` | apps/web/src/app/api/revalidate/route.ts:31-34 | a value without commas gives its trimmed self, or nothing when that is empty |
| `Strings.CommaListAtComma` | apps/cms/config/middlewares.ts:3-12 | the pieces on either side of a comma come out in order, left before right |
| `Seqs.Unique` | apps/web/src/app/api/revalidate/route.ts:62 | no duplicates, and exactly the input's elements |
| `Seqs.UniqueKeepsFirstOccurrenceOrder` | apps/web/src/app/api/revalidate/route.ts:62 | elements come out in the order of their first occurrence |
| `Revalidate.NormalizePath` | apps/web/src/app/api/revalidate/route.ts:37-47 | a value is kept unchanged exactly when it starts with `/` |
| `Revalidate.NormalizeTag` | apps/web/src/app/api/revalidate/route.ts:49-60 | the trimmed value, kept exactly when it is not blank |
| `Revalidate.NormalizeTagIdempotent` | apps/web/src/app/api/revalidate/route.ts:49-60 | a normalized tag normalizes to itself |
| `Revalidate.DelimitedTagsAreNormal` | apps/web/src/app/api/revalidate/route.ts:192-194 | `normalizeTag` drops nothing from a comma-split list |
| `Revalidate.ModelOf` | apps/web/src/app/api/revalidate/route.ts:64-67 | the query model, else `model`, else `uid`, lower-cased; empty when none is present |
| `Revalidate.SlugOf` | apps/web/src/app/api/revalidate/route.ts:69-72 | the query slug, else `slug`, else `entry.slug`, trimmed; empty when none is present |
| `Revalidate.TargetByModel` | apps/web/src/app/api/revalidate/route.ts:74-102 | for each tag and path, an if-and-only-if on which of `site`, `project` and `tag` the model contains; nothing else; no duplicates; nothing for any other model |
| `Revalidate.ProjectTarget` | apps/web/src/app/api/revalidate/route.ts:83-91 | model `project` with a slug gives exactly the listing, home, sitemap and project tags and paths, in push order |
| `Revalidate.TargetTagsAreClean` | apps/web/src/app/api/revalidate/route.ts:78-96 | for a trimmed slug, every model tag is non-empty and trimmed |
| `Revalidate.TargetPathsAreRooted` | apps/web/src/app/api/revalidate/route.ts:80-89 | every model path starts with `/` |
| `Revalidate.Trace` | apps/web/src/app/api/revalidate/route.ts:104-112 | one invalidation per tag and per path, every tag in order and then every path in order |
| `Revalidate.TraceOnce` | apps/web/src/app/api/revalidate/route.ts:104-112 | for duplicate-free lists, nothing is invalidated twice and no tag comes after a path |
| `Revalidate.Present` | apps/web/src/app/api/revalidate/route.ts:163-176 | the trimmed value, present exactly when the value is present and not blank |
| `Revalidate.BearerToken` | apps/web/src/app/api/revalidate/route.ts:148-160 | the result is the second word of the header, non-empty and free of white space; it is present exactly when the header has at least two words and the first is `bearer` in any case |
| `Revalidate.BearerRoundTrip` | apps/web/src/app/api/revalidate/route.ts:154-159 | `bearer <token>`, with any padding, letter case and trailing words, yields the token |
| `Revalidate.OtherSchemeGivesNothing` | apps/web/src/app/api/revalidate/route.ts:155-157 | a header with no words, or with a first word other than `bearer`, yields nothing |
| `Revalidate.IncomingSecret` | apps/web/src/app/api/revalidate/route.ts:162-179 | precedence: body secret, then query `secret`, then `x-revalidate-secret`, then bearer token; the result never has white space at either end |
| `Revalidate.ValidateSecret` | apps/web/src/app/api/revalidate/route.ts:181-184 | valid exactly when a secret is configured and the presented secret equals it; never valid when none is configured |
| `Revalidate.Success` | apps/web/src/app/api/revalidate/route.ts:204-208 | no duplicates; the tags are exactly the manual tags and the model tags, and likewise for the paths; the invalidations follow the response |
| `Revalidate.HandleGet` | apps/web/src/app/api/revalidate/route.ts:186-209 | 401 with no invalidation exactly when the secret is not valid; otherwise the query's tags and paths plus the query model's targets |
| `Revalidate.HandlePost` | apps/web/src/app/api/revalidate/route.ts:211-235 | 401 with no invalidation exactly when the secret is not valid; otherwise the body's tags and paths plus the body model's targets, echoing the event |
| `Revalidate.GetTagsAreClean` | apps/web/src/app/api/revalidate/route.ts:192-204 | every tag a GET invalidates is non-empty and trimmed |
| `Revalidate.PostTagsAreClean` | apps/web/src/app/api/revalidate/route.ts:218-230 | every tag a POST invalidates is non-empty and trimmed |
| `Revalidate.GetPathsAreRooted` | apps/web/src/app/api/revalidate/route.ts:196-205 | every path a GET invalidates starts with `/` |
| `Revalidate.PostPathsAreRooted` | apps/web/src/app/api/revalidate/route.ts:226-231 | every path a POST invalidates starts with `/` |
| `Revalidate.WrongSecretRefused` | apps/web/src/app/api/revalidate/route.ts:186-190 | a wrong or missing secret gets 401 and no invalidation, on either method |
| `Revalidate.UnconfiguredSecretRefusesAll` | apps/web/src/app/api/revalidate/route.ts:181-184 | with no secret configured, every request is refused |
| `Revalidate.PaddedSecretRefusesAll` | apps/web/src/app/api/revalidate/route.ts:162-184 | a configured secret with white space at either end can never be presented |
| `Revalidate.BearerAuthorizesGet` | apps/web/src/app/api/revalidate/route.ts:186-190 | a GET whose only secret is `<bearer> <secret>` is authorized |
| `Revalidate.AuthorizedPost` | apps/web/src/app/api/revalidate/route.ts:211-216 | a POST whose body carries the configured secret is answered from the body alone |
| `Revalidate.ProjectWebhook` | apps/web/src/app/api/revalidate/route.ts:211-235 | the CMS's project-change POST gets 200 and invalidates the project's tag and page and the listing pages |
| `Navbar.GetInitials` | apps/web/src/components/navbar.tsx:14-28 | `CM` for a name with no words; otherwise the upper-cased first letters of its first one or two words |
| `Navbar.SameWordsSameInitials` | apps/web/src/components/navbar.tsx:15-18 | names with the same words have the same initials |
| `Navbar.BlankNameGivesDefault` | apps/web/src/components/navbar.tsx:20-22 | a blank name shows `CM` |
| `Navbar.OnlyFirstTwoWordsCount` | apps/web/src/components/navbar.tsx:24-27 | with two words and anything after, only the first letters of the first two count, in order |
| `Navbar.PaddingIsIgnored` | apps/web/src/components/navbar.tsx:16 | white space around the name does not change the initials |
| `Navbar.GapWidthIsIgnored` | apps/web/src/components/navbar.tsx:17 | the width of a gap between words does not change the initials |
| `Navbar.FallbackNameInitials` | apps/web/src/lib/mock.ts:6 | the fallback site's name gives `TN` |
| `HomePage.FirstMatch` | apps/web/src/app/page.tsx:17 | the first link whose label matches ignoring case, or nothing when no label matches |
| `HomePage.FindSocial` | apps/web/src/app/page.tsx:12-19 | `#` without links or without a match; otherwise the url of the first matching link |
| `HomePage.FindSocialIsSomeLink` | apps/web/src/app/page.tsx:17-18 | the answer is `#` or the url of one of the links |
| `HomePage.FallbackGithubLink` | apps/web/src/lib/mock.ts:15-21 | `github` finds the fallback GitHub profile despite its capitalized label |
| `CmsMiddlewares.AllowedOrigins` | apps/cms/config/middlewares.ts:14-20 | the local origin first; no duplicates; exactly the local origin and the origins of both variables |
| `CmsMiddlewares.OriginsInFirstSeenOrder` | apps/cms/config/middlewares.ts:14-20 | origins come out in the order they are first named |
| `CmsMiddlewares.UnsetGivesLocalOnly` | apps/cms/config/middlewares.ts:3-6 | with neither variable set, only the local origin is allowed |
| `CacheCoherence.SiteChangeRefreshesSite` | apps/web/src/app/api/revalidate/route.ts:78-81 | a site change revalidates every tag of the cached site request |
| `CacheCoherence.ProjectChangeRefreshesListings` | apps/web/src/app/api/revalidate/route.ts:83-96 | a project or tag change drops every cached listing, whatever its filters |
| `CacheCoherence.ProjectChangeRefreshesSlugs` | apps/web/src/app/api/revalidate/route.ts:83-96 | a project or tag change revalidates both tags of the cached sitemap slugs |
| `CacheCoherence.ProjectChangeRefreshesDetail` | apps/web/src/app/api/revalidate/route.ts:87-90 | a project change with a slug revalidates both tags of that project's cached detail |
| `CacheCoherence.HealthIsNeverRevalidated` | apps/web/src/app/api/revalidate/route.ts:74-100 | no target derived from a model, for any model and slug, carries the health probe's tag |
| `CacheCoherence.GetRevalidatesHealthOnlyByName` | apps/web/src/app/api/revalidate/route.ts:192-207 | an authorized GET revalidates the health tag exactly when its `tag` parameter names it |
| `CacheCoherence.PostRevalidatesHealthOnlyByName` | apps/web/src/app/api/revalidate/route.ts:218-230 | an authorized POST revalidates the health tag exactly when its body's `tags` name it |
| `CacheCoherence.ManualTagRevalidatesHealth` | apps/web/src/app/api/revalidate/route.ts:186-209 | `GET ?secret=<secret>&tag=strapi:health` with the configured secret answers success and invalidates the health tag |

## Left out

- HTTP itself is not modelled: `fetch`, the 3500 ms abort timeout, status
  codes and JSON parsing. All of these are folded into `Breaker.Outcome`.
- Building query strings with `qs`, and the URL of each request, are not
  modelled. The same goes for normalizing the CMS base URL and the field
  selection and `populate` of each query. `Accessors.Query` keeps only the
  path, filters, sort keys, page size and cache hints.
- The API token header, the `requestLabel` and logging are left out. They do
  not affect any returned value.
- The `IS_PRODUCTION` switch between the cache hint and `no-store` is left
  out. The hint is always built.
- `getHomepage` is left out: it only runs `getSite` and `getProjects`
  concurrently.
- Concurrency is left out: calls of the fetch client are taken one at a time,
  so races between overlapping requests on the shared breaker state are not
  modelled.
- Resolving a relative media URL against the CMS base URL is left out, so
  `MediaUrl.GetStrapiMediaUrl` takes the resolution as a parameter.
- Dates are left out. `Project.createdAt` is the already-parsed timestamp,
  `None` when it is absent or does not parse.
- The Next.js caching layer is left out. `revalidateTag` and
  `revalidatePath` are recorded as `Revalidate.Effect` values.
- From the webhook's response, the `revalidatedAt` timestamp and the
  `Cache-Control` header are left out.
- A JSON body of `null` is left out: the code raises when it reads
  `payload.secret` (route.ts:213). A body that is a number, a string, a
  boolean or an array has none of the payload's fields, so the code reads it
  as an empty payload; the model writes it, like a body that is not JSON,
  as `body: None`, which reads as `Revalidate.EmptyPayload`.
- Payload fields of the wrong JSON type are left out. The code raises when
  it reads a `secret`, `model`, `uid` or slug that is neither a string nor
  `null`, a `tags` or `paths` value that is neither an array nor `null`, or
  a truthy entry in them that is not a string. A non-string `event` is
  echoed in the response as it is; the model gives `event` the type
  `Option<string>`.
- A CMS body that parses to a falsy value other than an object is left out:
  `Accessors.CheckStrapiConnection` treats every parsed body as a success.
- Page markup, React components, the sitemap page, the CMS seed script and
  the development scripts are outside this model.
- ProjectFilter.NormalizeLimit: takes integer limits only, so `Math.trunc` of
  a fractional limit is not modelled.
- ProjectOrder.SortProjects: its contract states only that the output is a
  permutation. The order is proved in lemmas, and only for inputs that are
  all dated or all undated. With a mix, the comparator can be inconsistent
  (`ProjectOrder.MixedCreationTimesCycle` gives three projects that form a
  cycle), and the order `Array.prototype.sort` then produces is
  implementation-defined. On mixed inputs where the comparator happens to be
  consistent, such as one dated and one undated project, nothing is proved
  about the order, and the model's stable insertion sort is not shown to
  agree with what JavaScript does.
- Accessors.GetAllProjectSlugs: the live slugs are described by membership,
  not by their order.
- Navbar.GetInitials: upper-cases with the ASCII mapping only. JavaScript's
  full Unicode mapping, which can turn one character into two, and the
  UTF-16 code units behind `token[0]`, are not modelled.
- HomePage.FindSocial: compares labels with the ASCII lower-case mapping, not
  JavaScript's full Unicode `toLowerCase`.
- Revalidate.ModelOf: lower-cases with the ASCII mapping. Whether the model
  contains `site`, `project` or `tag` comes out the same as in JavaScript:
  the only non-ASCII characters that lower-case to include ASCII letters are
  the Kelvin sign (to `k`) and the dotted capital I (to `i` plus a combining
  dot), and neither can complete one of those words. The same argument
  covers the `bearer` comparison in `Revalidate.BearerToken`.
