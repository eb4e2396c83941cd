/**
 * The content records the web app reads from the CMS (apps/web/src/lib/types.ts).
 * Optional and nullable fields are `Option`s; a `None` stands for both `null`
 * and `undefined`, which every reader of these records treats alike.
 */
module Types {
  import opened Wrappers

  /** An uploaded file: its `url` is absolute or relative to the CMS. */
  datatype Media = Media(
    id: int,
    documentId: string,
    url: string,
    alternativeText: Option<string>,
    width: Option<int>,
    height: Option<int>)

  /** A profile link; `linkLabel` is the source's `label` field (`label` is a Dafny keyword). */
  datatype SocialLink = SocialLink(id: int, linkLabel: string, url: string, icon: Option<string>)

  datatype Tag = Tag(id: int, documentId: string, name: string, slug: string)

  /** One entry of a `stack` value as it arrives: a string or anything else. */
  datatype StackItem = Text(text: string) | NotText

  /** The `stack` value as it arrives: an array, or something that is not one (including nullish). */
  datatype StackField = NotArray | Items(items: seq<StackItem>)

  /**
   * A project record. `createdAt` is the CMS creation timestamp already parsed
   * to milliseconds, `None` when absent or unparseable.
   */
  datatype Project = Project(
    id: int,
    documentId: string,
    title: string,
    slug: string,
    summary: Option<string>,
    description: Option<string>,
    featured: Option<bool>,
    order: Option<int>,
    stack: StackField,
    repoUrl: Option<string>,
    demoUrl: Option<string>,
    liveUrl: Option<string>,
    cover: Option<Media>,
    gallery: Option<seq<Media>>,
    tags: Option<seq<Tag>>,
    createdAt: Option<int>)

  /** The singleton site profile. */
  datatype Site = Site(
    id: int,
    documentId: string,
    name: string,
    headline: string,
    location: Option<string>,
    about: Option<string>,
    email: Option<string>,
    socials: Option<seq<SocialLink>>,
    avatar: Option<Media>)

  /** Options of a project listing: `featuredOnly` absent reads as false. */
  datatype ProjectsOptions = ProjectsOptions(featuredOnly: bool, tag: Option<string>, limit: Option<int>)

  /** The JavaScript truthiness of the `featured` flag. */
  predicate IsFeatured(p: Project) {
    p.featured == Some(true)
  }
}
