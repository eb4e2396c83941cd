/**
 * The bundled fallback content (apps/web/src/lib/mock.ts) that the accessors
 * serve when the CMS gives no answer, and what the accessors make of it.
 */
module Fallback {
  import opened Wrappers
  import opened Types
  import opened Normalize
  import opened ProjectFilter
  import opened Breaker
  import opened Accessors
  import Strings

  const MockSite := Site(
    1, "site-mock-1", "Tu Nombre", "Desarrollador Web \U{2022} Backend/Full-stack",
    Some("Ciudad, Pa\U{00ED}s"),
    Some("Construyo experiencias web r\U{00E1}pidas, mantenibles y claras.\n\n"
       + "Me enfoco en entregar producto con buena arquitectura, alto rendimiento y UX simple.\n\n"
       + "Actualmente trabajo en proyectos full-stack con TypeScript, Node.js y arquitecturas modernas."),
    Some("tuemail@ejemplo.com"),
    Some([SocialLink(1, "GitHub", "https://github.com/tuusuario", Some("github")),
          SocialLink(2, "LinkedIn", "https://www.linkedin.com/in/tuusuario", Some("linkedin"))]),
    None)

  const PortfolioProject := Project(
    1, "project-mock-1", "Portafolio Minimal", "portafolio-minimal",
    Some("Sitio personal con foco en performance y contenido gestionable."),
    Some("Portafolio one-page y secci\U{00F3}n de detalle por proyecto.\n\n"
       + "- Next.js App Router + TypeScript\n- Tailwind CSS\n- CMS desacoplado con fallback sin backend"),
    Some(true), Some(1),
    StackOf(["Next.js", "TypeScript", "Tailwind", "Strapi"]),
    Some("https://github.com/tuusuario/portafolio"),
    Some("https://tu-portafolio.dev"),
    Some("https://tu-portafolio.dev"),
    None, Some([]),
    Some([Tag(1, "tag-mock-1", "Frontend", "frontend"), Tag(2, "tag-mock-2", "Backend", "backend")]),
    None)

  const BookingProject := Project(
    2, "project-mock-2", "API de Reservas", "api-de-reservas",
    Some("Backend REST con validaciones, autenticaci\U{00F3}n y m\U{00E9}tricas."),
    Some("Servicio backend con endpoints versionados y documentaci\U{00F3}n clara.\n\n"
       + "- Node.js + TypeScript\n- Persistencia SQLite/Postgres\n- Enfoque en mantenibilidad"),
    Some(true), Some(2),
    StackOf(["Node.js", "TypeScript", "PostgreSQL"]),
    Some("https://github.com/tuusuario/api-reservas"),
    None, None,
    None, Some([]),
    Some([Tag(3, "tag-mock-3", "API", "api")]),
    None)

  const MetricsProject := Project(
    3, "project-mock-3", "Panel de M\U{00E9}tricas", "panel-de-metricas",
    Some("Visualizaci\U{00F3}n de KPIs con filtros por periodo y estado."),
    Some("Interfaz para seguimiento de producto y operaciones en tiempo real.\n\n"
       + "- Dashboard responsive\n- Consultas optimizadas\n- UX simple y legible"),
    Some(false), Some(3),
    StackOf(["React", "TypeScript", "Node.js"]),
    Some("https://github.com/tuusuario/panel-metricas"),
    Some("https://demo.panel-metricas.dev"),
    Some("https://demo.panel-metricas.dev"),
    None, Some([]),
    Some([Tag(4, "tag-mock-4", "Dashboard", "dashboard")]),
    None)

  const MockProjects := [PortfolioProject, BookingProject, MetricsProject]

  /** A CMS that is down: every request fails at the clock reading. */
  function Down<T>(now: int): Outcome<T> {
    Fail(now)
  }

  /** The fallback projects are in listing order already: undated, ids ascending. */
  lemma FallbackIsSorted()
    ensures ProjectOrder.Sorted(MockProjects)
  {
  }

  /** Every fallback project is already in normalized shape. */
  lemma FallbackIsNormalized()
    ensures forall i :: 0 <= i < |MockProjects| ==> NormalizeProject(MockProjects[i]) == MockProjects[i]
  {
    forall i | 0 <= i < |MockProjects|
      ensures NormalizeProject(MockProjects[i]) == MockProjects[i]
    {
      NormalizeFixesNormalized(MockProjects[i]);
    }
  }

  /**
   * `getProjects` returns its fallback listing without normalizing it; for
   * the bundled fallback data that makes no difference, whatever the options.
   */
  lemma FallbackListingIsNormalized(options: ProjectsOptions)
    ensures var r := FilterProjects(MockProjects, options); NormalizeProjects(r) == r
  {
    FallbackIsNormalized();
    ListingOfNormalized(MockProjects, options);
  }

  /** A listing drawn from records in normalized shape is in normalized shape. */
  lemma ListingOfNormalized(ps: seq<Project>, options: ProjectsOptions)
    requires forall i :: 0 <= i < |ps| ==> NormalizeProject(ps[i]) == ps[i]
    ensures var r := FilterProjects(ps, options); NormalizeProjects(r) == r
  {
    var r := FilterProjects(ps, options);
    forall i | 0 <= i < |r|
      ensures NormalizeProjects(r)[i] == r[i]
    {
      assert r[i] in multiset(ps);
      var k :| 0 <= k < |ps| && ps[k] == r[i];
    }
  }

  /** Unfiltered and unlimited, the fallback listing is the fallback projects in their written order. */
  lemma DefaultListingIsTheFallback()
    ensures FilterProjects(MockProjects, ProjectsOptions(false, None, None)) == MockProjects
  {
    Seqs.FilterKeepsAll(MockProjects, KeepFor(false, None));
    ProjectOrder.SortKeepsSorted(MockProjects);
  }

  /** Only the first two fallback projects are featured. */
  lemma FeaturedListing()
    ensures FilterProjects(MockProjects, ProjectsOptions(true, None, None)) == [PortfolioProject, BookingProject]
  {
    var keep := KeepFor(true, None);
    assert MockProjects[1..] == [BookingProject, MetricsProject];
    assert MockProjects[1..][1..] == [MetricsProject];
    assert Seqs.Filter([MetricsProject], keep) == [];
    assert Seqs.Filter(MockProjects, keep) == [PortfolioProject, BookingProject];
    ProjectOrder.SortKeepsSorted([PortfolioProject, BookingProject]);
  }

  /** The tag filter matches tag slugs exactly: only the first project is tagged `backend`. */
  lemma TagListing()
    ensures FilterProjects(MockProjects, ProjectsOptions(false, Some("backend"), None)) == [PortfolioProject]
  {
    BackendTagged();
  }

  lemma BackendTagged()
    ensures Seqs.Filter(MockProjects, KeepFor(false, Some("backend"))) == [PortfolioProject]
  {
    var keep := KeepFor(false, Some("backend"));
    assert PortfolioProject.tags.GetOr([])[1].slug == "backend";
    assert HasTagSlug(PortfolioProject, "backend");
    assert BookingProject.tags.GetOr([]) == [Tag(3, "tag-mock-3", "API", "api")];
    assert "api" != "backend";
    assert !HasTagSlug(BookingProject, "backend");
    assert MetricsProject.tags.GetOr([]) == [Tag(4, "tag-mock-4", "Dashboard", "dashboard")];
    assert "dashboard" != "backend";
    assert !HasTagSlug(MetricsProject, "backend");
    assert MockProjects[1..] == [BookingProject, MetricsProject];
    assert MockProjects[1..][1..] == [MetricsProject];
    assert keep(PortfolioProject) && !keep(BookingProject) && !keep(MetricsProject);
    assert Seqs.Filter([MetricsProject], keep) == [];
    assert Seqs.Filter([BookingProject, MetricsProject], keep) == [];
    assert Seqs.Filter(MockProjects, keep) == [PortfolioProject];
  }

  /** A limit of two keeps the first two of the listing. */
  lemma LimitedListing()
    ensures FilterProjects(MockProjects, ProjectsOptions(false, None, Some(2))) == [PortfolioProject, BookingProject]
  {
    DefaultListingIsTheFallback();
    FirstTwoOfFullListing(MockProjects);
  }

  /** When the unfiltered listing is the input itself, a limit of two keeps its first two entries. */
  lemma FirstTwoOfFullListing(ps: seq<Project>)
    requires FilterProjects(ps, ProjectsOptions(false, None, None)) == ps
    requires |ps| >= 2
    ensures FilterProjects(ps, ProjectsOptions(false, None, Some(2))) == [ps[0], ps[1]]
  {
    var opts := ProjectsOptions(false, None, Some(2));
    assert opts.(limit := None) == ProjectsOptions(false, None, None);
    LimitTakesPrefix(ps, opts);
    assert ps[..2] == [ps[0], ps[1]];
  }

  lemma FindBookingProject()
    ensures FindBySlug(MockProjects, "api-de-reservas") == Some(BookingProject)
  {
    assert PortfolioProject.slug != "api-de-reservas";
    assert MockProjects[1..] == [BookingProject, MetricsProject];
  }

  lemma PaddedSlugTrims()
    ensures Strings.Trim(" api-de-reservas ") == "api-de-reservas"
  {
    assert " api-de-reservas " == " " + "api-de-reservas" + " ";
    Strings.TrimOfPadded(" ", "api-de-reservas", " ");
  }

  /** With the CMS down, a padded slug still finds its fallback project, normalized. */
  lemma FallbackProjectBySlug(now: int)
    ensures var r := GetProjectBySlug(Initial, now, " api-de-reservas ", Down(now), MockProjects).value;
      r == Some(NormalizeProject(BookingProject))
  {
    PaddedSlugTrims();
    FindBookingProject();
    FallbackBySlug(Initial, now, " api-de-reservas ", Down(now), MockProjects, BookingProject);
  }

  /** The normalized second project has no demo link, since it has no live link either. */
  lemma BookingProjectNormalized()
    ensures var p := NormalizeProject(BookingProject);
      p.demoUrl.None? && p.order == Some(2) && p.featured == Some(true) && p.tags == BookingProject.tags
  {
  }

  /** With the CMS down, the sitemap lists every fallback slug. */
  lemma FallbackSlugs(now: int)
    ensures GetAllProjectSlugs(Initial, now, Down(now), MockProjects).value
      == ["portafolio-minimal", "api-de-reservas", "panel-de-metricas"]
  {
  }
}
