/** The Projects page (`Projects.tsx`): six completed projects filtered by a
    search over title, location and client, an exact type, a location
    substring and an exact status. */
module ProjectsPage {
  import Seqs
  import opened Listings

  /** The fields of a completed project that the filters read. */
  datatype Project = Project(id: int, title: string, location: string, kind: string, client: string, status: string)

  datatype ProjectFilters = ProjectFilters(search: string, status: string, kind: string, location: string)

  /** The filters as first shown and after "clear filters". */
  const NoFilters: ProjectFilters := ProjectFilters("", "", "", "")

  function CompletedProjects(): seq<Project>
  {
    [ Project(1, "Skyline Business Complex", "Downtown Financial District", "commercial", "Metro Corporation", "completed"),
      Project(2, "Green Valley Residential", "Suburb Hills, North Side", "residential", "Valley Homes Ltd", "completed"),
      Project(3, "Modern Office Tower", "Central Business District", "commercial", "Tech Solutions Inc", "completed"),
      Project(4, "Luxury Resort Development", "Coastal Highway, East Bay", "hospitality", "Coastal Resorts Group", "completed"),
      Project(5, "Heritage Mall Renovation", "Historic Downtown Area", "renovation", "Heritage Properties", "completed"),
      Project(6, "Smart City Infrastructure", "New Development Zone", "infrastructure", "City Development Authority", "completed")]
  }

  /** The search term must occur in the title, the location or the client. */
  predicate Keep(f: ProjectFilters, p: Project)
  {
    && (Mentions(p.title, f.search) || Mentions(p.location, f.search) || Mentions(p.client, f.search))
    && MatchesExactly(p.kind, f.kind)
    && MatchesPart(p.location, f.location)
    && MatchesExactly(p.status, f.status)
  }

  function KeepFor(f: ProjectFilters): Project -> bool
  {
    (p: Project) => Keep(f, p)
  }

  /** `filteredProjects`. */
  function Filtered(f: ProjectFilters): (r: seq<Project>)
    ensures Seqs.IsSublist(r, CompletedProjects())
    ensures |r| <= |CompletedProjects()|
    ensures forall p :: p in r <==> p in CompletedProjects() && Keep(f, p)
  {
    var r := Seqs.Filter(CompletedProjects(), KeepFor(f));
    assert forall p :: p in r <==> p in CompletedProjects() && Keep(f, p) by {
      forall p
        ensures p in r <==> p in CompletedProjects() && Keep(f, p)
      {
        Seqs.FilterMembership(CompletedProjects(), KeepFor(f), p);
      }
    }
    r
  }

  predicate Narrows(g: ProjectFilters, f: ProjectFilters)
  {
    && (f.search == "" || f.search == g.search)
    && (f.status == "" || f.status == g.status)
    && (f.kind == "" || f.kind == g.kind)
    && (f.location == "" || f.location == g.location)
  }

  /** The "clear filters" button: every filter is emptied, which shows
      every project and is the widest choice. */
  function ClearFilters(f: ProjectFilters): (r: ProjectFilters)
    ensures Filtered(r) == CompletedProjects()
    ensures forall g :: Narrows(g, r)
  {
    NoFiltersKeepAll();
    NoFilters
  }

  /** With every filter empty, every project is shown. */
  lemma NoFiltersKeepAll()
    ensures Filtered(NoFilters) == CompletedProjects()
  {
    forall i | 0 <= i < |CompletedProjects()|
      ensures Keep(NoFilters, CompletedProjects()[i])
    {
      MentionsEmpty(CompletedProjects()[i].title);
    }
    Seqs.FilterAll(CompletedProjects(), KeepFor(NoFilters));
  }

  /** Filling in an empty filter never brings a project back. */
  lemma NarrowingShrinks(g: ProjectFilters, f: ProjectFilters)
    requires Narrows(g, f)
    ensures Seqs.IsSublist(Filtered(g), Filtered(f))
  {
    var xs := CompletedProjects();
    forall i | 0 <= i < |xs| && Keep(g, xs[i])
      ensures Keep(f, xs[i])
    {
      MentionsEmpty(xs[i].title);
    }
    Seqs.FilterMonotone(xs, KeepFor(g), KeepFor(f));
  }

  lemma AllCompleted()
    ensures forall i :: 0 <= i < |CompletedProjects()| ==> CompletedProjects()[i].status == "completed"
  {
  }

  /** Every project is completed, so a status filter other than
      "completed" empties the list. */
  lemma OtherStatusEmpty(f: ProjectFilters)
    requires f.status != "" && f.status != "completed"
    ensures Filtered(f) == []
  {
    AllCompleted();
    Seqs.FilterNone(CompletedProjects(), KeepFor(f));
  }

  /** The "completed" status restricts nothing. */
  lemma CompletedStatusUnrestricted(f: ProjectFilters)
    requires f.status == "completed"
    ensures Filtered(f) == Filtered(f.(status := ""))
  {
    var xs := CompletedProjects();
    var g := f.(status := "");
    AllCompleted();
    assert forall i :: 0 <= i < |xs| ==> (Keep(f, xs[i]) <==> Keep(g, xs[i]));
    Seqs.FilterCongruent(xs, KeepFor(f), KeepFor(g));
  }
}
