/**
 * The subject catalog page: a search over the catalog by name, the badge
 * colours and material icons of a subject's detail page, and a bookmark
 * button that updates the page's own bookmark list and writes it to the
 * preferences store.
 */
module SubjectDashboard {
  import opened Subjects
  import opened Text
  import opened Bookmarks
  import opened Preferences

  // ---------------------------------------------------------------------
  // Search
  // ---------------------------------------------------------------------

  /** `subject.name.toLowerCase().includes(searchTerm.toLowerCase())` */
  predicate MatchesSearch(subject: Subject, searchTerm: string) {
    Includes(ToLower(subject.name), ToLower(searchTerm))
  }

  /** `subjects.filter(matchesSearch)` */
  function FilteredSubjects(catalog: seq<Subject>, searchTerm: string): (r: seq<Subject>)
    ensures IsSubseq(r, catalog)
    ensures forall s :: s in r <==> s in catalog && MatchesSearch(s, searchTerm)
    ensures forall s :: multiset(r)[s] == if MatchesSearch(s, searchTerm) then multiset(catalog)[s] else 0
  {
    if catalog == [] then []
    else
      assert catalog == [catalog[0]] + catalog[1..];
      assert multiset(catalog) == multiset{catalog[0]} + multiset(catalog[1..]);
      var rest := FilteredSubjects(catalog[1..], searchTerm);
      if MatchesSearch(catalog[0], searchTerm) then
        assert ([catalog[0]] + rest)[1..] == rest;
        [catalog[0]] + rest
      else rest
  }

  /** An empty search shows the whole catalog, in its order. */
  lemma {:induction false} EmptySearchShowsAll(catalog: seq<Subject>)
    ensures FilteredSubjects(catalog, "") == catalog
  {
    if catalog != [] {
      IncludesEmpty(ToLower(catalog[0].name));
      EmptySearchShowsAll(catalog[1..]);
    }
  }

  /** Only the lower-cased term matters: the search ignores letter case. */
  lemma {:induction false} SearchIgnoresCase(catalog: seq<Subject>, searchTerm: string)
    ensures FilteredSubjects(catalog, searchTerm) == FilteredSubjects(catalog, ToLower(searchTerm))
  {
    ToLowerIdempotent(searchTerm);
    if catalog != [] {
      SearchIgnoresCase(catalog[1..], searchTerm);
    }
  }

  // ---------------------------------------------------------------------
  // Badge colours and material icons
  // ---------------------------------------------------------------------

  const GrayBadge: string := "bg-gray-100 text-gray-800"
  const GreenBadge: string := "bg-green-100 text-green-800"
  const BlueBadge: string := "bg-blue-100 text-blue-800"
  const YellowBadge: string := "bg-yellow-100 text-yellow-800"
  const RedBadge: string := "bg-red-100 text-red-800"

  /** `getStatusColor`: the badge of an enrollment status. */
  function StatusColor(status: string): (cls: string)
    ensures cls == GreenBadge <==> status == "enrolled"
    ensures cls == BlueBadge <==> status == "available"
    ensures cls == YellowBadge <==> status == "waitlist"
    ensures cls == RedBadge <==> status == "closed"
    ensures cls == GrayBadge <==> status !in ["enrolled", "available", "waitlist", "closed"]
  {
    if status == "enrolled" then GreenBadge
    else if status == "available" then BlueBadge
    else if status == "waitlist" then YellowBadge
    else if status == "closed" then RedBadge
    else GrayBadge
  }

  /** `getAssignmentStatusColor`: `completed` shares the gray default badge. */
  function AssignmentStatusColor(status: string): (cls: string)
    ensures cls == BlueBadge <==> status == "upcoming"
    ensures cls == GreenBadge <==> status == "active"
    ensures cls == RedBadge <==> status == "overdue"
    ensures cls == GrayBadge <==> status !in ["upcoming", "active", "overdue"]
  {
    if status == "upcoming" then BlueBadge
    else if status == "active" then GreenBadge
    else if status == "overdue" then RedBadge
    else if status == "completed" then GrayBadge
    else GrayBadge
  }

  datatype Icon = FileTextIcon | VideoIcon | LinkIcon

  /** `getMaterialIcon`: `pdf`, `document` and anything unknown show a file. */
  function MaterialIcon(materialType: string): (icon: Icon)
    ensures icon == VideoIcon <==> materialType == "video"
    ensures icon == LinkIcon <==> materialType == "link"
    ensures icon == FileTextIcon <==> materialType != "video" && materialType != "link"
  {
    if materialType == "pdf" then FileTextIcon
    else if materialType == "video" then VideoIcon
    else if materialType == "link" then LinkIcon
    else FileTextIcon
  }

  // ---------------------------------------------------------------------
  // The page's state
  // ---------------------------------------------------------------------

  /** The enrolled/available/all buttons above the grid. */
  datatype EnrollmentFilter = AllSubjects | EnrolledSubjects | AvailableSubjects

  class SubjectCatalogPage {
    var searchTerm: string
    var selectedFilter: EnrollmentFilter
    var bookmarkedSubjects: seq<string>
    const store: PreferenceStore

    /** Mounting reads the bookmark list from the store, `[]` when absent. */
    constructor (store: PreferenceStore)
      ensures this.store == store
      ensures searchTerm == "" && selectedFilter == AllSubjects
      ensures bookmarkedSubjects == LoadOr(store.bookmarkedSubjects, [])
    {
      this.store := store;
      searchTerm := "";
      selectedFilter := AllSubjects;
      bookmarkedSubjects := LoadOr(store.bookmarkedSubjects, []);
    }

    /** The subjects in the grid. */
    function Shown(): (r: seq<Subject>)
      reads this
      ensures IsSubseq(r, Catalog)
      ensures forall s :: s in r <==> s in Catalog && MatchesSearch(s, searchTerm)
      ensures forall s :: multiset(r)[s] == if MatchesSearch(s, searchTerm) then multiset(Catalog)[s] else 0
    {
      FilteredSubjects(Catalog, searchTerm)
    }

    method SetSearchTerm(term: string)
      modifies this`searchTerm
      ensures searchTerm == term
    {
      searchTerm := term;
    }

    /** The filter buttons change the highlighted button, not the grid. */
    method SelectFilter(filter: EnrollmentFilter)
      modifies this`selectedFilter
      ensures selectedFilter == filter
      ensures Shown() == old(Shown())
    {
      selectedFilter := filter;
    }

    /**
     * `handleBookmarkClick`: toggle the id in the page's list and write the
     * new list to the store; the dark-mode entry is left alone.
     */
    method HandleBookmarkClick(subjectId: string)
      modifies this`bookmarkedSubjects, store`bookmarkedSubjects
      ensures bookmarkedSubjects == Toggle(old(bookmarkedSubjects), subjectId)
      ensures store.bookmarkedSubjects == Json(bookmarkedSubjects)
    {
      var updated := Toggle(bookmarkedSubjects, subjectId);
      bookmarkedSubjects := updated;
      store.bookmarkedSubjects := Json(updated);
    }
  }
}
