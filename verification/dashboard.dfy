/** The dashboard's filter and aggregation engine and its interaction state.
    The visible list, the statistics and the filter options are pure
    functions of the project list and the three filter inputs; the inputs and
    the selected project live in `DashboardState`, changed by its setters. */
module Dashboard {
  import opened Records
  import opened Strings

  /** The selector value that switches a filter dimension off. */
  const All := "all"

  // ---------------------------------------------------------------------
  // Filtering

  /** The lower-cased search term occurs in the lower-cased name,
      description, team lead or some tag. */
  predicate MatchesSearch(p: Project, searchTerm: string)
  {
    var term := ToLower(searchTerm);
    Contains(ToLower(p.name), term)
    || Contains(ToLower(p.description), term)
    || Contains(ToLower(p.teamLead), term)
    || exists i :: 0 <= i < |p.tags| && Contains(ToLower(p.tags[i]), term)
  }

  predicate MatchesStatus(p: Project, statusFilter: string)
  {
    statusFilter == All || p.status == statusFilter
  }

  predicate MatchesCategory(p: Project, categoryFilter: string)
  {
    categoryFilter == All || p.category == categoryFilter
  }

  predicate Matches(p: Project, searchTerm: string, statusFilter: string, categoryFilter: string)
  {
    MatchesSearch(p, searchTerm) && MatchesStatus(p, statusFilter) && MatchesCategory(p, categoryFilter)
  }

  /** `projects.filter(...)`: the matching projects, in their original order. */
  function FilterProjects(ps: seq<Project>, searchTerm: string, statusFilter: string, categoryFilter: string): (r: seq<Project>)
    ensures |r| <= |ps|
    ensures forall p :: p in r ==> p in ps && Matches(p, searchTerm, statusFilter, categoryFilter)
    decreases |ps|
  {
    if ps == [] then []
    else
      var rest := FilterProjects(ps[1..], searchTerm, statusFilter, categoryFilter);
      if Matches(ps[0], searchTerm, statusFilter, categoryFilter) then [ps[0]] + rest else rest
  }

  /** `idx` lists, in increasing order, positions of `ps` whose elements
      make up `r`: `r` is a subsequence of `ps`. */
  ghost predicate IsSelection(r: seq<Project>, ps: seq<Project>, idx: seq<int>)
  {
    |idx| == |r|
    && (forall k :: 0 <= k < |idx| ==> 0 <= idx[k] < |ps| && r[k] == ps[idx[k]])
    && (forall k, l :: 0 <= k < l < |idx| ==> idx[k] < idx[l])
  }

  /** Every position moved one place to the right. */
  function Shift(idx: seq<int>): (r: seq<int>)
    ensures |r| == |idx| && forall k :: 0 <= k < |idx| ==> r[k] == idx[k] + 1
  {
    seq(|idx|, k requires 0 <= k < |idx| => idx[k] + 1)
  }

  /** A selection from `ps[1..]`, shifted by one, is a selection from `ps`
      that avoids position 0. */
  lemma ShiftedSelection(r: seq<Project>, ps: seq<Project>, idx: seq<int>)
    requires ps != [] && IsSelection(r, ps[1..], idx)
    ensures IsSelection(r, ps, Shift(idx))
    ensures forall k :: 0 <= k < |idx| ==> 1 <= Shift(idx)[k]
    ensures forall j :: 1 <= j < |ps| ==> (j in Shift(idx) <==> j - 1 in idx)
    ensures 0 !in Shift(idx)
  {
  }

  /** A selection that avoids position 0 stays one when `ps[0]` is put in
      front of it. */
  lemma PrependedSelection(r: seq<Project>, ps: seq<Project>, idx: seq<int>)
    requires ps != [] && IsSelection(r, ps, idx)
    requires forall k :: 0 <= k < |idx| ==> 1 <= idx[k]
    ensures IsSelection([ps[0]] + r, ps, [0] + idx)
  {
  }

  /** The filtered list is exactly the matching projects in their original
      order: a subsequence of the input whose positions are precisely those
      of the matching projects. */
  lemma {:induction false} FilterIsOrderedSelection(ps: seq<Project>, searchTerm: string, statusFilter: string, categoryFilter: string)
    returns (idx: seq<int>)
    ensures IsSelection(FilterProjects(ps, searchTerm, statusFilter, categoryFilter), ps, idx)
    ensures forall j :: 0 <= j < |ps| ==> (j in idx <==> Matches(ps[j], searchTerm, statusFilter, categoryFilter))
    decreases |ps|
  {
    if ps == [] {
      idx := [];
    } else {
      var rest := FilterProjects(ps[1..], searchTerm, statusFilter, categoryFilter);
      var idx' := FilterIsOrderedSelection(ps[1..], searchTerm, statusFilter, categoryFilter);
      ShiftedSelection(rest, ps, idx');
      if Matches(ps[0], searchTerm, statusFilter, categoryFilter) {
        PrependedSelection(rest, ps, Shift(idx'));
      }
      idx := if Matches(ps[0], searchTerm, statusFilter, categoryFilter) then [0] + Shift(idx') else Shift(idx');
      forall j | 1 <= j < |ps|
        ensures j in idx <==> Matches(ps[j], searchTerm, statusFilter, categoryFilter)
      {
        assert ps[1..][j - 1] == ps[j];
      }
    }
  }

  /** Membership: a project is shown iff it is in the list and matches. */
  lemma {:induction false} FilterMembership(ps: seq<Project>, searchTerm: string, statusFilter: string, categoryFilter: string, p: Project)
    ensures p in FilterProjects(ps, searchTerm, statusFilter, categoryFilter)
            <==> p in ps && Matches(p, searchTerm, statusFilter, categoryFilter)
    decreases |ps|
  {
    if ps != [] {
      FilterMembership(ps[1..], searchTerm, statusFilter, categoryFilter, p);
      assert ps == [ps[0]] + ps[1..];
    }
  }

  /** With an empty search term and both selectors at "all" (the state that
      "Clear filters" restores) every project is shown. */
  lemma {:induction false} ClearedFiltersShowAll(ps: seq<Project>)
    ensures FilterProjects(ps, "", All, All) == ps
    decreases |ps|
  {
    if ps != [] {
      ClearedFiltersShowAll(ps[1..]);
      assert Contains(ToLower(ps[0].name), ToLower(""));
      assert Matches(ps[0], "", All, All);
      assert ps == [ps[0]] + ps[1..];
    }
  }

  /** Search ignores case: two terms equal up to case select the same list. */
  lemma {:induction false} SearchIgnoresCase(ps: seq<Project>, term1: string, term2: string, statusFilter: string, categoryFilter: string)
    requires ToLower(term1) == ToLower(term2)
    ensures FilterProjects(ps, term1, statusFilter, categoryFilter) == FilterProjects(ps, term2, statusFilter, categoryFilter)
    decreases |ps|
  {
    if ps != [] {
      SearchIgnoresCase(ps[1..], term1, term2, statusFilter, categoryFilter);
      assert MatchesSearch(ps[0], term1) == MatchesSearch(ps[0], term2);
    }
  }

  /** In particular, upper-casing the search term changes nothing. */
  lemma UpperCasedSearchSameResult(ps: seq<Project>, searchTerm: string, statusFilter: string, categoryFilter: string)
    ensures FilterProjects(ps, ToUpper(searchTerm), statusFilter, categoryFilter)
            == FilterProjects(ps, searchTerm, statusFilter, categoryFilter)
  {
    LowerForgetsCase(searchTerm);
    SearchIgnoresCase(ps, ToUpper(searchTerm), searchTerm, statusFilter, categoryFilter);
  }

  /** Filtering an already filtered list with the same inputs changes nothing. */
  lemma {:induction false} FilterIdempotent(ps: seq<Project>, searchTerm: string, statusFilter: string, categoryFilter: string)
    ensures var once := FilterProjects(ps, searchTerm, statusFilter, categoryFilter);
            FilterProjects(once, searchTerm, statusFilter, categoryFilter) == once
    decreases |ps|
  {
    if ps != [] {
      var rest := FilterProjects(ps[1..], searchTerm, statusFilter, categoryFilter);
      FilterIdempotent(ps[1..], searchTerm, statusFilter, categoryFilter);
      if Matches(ps[0], searchTerm, statusFilter, categoryFilter) {
        var once := [ps[0]] + rest;
        assert once[0] == ps[0] && once[1..] == rest;
      }
    }
  }

  /** A status selector other than "all" keeps exactly the projects with that
      status (exact, case-sensitive equality): with no other filter their
      number is the status count shown in the statistics. */
  lemma {:induction false} StatusFilterIsExact(ps: seq<Project>, status: string)
    requires status != All
    ensures forall p :: p in FilterProjects(ps, "", status, All) ==> p.status == status
    ensures |FilterProjects(ps, "", status, All)| == CountStatus(ps, status)
    decreases |ps|
  {
    if ps != [] {
      StatusFilterIsExact(ps[1..], status);
      assert Contains(ToLower(ps[0].name), ToLower(""));
      assert Matches(ps[0], "", status, All) <==> ps[0].status == status;
    }
  }

  /** The category selector works the same way. */
  lemma {:induction false} CategoryFilterIsExact(ps: seq<Project>, category: string, p: Project)
    requires category != All
    ensures p in FilterProjects(ps, "", All, category) <==> p in ps && p.category == category
  {
    FilterMembership(ps, "", All, category, p);
    assert Contains(ToLower(p.name), ToLower(""));
  }

  // ---------------------------------------------------------------------
  // Statistics over the unfiltered list

  datatype Stats = Stats(total: nat, active: nat, completed: nat, planning: nat, totalBudget: real)

  /** `projects.filter(p => p.status === status).length`. */
  function CountStatus(ps: seq<Project>, status: string): (n: nat)
    ensures n <= |ps|
    decreases |ps|
  {
    if ps == [] then 0
    else (if ps[0].status == status then 1 else 0) + CountStatus(ps[1..], status)
  }

  /** `projects.reduce((sum, p) => sum + p.budget, 0)`. */
  function BudgetSum(ps: seq<Project>): (r: real)
    ensures (forall k :: 0 <= k < |ps| ==> ps[k].budget >= 0.0) ==> r >= 0.0
    decreases |ps|
  {
    if ps == [] then 0.0 else ps[0].budget + BudgetSum(ps[1..])
  }

  /** The statistics depend on the project list alone, never on the filters. */
  function ComputeStats(ps: seq<Project>): (s: Stats)
    ensures s.total == |ps|
    ensures s.active <= s.total && s.completed <= s.total && s.planning <= s.total
  {
    Stats(|ps|, CountStatus(ps, "Active"), CountStatus(ps, "Completed"), CountStatus(ps, "Planning"), BudgetSum(ps))
  }

  /** The three buckets never exceed the total, and they add up to it
      exactly when every project has one of the three tracked statuses. */
  lemma {:induction false} StatusBucketsBounded(ps: seq<Project>)
    ensures var s := ComputeStats(ps);
            s.active + s.completed + s.planning <= s.total
    ensures var s := ComputeStats(ps);
            s.active + s.completed + s.planning == s.total
            <==> forall p :: p in ps ==> IsTrackedStatus(p.status)
    decreases |ps|
  {
    if ps != [] {
      StatusBucketsBounded(ps[1..]);
      assert ps == [ps[0]] + ps[1..];
    }
  }

  /** With non-negative budgets the total budget is non-negative and at
      least the budget of any filtered view. */
  lemma {:induction false} FilteredBudgetBounded(ps: seq<Project>, searchTerm: string, statusFilter: string, categoryFilter: string)
    requires forall p :: p in ps ==> p.budget >= 0.0
    ensures 0.0 <= BudgetSum(FilterProjects(ps, searchTerm, statusFilter, categoryFilter)) <= ComputeStats(ps).totalBudget
    decreases |ps|
  {
    if ps != [] {
      assert ps[0] in ps;
      assert forall p :: p in ps[1..] ==> p in ps;
      FilteredBudgetBounded(ps[1..], searchTerm, statusFilter, categoryFilter);
      var rest := FilterProjects(ps[1..], searchTerm, statusFilter, categoryFilter);
      if Matches(ps[0], searchTerm, statusFilter, categoryFilter) {
        var r := [ps[0]] + rest;
        assert r[0] == ps[0] && r[1..] == rest;
      }
    }
  }

  /** Three projects, one per tracked status: with no filter all three are
      shown, the statistics count one of each, and the "Completed" selector
      keeps exactly the completed one. */
  lemma OneOfEachStatus(ps: seq<Project>)
    requires |ps| == 3
    requires ps[0].status == "Active" && ps[1].status == "Completed" && ps[2].status == "Planning"
    ensures FilterProjects(ps, "", All, All) == ps
    ensures var s := ComputeStats(ps);
            s.total == 3 && s.active == 1 && s.completed == 1 && s.planning == 1
    ensures FilterProjects(ps, "", "Completed", All) == [ps[1]]
  {
    ClearedFiltersShowAll(ps);
    var tail1, tail2 := ps[1..], ps[2..];
    assert tail1[1..] == tail2 && tail2[1..] == [];
    assert tail1[0] == ps[1] && tail2[0] == ps[2];
    assert CountStatus(tail2, "Active") == 0 && CountStatus(tail1, "Active") == 0;
    assert CountStatus(tail2, "Completed") == 0 && CountStatus(tail1, "Completed") == 1;
    assert CountStatus(tail2, "Planning") == 1 && CountStatus(tail1, "Planning") == 1;
    assert Contains(ToLower(ps[1].name), ToLower(""));
    assert FilterProjects(tail2, "", "Completed", All) == [];
    assert FilterProjects(tail1, "", "Completed", All) == [ps[1]];
  }

  // ---------------------------------------------------------------------
  // Filter options: `[...new Set(values)]`

  /** Distinct values in order of first occurrence. */
  function Distinct<T(==)>(xs: seq<T>): (r: seq<T>)
    ensures |r| <= |xs|
    ensures forall x :: x in r ==> x in xs
    decreases |xs|
  {
    if xs == [] then []
    else
      var d := Distinct(xs[..|xs| - 1]);
      if xs[|xs| - 1] in d then d else d + [xs[|xs| - 1]]
  }

  /** Position of the first occurrence of `v` in `xs`. */
  function FirstIndex<T(==)>(xs: seq<T>, v: T): (r: nat)
    requires v in xs
    ensures r < |xs| && xs[r] == v && v !in xs[..r]
    decreases |xs|
  {
    if xs[0] == v then 0
    else
      var r := 1 + FirstIndex(xs[1..], v);
      assert xs[..r] == [xs[0]] + xs[1..][..r - 1];
      r
  }

  lemma FirstIndexUnique<T>(xs: seq<T>, v: T, r: nat)
    requires r < |xs| && xs[r] == v && v !in xs[..r]
    ensures FirstIndex(xs, v) == r
  {
  }

  /** The option list has no duplicates, holds every value present and
      nothing else, and lists values in order of their first occurrence. */
  lemma {:induction false} DistinctIsFirstOccurrences<T>(xs: seq<T>)
    ensures forall i, j :: 0 <= i < j < |Distinct(xs)| ==> Distinct(xs)[i] != Distinct(xs)[j]
    ensures forall x :: x in Distinct(xs) <==> x in xs
    ensures forall i, j :: 0 <= i < j < |Distinct(xs)| ==> FirstIndex(xs, Distinct(xs)[i]) < FirstIndex(xs, Distinct(xs)[j])
    decreases |xs|
  {
    if xs != [] {
      var n := |xs| - 1;
      var pre := xs[..n];
      var last := xs[n];
      var d := Distinct(pre);
      DistinctIsFirstOccurrences(pre);
      assert forall x :: x in d <==> x in pre;
      assert xs == pre + [last];
      forall x | x in pre ensures FirstIndex(xs, x) == FirstIndex(pre, x) && FirstIndex(xs, x) < n {
        var f := FirstIndex(pre, x);
        assert xs[..f] == pre[..f];
        FirstIndexUnique(xs, x, f);
      }
      if last !in d {
        assert last !in pre;
        assert xs[..n] == pre;
        FirstIndexUnique(xs, last, n);
      }
      var d' := Distinct(xs);
      assert d' == d || d' == d + [last];
      forall i, j | 0 <= i < j < |d'| ensures FirstIndex(xs, d'[i]) < FirstIndex(xs, d'[j]) {
        var a := d[i];
        assert d'[i] == a && a in d;
        assert FirstIndex(xs, a) == FirstIndex(pre, a) < n;
        if j < |d| {
          var b := d[j];
          assert d'[j] == b && b in d;
          assert FirstIndex(xs, b) == FirstIndex(pre, b);
          assert FirstIndex(pre, a) < FirstIndex(pre, b);
        }
      }
    }
  }

  function Statuses(ps: seq<Project>): (r: seq<string>)
    ensures |r| == |ps| && forall j :: 0 <= j < |ps| ==> r[j] == ps[j].status
  {
    seq(|ps|, j requires 0 <= j < |ps| => ps[j].status)
  }

  function Categories(ps: seq<Project>): (r: seq<string>)
    ensures |r| == |ps| && forall j :: 0 <= j < |ps| ==> r[j] == ps[j].category
  {
    seq(|ps|, j requires 0 <= j < |ps| => ps[j].category)
  }

  /** Every project's status is offered as a status option, and every
      offered status belongs to some project. */
  lemma StatusOptionsCoverProjects(ps: seq<Project>)
    ensures forall p :: p in ps ==> p.status in Distinct(Statuses(ps))
    ensures forall s :: s in Distinct(Statuses(ps)) ==> exists j :: 0 <= j < |ps| && ps[j].status == s
  {
    DistinctIsFirstOccurrences(Statuses(ps));
    forall p | p in ps ensures p.status in Statuses(ps) {
      var j :| 0 <= j < |ps| && ps[j] == p;
      assert Statuses(ps)[j] == p.status;
    }
  }

  /** The category options cover the projects in both directions. */
  lemma CategoryOptionsCoverProjects(ps: seq<Project>)
    ensures forall p :: p in ps ==> p.category in Distinct(Categories(ps))
    ensures forall c :: c in Distinct(Categories(ps)) ==> exists j :: 0 <= j < |ps| && ps[j].category == c
  {
    DistinctIsFirstOccurrences(Categories(ps));
    forall p | p in ps ensures p.category in Categories(ps) {
      var j :| 0 <= j < |ps| && ps[j] == p;
      assert Categories(ps)[j] == p.category;
    }
  }

  // ---------------------------------------------------------------------
  // Interaction state

  datatype ViewMode = Grid | Map

  class DashboardState {
    /** `useState(projectsData)` with no setter: fixed for the session. */
    const projects: seq<Project>
    var searchTerm: string
    var statusFilter: string
    var categoryFilter: string
    var viewMode: ViewMode
    /** The selected project's id, or "" for none: at most one is selected. */
    var selectedProject: string

    constructor (data: seq<Project>)
      ensures projects == data
      ensures searchTerm == "" && statusFilter == All && categoryFilter == All
      ensures viewMode == Grid && selectedProject == ""
    {
      projects := data;
      searchTerm, statusFilter, categoryFilter := "", All, All;
      viewMode, selectedProject := Grid, "";
    }

    /** `filteredProjects`. */
    function Visible(): (r: seq<Project>)
      reads this
      ensures |r| <= |projects|
      ensures forall p :: p in r ==> p in projects && Matches(p, searchTerm, statusFilter, categoryFilter)
    {
      FilterProjects(projects, searchTerm, statusFilter, categoryFilter)
    }

    /** `stats`: over the full list, whatever the filters. */
    function CurrentStats(): Stats
    {
      ComputeStats(projects)
    }

    function UniqueStatuses(): seq<string>
    {
      Distinct(Statuses(projects))
    }

    function UniqueCategories(): seq<string>
    {
      Distinct(Categories(projects))
    }

    /** Whether the "Clear filters" button is shown. */
    predicate FiltersActive()
      reads this
    {
      searchTerm != "" || statusFilter != All || categoryFilter != All
    }

    /** The header cards and both selectors are built from the full list,
        whatever the filters: every project's status and category is offered,
        each offered value is used by some project, and the buckets stay
        within the total. */
    lemma OptionsAndStatsCoverProjects()
      ensures CurrentStats().total == |projects|
      ensures CurrentStats().active + CurrentStats().completed + CurrentStats().planning <= CurrentStats().total
      ensures forall p :: p in projects ==> p.status in UniqueStatuses() && p.category in UniqueCategories()
      ensures forall s :: s in UniqueStatuses() ==> exists j :: 0 <= j < |projects| && projects[j].status == s
      ensures forall c :: c in UniqueCategories() ==> exists j :: 0 <= j < |projects| && projects[j].category == c
    {
      StatusBucketsBounded(projects);
      StatusOptionsCoverProjects(projects);
      CategoryOptionsCoverProjects(projects);
    }

    /** When the button is hidden nothing is filtered out. */
    lemma InactiveFiltersShowAll()
      ensures !FiltersActive() ==> Visible() == projects
    {
      if !FiltersActive() {
        ClearedFiltersShowAll(projects);
      }
    }

    method SetSearchTerm(term: string)
      modifies this
      ensures searchTerm == term
      ensures statusFilter == old(statusFilter) && categoryFilter == old(categoryFilter)
      ensures viewMode == old(viewMode) && selectedProject == old(selectedProject)
    {
      searchTerm := term;
    }

    method SetStatusFilter(status: string)
      modifies this
      ensures statusFilter == status
      ensures searchTerm == old(searchTerm) && categoryFilter == old(categoryFilter)
      ensures viewMode == old(viewMode) && selectedProject == old(selectedProject)
    {
      statusFilter := status;
    }

    method SetCategoryFilter(category: string)
      modifies this
      ensures categoryFilter == category
      ensures searchTerm == old(searchTerm) && statusFilter == old(statusFilter)
      ensures viewMode == old(viewMode) && selectedProject == old(selectedProject)
    {
      categoryFilter := category;
    }

    /** Switching view does not change what is visible. */
    method SetViewMode(mode: ViewMode)
      modifies this
      ensures viewMode == mode
      ensures searchTerm == old(searchTerm) && statusFilter == old(statusFilter) && categoryFilter == old(categoryFilter)
      ensures selectedProject == old(selectedProject)
      ensures Visible() == old(Visible())
    {
      viewMode := mode;
    }

    /** "Clear filters": every project becomes visible again. */
    method ClearFilters()
      modifies this
      ensures searchTerm == "" && statusFilter == All && categoryFilter == All
      ensures viewMode == old(viewMode) && selectedProject == old(selectedProject)
      ensures !FiltersActive()
      ensures Visible() == projects
    {
      searchTerm := "";
      statusFilter := All;
      categoryFilter := All;
      ClearedFiltersShowAll(projects);
    }

    /** A card click toggles: it deselects the card if it was the selected
        one and selects it otherwise. The filters are untouched. */
    method ClickCard(id: string)
      modifies this
      ensures old(selectedProject) == id ==> selectedProject == ""
      ensures old(selectedProject) != id ==> selectedProject == id
      ensures searchTerm == old(searchTerm) && statusFilter == old(statusFilter) && categoryFilter == old(categoryFilter)
      ensures viewMode == old(viewMode)
      ensures Visible() == old(Visible())
    {
      selectedProject := if selectedProject == id then "" else id;
    }

    /** A click on a polygon or a marker of the map always selects that
        project; it never clears the selection. */
    method SelectOnMap(id: string)
      modifies this
      ensures selectedProject == id
      ensures searchTerm == old(searchTerm) && statusFilter == old(statusFilter) && categoryFilter == old(categoryFilter)
      ensures viewMode == old(viewMode)
    {
      selectedProject := id;
    }
  }
}
