/** The portfolio page: the category filter over the projects and the
    project-details modal with its "next project" button. */
module Portfolio {
  import opened Wrappers

  /** A project's category (`Exclude<PortfolioCategory, 'all'>`). */
  datatype ProjectCategory = Web | Mobile | Desktop | Api | Legacy

  /** `PortfolioCategory`: `'all'` or one project category. */
  datatype PortfolioFilter = AllProjects | OnlyCategory(category: ProjectCategory)

  datatype Project = Project(id: string, title: string, category: ProjectCategory)

  /** Whether a filter lets a project through. */
  predicate Admits(f: PortfolioFilter, p: Project) {
    f.AllProjects? || p.category == f.category
  }

  /** `projects.filter((project) => project.category === activeCategory)` */
  function FilterByCategory(projects: seq<Project>, c: ProjectCategory): (r: seq<Project>)
    ensures |r| <= |projects|
    ensures forall p :: p in r <==> p in projects && p.category == c
  {
    if projects == [] then []
    else (if projects[0].category == c then [projects[0]] else []) + FilterByCategory(projects[1..], c)
  }

  /** `visibleProjects`: the whole list for `'all'`, otherwise that category's projects. */
  function VisibleProjects(projects: seq<Project>, f: PortfolioFilter): (r: seq<Project>)
    ensures f.AllProjects? ==> r == projects
    ensures forall p :: p in r <==> p in projects && Admits(f, p)
  {
    if f.AllProjects? then projects else FilterByCategory(projects, f.category)
  }

  /** Filtering commutes with concatenation: the projects shown keep their order. */
  lemma {:induction false} FilterPreservesOrder(a: seq<Project>, b: seq<Project>, c: ProjectCategory)
    ensures FilterByCategory(a + b, c) == FilterByCategory(a, c) + FilterByCategory(b, c)
  {
    if a == [] {
      assert a + b == b;
    } else {
      assert (a + b)[0] == a[0];
      assert (a + b)[1..] == a[1..] + b;
      FilterPreservesOrder(a[1..], b, c);
    }
  }

  /** `activeProjectIndex !== null ? visibleProjects[activeProjectIndex] : null`,
      where an index past the end reads `undefined`. */
  function ActiveProject(visible: seq<Project>, index: Option<nat>): (r: Option<Project>)
    ensures r.Some? <==> index.Some? && index.value < |visible|
    ensures r.Some? ==> r.value == visible[index.value]
  {
    if index.Some? && index.value < |visible| then Some(visible[index.value]) else None
  }

  /** The "next project" update: `current === null ? 0 : (current + 1) % count`. */
  function NextIndex(current: Option<nat>, count: nat): (r: nat)
    requires current.Some? ==> count > 0
    ensures count > 0 ==> r < count
    ensures current.None? ==> r == 0
    ensures current.Some? && current.value + 1 < count ==> r == current.value + 1
    ensures current.Some? && current.value + 1 == count ==> r == 0
  {
    if current.None? then 0 else (current.value + 1) % count
  }

  /** Pressing "next" k times from project i. */
  function PressNext(i: nat, count: nat, k: nat): (r: nat)
    requires count > 0
    ensures r < count || (k == 0 && r == i)
    decreases k
  {
    if k == 0 then i else PressNext(NextIndex(Some(i), count), count, k - 1)
  }

  /** Before the end of the list, each press moves to the following project. */
  lemma {:induction false} PressNextAdvances(i: nat, count: nat, k: nat)
    requires i + k < count
    ensures PressNext(i, count, k) == i + k
    decreases k
  {
    if k > 0 {
      PressNextAdvances(i + 1, count, k - 1);
    }
  }

  lemma {:induction false} PressNextAdd(i: nat, count: nat, a: nat, b: nat)
    requires count > 0
    ensures PressNext(i, count, a + b) == PressNext(PressNext(i, count, a), count, b)
    decreases a
  {
    if a > 0 {
      PressNextAdd(NextIndex(Some(i), count), count, a - 1, b);
    }
  }

  /** From project i, every project j of the list is reached within fewer
      than `count` presses, and `count` presses come back to i. */
  lemma PressNextCycles(i: nat, j: nat, count: nat)
    requires i < count && j < count
    ensures PressNext(i, count, if j >= i then j - i else count - i + j) == j
    ensures PressNext(i, count, count) == i
  {
    PressNextAdvances(i, count, count - 1 - i);
    PressNextAdd(i, count, count - 1 - i, 1);
    assert PressNext(i, count, count - i) == 0;
    PressNextAdvances(0, count, i);
    PressNextAdd(i, count, count - i, i);
    if j >= i {
      PressNextAdvances(i, count, j - i);
    } else {
      PressNextAdvances(0, count, j);
      PressNextAdd(i, count, count - i, j);
    }
  }

  /** The page's `activeCategory` / `activeProjectIndex` state over one
      language's projects. */
  class PortfolioView {
    var projects: seq<Project>
    var activeCategory: PortfolioFilter
    var activeProjectIndex: Option<nat>

    function Visible(): seq<Project>
      reads this
    {
      VisibleProjects(projects, activeCategory)
    }

    /** The modal, when open, shows a project of the current list. */
    ghost predicate Valid()
      reads this
    {
      activeProjectIndex.Some? ==> activeProjectIndex.value < |Visible()|
    }

    constructor (projects: seq<Project>)
      ensures Valid()
      ensures this.projects == projects && activeCategory == AllProjects && activeProjectIndex == None
    {
      this.projects := projects;
      activeCategory := AllProjects;
      activeProjectIndex := None;
    }

    /** A filter chip: switch category and close the modal. */
    method SelectCategory(f: PortfolioFilter)
      modifies this
      ensures Valid() && projects == old(projects)
      ensures activeCategory == f && activeProjectIndex == None
      ensures ActiveProject(Visible(), activeProjectIndex) == None
    {
      activeCategory := f;
      activeProjectIndex := None;
    }

    /** The eye button on the `index`-th visible card. */
    method OpenProject(index: nat)
      requires index < |Visible()|
      modifies this
      ensures Valid() && projects == old(projects) && activeCategory == old(activeCategory)
      ensures activeProjectIndex == Some(index)
      ensures ActiveProject(Visible(), activeProjectIndex) == Some(Visible()[index])
    {
      activeProjectIndex := Some(index);
    }

    /** Escape, the backdrop or the close button. */
    method Close()
      modifies this
      ensures Valid() && projects == old(projects) && activeCategory == old(activeCategory)
      ensures activeProjectIndex == None
    {
      activeProjectIndex := None;
    }

    /** The "next project" button, shown only while the modal is open. */
    method NextProject()
      requires Valid() && activeProjectIndex.Some?
      modifies this
      ensures Valid() && projects == old(projects) && activeCategory == old(activeCategory)
      ensures activeProjectIndex == Some(NextIndex(old(activeProjectIndex), |Visible()|))
      ensures ActiveProject(Visible(), activeProjectIndex).Some?
    {
      activeProjectIndex := Some(NextIndex(activeProjectIndex, |Visible()|));
    }
  }
}
