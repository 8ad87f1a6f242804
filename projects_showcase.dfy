/** The compact project grid (`ProjectsShowcase`): three projects, a
    category filter bar with count badges, and a Live link for every project
    whose `live` address is non-empty. */
module ProjectsShowcase {
  import opened Seqs
  import opened CategoryFilter

  /** The fields of a project record that the grid's logic reads. */
  datatype Project = Project(id: nat, category: string, tech: seq<string>, live: string)

  function CategoryOf(p: Project): string {
    p.category
  }

  /** The filter buttons, in order. */
  const Categories: seq<string> := ["All", "Academic", "Personal", "Learning", "Frontend", "Full-stack"]

  /** The project list, in order. */
  const Projects: seq<Project> := [
    Project(1, "Academic", ["React", "Node.js", "MongoDB", "Stripe"], "https://ecommerce-demo.vercel.app"),
    Project(2, "Personal", ["React", "LocalStorage", "TailwindCSS"], "https://task-manager.vercel.app"),
    Project(3, "Learning", ["JavaScript", "HTML5", "CSS3"], "https://weather-demo.netlify.app")]

  /** `filtered` for the active filter: projects of the list, in their
      order, all of the selected category unless it is "All". */
  function FilteredProjects(activeFilter: string): (r: seq<Project>)
    ensures IsSubsequence(r, Projects)
    ensures activeFilter == All ==> r == Projects
    ensures activeFilter != All ==> forall k :: 0 <= k < |r| ==> r[k].category == activeFilter
  {
    Visible(CategoryOf, activeFilter, Projects)
  }

  /** The badge on filter button `c`: the length of the list it shows. */
  function FilterBadge(c: string): (n: nat)
    ensures n == |FilteredProjects(c)|
    ensures n <= |Projects|
  {
    BadgeCount(CategoryOf, c, Projects)
  }

  /** `{p.live && ...}`: the Live link is rendered for a non-empty address. */
  predicate ShowsLiveLink(p: Project) {
    p.live != ""
  }

  /** "Frontend" and "Full-stack" match no project: empty grids and zero
      badges; "All" counts the three projects, each with a Live link and
      each under one of the other buttons. */
  lemma UnusedCategories()
    ensures FilteredProjects("Frontend") == [] && FilterBadge("Frontend") == 0
    ensures FilteredProjects("Full-stack") == [] && FilterBadge("Full-stack") == 0
    ensures FilterBadge("All") == 3
    ensures forall k :: 0 <= k < |Projects| ==> ShowsLiveLink(Projects[k])
    ensures forall k :: 0 <= k < |Projects| ==> Projects[k].category in Categories[1..]
  {
    AbsentCategory(CategoryOf, "Frontend", Projects);
    AbsentCategory(CategoryOf, "Full-stack", Projects);
  }
}
