/** The main project listing (`ProjectsSection`): eight projects, a featured
    row, a category filter bar with count badges, and project cards that list
    a prefix of their technologies with a "+N" overflow badge and show the
    Live link only for deployed projects. */
module ProjectsSection {
  import opened Wrappers
  import opened Seqs
  import opened CategoryFilter

  /** The fields of a project record that the listing's logic reads. */
  datatype Project = Project(
    id: nat,
    category: string,
    featured: bool,
    tech: seq<string>,
    live: string,
    highlights: seq<string>)

  function CategoryOf(p: Project): string {
    p.category
  }

  /** The filter buttons, in order. */
  const Categories: seq<string> := ["All", "Academic", "Personal", "Learning", "Frontend", "Fullstack"]

  /** The project list, in order. */
  const Projects: seq<Project> := [
    Project(1, "Academic", true, ["React", "Node.js", "MongoDB", "Express.js", "JWT", "Stripe"],
      "https://ecommerce-fyp-demo.vercel.app",
      ["Best Final Year Project Award", "Full CRUD Operations", "Payment Integration"]),
    Project(2, "Personal", true, ["React", "CSS3", "Local Storage", "React Hooks"],
      "https://my-task-manager-app.vercel.app", ["Drag & Drop", "Dark Mode", "Responsive Design"]),
    Project(3, "Learning", false, ["JavaScript", "HTML5", "CSS3", "OpenWeather API"],
      "https://my-weather-app-demo.netlify.app", ["API Integration", "Geolocation", "Responsive UI"]),
    Project(4, "Academic", true, ["PHP", "MySQL", "Bootstrap", "JavaScript"],
      "#", ["Database Design", "CRUD Operations", "Search & Filter"]),
    Project(5, "Personal", false, ["HTML5", "CSS3", "JavaScript", "AOS Library"],
      "https://umayer-portfolio-v1.netlify.app", ["CSS Animations", "Responsive Design", "Contact Form"]),
    Project(6, "Learning", false, ["React", "Spoonacular API", "CSS Modules"],
      "https://recipe-finder-demo.vercel.app", ["Component Architecture", "State Management", "API Integration"]),
    Project(7, "Personal", false, ["HTML5", "CSS3", "JavaScript", "Markdown"],
      "https://umayer-blog.netlify.app", ["Clean Design", "SEO Friendly", "Mobile First"]),
    Project(8, "Learning", false, ["HTML5", "CSS3", "JavaScript"],
      "https://my-calculator-app.netlify.app", ["DOM Manipulation", "Event Handling", "Clean UI"])]

  /** `filteredProjects` for the active filter: projects of the list, in
      their order, all of the selected category unless it is "All". */
  function FilteredProjects(activeFilter: string): (r: seq<Project>)
    ensures IsSubsequence(r, Projects)
    ensures activeFilter == All ==> r == Projects
    ensures activeFilter != All ==> forall k :: 0 <= k < |r| ==> r[k].category == activeFilter
  {
    Visible(CategoryOf, activeFilter, Projects)
  }

  /** The badge on filter button `c`: the length of the list it shows. */
  function FilterBadge(c: string): (n: nat)
    ensures n == |FilteredProjects(c)|
    ensures n <= |Projects|
  {
    BadgeCount(CategoryOf, c, Projects)
  }

  function IsFeatured(p: Project): bool {
    p.featured
  }

  /** `featuredProjects.slice(0, 3)`: the featured row. */
  function FeaturedRow(ps: seq<Project>): (row: seq<Project>)
    ensures |row| == if |Filter(IsFeatured, ps)| < 3 then |Filter(IsFeatured, ps)| else 3
    ensures row <= Filter(IsFeatured, ps)
    ensures forall k :: 0 <= k < |row| ==> row[k].featured && row[k] in ps
  {
    FilterMembershipAll(IsFeatured, ps);
    Take(Filter(IsFeatured, ps), 3)
  }

  /** The technology badges of a featured card: the listed prefix and the
      "+N" overflow badge, if any. */
  datatype TechBadges = TechBadges(listed: seq<string>, overflow: Option<nat>)

  /** `tech.slice(0, 4)` and, when `tech.length > 4`, `+{tech.length - 4}`:
      the first four (or all, when fewer) are listed, the overflow badge appears exactly when some
      are left out, and it counts exactly the ones left out. */
  function FeaturedTechBadges(tech: seq<string>): (b: TechBadges)
    ensures b.listed <= tech
    ensures |b.listed| == if |tech| < 4 then |tech| else 4
    ensures b.overflow.Some? <==> |tech| > 4
    ensures b.overflow.Some? ==> b.overflow.value == |tech| - 4 && |b.listed| + b.overflow.value == |tech|
    ensures b.overflow.None? ==> b.listed == tech
  {
    TechBadges(Take(tech, 4), if |tech| > 4 then Some(|tech| - 4) else None)
  }

  /** `highlights.slice(0, 2)` on a featured card. */
  function FeaturedHighlights(highlights: seq<string>): (shown: seq<string>)
    ensures shown <= highlights
    ensures |shown| == if |highlights| < 2 then |highlights| else 2
  {
    Take(highlights, 2)
  }

  /** The Live link is rendered for `live !== "#"`. */
  predicate ShowsLiveLink(p: Project) {
    p.live != "#"
  }

  /** Of the eight projects only project 4, whose `live` is the "#"
      placeholder, has no Live link. */
  lemma LiveLinks()
    ensures forall k :: 0 <= k < |Projects| ==> (ShowsLiveLink(Projects[k]) <==> Projects[k].id != 4)
  {
  }

  /** Every project is Academic, Personal or Learning, each of them the
      label of a filter button other than "All". */
  lemma ProjectCategories()
    ensures forall k :: 0 <= k < |Projects| ==>
              Projects[k].category in {"Academic", "Personal", "Learning"}
    ensures forall k :: 0 <= k < |Projects| ==> Projects[k].category in Categories[1..]
  {
  }

  /** "Frontend" has a button but no project: its list is empty and its
      badge 0. */
  lemma NoFrontendProjects()
    ensures FilteredProjects("Frontend") == [] && FilterBadge("Frontend") == 0
  {
    assert forall k :: 0 <= k < |Projects| ==> CategoryOf(Projects[k]) != "Frontend" by {
      ProjectCategories();
    }
    AbsentCategory(CategoryOf, "Frontend", Projects);
  }

  /** Likewise "Fullstack". */
  lemma NoFullstackProjects()
    ensures FilteredProjects("Fullstack") == [] && FilterBadge("Fullstack") == 0
  {
    assert forall k :: 0 <= k < |Projects| ==> CategoryOf(Projects[k]) != "Fullstack" by {
      ProjectCategories();
    }
    AbsentCategory(CategoryOf, "Fullstack", Projects);
  }

  /** The "All" badge counts the eight projects. */
  lemma AllBadge()
    ensures FilterBadge("All") == 8
  {
  }

  /** The featured row shows projects 1, 2 and 4. */
  lemma FeaturedRowIds()
    ensures |FeaturedRow(Projects)| == 3
    ensures FeaturedRow(Projects)[0].id == 1 && FeaturedRow(Projects)[1].id == 2 && FeaturedRow(Projects)[2].id == 4
  {
  }

  /** The first project lists four of its six technologies and "+2". */
  lemma FirstProjectBadges()
    ensures FeaturedTechBadges(Projects[0].tech) == TechBadges(["React", "Node.js", "MongoDB", "Express.js"], Some(2))
  {
  }
}
