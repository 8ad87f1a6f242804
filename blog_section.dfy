/** The blog listing (`BlogSection`): six posts, a featured row of the posts
    marked featured, a category filter bar with count badges, tag prefixes on
    the cards, and the hovered featured card. */
module BlogSection {
  import opened Wrappers
  import opened Seqs
  import opened CategoryFilter

  /** The fields of a post record that the listing's logic reads. */
  datatype Post = Post(id: nat, category: string, tags: seq<string>, featured: bool)

  function CategoryOf(p: Post): string {
    p.category
  }

  function IsFeatured(p: Post): bool {
    p.featured
  }

  /** The filter buttons, in order. */
  const Categories: seq<string> := ["All", "Career", "Project", "Tutorial", "Database", "Experience", "Tools"]

  /** The posts, in order. */
  const BlogPosts: seq<Post> := [
    Post(1, "Career", ["Web Development", "Learning", "Career", "MERN Stack"], true),
    Post(2, "Project", ["React", "Node.js", "MongoDB", "E-commerce"], true),
    Post(3, "Tutorial", ["React", "JavaScript", "Frontend", "Tutorial"], false),
    Post(4, "Database", ["Database", "MongoDB", "PostgreSQL", "Design"], false),
    Post(5, "Experience", ["Hackathon", "Experience", "Learning", "Competition"], false),
    Post(6, "Tools", ["VS Code", "Tools", "Productivity", "Development"], false)]

  /** `filteredPosts` for the selected category: posts of the list, in
      their order, all of the selected category unless it is "All". */
  function FilteredPosts(selectedCategory: string): (r: seq<Post>)
    ensures IsSubsequence(r, BlogPosts)
    ensures selectedCategory == All ==> r == BlogPosts
    ensures selectedCategory != All ==> forall k :: 0 <= k < |r| ==> r[k].category == selectedCategory
  {
    Visible(CategoryOf, selectedCategory, BlogPosts)
  }

  /** The badge on category button `c`: the length of the list it shows. */
  function FilterBadge(c: string): (n: nat)
    ensures n == |FilteredPosts(c)|
    ensures n <= |BlogPosts|
  {
    BadgeCount(CategoryOf, c, BlogPosts)
  }

  /** `blogPosts.filter((post) => post.featured)`: the featured posts, as a
      subsequence of all posts. */
  function FeaturedPosts(posts: seq<Post>): (r: seq<Post>)
    ensures IsSubsequence(r, posts)
    ensures forall k :: 0 <= k < |r| ==> r[k].featured
    ensures forall k :: 0 <= k < |posts| && posts[k].featured ==> posts[k] in r
  {
    FilterSubsequence(IsFeatured, posts);
    FilterMembershipAll(IsFeatured, posts);
    Filter(IsFeatured, posts)
  }

  /** A featured post is kept as often as it occurs, duplicates included. */
  lemma FeaturedKeepsDuplicates(posts: seq<Post>)
    ensures multiset(FeaturedPosts(posts)) <= multiset(posts)
    ensures forall k :: 0 <= k < |posts| && posts[k].featured ==>
              multiset(FeaturedPosts(posts))[posts[k]] == multiset(posts)[posts[k]]
  {
    FilterCountAll(IsFeatured, posts);
  }

  /** The featured row shows posts 1 and 2. */
  lemma FeaturedRow()
    ensures FeaturedPosts(BlogPosts) == [BlogPosts[0], BlogPosts[1]]
  {
  }

  /** `tags.slice(0, 3)` on a featured card. */
  function FeaturedCardTags(p: Post): (shown: seq<string>)
    ensures shown <= p.tags
    ensures |shown| == if |p.tags| < 3 then |p.tags| else 3
  {
    Take(p.tags, 3)
  }

  /** `tags.slice(0, 2)` on a grid card. */
  function GridCardTags(p: Post): (shown: seq<string>)
    ensures shown <= p.tags
    ensures |shown| == if |p.tags| < 2 then |p.tags| else 2
  {
    Take(p.tags, 2)
  }

  /** The grid card shows a prefix of what the featured card shows. */
  lemma GridTagsPrefixOfFeatured(p: Post)
    ensures GridCardTags(p) <= FeaturedCardTags(p)
  {
  }

  /** The pointer events on featured cards. */
  datatype HoverEvent = HoverStart(id: nat) | HoverEnd

  /** `hoveredPost` after one event: the card's id on hover start, null on
      any hover end. */
  function OnHover(hovered: Option<nat>, e: HoverEvent): (h: Option<nat>)
    ensures e.HoverStart? ==> h == Some(e.id)
    ensures e.HoverEnd? ==> h == None
  {
    match e
    case HoverStart(id) => Some(id)
    case HoverEnd => None
  }

  /** `hoveredPost` after the events `es`, starting from null. */
  function HoveredAfter(es: seq<HoverEvent>): Option<nat> {
    if es == [] then None else OnHover(HoveredAfter(es[..|es| - 1]), es[|es| - 1])
  }

  /** The hovered post is the id of the latest hover start, provided no hover
      end came after it; otherwise there is none. */
  lemma HoveredIsLatestStart(es: seq<HoverEvent>, id: nat)
    ensures HoveredAfter(es) == Some(id) <==> |es| > 0 && es[|es| - 1] == HoverStart(id)
    ensures HoveredAfter(es) == None <==> es == [] || es[|es| - 1] == HoverEnd
  {
  }

  /** A featured card plays its hover animation iff it is the hovered post. */
  predicate IconAnimated(hovered: Option<nat>, p: Post) {
    hovered == Some(p.id)
  }

  /** After any series of events, a card animates iff the last event was a
      hover start on that card. */
  lemma AnimatedAfter(es: seq<HoverEvent>, p: Post)
    ensures IconAnimated(HoveredAfter(es), p) <==> |es| > 0 && es[|es| - 1] == HoverStart(p.id)
  {
    HoveredIsLatestStart(es, p.id);
  }

  /** The post ids are distinct, so at most one card animates at a time. */
  lemma AtMostOneAnimated(hovered: Option<nat>, i: nat, j: nat)
    requires i < |BlogPosts| && j < |BlogPosts|
    requires IconAnimated(hovered, BlogPosts[i]) && IconAnimated(hovered, BlogPosts[j])
    ensures i == j
  {
  }

  /** Every post falls under one of the filter buttons other than "All". */
  lemma PostCategories()
    ensures forall k :: 0 <= k < |BlogPosts| ==> BlogPosts[k].category in Categories[1..]
  {
  }

  /** The "Tutorial" button shows post 3 alone, and its badge is 1. */
  lemma TutorialFilter()
    ensures FilteredPosts("Tutorial") == [BlogPosts[2]]
    ensures FilterBadge("Tutorial") == 1
  {
    SingleCategory(CategoryOf, "Tutorial", BlogPosts, 2);
  }
}
