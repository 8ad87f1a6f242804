/** The category filter bar shared by the project and blog listings: the
    "All" button shows every item, any other button the items of that
    category; each button carries a badge with the number of items it would
    show. */
module CategoryFilter {
  import opened Seqs

  /** The label of the button that shows everything. */
  const All: string := "All"

  /** `(item) => item.category === c`. */
  function InCategory<T>(category: T -> string, c: string): T -> bool {
    x => category(x) == c
  }

  /** `selected === "All" ? items : items.filter((item) => item.category === selected)`:
      the whole list for "All"; otherwise only items of the selected category,
      every one of them, in their original order. */
  function Visible<T(==)>(category: T -> string, selected: string, items: seq<T>): (r: seq<T>)
    ensures selected == All ==> r == items
    ensures selected != All ==> forall k :: 0 <= k < |r| ==> category(r[k]) == selected
    ensures selected != All ==> forall k :: 0 <= k < |items| && category(items[k]) == selected ==> items[k] in r
    ensures forall k :: 0 <= k < |r| ==> r[k] in items
    ensures IsSubsequence(r, items)
  {
    if selected == All then
      SubsequenceRefl(items);
      items
    else
      FilterMembershipAll(InCategory(category, selected), items);
      FilterSubsequence(InCategory(category, selected), items);
      Filter(InCategory(category, selected), items)
  }

  /** Duplicates are shown: a shown item is shown no more often than it
      occurs, and an item of the selected category exactly as often. */
  lemma VisibleKeepsDuplicates<T>(category: T -> string, selected: string, items: seq<T>)
    ensures multiset(Visible(category, selected, items)) <= multiset(items)
    ensures forall k :: 0 <= k < |items| && (selected == All || category(items[k]) == selected) ==>
              multiset(Visible(category, selected, items))[items[k]] == multiset(items)[items[k]]
  {
    if selected != All {
      FilterCountAll(InCategory(category, selected), items);
    }
  }

  /** The badge of button `c`: `c === "All" ? items.length :
      items.filter((item) => item.category === c).length`, which is the
      length of the list that button shows. */
  function BadgeCount<T(==)>(category: T -> string, c: string, items: seq<T>): (n: nat)
    ensures n == |Visible(category, c, items)|
    ensures n <= |items|
    ensures c == All ==> n == |items|
  {
    if c == All then |items| else |Filter(InCategory(category, c), items)|
  }

  /** A category exactly one item has shows that item alone, with badge 1. */
  lemma SingleCategory<T>(category: T -> string, c: string, items: seq<T>, i: nat)
    requires c != All && i < |items| && category(items[i]) == c
    requires forall k :: 0 <= k < |items| && k != i ==> category(items[k]) != c
    ensures Visible(category, c, items) == [items[i]]
    ensures BadgeCount(category, c, items) == 1
  {
    FilterKeepsOne(InCategory(category, c), items, i);
  }

  /** A category no item has shows an empty list and a zero badge. */
  lemma AbsentCategory<T>(category: T -> string, c: string, items: seq<T>)
    requires c != All
    requires forall k :: 0 <= k < |items| ==> category(items[k]) != c
    ensures Visible(category, c, items) == []
    ensures BadgeCount(category, c, items) == 0
  {
    FilterKeepsNone(InCategory(category, c), items);
  }
}
