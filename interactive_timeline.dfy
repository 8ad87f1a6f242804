/** The journey timeline (`InteractiveTimeline`): six entries whose icon is
    chosen from their type, and one active entry, set by hovering an entry or
    clicking its dot, which is the only one highlighted. */
module InteractiveTimeline {

  /** The icon components. */
  datatype Icon = GraduationCap | Code | Trophy | BookOpen | Award

  /** The fields of a timeline entry that the logic reads. */
  datatype Entry = Entry(year: string, entryType: string, icon: Icon)

  /** The entries, newest first; each record's own `icon` is never rendered. */
  const TimelineData: seq<Entry> := [
    Entry("2024", "education", GraduationCap),
    Entry("2023", "skill", Code),
    Entry("2023", "achievement", Trophy),
    Entry("2022", "learning", BookOpen),
    Entry("2021", "education", Code),
    Entry("2020", "milestone", GraduationCap)]

  /** The four types with an icon of their own. */
  predicate IsKnownType(t: string) {
    t == "education" || t == "skill" || t == "achievement" || t == "learning"
  }

  /** `getIcon`: the icon of a type, with the award as default. */
  function GetIcon(t: string): (icon: Icon)
    ensures icon == Award <==> !IsKnownType(t)
    ensures t == "education" <==> icon == GraduationCap
    ensures t == "skill" <==> icon == Code
    ensures t == "achievement" <==> icon == Trophy
    ensures t == "learning" <==> icon == BookOpen
  {
    match t
    case "education" => GraduationCap
    case "skill" => Code
    case "achievement" => Trophy
    case "learning" => BookOpen
    case _ => Award
  }

  /** The icon an entry is drawn with. */
  function RenderedIcon(e: Entry): Icon {
    GetIcon(e.entryType)
  }

  /** The drawn icon depends on the type alone, never on the record's `icon`. */
  lemma IconIgnoresRecordIcon(e: Entry, other: Icon)
    ensures RenderedIcon(e.(icon := other)) == RenderedIcon(e)
  {
  }

  /** The 2021 "education" entry, whose record names `Code`, is drawn with the
      graduation cap, and the 2020 "milestone" entry with the default award. */
  lemma ListedIcons()
    ensures RenderedIcon(TimelineData[4]) == GraduationCap && TimelineData[4].icon == Code
    ensures RenderedIcon(TimelineData[5]) == Award
  {
  }

  /** `activeItem === index` for each entry. */
  function Highlights(activeItem: nat): (flags: seq<bool>)
    ensures |flags| == |TimelineData|
    ensures forall k :: 0 <= k < |flags| ==> flags[k] == (k == activeItem)
  {
    seq(|TimelineData|, k => k == activeItem)
  }

  /** The number of set flags. */
  function CountSet(flags: seq<bool>): nat {
    if flags == [] then 0 else (if flags[0] then 1 else 0) + CountSet(flags[1..])
  }

  /** Flags that are set exactly at position `i` count one. */
  lemma {:induction false} CountSetSingle(flags: seq<bool>, i: int)
    requires forall k :: 0 <= k < |flags| ==> flags[k] == (k == i)
    ensures CountSet(flags) == (if 0 <= i < |flags| then 1 else 0)
  {
    if flags != [] {
      CountSetSingle(flags[1..], i - 1);
    }
  }

  /** For an index of the timeline exactly one entry is highlighted. */
  lemma ExactlyOneHighlighted(activeItem: nat)
    requires activeItem < |TimelineData|
    ensures CountSet(Highlights(activeItem)) == 1
  {
    CountSetSingle(Highlights(activeItem), activeItem);
  }

  class TimelineState {
    var activeItem: nat

    /** `activeItem` is an index of `timelineData`. */
    predicate Valid()
      reads this
    {
      activeItem < |TimelineData|
    }

    constructor ()
      ensures Valid() && activeItem == 0
    {
      activeItem := 0;
    }

    /** Hovering entry `index`. */
    method HoverEntry(index: nat)
      requires index < |TimelineData|
      modifies this
      ensures Valid() && activeItem == index
    {
      activeItem := index;
    }

    /** Clicking the dot of entry `index`. */
    method ClickDot(index: nat)
      requires index < |TimelineData|
      modifies this
      ensures Valid() && activeItem == index
    {
      activeItem := index;
    }
  }
}
