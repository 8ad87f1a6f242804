/** The floating navigation bar (`Navbar`): it hides while the page scrolls
    down past 128 pixels and shows again otherwise, and it has a mobile menu
    that the menu button toggles and that every navigation click closes. */
module Navbar {

  /** Below this scroll offset the bar is always shown. */
  const HideThreshold: real := 128.0

  /** The visibility after a scroll event to `y` when the previous offset was
      `last`: hidden exactly when the page moved down and is past the threshold. */
  function VisibleAfter(last: real, y: real): (visible: bool)
    ensures !visible <==> y > last && y > HideThreshold
    ensures y <= HideThreshold ==> visible
    ensures y <= last ==> visible
  {
    !(y > last && y > HideThreshold)
  }

  /** `isVisible` and `lastScrollY`. */
  datatype ScrollState = ScrollState(isVisible: bool, lastScrollY: real)

  const InitialScroll := ScrollState(true, 0.0)

  /** The scroll handler as a step on the two state variables. */
  function OnScrollStep(s: ScrollState, y: real): (t: ScrollState)
    ensures t.lastScrollY == y
    ensures t.isVisible == VisibleAfter(s.lastScrollY, y)
  {
    ScrollState(VisibleAfter(s.lastScrollY, y), y)
  }

  /** The state after the scroll events `ys`, in order: the stored offset
      is the last event's, and with no events the state is unchanged. */
  function Replay(s: ScrollState, ys: seq<real>): (t: ScrollState)
    ensures ys == [] ==> t == s
    ensures ys != [] ==> t.lastScrollY == ys[|ys| - 1]
  {
    if ys == [] then s else OnScrollStep(Replay(s, ys[..|ys| - 1]), ys[|ys| - 1])
  }

  /** After any non-empty series of events the stored offset is the last
      event's and the visibility depends only on the last two offsets: the
      bar is hidden iff the last event moved down past the threshold. */
  lemma {:induction false} ReplayLastEvent(ys: seq<real>)
    requires |ys| >= 1
    ensures Replay(InitialScroll, ys).lastScrollY == ys[|ys| - 1]
    ensures var prev := if |ys| == 1 then 0.0 else ys[|ys| - 2];
            !Replay(InitialScroll, ys).isVisible <==> ys[|ys| - 1] > prev && ys[|ys| - 1] > HideThreshold
  {
    if |ys| > 1 {
      var init := ys[..|ys| - 1];
      ReplayLastEvent(init);
      assert init[|init| - 1] == ys[|ys| - 2];
    } else {
      assert ys[..0] == [];
    }
  }

  class NavbarState {
    var isVisible: bool
    var lastScrollY: real
    var mobileOpen: bool

    constructor ()
      ensures isVisible && lastScrollY == 0.0 && !mobileOpen
    {
      isVisible := true;
      lastScrollY := 0.0;
      mobileOpen := false;
    }

    /** The `scrollY` change handler. */
    method OnScroll(y: real)
      modifies this`isVisible, this`lastScrollY
      ensures ScrollState(isVisible, lastScrollY) == OnScrollStep(ScrollState(old(isVisible), old(lastScrollY)), y)
    {
      if y > lastScrollY && y > HideThreshold {
        isVisible := false;
      } else {
        isVisible := true;
      }
      lastScrollY := y;
    }

    /** `scrollTo(href)`: the page scroll itself is a DOM effect; the menu closes. */
    method ScrollTo(href: string)
      modifies this`mobileOpen
      ensures !mobileOpen
    {
      mobileOpen := false;
    }

    /** The menu button. */
    method ToggleMenu()
      modifies this`mobileOpen
      ensures mobileOpen == !old(mobileOpen)
    {
      mobileOpen := !mobileOpen;
    }
  }
}
