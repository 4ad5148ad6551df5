/**
 * The editor layout store: whether each of the three panels is shown, the
 * two sidebar widths and the bottom panel height, each kept between fixed
 * bounds, and the (dark-only) theme.
 */
module LayoutStore {
  datatype ThemeMode = Dark | Light

  const LeftMin: real := 200.0
  const LeftMax: real := 500.0
  const RightMin: real := 240.0
  const RightMax: real := 600.0
  const BottomMin: real := 100.0
  const BottomMax: real := 800.0

  /** `Math.max(lo, Math.min(x, hi))`. */
  function Clamp(x: real, lo: real, hi: real): (r: real)
    requires lo <= hi
    ensures lo <= r <= hi
    ensures lo <= x <= hi ==> r == x
    ensures x < lo ==> r == lo
    ensures x > hi ==> r == hi
  {
    if x < hi then (if lo < x then x else lo) else (if lo < hi then hi else lo)
  }

  /** Clamping twice is clamping once, and clamping keeps the order of its inputs. */
  lemma ClampIdempotentMonotone(x: real, y: real, lo: real, hi: real)
    requires lo <= hi
    ensures Clamp(Clamp(x, lo, hi), lo, hi) == Clamp(x, lo, hi)
    ensures x <= y ==> Clamp(x, lo, hi) <= Clamp(y, lo, hi)
  {
  }

  /** All fields of the store at one moment. */
  datatype Layout = Layout(
    sidebarLeftVisible: bool,
    sidebarRightVisible: bool,
    bottomPanelVisible: bool,
    sidebarLeftWidth: real,
    sidebarRightWidth: real,
    bottomPanelHeight: real,
    themeMode: ThemeMode)

  /** Every size lies within its bounds. */
  ghost predicate InBounds(l: Layout) {
    && LeftMin <= l.sidebarLeftWidth <= LeftMax
    && RightMin <= l.sidebarRightWidth <= RightMax
    && BottomMin <= l.bottomPanelHeight <= BottomMax
  }

  /** The layout a fresh editor opens with: every panel shown, default sizes, dark theme. */
  const InitialLayout := Layout(true, true, true, 256.0, 320.0, 256.0, Dark)

  lemma InitialLayoutInBounds()
    ensures InBounds(InitialLayout)
  {
  }

  class Store {
    var sidebarLeftVisible: bool
    var sidebarRightVisible: bool
    var bottomPanelVisible: bool
    var sidebarLeftWidth: real
    var sidebarRightWidth: real
    var bottomPanelHeight: real
    var themeMode: ThemeMode

    function State(): Layout
      reads this
    {
      Layout(sidebarLeftVisible, sidebarRightVisible, bottomPanelVisible,
             sidebarLeftWidth, sidebarRightWidth, bottomPanelHeight, themeMode)
    }

    ghost predicate Valid()
      reads this
    {
      InBounds(State())
    }

    constructor ()
      ensures State() == InitialLayout && Valid()
    {
      sidebarLeftVisible := true;
      sidebarRightVisible := true;
      bottomPanelVisible := true;
      sidebarLeftWidth := 256.0;
      sidebarRightWidth := 320.0;
      bottomPanelHeight := 256.0;
      themeMode := Dark;
    }

    method ToggleSidebarLeft()
      modifies this
      ensures State() == old(State()).(sidebarLeftVisible := !old(sidebarLeftVisible))
      ensures old(Valid()) ==> Valid()
    {
      sidebarLeftVisible := !sidebarLeftVisible;
    }

    method ToggleSidebarRight()
      modifies this
      ensures State() == old(State()).(sidebarRightVisible := !old(sidebarRightVisible))
      ensures old(Valid()) ==> Valid()
    {
      sidebarRightVisible := !sidebarRightVisible;
    }

    method ToggleBottomPanel()
      modifies this
      ensures State() == old(State()).(bottomPanelVisible := !old(bottomPanelVisible))
      ensures old(Valid()) ==> Valid()
    {
      bottomPanelVisible := !bottomPanelVisible;
    }

    /** The left sidebar width, kept within [200, 500]. */
    method SetSidebarLeftWidth(width: real)
      modifies this
      ensures State() == old(State()).(sidebarLeftWidth := Clamp(width, LeftMin, LeftMax))
      ensures LeftMin <= width <= LeftMax ==> sidebarLeftWidth == width
      ensures old(Valid()) ==> Valid()
    {
      sidebarLeftWidth := Clamp(width, LeftMin, LeftMax);
    }

    /** The right sidebar width, kept within [240, 600]. */
    method SetSidebarRightWidth(width: real)
      modifies this
      ensures State() == old(State()).(sidebarRightWidth := Clamp(width, RightMin, RightMax))
      ensures RightMin <= width <= RightMax ==> sidebarRightWidth == width
      ensures old(Valid()) ==> Valid()
    {
      sidebarRightWidth := Clamp(width, RightMin, RightMax);
    }

    /** The bottom panel height, kept within [100, 800]. */
    method SetBottomPanelHeight(height: real)
      modifies this
      ensures State() == old(State()).(bottomPanelHeight := Clamp(height, BottomMin, BottomMax))
      ensures BottomMin <= height <= BottomMax ==> bottomPanelHeight == height
      ensures old(Valid()) ==> Valid()
    {
      bottomPanelHeight := Clamp(height, BottomMin, BottomMax);
    }
  }

  /** Toggling a panel twice shows it as before; setting a size twice is setting it once. */
  method ToggleTwiceSetTwice(s: Store, width: real)
    modifies s
    ensures s.State() == old(s.State()).(sidebarLeftWidth := Clamp(width, LeftMin, LeftMax))
  {
    s.ToggleSidebarLeft();
    s.ToggleSidebarLeft();
    s.SetSidebarLeftWidth(width);
    s.SetSidebarLeftWidth(width);
  }
}
