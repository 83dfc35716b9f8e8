/** Placement of the context menu and its submenus (js/menu.ts,
    `positionElement`): where the element's top-left corner goes. */
module Menu {
  import opened Wrappers
  import opened Numbers

  datatype Placement = Placement(left: real, top: real)

  /** `positionElement` for an element of size `offsetWidth` x `offsetHeight`
      asked to appear at (x, y) in a window of `innerWidth` x `innerHeight`.
      `parentLeft` is `parentRect.left` for a submenu and None for the main
      menu. */
  function PositionElement(x: real, y: real, innerWidth: real, innerHeight: real,
                           offsetWidth: real, offsetHeight: real, parentLeft: Option<real>): (p: Placement)
    ensures p.top <= y && p.top <= innerHeight - offsetHeight - 1.0
    ensures p.top == y || p.top == innerHeight - offsetHeight - 1.0
    ensures parentLeft.None? ==> p.left <= x && p.left <= innerWidth - offsetWidth - 1.0
    ensures parentLeft.None? ==> p.left == x || p.left == innerWidth - offsetWidth - 1.0
    ensures parentLeft.Some? && x + offsetWidth <= innerWidth - 1.0 ==> p.left == x
    ensures parentLeft.Some? && x + offsetWidth > innerWidth - 1.0 ==> p.left + offsetWidth == parentLeft.value
  {
    var top := Min(y, innerHeight - offsetHeight - 1.0);
    var left :=
      if parentLeft.Some? then
        (if x + offsetWidth > innerWidth - 1.0 then parentLeft.value - offsetWidth else x)
      else Min(x, innerWidth - offsetWidth - 1.0);
    Placement(left, top)
  }

  /** The main menu is placed by `Math.min` on each axis, keeping a one-pixel
      margin from the window's right and bottom edges. */
  lemma MainMenuIsMin(x: real, y: real, innerWidth: real, innerHeight: real, offsetWidth: real, offsetHeight: real)
    ensures PositionElement(x, y, innerWidth, innerHeight, offsetWidth, offsetHeight, None)
            == Placement(Min(x, innerWidth - offsetWidth - 1.0), Min(y, innerHeight - offsetHeight - 1.0))
  {
  }

  /** A main menu that fits the window and is asked for an on-screen point
      lies entirely on screen. */
  lemma MainMenuFitsOnScreen(x: real, y: real, innerWidth: real, innerHeight: real, offsetWidth: real, offsetHeight: real)
    requires 0.0 <= x && 0.0 <= y
    requires offsetWidth + 1.0 <= innerWidth && offsetHeight + 1.0 <= innerHeight
    ensures var p := PositionElement(x, y, innerWidth, innerHeight, offsetWidth, offsetHeight, None);
            0.0 <= p.left && p.left + offsetWidth < innerWidth && 0.0 <= p.top && p.top + offsetHeight < innerHeight
  {
  }

  /** No lower bound is enforced: an element larger than the window is
      placed at negative coordinates. */
  lemma OversizedMenuGoesNegative()
    ensures PositionElement(10.0, 10.0, 100.0, 100.0, 200.0, 150.0, None) == Placement(-101.0, -51.0)
  {
  }
}
