/** The radial context menu: four navigation items around the point where the
    right button went down, the item a gesture direction selects, and what
    releasing the button on the menu does. */
module ContextMenu {
  import opened Wrappers

  /** A gesture direction; `NoDirection` is the empty, falsy `activeDirection`. */
  datatype Direction = NoDirection | Top | Right | Bottom | Left

  /** One entry of the `navigationPaths` table. */
  datatype NavItem = NavItem(name: string, path: string, direction: Direction)

  /** The fixed table: Works up, About right, Contact left, Inspect down. */
  const NavigationPaths: seq<NavItem> := [
    NavItem("Works", "/works", Top),
    NavItem("About", "/about", Right),
    NavItem("Contact", "/contact", Left),
    NavItem("Inspect", "#", Bottom)
  ]

  /** The first entry of `items` with direction `d`, as `Array.prototype.find`
      gives it. */
  function FindFrom(items: seq<NavItem>, d: Direction): (found: Option<NavItem>)
    ensures found.Some? ==> found.value in items && found.value.direction == d
    ensures found.None? <==> forall i :: 0 <= i < |items| ==> items[i].direction != d
  {
    if |items| == 0 then None
    else if items[0].direction == d then Some(items[0])
    else
      var rest := FindFrom(items[1..], d);
      assert forall i :: 1 <= i < |items| ==> items[i] == items[1..][i - 1];
      rest
  }

  /** The search returns the first match: the entry at `i` when no earlier
      entry has direction `d`. */
  lemma {:induction false} FindFromFirst(items: seq<NavItem>, d: Direction, i: int)
    requires 0 <= i < |items| && items[i].direction == d
    requires forall j :: 0 <= j < i ==> items[j].direction != d
    ensures FindFrom(items, d) == Some(items[i])
  {
    if i > 0 {
      FindFromFirst(items[1..], d, i - 1);
    }
  }

  /** The table entry for direction `d`: every real direction has one. */
  function FindByDirection(d: Direction): (found: Option<NavItem>)
    ensures found.Some? ==> found.value in NavigationPaths && found.value.direction == d
    ensures found.None? <==> d == NoDirection
  {
    FindFrom(NavigationPaths, d)
  }

  /** Every real direction names exactly one table entry, and the search
      finds that entry; the empty direction names none. */
  lemma DirectionsUnique(d: Direction)
    ensures d != NoDirection ==>
      exists i :: 0 <= i < |NavigationPaths| && NavigationPaths[i].direction == d &&
        FindByDirection(d) == Some(NavigationPaths[i]) &&
        forall j :: 0 <= j < |NavigationPaths| && NavigationPaths[j].direction == d ==> j == i
    ensures d == NoDirection ==> FindByDirection(d) == None
  {
    match d
    case NoDirection =>
    case Top => OnlyEntryFor(d, 0);
    case Right => OnlyEntryFor(d, 1);
    case Left => OnlyEntryFor(d, 2);
    case Bottom => OnlyEntryFor(d, 3);
  }

  /** An entry whose direction no other entry has is the one found. */
  lemma OnlyEntryFor(d: Direction, i: int)
    requires 0 <= i < |NavigationPaths| && NavigationPaths[i].direction == d
    requires forall j :: 0 <= j < |NavigationPaths| && j != i ==> NavigationPaths[j].direction != d
    ensures FindByDirection(d) == Some(NavigationPaths[i])
    ensures forall j :: 0 <= j < |NavigationPaths| && NavigationPaths[j].direction == d ==> j == i
  {
    FindFromFirst(NavigationPaths, d, i);
  }

  const XDistance: real := 80.0
  const YDistance: real := 50.0

  /** `getItemPosition`: the item for direction `d` around the centre `(x, y)`. */
  function ItemPosition(x: real, y: real, d: Direction): (p: (real, real))
    ensures d == Top ==> p == (x, y - YDistance)
    ensures d == Right ==> p == (x + XDistance, y)
    ensures d == Bottom ==> p == (x, y + YDistance)
    ensures d == Left ==> p == (x - XDistance, y)
    ensures d == NoDirection ==> p == (x, y)
  {
    match d
    case Top => (x, y - YDistance)
    case Right => (x + XDistance, y)
    case Bottom => (x, y + YDistance)
    case Left => (x - XDistance, y)
    case NoDirection => (x, y)
  }

  /** The four items sit on four distinct points, none of them the centre. */
  lemma ItemsApart(x: real, y: real, d1: Direction, d2: Direction)
    requires d1 != NoDirection && d2 != NoDirection && d1 != d2
    ensures ItemPosition(x, y, d1) != ItemPosition(x, y, d2)
    ensures ItemPosition(x, y, d1) != (x, y)
  {
  }

  /** The start angle of the indicator wedge; no wedge without a direction. */
  function IndicatorAngle(d: Direction): (angle: Option<int>)
    ensures angle.None? <==> d == NoDirection
    ensures angle.Some? ==> angle.value in {0, 90, 180, 270}
  {
    match d
    case NoDirection => None
    case Top => Some(270)
    case Right => Some(0)
    case Bottom => Some(90)
    case Left => Some(180)
  }

  /** The wedge is a quarter turn wide and ends on the item it highlights:
      in the angles of a CSS conic gradient (0 degrees up, clockwise) its
      end, start plus 90 modulo 360, is up, right, down or left exactly when
      the item is above, right of, below or left of the centre. */
  lemma IndicatorFacesItem(d: Direction)
    requires d != NoDirection
    ensures var a := (IndicatorAngle(d).value + 90) % 360;
      var p := ItemPosition(0.0, 0.0, d);
      && (a == 0 <==> p.1 < 0.0)
      && (a == 90 <==> p.0 > 0.0)
      && (a == 180 <==> p.1 > 0.0)
      && (a == 270 <==> p.0 < 0.0)
  {
  }

  /** What one item looks like in a shown menu. */
  datatype ItemView = ItemView(name: string, x: real, y: real, isActive: bool)

  /** The rendered menu: nothing while hidden, otherwise every table entry at
      its position, marked active when it is the gesture direction. */
  function Render(x: real, y: real, isVisible: bool, active: Direction)
    : (view: Option<seq<ItemView>>)
    ensures view.None? <==> !isVisible
    ensures view.Some? ==> |view.value| == |NavigationPaths|
    ensures view.Some? ==>
      forall i :: 0 <= i < |view.value| ==>
        && view.value[i].name == NavigationPaths[i].name
        && (view.value[i].x, view.value[i].y) == ItemPosition(x, y, NavigationPaths[i].direction)
        && (view.value[i].isActive <==> NavigationPaths[i].direction == active)
  {
    if !isVisible then None
    else Some(seq(|NavigationPaths|, i requires 0 <= i < |NavigationPaths| =>
      var item := NavigationPaths[i];
      var p := ItemPosition(x, y, item.direction);
      ItemView(item.name, p.0, p.1, item.direction == active)))
  }

  /** At most one item is highlighted, and exactly one while a gesture
      direction is set. */
  lemma OneActiveItem(x: real, y: real, active: Direction)
    ensures var view := Render(x, y, true, active).value;
      && (forall i, j :: 0 <= i < j < |view| ==> !(view[i].isActive && view[j].isActive))
      && (active != NoDirection <==> exists i :: 0 <= i < |view| && view[i].isActive)
  {
    var view := Render(x, y, true, active).value;
    match active
    case NoDirection =>
    case Top => assert view[0].isActive;
    case Right => assert view[1].isActive;
    case Left => assert view[2].isActive;
    case Bottom => assert view[3].isActive;
  }

  /** An effect `handleNavigation` has on the page. */
  datatype Effect = Alert(message: string) | ScrollToTop | Navigate(path: string) | Close

  const InspectMessage: string := "Press F12 to open Developer Tools"

  /** `handleNavigation`: a set gesture direction overrides the clicked item;
      without a target nothing happens; otherwise the target's action, then
      `onClose`. */
  function HandleNavigation(active: Direction, item: Option<NavItem>): (effects: seq<Effect>)
    ensures effects == [] <==>
              || (active == NoDirection && item.None?)
              || (active != NoDirection && FindByDirection(active).None?)
    ensures effects != [] ==> |effects| == 2 && effects[1] == Close
  {
    var target := if active != NoDirection then FindByDirection(active) else item;
    match target
    case None => []
    case Some(t) =>
      var action :=
        if t.name == "Inspect" then Alert(InspectMessage)
        else if t.path == "#" then ScrollToTop
        else Navigate(t.path);
      [action, Close]
  }

  /** With a gesture direction set, the clicked item does not matter, and
      something always happens. */
  lemma ActiveDirectionOverrides(active: Direction, item: Option<NavItem>)
    requires active != NoDirection
    ensures HandleNavigation(active, item) == HandleNavigation(active, None)
    ensures |HandleNavigation(active, item)| == 2
  {
    DirectionsUnique(active);
  }

  /** Releasing on a table item runs that item's action: the routes
      navigate, Inspect alerts, and since Inspect is checked first its `#`
      path never scrolls — no table entry scrolls to the top. */
  lemma TableActions(i: int)
    requires 0 <= i < |NavigationPaths|
    ensures var e := HandleNavigation(NoDirection, Some(NavigationPaths[i]));
      && e[0] != ScrollToTop
      && (NavigationPaths[i].name == "Inspect" ==> e[0] == Alert(InspectMessage))
      && (NavigationPaths[i].path != "#" ==> e[0] == Navigate(NavigationPaths[i].path))
  {
  }

  /** The menu's own mouse-up: only with a gesture direction set does it
      navigate, to the item of that direction. */
  function ContainerMouseUp(active: Direction): (effects: seq<Effect>)
    ensures active == NoDirection ==> effects == []
    ensures active != NoDirection ==>
      effects == HandleNavigation(NoDirection, FindByDirection(active)) && |effects| == 2
  {
    if active != NoDirection then HandleNavigation(active, None) else []
  }

  /** Escape closes the open menu; no other key does. */
  function HandleEscape(key: string): (effects: seq<Effect>)
    ensures effects == [Close] <==> key == "Escape"
    ensures effects != [Close] ==> effects == []
  {
    if key == "Escape" then [Close] else []
  }
}
