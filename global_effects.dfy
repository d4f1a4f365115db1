/** The page-wide effects layer: the cursor trail sampled on an interval,
    the right-button radial menu and its gesture direction, the trail's
    fading, and the height of the drawing layer. */
module GlobalEffects {
  import opened Motion
  import opened ContextMenu

  // ---------------------------------------------------------------- trail

  /** One sampled cursor position, in page coordinates, with its time. */
  datatype TrailPoint = TrailPoint(x: real, y: real, timestamp: int)

  const TrailLength: int := 32

  /** `[...prev, p].slice(-32)`: append, then keep the last 32. */
  function AppendTrail(trail: seq<TrailPoint>, p: TrailPoint): (t: seq<TrailPoint>)
    ensures |t| == if |trail| + 1 <= TrailLength then |trail| + 1 else TrailLength
    ensures t[|t| - 1] == p
    ensures t[..|t| - 1] == trail[|trail| - (|t| - 1)..]
  {
    var grown := trail + [p];
    var start := if |grown| > TrailLength then |grown| - TrailLength else 0;
    assert grown[start..][..|grown| - start - 1] == trail[start..];
    grown[start..]
  }

  /** The last `n` elements of `s`, or all of it when it is shorter. */
  function LastAtMost<T>(s: seq<T>, n: nat): seq<T> {
    if |s| <= n then s else s[|s| - n..]
  }

  /** The trail after a run of samples from empty is exactly the last 32 of
      them, in order: nothing is lost out of the window, nothing reordered. */
  lemma {:induction false} TrailIsWindow(samples: seq<TrailPoint>)
    ensures Samples([], samples) == LastAtMost(samples, TrailLength)
  {
    if samples != [] {
      var front := samples[..|samples| - 1];
      var last := samples[|samples| - 1];
      TrailIsWindow(front);
      assert samples == front + [last];
      WindowStep(front, last);
    }
  }

  /** One more sample moves the window of the last 32 by one. */
  lemma WindowStep(front: seq<TrailPoint>, last: TrailPoint)
    ensures AppendTrail(LastAtMost(front, TrailLength), last) == LastAtMost(front + [last], TrailLength)
  {
    var t := LastAtMost(front, TrailLength);
    var s := front + [last];
    var r := AppendTrail(t, last);
    var w := LastAtMost(s, TrailLength);
    assert |r| == |w|;
    forall k | 0 <= k < |r|
      ensures r[k] == w[k]
    {
      if k < |r| - 1 {
        var j := |t| - (|r| - 1) + k;
        assert r[k] == r[..|r| - 1][k] == t[j];
        assert t[j] == front[|front| - |t| + j];
        assert w[k] == s[|s| - |w| + k];
      }
    }
  }


  /** Appending a sequence of samples one tick at a time. */
  function Samples(trail: seq<TrailPoint>, samples: seq<TrailPoint>): (t: seq<TrailPoint>)
    ensures |trail| <= TrailLength ==> |t| <= TrailLength
  {
    if samples == [] then trail
    else AppendTrail(Samples(trail, samples[..|samples| - 1]), samples[|samples| - 1])
  }

  // ---------------------------------------------------------------- direction

  const DeadZone: real := 30.0

  /** The gesture direction for a cursor `(dx, dy)` away from the menu centre
      at distance `d`: none within 30, otherwise the dominant axis, with ties
      going to the horizontal axis. */
  function Classify(dx: real, dy: real, d: real): (dir: Direction)
    ensures d <= DeadZone <==> dir == NoDirection
    ensures dir == Top ==> dy < 0.0 && Abs(dy) > Abs(dx)
    ensures dir == Bottom ==> dy >= 0.0 && Abs(dy) > Abs(dx)
    ensures dir == Right ==> dx > 0.0 && Abs(dx) >= Abs(dy)
    ensures dir == Left ==> dx <= 0.0 && Abs(dx) >= Abs(dy)
  {
    if d > DeadZone then
      if Abs(dy) > Abs(dx) then (if dy < 0.0 then Top else Bottom)
      else (if dx > 0.0 then Right else Left)
    else NoDirection
  }

  function Abs(v: real): (a: real)
    ensures a >= 0.0 && (a == v || a == -v)
  {
    if v < 0.0 then -v else v
  }

  /** The dead zone can be decided without the square root: the distance is
      beyond 30 exactly when the squared offset is beyond 900. */
  lemma DeadZoneBySquares(dx: real, dy: real, d: real)
    requires IsDistance(dx, dy, d)
    ensures d > DeadZone <==> dx * dx + dy * dy > 900.0
  {
    if d > 30.0 {
      assert d * d > 30.0 * d;
    } else {
      assert d * d <= 30.0 * d by { assert d * (30.0 - d) >= 0.0; }
    }
  }

  /** A chosen direction agrees with the gesture: the menu item it selects
      lies on the side the cursor moved to, with a positive dot product
      between the item's offset and the cursor's. */
  lemma DirectionFollowsGesture(dx: real, dy: real, d: real)
    requires IsDistance(dx, dy, d)
    ensures var dir := Classify(dx, dy, d);
      var p := ItemPosition(0.0, 0.0, dir);
      dir != NoDirection ==> p.0 * dx + p.1 * dy > 0.0
  {
  }

  // ---------------------------------------------------------------- drawing

  /** Opacity of trail element `index`: its position along the trail, from
      0 at the oldest to 1 at the newest; a lone point is fully opaque. */
  function TrailOpacity(index: int, len: int): (o: real)
    requires 0 <= index < len
    ensures 0.0 <= o <= 1.0
    ensures len > 1 && index == 0 ==> o == 0.0
    ensures index == len - 1 ==> o == 1.0
  {
    if len > 1 then index as real / (len - 1) as real else 1.0
  }

  /** Newer points are drawn more opaque. */
  lemma TrailOpacityIncreasing(i: int, j: int, len: int)
    requires 0 <= i < j < len
    ensures TrailOpacity(i, len) < TrailOpacity(j, len)
  {
    var n := (len - 1) as real;
    assert i as real < j as real;
    assert i as real / n < j as real / n;
  }

  /** Two trail points at the same coordinates, whatever their times. */
  predicate SamePlace(p: TrailPoint, q: TrailPoint)
    ensures p == q ==> SamePlace(p, q)
    ensures SamePlace(p, q) ==> p.(timestamp := q.timestamp) == q
  {
    p.x == q.x && p.y == q.y
  }

  /** A drawn trail element: a segment from the previous point, or a dot. */
  datatype Mark = Segment(from: TrailPoint, to: TrailPoint, opacity: real)
                | Dot(at: TrailPoint, opacity: real)

  /** The segments, oldest first: one from each point to its predecessor,
      skipped when the two coincide. */
  function Segments(trail: seq<TrailPoint>, i: nat): (marks: seq<Mark>)
    requires 1 <= i <= |trail|
    decreases |trail| - i
    ensures |marks| <= |trail| - i
    ensures forall m :: m in marks ==>
              m.Segment? && !SamePlace(m.from, m.to) && 0.0 <= m.opacity <= 1.0
  {
    if i == |trail| then []
    else
      var rest := Segments(trail, i + 1);
      if SamePlace(trail[i], trail[i - 1]) then rest
      else [Segment(trail[i - 1], trail[i], TrailOpacity(i, |trail|))] + rest
  }

  /** The dots, oldest first: one per point, skipped when the point
      coincides with its predecessor; the first point always has one. */
  function Dots(trail: seq<TrailPoint>, i: nat): (marks: seq<Mark>)
    requires i <= |trail|
    decreases |trail| - i
    ensures |marks| <= |trail| - i
    ensures forall m :: m in marks ==> m.Dot? && 0.0 <= m.opacity <= 1.0
  {
    if i == |trail| then []
    else
      var rest := Dots(trail, i + 1);
      if i > 0 && SamePlace(trail[i], trail[i - 1]) then rest
      else [Dot(trail[i], TrailOpacity(i, |trail|))] + rest
  }

  /** Whether point `k` gets a dot: the first always does, a later one
      unless it sits on its predecessor. */
  predicate DrawsDot(trail: seq<TrailPoint>, k: int)
    requires 0 <= k < |trail|
  {
    k == 0 || !SamePlace(trail[k], trail[k - 1])
  }

  /** The dot of point `k`, at its place with its position's opacity. */
  function DotAt(trail: seq<TrailPoint>, k: int): Mark
    requires 0 <= k < |trail|
  {
    Dot(trail[k], TrailOpacity(k, |trail|))
  }

  /** Whether point `k` gets a segment from its predecessor. */
  predicate DrawsSegment(trail: seq<TrailPoint>, k: int)
    requires 1 <= k < |trail|
  {
    !SamePlace(trail[k], trail[k - 1])
  }

  /** The segment ending at point `k`. */
  function SegmentAt(trail: seq<TrailPoint>, k: int): Mark
    requires 1 <= k < |trail|
  {
    Segment(trail[k - 1], trail[k], TrailOpacity(k, |trail|))
  }

  /** The dots from point `i` on are exactly the dots of the points that
      get one: every listed dot is `DotAt` a drawn point, and every drawn
      point's dot is listed. */
  lemma {:induction false} DotsContent(trail: seq<TrailPoint>, i: nat)
    requires i <= |trail|
    decreases |trail| - i
    ensures forall m :: m in Dots(trail, i) ==>
      exists k :: i <= k < |trail| && DrawsDot(trail, k) && m == DotAt(trail, k)
    ensures forall k :: i <= k < |trail| ==>
      (DotAt(trail, k) in Dots(trail, i) <==> DrawsDot(trail, k))
  {
    if i < |trail| {
      DotsContent(trail, i + 1);
      forall k | i < k < |trail| && DotAt(trail, k) == DotAt(trail, i)
        ensures false
      {
        TrailOpacityIncreasing(i, k, |trail|);
      }
      if DrawsDot(trail, i) {
        assert Dots(trail, i) == [DotAt(trail, i)] + Dots(trail, i + 1);
      }
    }
  }

  /** The dots are listed oldest first: their opacities strictly increase. */
  lemma {:induction false} DotsInOrder(trail: seq<TrailPoint>, i: nat)
    requires i <= |trail|
    decreases |trail| - i
    ensures forall a, b :: 0 <= a < b < |Dots(trail, i)| ==>
      Dots(trail, i)[a].opacity < Dots(trail, i)[b].opacity
  {
    if i < |trail| && DrawsDot(trail, i) {
      DotsInOrder(trail, i + 1);
      DotsContent(trail, i + 1);
      var rest := Dots(trail, i + 1);
      var ds := Dots(trail, i);
      assert ds == [DotAt(trail, i)] + rest;
      forall b | 1 <= b < |ds|
        ensures ds[0].opacity < ds[b].opacity
      {
        assert ds[b] == rest[b - 1] && ds[b] in rest;
        var k :| i + 1 <= k < |trail| && DrawsDot(trail, k) && ds[b] == DotAt(trail, k);
        TrailOpacityIncreasing(i, k, |trail|);
      }
      forall a, b | 1 <= a < b < |ds|
        ensures ds[a].opacity < ds[b].opacity
      {
        assert ds[a] == rest[a - 1] && ds[b] == rest[b - 1];
      }
    } else if i < |trail| {
      DotsInOrder(trail, i + 1);
    }
  }

  /** The segments from point `i` on are exactly the segments of the points
      that get one. */
  lemma {:induction false} SegmentsContent(trail: seq<TrailPoint>, i: nat)
    requires 1 <= i <= |trail|
    decreases |trail| - i
    ensures forall m :: m in Segments(trail, i) ==>
      exists k :: i <= k < |trail| && DrawsSegment(trail, k) && m == SegmentAt(trail, k)
    ensures forall k :: i <= k < |trail| ==>
      (SegmentAt(trail, k) in Segments(trail, i) <==> DrawsSegment(trail, k))
  {
    if i < |trail| {
      SegmentsContent(trail, i + 1);
      forall k | i < k < |trail| && SegmentAt(trail, k) == SegmentAt(trail, i)
        ensures false
      {
        TrailOpacityIncreasing(i, k, |trail|);
      }
      if DrawsSegment(trail, i) {
        assert Segments(trail, i) == [SegmentAt(trail, i)] + Segments(trail, i + 1);
      }
    }
  }

  /** The segments are listed oldest first: their opacities strictly
      increase. */
  lemma {:induction false} SegmentsInOrder(trail: seq<TrailPoint>, i: nat)
    requires 1 <= i <= |trail|
    decreases |trail| - i
    ensures forall a, b :: 0 <= a < b < |Segments(trail, i)| ==>
      Segments(trail, i)[a].opacity < Segments(trail, i)[b].opacity
  {
    if i < |trail| && DrawsSegment(trail, i) {
      SegmentsInOrder(trail, i + 1);
      SegmentsContent(trail, i + 1);
      var rest := Segments(trail, i + 1);
      var gs := Segments(trail, i);
      assert gs == [SegmentAt(trail, i)] + rest;
      forall b | 1 <= b < |gs|
        ensures gs[0].opacity < gs[b].opacity
      {
        assert gs[b] == rest[b - 1] && gs[b] in rest;
        var k :| i + 1 <= k < |trail| && DrawsSegment(trail, k) && gs[b] == SegmentAt(trail, k);
        TrailOpacityIncreasing(i, k, |trail|);
      }
      forall a, b | 1 <= a < b < |gs|
        ensures gs[a].opacity < gs[b].opacity
      {
        assert gs[a] == rest[a - 1] && gs[b] == rest[b - 1];
      }
    } else if i < |trail| {
      SegmentsInOrder(trail, i + 1);
    }
  }

  /** Dots and segments are skipped together: past the first point, each
      drawn dot is the end of a drawn segment, at the same opacity. */
  lemma {:induction false} DotsEndSegments(trail: seq<TrailPoint>, i: nat)
    requires 1 <= i <= |trail|
    decreases |trail| - i
    ensures |Dots(trail, i)| == |Segments(trail, i)|
    ensures forall k :: 0 <= k < |Dots(trail, i)| ==>
      Dots(trail, i)[k].at == Segments(trail, i)[k].to &&
      Dots(trail, i)[k].opacity == Segments(trail, i)[k].opacity
  {
    if i < |trail| {
      DotsEndSegments(trail, i + 1);
      var dots, segs := Dots(trail, i + 1), Segments(trail, i + 1);
      if !SamePlace(trail[i], trail[i - 1]) {
        var o := TrailOpacity(i, |trail|);
        var d, g := [Dot(trail[i], o)] + dots, [Segment(trail[i - 1], trail[i], o)] + segs;
        assert Dots(trail, i) == d && Segments(trail, i) == g;
        forall k | 0 <= k < |d|
          ensures d[k].at == g[k].to && d[k].opacity == g[k].opacity
        {
          if k > 0 {
            assert d[k] == dots[k - 1] && g[k] == segs[k - 1];
          }
        }
      }
    }
  }

  /** A non-empty trail has one dot more than it has segments: the first. */
  lemma FirstDotAlone(trail: seq<TrailPoint>)
    requires |trail| >= 1
    ensures |Dots(trail, 0)| == |Segments(trail, 1)| + 1
    ensures Dots(trail, 0)[0].at == trail[0]
  {
    DotsEndSegments(trail, 1);
  }

  /** The whole trail layer is hidden over buttons and project areas. */
  function LayerOpacity(isHoveringButton: bool, isInProjectArea: bool): (o: real)
    ensures o == 0.0 <==> isHoveringButton || isInProjectArea
    ensures o != 0.0 ==> o == 1.0
  {
    if isHoveringButton || isInProjectArea then 0.0 else 1.0
  }

  /** `Math.max` of the five document measurements. */
  function DocumentHeight(a: real, b: real, c: real, d: real, e: real): (h: real)
    ensures h >= a && h >= b && h >= c && h >= d && h >= e
    ensures h == a || h == b || h == c || h == d || h == e
  {
    Max(Max(Max(Max(a, b), c), d), e)
  }

  function Max(a: real, b: real): (m: real)
    ensures m >= a && m >= b && (m == a || m == b)
  {
    if a >= b then a else b
  }

  // ---------------------------------------------------------------- state

  /** The radial menu's state: centre, visibility, gesture direction. */
  datatype MenuState = MenuState(x: real, y: real, isVisible: bool, activeDirection: Direction)

  const RightButton: int := 2

  class Effects {
    var trail: seq<TrailPoint>
    var mouseX: real
    var mouseY: real
    var isHoveringButton: bool
    var isInProjectArea: bool
    var documentHeight: real
    var menu: MenuState
    /** The trail effect's closure-local `currentMousePos`, recreated at
        (0, 0) whenever the effect re-runs. */
    var samplePos: (real, real)

    /** The trail never holds more than 32 points. */
    predicate Valid()
      reads this
    {
      |trail| <= TrailLength
    }

    constructor()
      ensures Valid() && trail == [] && samplePos == (0.0, 0.0)
      ensures menu == MenuState(0.0, 0.0, false, NoDirection)
      ensures !isHoveringButton && !isInProjectArea && documentHeight == 0.0
    {
      trail := [];
      mouseX, mouseY := 0.0, 0.0;
      isHoveringButton, isInProjectArea := false, false;
      documentHeight := 0.0;
      menu := MenuState(0.0, 0.0, false, NoDirection);
      samplePos := (0.0, 0.0);
    }

    /** The trail effect depends on the menu state and the project-area flag:
        when either changes it is torn down and set up again, with a fresh
        sample position at (0, 0). */
    method RestartTrailEffect()
      modifies this`samplePos
      ensures samplePos == (0.0, 0.0)
    {
      samplePos := (0.0, 0.0);
    }

    /** `updateDocumentHeight`, on mount and on every resize. */
    method UpdateDocumentHeight(a: real, b: real, c: real, d: real, e: real)
      modifies this`documentHeight
      ensures documentHeight == DocumentHeight(a, b, c, d, e)
    {
      documentHeight := DocumentHeight(a, b, c, d, e);
    }

    /** A right-button press opens the menu at the cursor with no direction;
        other buttons do nothing. A new menu state re-runs the trail effect. */
    method HandleMouseDown(button: int, clientX: real, clientY: real)
      requires Valid()
      modifies this`menu, this`samplePos
      ensures Valid()
      ensures button == RightButton ==>
        menu == MenuState(clientX, clientY, true, NoDirection) && samplePos == (0.0, 0.0)
      ensures button != RightButton ==> menu == old(menu) && samplePos == old(samplePos)
    {
      if button == RightButton {
        menu := MenuState(clientX, clientY, true, NoDirection);
        RestartTrailEffect();
      }
    }

    /** A right-button release hides the menu and keeps the rest of its state. */
    method HandleMouseUp(button: int)
      requires Valid()
      modifies this`menu, this`samplePos
      ensures Valid()
      ensures button == RightButton ==>
        menu == old(menu).(isVisible := false) && samplePos == (0.0, 0.0)
      ensures button != RightButton ==> menu == old(menu) && samplePos == old(samplePos)
    {
      if button == RightButton {
        menu := menu.(isVisible := false);
        RestartTrailEffect();
      }
    }

    /** The menu's `onClose`. */
    method Close()
      requires Valid()
      modifies this`menu, this`samplePos
      ensures Valid()
      ensures menu == old(menu).(isVisible := false) && samplePos == (0.0, 0.0)
    {
      menu := menu.(isVisible := false);
      RestartTrailEffect();
    }

    /** `handleMouseMove`: record the cursor, the element kinds under it,
        and, only while the menu is shown, the gesture direction from the
        menu centre (`d` is the distance to it). Any new menu state, or a
        change of the project-area flag, restarts the trail effect. */
    method HandleMouseMove(clientX: real, clientY: real, pageX: real, pageY: real,
                           overProjectArea: bool, overInteractive: bool, d: real)
      requires Valid()
      requires IsDistance(clientX - menu.x, clientY - menu.y, d)
      modifies this`mouseX, this`mouseY, this`samplePos, this`isInProjectArea,
               this`isHoveringButton, this`menu
      ensures Valid()
      ensures mouseX == clientX && mouseY == clientY
      ensures isInProjectArea == overProjectArea && isHoveringButton == overInteractive
      ensures old(menu).isVisible ==>
        menu == old(menu).(activeDirection := Classify(clientX - old(menu).x, clientY - old(menu).y, d))
      ensures !old(menu).isVisible ==> menu == old(menu)
      ensures samplePos == if old(menu).isVisible || overProjectArea != old(isInProjectArea)
                           then (0.0, 0.0) else (pageX, pageY)
    {
      mouseX, mouseY := clientX, clientY;
      samplePos := (pageX, pageY);
      var changed := overProjectArea != isInProjectArea;
      isInProjectArea := overProjectArea;
      isHoveringButton := overInteractive;
      if menu.isVisible {
        var dir := Classify(clientX - menu.x, clientY - menu.y, d);
        menu := menu.(activeDirection := dir);
        changed := true;
      }
      if changed {
        RestartTrailEffect();
      }
    }

    /** The trail interval: a sample is taken only at a position other than
        (0, 0) and outside project areas. */
    method TrailTick(now: int)
      requires Valid()
      modifies this`trail
      ensures Valid()
      ensures (samplePos.0 != 0.0 || samplePos.1 != 0.0) && !isInProjectArea ==>
        trail == AppendTrail(old(trail), TrailPoint(samplePos.0, samplePos.1, now))
      ensures !((samplePos.0 != 0.0 || samplePos.1 != 0.0) && !isInProjectArea) ==>
        trail == old(trail)
    {
      if (samplePos.0 != 0.0 || samplePos.1 != 0.0) && !isInProjectArea {
        trail := AppendTrail(trail, TrailPoint(samplePos.0, samplePos.1, now));
      }
    }
  }

  /** While the menu is open every cursor move restarts the trail effect, so
      the next tick samples (0, 0) and the trail does not grow. */
  method MenuFreezesTrail(e: Effects, clientX: real, clientY: real, pageX: real, pageY: real,
                          overProjectArea: bool, overInteractive: bool, d: real, now: int)
    requires e.Valid() && e.menu.isVisible
    requires IsDistance(clientX - e.menu.x, clientY - e.menu.y, d)
    modifies e
    ensures e.trail == old(e.trail)
  {
    e.HandleMouseMove(clientX, clientY, pageX, pageY, overProjectArea, overInteractive, d);
    e.TrailTick(now);
  }
}
