/** The canvas star field drawn behind every page when no physics engine is
    used: stars seeded at a density of one per 5000 square pixels, pushed away
    from the cursor, jittered, damped, bounced off the viewport edges and
    twinkled once per animation frame.

    Coordinates are exact reals. Every `Math.random()` draw is a parameter in
    [0, 1), and the cursor distance `Math.sqrt(dx*dx + dy*dy)` is a
    parameter `d >= 0` with `d*d == dx*dx + dy*dy`. */
module StarFieldFallback {
  import opened Wrappers
  import opened Motion

  datatype Star = Star(x: real, y: real, vx: real, vy: real,
                       opacity: real, size: real, originalOpacity: real)

  // ---------------------------------------------------------------- seeding

  const MinStars: int := 50
  const MaxStars: int := 200
  const AreaPerStar: real := 5000.0

  /** The seven draws a new star consumes, in the order they are made. */
  datatype SeedDraws = SeedDraws(x: real, y: real, size: real, vx: real, vy: real,
                                 opacity: real, originalOpacity: real)

  predicate ValidSeed(r: SeedDraws) {
    IsDraw(r.x) && IsDraw(r.y) && IsDraw(r.size) && IsDraw(r.vx) && IsDraw(r.vy)
    && IsDraw(r.opacity) && IsDraw(r.originalOpacity)
  }

  /** How many stars a `width` x `height` viewport gets: the density count,
      raised to 50 and capped at 200. */
  function StarCount(width: real, height: real): (n: int)
    ensures MinStars <= n <= MaxStars
    ensures MinStars < n < MaxStars ==> n == (width * height / AreaPerStar).Floor
    ensures n == MaxStars <==> (width * height / AreaPerStar).Floor >= MaxStars
    ensures n == MinStars <==> (width * height / AreaPerStar).Floor <= MinStars
  {
    var byArea := (width * height / AreaPerStar).Floor;
    if byArea > MaxStars then MaxStars
    else if byArea < MinStars then MinStars
    else byArea
  }

  /** One coordinate of a new star: at least 10 from both edges of an extent
      of 20 or more. */
  function SeedCoordinate(extent: real, r: real): (c: real)
    ensures IsDraw(r) && extent >= 20.0 ==> 10.0 <= c <= extent - 10.0
    ensures IsDraw(r) && extent > 20.0 ==> c < extent - 10.0
  {
    var span := extent - 20.0;
    ScaledDraw(r, span);
    r * span + 10.0
  }

  /** The star made from one set of draws. */
  function SeedStar(width: real, height: real, r: SeedDraws): (s: Star)
    ensures ValidSeed(r) ==> 0.5 <= s.size < 2.0
    ensures ValidSeed(r) ==> 0.4 <= s.opacity < 1.0 && 0.4 <= s.originalOpacity < 1.0
    ensures ValidSeed(r) ==> -0.05 <= s.vx < 0.05 && -0.05 <= s.vy < 0.05
    ensures ValidSeed(r) && width >= 20.0 ==> 10.0 <= s.x <= width - 10.0
    ensures ValidSeed(r) && height >= 20.0 ==> 10.0 <= s.y <= height - 10.0
  {
    Star(x := SeedCoordinate(width, r.x),
         y := SeedCoordinate(height, r.y),
         vx := (r.vx - 0.5) * 0.1,
         vy := (r.vy - 0.5) * 0.1,
         opacity := r.opacity * 0.6 + 0.4,
         size := r.size * 1.5 + 0.5,
         originalOpacity := r.originalOpacity * 0.6 + 0.4)
  }

  // ---------------------------------------------------------------- one frame

  const PushRadius: real := 60.0
  const PushStrength: real := 0.02
  const JitterScale: real := 0.002
  const Damping: real := 0.98
  const Restitution: real := 0.8

  /** The three draws one star consumes in a frame. */
  datatype StepDraws = StepDraws(jitterX: real, jitterY: real, twinkle: real)

  predicate ValidStep(r: StepDraws) {
    IsDraw(r.jitterX) && IsDraw(r.jitterY) && IsDraw(r.twinkle)
  }

  /** The cursor pushes a star only from a distance strictly between 0.1 and 60. */
  predicate Pushes(d: real) {
    0.1 < d < PushRadius
  }

  /** The size of the push at distance `d`: 0.02 at the cursor, falling
      linearly to 0 at the push radius. */
  function PushForce(d: real): (f: real)
    ensures Pushes(d) ==> 0.0 < f < PushStrength
  {
    (PushRadius - d) / PushRadius * PushStrength
  }

  /** The push weakens as the star gets farther away. */
  lemma PushForceDecreasing(d1: real, d2: real)
    requires d1 <= d2
    ensures PushForce(d2) <= PushForce(d1)
  {
  }

  /** The velocity change a push makes is shorter than 0.02, exactly as long
      as the force, and points away from the cursor. */
  lemma PushGeometry(dx: real, dy: real, d: real)
    requires Pushes(d) && IsDistance(dx, dy, d)
    ensures var v := AwayFromCursor(dx, dy, d, PushForce(d));
      && v.0 * v.0 + v.1 * v.1 == PushForce(d) * PushForce(d)
      && v.0 * v.0 + v.1 * v.1 < PushStrength * PushStrength
      && v.0 * dx + v.1 * dy > 0.0
  {
    var f := PushForce(d);
    AwayFromCursorGeometry(dx, dy, d, f);
    assert f * f < PushStrength * PushStrength;
  }

  /** The random velocity nudge of one axis: less than 0.001 either way. */
  function Jitter(r: real): (j: real)
    ensures IsDraw(r) ==> -0.001 <= j < 0.001
  {
    (r - 0.5) * JitterScale
  }

  /** The velocity change the cursor gives a star at distance `d`: none
      outside the push band, and inside it a change as long as the push force
      pointing away from the cursor. */
  function CursorPush(s: Star, mouseX: real, mouseY: real, d: real): (v: (real, real))
    ensures !Pushes(d) ==> v == (0.0, 0.0)
    ensures Pushes(d) && IsDistance(s.x - mouseX, s.y - mouseY, d) ==>
      && v.0 * v.0 + v.1 * v.1 == PushForce(d) * PushForce(d)
      && v.0 * (s.x - mouseX) + v.1 * (s.y - mouseY) > 0.0
  {
    if Pushes(d) then
      var dx, dy := s.x - mouseX, s.y - mouseY;
      assert IsDistance(dx, dy, d) ==>
        var v := AwayFromCursor(dx, dy, d, PushForce(d));
        v.0 * v.0 + v.1 * v.1 == PushForce(d) * PushForce(d) && v.0 * dx + v.1 * dy > 0.0
      by {
        if IsDistance(dx, dy, d) {
          PushGeometry(dx, dy, d);
        }
      }
      AwayFromCursor(dx, dy, d, PushForce(d))
    else (0.0, 0.0)
  }

  /** Velocity after the push, the nudge and damping, before the move. */
  function Accelerate(s: Star, mouseX: real, mouseY: real, d: real, r: StepDraws): (a: Star)
    ensures a == s.(vx := a.vx, vy := a.vy)
    ensures ValidStep(r) && !Pushes(d) ==>
      && s.vx * Damping - 0.00098 <= a.vx < s.vx * Damping + 0.00098
      && s.vy * Damping - 0.00098 <= a.vy < s.vy * Damping + 0.00098
  {
    var push := CursorPush(s, mouseX, mouseY, d);
    s.(vx := (s.vx + push.0 + Jitter(r.jitterX)) * Damping,
       vy := (s.vy + push.1 + Jitter(r.jitterY)) * Damping)
  }

  /** Hitting or passing a wall at 0 or `limit` reverses the velocity on that
      axis with 0.8 of its speed and puts the star back on the wall; away from
      the walls nothing changes. The clamp caps at `limit` first and then
      raises to 0, so the coordinate is never negative, even for a negative
      `limit`. */
  function Bounce(p: real, v: real, limit: real): (pv: (real, real))
    ensures 0.0 <= pv.0
    ensures limit >= 0.0 ==> pv.0 <= limit
    ensures limit < 0.0 ==> pv.0 == 0.0
    ensures (p <= 0.0 || p >= limit) ==> pv.1 == -Restitution * v
    ensures (p <= 0.0 || p >= limit) && 0.0 <= p <= limit ==> pv.0 == p
    ensures 0.0 < p < limit ==> pv == (p, v)
  {
    if p <= 0.0 || p >= limit then
      var capped := if p > limit then limit else p;
      (if capped < 0.0 then 0.0 else capped, v * -Restitution)
    else (p, v)
  }

  /** A star that a frame has left inside the viewport and inside the
      twinkle range. */
  predicate Settled(s: Star, width: real, height: real) {
    0.0 <= s.x <= width && 0.0 <= s.y <= height
    && MinOpacity <= s.opacity <= MaxOpacity
  }

  /** One frame of one star: push, nudge, damp, move, bounce, twinkle. */
  function Step(s: Star, mouseX: real, mouseY: real, width: real, height: real,
                d: real, r: StepDraws): (t: Star)
    ensures t.size == s.size && t.originalOpacity == s.originalOpacity
    ensures MinOpacity <= t.opacity <= MaxOpacity
    ensures width >= 0.0 ==> 0.0 <= t.x <= width
    ensures height >= 0.0 ==> 0.0 <= t.y <= height
    ensures width >= 0.0 && height >= 0.0 ==> Settled(t, width, height)
  {
    var a := Accelerate(s, mouseX, mouseY, d, r);
    var bX := Bounce(a.x + a.vx, a.vx, width);
    var bY := Bounce(a.y + a.vy, a.vy, height);
    a.(x := bX.0, vx := bX.1, y := bY.0, vy := bY.1,
       opacity := Twinkle(s.opacity, r.twinkle))
  }

  /** A star whose damped velocity keeps it off the walls moves by exactly
      that velocity: the push and the nudge are added first, then the sum is
      damped, then the star moves. */
  lemma StepAwayFromWalls(s: Star, mouseX: real, mouseY: real, width: real, height: real,
                          d: real, r: StepDraws)
    requires var push := CursorPush(s, mouseX, mouseY, d);
      && 0.0 < s.x + (s.vx + push.0 + Jitter(r.jitterX)) * Damping < width
      && 0.0 < s.y + (s.vy + push.1 + Jitter(r.jitterY)) * Damping < height
    ensures var t := Step(s, mouseX, mouseY, width, height, d, r);
      var push := CursorPush(s, mouseX, mouseY, d);
      && t.vx == (s.vx + push.0 + Jitter(r.jitterX)) * Damping
      && t.vy == (s.vy + push.1 + Jitter(r.jitterY)) * Damping
      && t.x == s.x + t.vx && t.y == s.y + t.vy
  {
    var a := Accelerate(s, mouseX, mouseY, d, r);
    var push := CursorPush(s, mouseX, mouseY, d);
    assert a.vx == (s.vx + push.0 + Jitter(r.jitterX)) * Damping;
    assert a.vy == (s.vy + push.1 + Jitter(r.jitterY)) * Damping;
  }

  // ---------------------------------------------------------------- drawing

  /** What one star contributes to a frame: position, clamped alpha, glow and
      base radius (the time-based size pulse is not modelled). */
  datatype Sprite = Sprite(x: real, y: real, alpha: real, glow: real, size: real)

  /** Stars more than 10 pixels outside the viewport are not drawn; every
      star inside the viewport is near it. */
  predicate NearViewport(s: Star, width: real, height: real)
    ensures 0.0 <= s.x <= width && 0.0 <= s.y <= height ==> NearViewport(s, width, height)
  {
    !(s.x < -10.0 || s.x > width + 10.0 || s.y < -10.0 || s.y > height + 10.0)
  }

  /** The opacity a star is drawn with: 0.2 for every star while `starLess`
      is set, its own opacity otherwise; it is positive exactly when the
      field is star-less or the star's own opacity is positive. */
  function TargetOpacity(s: Star, starLess: bool): (o: real)
    ensures o > 0.0 <==> starLess || s.opacity > 0.0
    ensures 0.0 <= s.opacity <= 1.0 ==> 0.0 <= o <= 1.0
  {
    if starLess then 0.2 else s.opacity
  }

  /** The canvas alpha: the target opacity held inside [0.1, 1]. */
  function Alpha(target: real): (a: real)
    ensures 0.1 <= a <= 1.0
    ensures 0.1 <= target <= 1.0 ==> a == target
  {
    if target > 1.0 then 1.0 else if target < 0.1 then 0.1 else target
  }

  /** The shadow blur: three times the opacity, never below 1. */
  function Glow(opacity: real): (g: real)
    ensures g >= 1.0 && g >= opacity * 3.0
    ensures opacity * 3.0 >= 1.0 ==> g == opacity * 3.0
  {
    if opacity * 3.0 > 1.0 then opacity * 3.0 else 1.0
  }

  /** Whether a frame draws star `s`: near the viewport, with a positive
      target opacity. */
  predicate Drawn(s: Star, width: real, height: real, starLess: bool) {
    NearViewport(s, width, height) && TargetOpacity(s, starLess) > 0.0
  }

  /** What a drawn star looks like: at its place, with its clamped target
      opacity, its own glow and its base size. */
  function SpriteOf(s: Star, starLess: bool): Sprite {
    Sprite(s.x, s.y, Alpha(TargetOpacity(s, starLess)), Glow(s.opacity), s.size)
  }

  /** The stars a frame draws, in array order: those near the viewport whose
      target opacity is positive. */
  function DrawList(stars: seq<Star>, width: real, height: real, starLess: bool)
    : (sprites: seq<Sprite>)
    ensures |sprites| <= |stars|
    ensures forall k :: 0 <= k < |sprites| ==>
              0.1 <= sprites[k].alpha <= 1.0 && sprites[k].glow >= 1.0
  {
    if stars == [] then []
    else
      var rest := DrawList(stars[1..], width, height, starLess);
      if Drawn(stars[0], width, height, starLess) then [SpriteOf(stars[0], starLess)] + rest
      else rest
  }

  /** The draw list is a filter over the star array: the stars of `a ++ b`
      are drawn as those of `a` followed by those of `b`, and a single star
      contributes its sprite exactly when it is `Drawn`. */
  lemma {:induction false} DrawListFilters(a: seq<Star>, b: seq<Star>, width: real, height: real,
                                           starLess: bool)
    ensures DrawList(a + b, width, height, starLess)
            == DrawList(a, width, height, starLess) + DrawList(b, width, height, starLess)
    ensures |a| == 1 ==>
      DrawList(a, width, height, starLess)
      == if Drawn(a[0], width, height, starLess) then [SpriteOf(a[0], starLess)] else []
  {
    if a == [] {
      assert a + b == b;
    } else {
      assert (a + b)[0] == a[0];
      assert (a + b)[1..] == a[1..] + b;
      DrawListFilters(a[1..], b, width, height, starLess);
      if |a| == 1 {
        assert DrawList(a[1..], width, height, starLess) == [];
      }
    }
  }

  /** After a frame every star is drawn, each with exactly its target
      opacity: the alpha clamp and the culling never bite on settled stars. */
  lemma {:induction false} SettledAllDrawn(stars: seq<Star>, width: real, height: real,
                                           starLess: bool)
    requires forall k :: 0 <= k < |stars| ==> Settled(stars[k], width, height)
    ensures var sprites := DrawList(stars, width, height, starLess);
      && |sprites| == |stars|
      && forall k :: 0 <= k < |stars| ==>
           sprites[k].alpha == TargetOpacity(stars[k], starLess)
           && sprites[k].x == stars[k].x && sprites[k].y == stars[k].y
  {
    if stars != [] {
      SettledAllDrawn(stars[1..], width, height, starLess);
      var sprites := DrawList(stars, width, height, starLess);
      var rest := DrawList(stars[1..], width, height, starLess);
      assert sprites[1..] == rest;
      forall k | 1 <= k < |stars|
        ensures sprites[k].alpha == TargetOpacity(stars[k], starLess)
      {
        assert sprites[k] == rest[k - 1] && stars[k] == stars[1..][k - 1];
      }
    }
  }

  // ---------------------------------------------------------------- component

  /** The component's refs: the star array, the cursor, the viewport, the
      drawing context, the pending animation frame, the initialized flag,
      whether the window listeners are attached and whether the canvas element
      is mounted. */
  /** The canvas's CSS opacity: dimmed to 0.3 while `starLess`, full otherwise. */
  function CanvasOpacity(starLess: bool): (o: real)
    ensures 0.0 < o <= 1.0
    ensures o < 1.0 <==> starLess
  {
    if starLess then 0.3 else 1.0
  }

  /** While `starLess`, every star drawn is drawn at alpha 0.2. */
  lemma {:induction false} StarLessDims(stars: seq<Star>, width: real, height: real)
    ensures var sprites := DrawList(stars, width, height, true);
      forall k :: 0 <= k < |sprites| ==> sprites[k].alpha == 0.2
  {
    if stars != [] {
      StarLessDims(stars[1..], width, height);
      DrawListFilters([stars[0]], stars[1..], width, height, true);
      assert [stars[0]] + stars[1..] == stars;
    }
  }

  class FallbackField {
    var stars: array<Star>
    var mouseX: real
    var mouseY: real
    var width: real
    var height: real
    var hasContext: bool
    var animation: Option<Handle>
    var initialized: bool
    var listening: bool
    /** The `starLess` held by the `render` closure the animation loop calls:
        that of the first render, since the mount effect never re-runs. */
    var drawFlag: bool
    /** The canvas's CSS opacity, from the latest render. */
    var canvasOpacity: real
    const hasCanvas: bool

    /** A frame is pending only while the field is initialized, and the
        window listeners are attached exactly while it is. */
    predicate Valid()
      reads this
    {
      (animation.Some? ==> initialized) && listening == initialized
    }

    constructor(hasCanvas: bool, starLess: bool)
      ensures Valid() && this.hasCanvas == hasCanvas
      ensures stars.Length == 0 && !initialized && animation.None? && !hasContext
      ensures mouseX == 0.0 && mouseY == 0.0 && width == 0.0 && height == 0.0
      ensures drawFlag == starLess && canvasOpacity == CanvasOpacity(starLess)
    {
      stars := new Star[0];
      mouseX, mouseY := 0.0, 0.0;
      width, height := 0.0, 0.0;
      hasContext := false;
      animation := None;
      initialized := false;
      listening := false;
      drawFlag := starLess;
      canvasOpacity := CanvasOpacity(starLess);
      this.hasCanvas := hasCanvas;
    }

    /** A later render with a new `starLess` prop, as written: it restyles
        the canvas, but the running loop keeps its render closure, so the
        flag the stars are drawn with stays as it was. */
    method Rerender(starLess: bool)
      modifies this`canvasOpacity
      ensures canvasOpacity == CanvasOpacity(starLess)
    {
      canvasOpacity := CanvasOpacity(starLess);
    }

    /** A later render, corrected: the loop reads the current prop (through
        a ref every render updates), so the stars follow it as the canvas
        style does. */
    method RerenderSynced(starLess: bool)
      modifies this`canvasOpacity, this`drawFlag
      ensures canvasOpacity == CanvasOpacity(starLess) && drawFlag == starLess
    {
      canvasOpacity := CanvasOpacity(starLess);
      drawFlag := starLess;
    }

    /** `initStars`: a non-positive extent leaves the stars alone; otherwise a
        new array of `StarCount` stars, star `i` built from draw set `i`. */
    method InitStars(w: real, h: real, draws: seq<SeedDraws>)
      requires |draws| >= MaxStars
      modifies this`stars
      ensures w <= 0.0 || h <= 0.0 ==> stars == old(stars)
      ensures w > 0.0 && h > 0.0 ==>
        && fresh(stars) && stars.Length == StarCount(w, h)
        && forall i :: 0 <= i < stars.Length ==> stars[i] == SeedStar(w, h, draws[i])
    {
      if w <= 0.0 || h <= 0.0 {
        return;
      }
      var n := StarCount(w, h);
      var seeded := new Star[n];
      var i := 0;
      while i < n
        invariant 0 <= i <= n
        invariant forall k :: 0 <= k < i ==> seeded[k] == SeedStar(w, h, draws[k])
      {
        seeded[i] := SeedStar(w, h, draws[i]);
        i := i + 1;
      }
      stars := seeded;
    }

    /** `updateStars`: with a zero extent nothing moves; otherwise every star
        takes one `Step` in place, so the count and every size are kept and
        every star ends up settled inside the viewport. */
    method UpdateStars(dist: seq<real>, draws: seq<StepDraws>)
      requires |dist| == stars.Length && |draws| == stars.Length
      requires forall i :: 0 <= i < stars.Length ==>
                 IsDistance(stars[i].x - mouseX, stars[i].y - mouseY, dist[i])
      modifies stars
      ensures width == 0.0 || height == 0.0 ==> stars[..] == old(stars[..])
      ensures width != 0.0 && height != 0.0 ==>
        forall i :: 0 <= i < stars.Length ==>
          stars[i] == Step(old(stars[i]), mouseX, mouseY, width, height, dist[i], draws[i])
      ensures forall i :: 0 <= i < stars.Length ==> stars[i].size == old(stars[i].size)
      ensures width > 0.0 && height > 0.0 ==>
        forall i :: 0 <= i < stars.Length ==> Settled(stars[i], width, height)
    {
      if width == 0.0 || height == 0.0 {
        return;
      }
      var i := 0;
      while i < stars.Length
        invariant 0 <= i <= stars.Length
        invariant forall k :: 0 <= k < i ==>
          stars[k] == Step(old(stars[k]), mouseX, mouseY, width, height, dist[k], draws[k])
        invariant forall k :: i <= k < stars.Length ==> stars[k] == old(stars[k])
      {
        stars[i] := Step(stars[i], mouseX, mouseY, width, height, dist[i], draws[i]);
        i := i + 1;
      }
    }

    /** `render`: nothing is drawn without a canvas, a context or a non-zero
        extent; otherwise the frame is the draw list of the current stars. */
    function Render(starLess: bool): (frame: Option<seq<Sprite>>)
      reads this, stars
      ensures frame.Some? <==> hasCanvas && hasContext && width != 0.0 && height != 0.0
      ensures frame.Some? ==> |frame.value| <= stars.Length
    {
      if !hasCanvas || !hasContext || width == 0.0 || height == 0.0 then None
      else Some(DrawList(stars[..], width, height, starLess))
    }

    /** `handleMouseMove`: the cursor in canvas coordinates. */
    method HandleMouseMove(clientX: real, clientY: real, rectLeft: real, rectTop: real)
      modifies this`mouseX, this`mouseY
      ensures hasCanvas ==> mouseX == clientX - rectLeft && mouseY == clientY - rectTop
      ensures !hasCanvas ==> mouseX == old(mouseX) && mouseY == old(mouseY)
    {
      if !hasCanvas {
        return;
      }
      mouseX, mouseY := clientX - rectLeft, clientY - rectTop;
    }

    /** `handleResize`: record the context if one is available, take the new
        viewport and re-seed the stars for it. */
    method HandleResize(w: real, h: real, contextAvailable: bool, draws: seq<SeedDraws>)
      requires Valid() && |draws| >= MaxStars
      modifies this`stars, this`hasContext, this`width, this`height
      ensures Valid()
      ensures !hasCanvas ==> stars == old(stars) && hasContext == old(hasContext)
                             && width == old(width) && height == old(height)
      ensures hasCanvas ==> width == w && height == h
                            && hasContext == (old(hasContext) || contextAvailable)
      ensures hasCanvas && w > 0.0 && h > 0.0 ==>
        && fresh(stars) && stars.Length == StarCount(w, h)
        && forall i :: 0 <= i < stars.Length ==> stars[i] == SeedStar(w, h, draws[i])
      ensures hasCanvas && (w <= 0.0 || h <= 0.0) ==> stars == old(stars)
    {
      if !hasCanvas {
        return;
      }
      if contextAvailable {
        hasContext := true;
      }
      width, height := w, h;
      InitStars(w, h, draws);
    }

    /** The mount effect: without a canvas, or when already initialized, it
        does nothing and registers no cleanup; otherwise it sizes and seeds
        the field, marks it initialized and attaches the listeners. */
    method Mount(w: real, h: real, contextAvailable: bool, draws: seq<SeedDraws>)
      returns (registered: bool)
      requires Valid() && |draws| >= MaxStars
      modifies this
      ensures Valid()
      ensures registered <==> hasCanvas && !old(initialized)
      ensures !registered ==> unchanged(this)
      ensures registered ==> initialized && listening && animation == old(animation)
                             && width == w && height == h
      ensures registered && w > 0.0 && h > 0.0 ==>
        fresh(stars) && stars.Length == StarCount(w, h)
    {
      if !hasCanvas || initialized {
        return false;
      }
      HandleResize(w, h, contextAvailable, draws);
      initialized := true;
      listening := true;
      registered := true;
    }

    /** The 100 ms timer set at mount: it requests the first frame only if
        the field is still initialized and no frame is pending. */
    method FirstFrameTimer(frame: Handle)
      requires Valid()
      modifies this`animation
      ensures Valid()
      ensures initialized && old(animation).None? ==> animation == Some(frame)
      ensures !(initialized && old(animation).None?) ==> animation == old(animation)
    {
      if initialized && animation.None? {
        animation := Some(frame);
      }
    }

    /** `animate`: an uninitialized field does nothing; otherwise one update,
        one render with the loop's own flag and a request for the next frame. */
    method Animate(dist: seq<real>, draws: seq<StepDraws>, next: Handle)
      returns (drawn: Option<seq<Sprite>>)
      requires Valid()
      requires |dist| == stars.Length && |draws| == stars.Length
      requires forall i :: 0 <= i < stars.Length ==>
                 IsDistance(stars[i].x - mouseX, stars[i].y - mouseY, dist[i])
      modifies this`animation, stars
      ensures Valid()
      ensures !initialized ==> drawn.None? && animation == old(animation)
                               && stars[..] == old(stars[..])
      ensures initialized ==> animation == Some(next) && drawn == Render(drawFlag)
      ensures initialized && width > 0.0 && height > 0.0 ==>
        forall i :: 0 <= i < stars.Length ==> Settled(stars[i], width, height)
      ensures initialized && drawn.Some? && width > 0.0 && height > 0.0 ==>
        |drawn.value| == stars.Length
    {
      if !initialized {
        return None;
      }
      UpdateStars(dist, draws);
      drawn := Render(drawFlag);
      if drawn.Some? && width > 0.0 && height > 0.0 {
        SettledAllDrawn(stars[..], width, height, drawFlag);
      }
      animation := Some(next);
    }

    /** The effect's cleanup: detach the listeners, cancel and forget the
        pending frame (returned as the one cancelled), drop the stars and the
        context, and clear the initialized flag. */
    method Cleanup() returns (cancelled: Option<Handle>)
      requires Valid()
      modifies this`stars, this`hasContext, this`animation, this`initialized, this`listening
      ensures Valid()
      ensures cancelled == old(animation)
      ensures animation.None? && !initialized && !listening && !hasContext
      ensures fresh(stars) && stars.Length == 0
    {
      listening := false;
      cancelled := animation;
      if animation.Some? {
        animation := None;
      }
      stars := new Star[0];
      hasContext := false;
      initialized := false;
    }
  }

  /** A mounted field that is cleaned up and later receives its first-frame
      timer or an animation callback stays idle: neither can restart it. */
  method CleanupStops(field: FallbackField, frame: Handle)
    requires field.Valid()
    modifies field
    ensures field.Valid() && !field.initialized && field.animation.None?
  {
    var _ := field.Cleanup();
    field.FirstFrameTimer(frame);
    var _ := field.Animate([], [], frame);
  }

  /** As written: mounted with `starLess` false, a field whose prop then
      becomes true dims its canvas, yet draws its stars exactly as before;
      star 0 keeps its own opacity as alpha rather than 0.2. */
  method StaleStarLess(field: FallbackField, dist: seq<real>, draws: seq<StepDraws>,
                       next: Handle)
    returns (drawn: Option<seq<Sprite>>)
    requires field.Valid() && field.initialized && !field.drawFlag
    requires |dist| == field.stars.Length && |draws| == field.stars.Length
    requires forall i :: 0 <= i < field.stars.Length ==>
               IsDistance(field.stars[i].x - field.mouseX, field.stars[i].y - field.mouseY, dist[i])
    modifies field, field.stars
    ensures field.canvasOpacity == CanvasOpacity(true)
    ensures drawn == field.Render(false)
    ensures drawn.Some? && field.width > 0.0 && field.height > 0.0 && field.stars.Length > 0 ==>
      && |drawn.value| > 0
      && drawn.value[0].alpha == field.stars[0].opacity
      && (field.stars[0].opacity != 0.2 ==>
            drawn.value != DrawList(field.stars[..], field.width, field.height, true))
  {
    field.Rerender(true);
    drawn := field.Animate(dist, draws, next);
    if drawn.Some? && field.width > 0.0 && field.height > 0.0 && field.stars.Length > 0 {
      SettledAllDrawn(field.stars[..], field.width, field.height, true);
    }
  }

  /** Corrected: after a render with prop `starLess` the next frame is drawn
      with that prop, and while it is true every star is drawn at 0.2. */
  method FollowsStarLess(field: FallbackField, starLess: bool, dist: seq<real>,
                         draws: seq<StepDraws>, next: Handle)
    returns (drawn: Option<seq<Sprite>>)
    requires field.Valid()
    requires |dist| == field.stars.Length && |draws| == field.stars.Length
    requires forall i :: 0 <= i < field.stars.Length ==>
               IsDistance(field.stars[i].x - field.mouseX, field.stars[i].y - field.mouseY, dist[i])
    modifies field, field.stars
    ensures field.canvasOpacity == CanvasOpacity(starLess)
    ensures field.initialized ==> drawn == field.Render(starLess)
    ensures starLess && drawn.Some? ==> forall k :: 0 <= k < |drawn.value| ==> drawn.value[k].alpha == 0.2
  {
    field.RerenderSynced(starLess);
    drawn := field.Animate(dist, draws, next);
    if starLess && drawn.Some? {
      assert drawn.value == DrawList(field.stars[..], field.width, field.height, true);
      StarLessDims(field.stars[..], field.width, field.height);
    }
  }
}
