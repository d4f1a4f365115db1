/** The physics-engine star field: stars are engine bodies inside four static
    walls, the component hands the engine a repulsion force and a random
    force per star each frame, twinkles the stars itself, and re-creates the
    whole engine on every resize.

    The engine's own integration, collisions, air friction and restitution
    are not modelled: a frame here ends with the forces handed to the engine. */
module StarField {
  import opened Wrappers
  import opened Motion

  // ---------------------------------------------------------------- seeding

  const MaxStars: int := 200
  const AreaPerStar: real := 5000.0
  const WallThickness: real := 50.0

  /** An axis-aligned rectangle body given by its centre and extent. */
  datatype Rect = Rect(cx: real, cy: real, w: real, h: real) {
    function Left(): real { cx - w / 2.0 }
    function Right(): real { cx + w / 2.0 }
    function Top(): real { cy - h / 2.0 }
    function Bottom(): real { cy + h / 2.0 }
  }

  /** The four static walls: top, bottom, left, right. */
  function Walls(width: real, height: real): (walls: seq<Rect>)
    ensures |walls| == 4
  {
    [Rect(width / 2.0, -25.0, width, WallThickness),
     Rect(width / 2.0, height + 25.0, width, WallThickness),
     Rect(-25.0, height / 2.0, WallThickness, height),
     Rect(width + 25.0, height / 2.0, WallThickness, height)]
  }

  /** Each wall is 50 thick, lies just outside the viewport with its inner
      face exactly on one edge, and spans that whole edge. */
  lemma WallsEnclose(width: real, height: real)
    ensures var walls := Walls(width, height);
      && walls[0].Bottom() == 0.0 && walls[0].Top() == -WallThickness
      && walls[0].Left() == 0.0 && walls[0].Right() == width
      && walls[1].Top() == height && walls[1].Bottom() == height + WallThickness
      && walls[1].Left() == 0.0 && walls[1].Right() == width
      && walls[2].Right() == 0.0 && walls[2].Left() == -WallThickness
      && walls[2].Top() == 0.0 && walls[2].Bottom() == height
      && walls[3].Left() == width && walls[3].Right() == width + WallThickness
      && walls[3].Top() == 0.0 && walls[3].Bottom() == height
  {
  }

  /** The loop bound for seeding: the density count capped at 200, with no
      lower floor. */
  function StarCount(width: real, height: real): (n: int)
    ensures n <= MaxStars
    ensures n == MaxStars <==> (width * height / AreaPerStar).Floor >= MaxStars
    ensures n < MaxStars ==> n == (width * height / AreaPerStar).Floor
  {
    var byArea := (width * height / AreaPerStar).Floor;
    if byArea < MaxStars then byArea else MaxStars
  }

  /** How many stars seeding creates: the loop runs zero times for a
      non-positive count. */
  function SeededCount(width: real, height: real): (n: nat)
    ensures n <= MaxStars
    ensures n == if StarCount(width, height) < 0 then 0 else StarCount(width, height)
  {
    var c := StarCount(width, height);
    if c < 0 then 0 else c
  }

  /** Viewports under 5000 square pixels get no stars at all, and under
      250000 square pixels fewer than 50: there is no minimum. */
  lemma SmallViewports(width: real, height: real)
    requires width >= 0.0 && height >= 0.0
    ensures width * height < AreaPerStar ==> SeededCount(width, height) == 0
    ensures width * height < 50.0 * AreaPerStar ==> SeededCount(width, height) < 50
  {
  }

  datatype Star = Star(x: real, y: real, size: real, opacity: real, originalOpacity: real)

  /** The five draws one star consumes, in the order they are made. */
  datatype SeedDraws = SeedDraws(x: real, y: real, size: real, opacity: real,
                                 originalOpacity: real)

  predicate ValidSeed(r: SeedDraws) {
    IsDraw(r.x) && IsDraw(r.y) && IsDraw(r.size) && IsDraw(r.opacity)
    && IsDraw(r.originalOpacity)
  }

  /** The opacity a star is created with: anywhere in [0.2, 1.0). */
  function SeedOpacity(r: real): (o: real)
    ensures IsDraw(r) ==> MinOpacity <= o < 1.0
  {
    r * 0.8 + 0.2
  }

  /** A new star can start brighter than any twinkle leaves it; its first
      frame pulls it back into [0.2, 0.8]. */
  lemma SeedOpacityAboveTwinkleRange()
    ensures SeedOpacity(0.9) > MaxOpacity
    ensures forall r :: IsDraw(r) ==> Twinkle(SeedOpacity(0.9), r) <= MaxOpacity
  {
  }

  /** The star made from one set of draws: anywhere in the viewport. */
  function SeedStar(width: real, height: real, r: SeedDraws): (s: Star)
    ensures ValidSeed(r) && width > 0.0 ==> 0.0 <= s.x < width
    ensures ValidSeed(r) && height > 0.0 ==> 0.0 <= s.y < height
    ensures ValidSeed(r) ==> 0.5 <= s.size < 2.0
    ensures ValidSeed(r) ==> MinOpacity <= s.opacity < 1.0
                             && MinOpacity <= s.originalOpacity < 1.0
  {
    ScaledDraw(r.x, width);
    ScaledDraw(r.y, height);
    Star(r.x * width, r.y * height, r.size * 1.5 + 0.5,
         SeedOpacity(r.opacity), SeedOpacity(r.originalOpacity))
  }

  // ---------------------------------------------------------------- forces

  const PushRadius: real := 40.0
  const PushPeak: real := 0.00008
  const RandomForce: real := 0.000015

  /** The cursor pushes a star only from a distance strictly between 0 and 40. */
  predicate Pushes(d: real) {
    0.0 < d < PushRadius
  }

  /** How close the star is to the cursor, as a fraction of the push
      radius: 1 at the cursor, 0 at the rim (`1 - distance / pushRadius`). */
  function Closeness(d: real): (c: real)
    ensures Pushes(d) <==> 0.0 < c < 1.0
  {
    1.0 - d / PushRadius
  }

  /** The quadratic falloff `0.00008 * c * c` of the push for closeness `c`. */
  function Falloff(c: real): real {
    PushPeak * c * c
  }

  /** Strictly inside the radius the falloff is positive and below its peak. */
  lemma FalloffBounds(c: real)
    requires 0.0 < c < 1.0
    ensures 0.0 < Falloff(c) < PushPeak
  {
    assert c * c < c by { assert c * (1.0 - c) > 0.0; }
    assert Falloff(c) / c == PushPeak * c;
  }

  /** The closer the star, the stronger the push. */
  lemma FalloffMonotone(c1: real, c2: real)
    requires 0.0 <= c1 <= c2
    ensures Falloff(c1) <= Falloff(c2)
  {
    assert c1 * c1 <= c1 * c2 <= c2 * c2;
  }

  /** Squaring a fraction only shrinks it: the falloff is never above the
      linear one. */
  lemma FalloffBelowLinear(c: real)
    requires 0.0 <= c <= 1.0
    ensures Falloff(c) <= PushPeak * c
  {
    assert c * c <= c by { assert c * (1.0 - c) >= 0.0; }
  }

  /** The push strength at distance `d`. */
  function PushMagnitude(d: real): real {
    Falloff(Closeness(d))
  }

  /** Inside the radius the push is positive and below 0.00008. */
  lemma PushMagnitudeRange(d: real)
    requires Pushes(d)
    ensures 0.0 < PushMagnitude(d) < PushPeak
  {
    FalloffBounds(Closeness(d));
  }

  /** The push never grows with distance inside the radius. */
  lemma PushMagnitudeDecreasing(d1: real, d2: real)
    requires 0.0 <= d1 <= d2 <= PushRadius
    ensures PushMagnitude(d2) <= PushMagnitude(d1)
  {
    FalloffMonotone(Closeness(d2), Closeness(d1));
  }

  /** The push fades out: it is at most linear in the distance left to the
      radius, and zero at the radius itself. */
  lemma PushMagnitudeFades(d: real)
    requires 0.0 <= d <= PushRadius
    ensures PushMagnitude(d) <= PushPeak * (1.0 - d / PushRadius)
    ensures PushMagnitude(PushRadius) == 0.0
  {
    FalloffBelowLinear(Closeness(d));
  }

  /** The force handed to the engine for the push: exactly as long as the
      magnitude and pointing away from the cursor. */
  lemma PushForceGeometry(dx: real, dy: real, d: real)
    requires Pushes(d) && IsDistance(dx, dy, d)
    ensures var v := AwayFromCursor(dx, dy, d, PushMagnitude(d));
      && v.0 * v.0 + v.1 * v.1 == PushMagnitude(d) * PushMagnitude(d)
      && v.0 * dx + v.1 * dy > 0.0
  {
    PushMagnitudeRange(d);
    AwayFromCursorGeometry(dx, dy, d, PushMagnitude(d));
  }

  /** The random force on one axis: within 0.0000075 either way. */
  function RandomPush(r: real): (f: real)
    ensures IsDraw(r) ==> -RandomForce / 2.0 <= f < RandomForce / 2.0
  {
    (r - 0.5) * RandomForce
  }

  /** The three draws one star consumes in a frame. */
  datatype StepDraws = StepDraws(forceX: real, forceY: real, twinkle: real)

  /** Everything the component hands the engine for one star in one frame:
      the push when it applies, then the random force. */
  function Forces(s: Star, mouseX: real, mouseY: real, d: real, r: StepDraws)
    : (applied: seq<(real, real)>)
    ensures Pushes(d) ==> |applied| == 2
    ensures !Pushes(d) ==> |applied| == 1
    ensures applied[|applied| - 1] == (RandomPush(r.forceX), RandomPush(r.forceY))
  {
    var random := (RandomPush(r.forceX), RandomPush(r.forceY));
    if Pushes(d) then [AwayFromCursor(s.x - mouseX, s.y - mouseY, d, PushMagnitude(d)), random]
    else [random]
  }

  // ---------------------------------------------------------------- drawing

  /** What one star contributes to a frame (the size pulse is not modelled). */
  datatype Sprite = Sprite(x: real, y: real, alpha: real, glow: real, size: real)

  /** Every star is drawn, dimmed to 0.2 while hovering a button and at its
      own opacity otherwise, with a glow of three times its opacity. */
  function DrawList(stars: seq<Star>, hovering: bool): (sprites: seq<Sprite>)
    ensures |sprites| == |stars|
    ensures forall k :: 0 <= k < |stars| ==>
              sprites[k].x == stars[k].x && sprites[k].y == stars[k].y
              && sprites[k].alpha == (if hovering then 0.2 else stars[k].opacity)
              && sprites[k].glow == stars[k].opacity * 3.0
  {
    seq(|stars|, k requires 0 <= k < |stars| =>
      Sprite(stars[k].x, stars[k].y, if hovering then 0.2 else stars[k].opacity,
             stars[k].opacity * 3.0, stars[k].size))
  }

  // ---------------------------------------------------------------- component

  /** The component's refs. Engines are numbered in creation order; `cleared`
      holds those passed to `Engine.clear`. */
  class PhysicsField {
    var stars: array<Star>
    var mouseX: real
    var mouseY: real
    var width: real
    var height: real
    var engine: Option<nat>
    var created: nat
    var cleared: set<nat>
    var walls: seq<Rect>
    var mouseBody: Option<(real, real)>
    var animation: Option<Handle>
    var listening: bool
    const hasCanvas: bool

    /** The current engine is the newest one, and every older engine has
        been cleared. */
    predicate Valid()
      reads this
    {
      && (engine.None? <==> created == 0)
      && (engine.Some? ==> engine.value == created - 1)
      && (forall e :: 0 <= e < created - 1 ==> e in cleared)
    }

    constructor(hasCanvas: bool)
      ensures Valid() && this.hasCanvas == hasCanvas
      ensures stars.Length == 0 && engine.None? && mouseBody.None? && animation.None?
    {
      stars := new Star[0];
      mouseX, mouseY := 0.0, 0.0;
      width, height := 0.0, 0.0;
      engine := None;
      created := 0;
      cleared := {};
      walls := [];
      mouseBody := None;
      animation := None;
      listening := false;
      this.hasCanvas := hasCanvas;
    }

    /** `initPhysics`: a new engine with the four walls, `SeededCount` stars
        built from their draws, and the cursor body at the centre. */
    method InitPhysics(w: real, h: real, draws: seq<SeedDraws>)
      requires |draws| >= MaxStars
      modifies this`engine, this`created, this`walls, this`stars, this`mouseBody
      ensures engine == Some(old(created)) && created == old(created) + 1
      ensures walls == Walls(w, h) && mouseBody == Some((w / 2.0, h / 2.0))
      ensures fresh(stars) && stars.Length == SeededCount(w, h)
      ensures forall i :: 0 <= i < stars.Length ==> stars[i] == SeedStar(w, h, draws[i])
    {
      var n := SeededCount(w, h);
      var seeded := new Star[n];
      var i := 0;
      while i < n
        modifies seeded
        invariant 0 <= i <= n
        invariant forall k :: 0 <= k < i ==> seeded[k] == SeedStar(w, h, draws[k])
      {
        seeded[i] := SeedStar(w, h, draws[i]);
        i := i + 1;
      }
      engine := Some(created);
      created := created + 1;
      walls := Walls(w, h);
      stars := seeded;
      mouseBody := Some((w / 2.0, h / 2.0));
    }

    /** `updatePhysics`: without an engine or a cursor body nothing happens;
        otherwise the cursor body follows the cursor, every star is
        twinkled in place, and the forces handed to the engine are returned
        per star. */
    method UpdatePhysics(dist: seq<real>, draws: seq<StepDraws>)
      returns (applied: seq<seq<(real, real)>>)
      requires |dist| == stars.Length && |draws| == stars.Length
      requires forall i :: 0 <= i < stars.Length ==>
                 IsDistance(stars[i].x - mouseX, stars[i].y - mouseY, dist[i])
      modifies stars, this`mouseBody
      ensures engine.None? || old(mouseBody).None? ==>
        applied == [] && mouseBody == old(mouseBody) && stars[..] == old(stars[..])
      ensures engine.Some? && old(mouseBody).Some? ==>
        && mouseBody == Some((mouseX, mouseY))
        && |applied| == stars.Length
        && forall i :: 0 <= i < stars.Length ==>
             && applied[i] == Forces(old(stars[i]), mouseX, mouseY, dist[i], draws[i])
             && stars[i] == old(stars[i]).(opacity := Twinkle(old(stars[i].opacity), draws[i].twinkle))
             && MinOpacity <= stars[i].opacity <= MaxOpacity
    {
      if engine.None? || mouseBody.None? {
        return [];
      }
      mouseBody := Some((mouseX, mouseY));
      applied := [];
      var i := 0;
      while i < stars.Length
        modifies stars
        invariant 0 <= i <= stars.Length && |applied| == i
        invariant forall k :: 0 <= k < i ==>
          && applied[k] == Forces(old(stars[k]), mouseX, mouseY, dist[k], draws[k])
          && stars[k] == old(stars[k]).(opacity := Twinkle(old(stars[k].opacity), draws[k].twinkle))
        invariant forall k :: i <= k < stars.Length ==> stars[k] == old(stars[k])
      {
        var s := stars[i];
        applied := applied + [Forces(s, mouseX, mouseY, dist[i], draws[i])];
        stars[i] := s.(opacity := Twinkle(s.opacity, draws[i].twinkle));
        i := i + 1;
      }
    }

    /** `render`: nothing without a canvas or a context, otherwise every star. */
    function Render(hovering: bool, contextAvailable: bool): (frame: Option<seq<Sprite>>)
      reads this, stars
      ensures frame.Some? <==> hasCanvas && contextAvailable
      ensures frame.Some? ==> |frame.value| == stars.Length
    {
      if !hasCanvas || !contextAvailable then None
      else Some(DrawList(stars[..], hovering))
    }

    /** `handleMouseMove`: the cursor in canvas coordinates. */
    method HandleMouseMove(clientX: real, clientY: real, rectLeft: real, rectTop: real)
      modifies this`mouseX, this`mouseY
      ensures hasCanvas ==> mouseX == clientX - rectLeft && mouseY == clientY - rectTop
      ensures !hasCanvas ==> mouseX == old(mouseX) && mouseY == old(mouseY)
    {
      if !hasCanvas {
        return;
      }
      mouseX, mouseY := clientX - rectLeft, clientY - rectTop;
    }

    /** `handleResize`: take the new viewport, clear the old engine and build
        a fresh one, so the stars depend only on the new extent and draws. */
    method HandleResize(w: real, h: real, draws: seq<SeedDraws>)
      requires Valid() && |draws| >= MaxStars
      modifies this`width, this`height, this`engine, this`created, this`cleared,
               this`walls, this`stars, this`mouseBody
      ensures Valid()
      ensures !hasCanvas ==> engine == old(engine) && stars == old(stars)
                             && width == old(width) && height == old(height)
      ensures hasCanvas ==>
        && width == w && height == h
        && engine == Some(old(created)) && walls == Walls(w, h)
        && (old(engine).Some? ==> old(engine).value in cleared)
        && fresh(stars) && stars.Length == SeededCount(w, h)
        && forall i :: 0 <= i < stars.Length ==> stars[i] == SeedStar(w, h, draws[i])
    {
      if !hasCanvas {
        return;
      }
      width, height := w, h;
      if engine.Some? {
        cleared := cleared + {engine.value};
      }
      InitPhysics(w, h, draws);
    }

    /** The mount effect: size and seed the field, attach the listeners and
        request the first frame. */
    method Mount(w: real, h: real, draws: seq<SeedDraws>, frame: Handle)
      requires Valid() && |draws| >= MaxStars
      modifies this
      ensures Valid()
      ensures !hasCanvas ==> unchanged(this)
      ensures hasCanvas ==> listening && animation == Some(frame) && engine.Some?
                            && stars.Length == SeededCount(w, h)
    {
      if !hasCanvas {
        return;
      }
      HandleResize(w, h, draws);
      listening := true;
      animation := Some(frame);
    }

    /** `animate`: one update, one render and a request for the next frame;
        unlike the fallback field there is no initialized check. */
    method Animate(hovering: bool, contextAvailable: bool, dist: seq<real>,
                   draws: seq<StepDraws>, next: Handle)
      returns (applied: seq<seq<(real, real)>>, drawn: Option<seq<Sprite>>)
      requires |dist| == stars.Length && |draws| == stars.Length
      requires forall i :: 0 <= i < stars.Length ==>
                 IsDistance(stars[i].x - mouseX, stars[i].y - mouseY, dist[i])
      modifies stars, this`mouseBody, this`animation
      ensures animation == Some(next)
      ensures drawn == Render(hovering, contextAvailable)
      ensures engine.Some? && old(mouseBody).Some? && drawn.Some? && !hovering ==>
        forall k :: 0 <= k < |drawn.value| ==> MinOpacity <= drawn.value[k].alpha <= MaxOpacity
    {
      applied := UpdatePhysics(dist, draws);
      drawn := Render(hovering, contextAvailable);
      animation := Some(next);
    }

    /** The effect's cleanup: detach the listeners, cancel the pending frame
        (its handle is kept in the ref) and clear the current engine, after
        which no engine is left uncleared. */
    method Cleanup() returns (cancelled: Option<Handle>)
      requires Valid()
      modifies this`listening, this`cleared
      ensures Valid() && !listening
      ensures cancelled == animation
      ensures forall e :: 0 <= e < created ==> e in cleared
    {
      listening := false;
      cancelled := animation;
      if engine.Some? {
        cleared := cleared + {engine.value};
      }
    }
  }
}
