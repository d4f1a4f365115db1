/** Vocabulary shared by both star fields: random draws, cursor distance,
    a push directed away from the cursor, and the opacity twinkle. */
module Motion {

  /** A value `Math.random()` can return. */
  predicate IsDraw(r: real) {
    0.0 <= r < 1.0
  }

  /** `d` is the Euclidean length of `(dx, dy)`, as `Math.sqrt` would give it. */
  predicate IsDistance(dx: real, dy: real, d: real) {
    d >= 0.0 && d * d == dx * dx + dy * dy
  }

  /** A draw scales a non-negative span into [0, span], and into [0, span)
      when the span is positive. */
  lemma ScaledDraw(r: real, span: real)
    ensures IsDraw(r) && span >= 0.0 ==> 0.0 <= r * span <= span
    ensures IsDraw(r) && span > 0.0 ==> r * span < span
  {
    if IsDraw(r) && span > 0.0 {
      assert (1.0 - r) * span > 0.0;
    }
  }

  /** `(dx / d * f, dy / d * f)`: strength `f` along the unit vector from the
      cursor to the star. */
  function AwayFromCursor(dx: real, dy: real, d: real, f: real): (v: (real, real))
    requires d > 0.0
  {
    (dx / d * f, dy / d * f)
  }

  /** With `d` the true distance, the push is exactly `f` long and points away
      from the cursor: a positive multiple of `(dx, dy)`, with a positive dot
      product against it. */
  lemma AwayFromCursorGeometry(dx: real, dy: real, d: real, f: real)
    requires d > 0.0 && IsDistance(dx, dy, d) && f > 0.0
    ensures var v := AwayFromCursor(dx, dy, d, f);
      && v.0 * v.0 + v.1 * v.1 == f * f
      && v.0 == (f / d) * dx && v.1 == (f / d) * dy && f / d > 0.0
      && v.0 * dx + v.1 * dy > 0.0
  {
    var c := f / d;
    var v := AwayFromCursor(dx, dy, d, f);
    assert v.0 == c * dx && v.1 == c * dy;
    assert c * d == f;
    calc {
      v.0 * v.0 + v.1 * v.1;
      c * c * (dx * dx + dy * dy);
      c * c * (d * d);
      (c * d) * (c * d);
      f * f;
    }
    assert c > 0.0;
    calc {
      v.0 * dx + v.1 * dy;
      c * (dx * dx + dy * dy);
      c * (d * d);
      (c * d) * d;
      f * d;
    }
    assert f * d > 0.0;
  }

  const TwinkleSpeed: real := 0.008
  const MinOpacity: real := 0.2
  const MaxOpacity: real := 0.8

  /** The opacity after one twinkle: a random walk of at most 0.004 per
      frame, held inside [0.2, 0.8] whatever it was before. */
  function Twinkle(opacity: real, r: real): (o: real)
    ensures MinOpacity <= o <= MaxOpacity
    ensures MinOpacity <= opacity + (r - 0.5) * TwinkleSpeed <= MaxOpacity
            ==> o == opacity + (r - 0.5) * TwinkleSpeed
    ensures IsDraw(r) && MinOpacity <= opacity <= MaxOpacity ==>
              -0.004 <= o - opacity < 0.004
  {
    var walked := opacity + (r - 0.5) * TwinkleSpeed;
    if walked > MaxOpacity then MaxOpacity
    else if walked < MinOpacity then MinOpacity
    else walked
  }
}
