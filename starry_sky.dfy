/** The static star background: a thousand stars whose brightness decides
    their opacity and size. */
module StarrySky {
  import opened Motion

  /** One star as rendered: `left` and `top` are percentages of the page. */
  datatype SkyStar = SkyStar(id: nat, left: real, top: real, size: real, opacity: real)

  /** The three `Math.random()` draws one star takes, in the order taken. */
  datatype SkyDraws = SkyDraws(brightness: real, left: real, top: real)

  const SkyStarCount: nat := 1000

  /** The opacity bucket of a brightness. */
  function OpacityFor(brightness: real): (o: real)
    ensures o == 0.1 || o == 0.2 || o == 0.4 || o == 0.6
  {
    if brightness < 0.3 then 0.1
    else if brightness < 0.6 then 0.2
    else if brightness < 0.85 then 0.4
    else 0.6
  }

  /** The brightnesses where a brighter bucket starts. */
  const BucketEdges: seq<real> := [0.3, 0.6, 0.85]

  /** Brighter stars are never fainter, and the opacity only steps up
      across a bucket edge. */
  lemma OpacityMonotone(b1: real, b2: real)
    requires b1 <= b2
    ensures OpacityFor(b1) <= OpacityFor(b2)
    ensures OpacityFor(b2) > OpacityFor(b1) ==>
      exists k :: 0 <= k < |BucketEdges| && b1 < BucketEdges[k] <= b2
  {
    if OpacityFor(b2) > OpacityFor(b1) {
      if b1 < 0.3 <= b2 {
        assert b1 < BucketEdges[0] <= b2;
      } else if b1 < 0.6 <= b2 {
        assert b1 < BucketEdges[1] <= b2;
      } else {
        assert b1 < BucketEdges[2] <= b2;
      }
    }
  }

  /** The dot size in pixels. */
  function SizeFor(brightness: real): (s: real)
    ensures s == 1.0 || s == 0.5
  {
    if brightness > 0.9 then 1.0 else 0.5
  }

  /** The big stars are exactly the ones brighter than 0.9, and all of them
      are in the brightest bucket. */
  lemma BigStarsAreBright(brightness: real)
    ensures SizeFor(brightness) == 1.0 <==> brightness > 0.9
    ensures SizeFor(brightness) == 1.0 ==> OpacityFor(brightness) == 0.6
  {
  }

  /** Star `i` from its draws. */
  function MakeStar(i: nat, d: SkyDraws): (s: SkyStar)
    ensures s.id == i
    ensures IsDraw(d.left) && IsDraw(d.top) ==> 0.0 <= s.left < 100.0 && 0.0 <= s.top < 100.0
    ensures s.size == 1.0 ==> s.opacity == 0.6
  {
    SkyStar(i, d.left * 100.0, d.top * 100.0, SizeFor(d.brightness), OpacityFor(d.brightness))
  }

  /** The whole sky, one star per set of draws. */
  function Sky(draws: seq<SkyDraws>): (stars: seq<SkyStar>)
    requires |draws| == SkyStarCount
    ensures |stars| == SkyStarCount
    ensures forall i :: 0 <= i < |stars| ==> stars[i].id == i
  {
    seq(SkyStarCount, i requires 0 <= i < SkyStarCount => MakeStar(i, draws[i]))
  }

  /** With draws from [0, 1), every star sits inside the page: both of its
      percentages lie in [0, 100). */
  lemma SkyInsidePage(draws: seq<SkyDraws>, i: nat)
    requires |draws| == SkyStarCount && i < SkyStarCount
    requires IsDraw(draws[i].left) && IsDraw(draws[i].top)
    ensures var s := Sky(draws)[i];
      0.0 <= s.left < 100.0 && 0.0 <= s.top < 100.0
  {
    ScaledDraw(draws[i].left, 100.0);
    ScaledDraw(draws[i].top, 100.0);
    assert draws[i].left * 100.0 == 100.0 * draws[i].left;
  }
}
