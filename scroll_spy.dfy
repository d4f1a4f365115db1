/** The scroll-position rules the Works and About pages share: which section
    counts as active, which ones are on screen, and where a navigation dot
    scrolls to. A section ref that is not mounted is `None`. */
module ScrollSpy {
  import opened Wrappers

  /** A mounted section's box, measured from the top of the scroll container. */
  datatype Bounds = Bounds(top: real, bottom: real)

  /** The section's top lies in the middle band of the viewport, (-vh/2, vh/2]. */
  predicate Centred(b: Bounds, vh: real) {
    -vh / 2.0 < b.top <= vh / 2.0
  }

  /** Section `i` exists, is mounted and is centred. */
  predicate CentredAt(refs: seq<Option<Bounds>>, vh: real, i: int) {
    0 <= i < |refs| && refs[i].Some? && Centred(refs[i].value, vh)
  }

  /** The section's box meets the viewport [0, vh). */
  predicate InView(b: Bounds, vh: real) {
    b.top < vh && b.bottom > 0.0
  }

  /** Section `i` exists, is mounted and meets the viewport. */
  predicate InViewAt(refs: seq<Option<Bounds>>, vh: real, i: int) {
    0 <= i < |refs| && refs[i].Some? && InView(refs[i].value, vh)
  }

  /** The active section among the first `n` refs: the last centred one, or
      0 when none of them is centred. Unmounted refs never count. */
  function ActiveUpTo(refs: seq<Option<Bounds>>, vh: real, n: nat): (a: nat)
    requires n <= |refs|
    ensures a == 0 || (a < n && CentredAt(refs, vh, a))
    ensures forall j :: a < j < n ==> !CentredAt(refs, vh, j)
  {
    if n == 0 then 0
    else if CentredAt(refs, vh, n - 1) then n - 1
    else ActiveUpTo(refs, vh, n - 1)
  }

  /** The section the scroll handler reports as active. */
  function ActiveSection(refs: seq<Option<Bounds>>, vh: real): nat {
    ActiveUpTo(refs, vh, |refs|)
  }

  /** The active section is the greatest centred index whenever one is
      centred, and 0 when none is. */
  lemma ActiveIsLastCentred(refs: seq<Option<Bounds>>, vh: real)
    ensures (exists i :: CentredAt(refs, vh, i)) ==>
      && CentredAt(refs, vh, ActiveSection(refs, vh))
      && forall i :: CentredAt(refs, vh, i) ==> i <= ActiveSection(refs, vh)
    ensures (forall i :: !CentredAt(refs, vh, i)) ==> ActiveSection(refs, vh) == 0
  {
    if exists i :: CentredAt(refs, vh, i) {
      var i :| CentredAt(refs, vh, i);
      assert CentredAt(refs, vh, ActiveSection(refs, vh)) || i == 0;
    }
  }

  /** `scrollToSection(index)`: the section scrolled into view, or nothing
      when that ref is missing or unmounted. */
  function ScrollTarget(refs: seq<Option<Bounds>>, index: int): (target: Option<nat>)
    ensures target.Some? <==> 0 <= index < |refs| && refs[index].Some?
    ensures target.Some? ==> target.value == index
  {
    if 0 <= index < |refs| && refs[index].Some? then Some(index) else None
  }

  /** The animation delay, in seconds, of the `i`-th item of a staggered
      list whose items start `step` seconds apart. */
  function StaggerDelay(i: nat, step: real): (d: real)
    requires step > 0.0
    ensures d >= 0.0 && (d == 0.0 <==> i == 0)
  {
    i as real * step
  }

  /** Later items of a staggered list start strictly later. */
  lemma StaggerOrdered(i: nat, j: nat, step: real)
    requires step > 0.0 && i < j
    ensures StaggerDelay(i, step) < StaggerDelay(j, step)
    ensures StaggerDelay(j, step) - StaggerDelay(i, step) >= step
  {
    var k := (j - i) as real;
    assert StaggerDelay(j, step) - StaggerDelay(i, step) == k * step;
    var m := k - 1.0;
    assert m >= 0.0;
    assert m * step >= 0.0;
    assert k * step == m * step + step;
  }
}
