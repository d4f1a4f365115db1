/** The About page: which section is active and which sections are on
    screen while scrolling, and the staggered entrance of the skill groups. */
module AboutPage {
  import opened Wrappers
  import opened ScrollSpy

  /** The page's state: the active section and the set of visible ones. */
  class About {
    var activeSection: nat
    var visibleSections: set<nat>

    constructor()
      ensures activeSection == 0 && visibleSections == {}
    {
      activeSection := 0;
      visibleSections := {};
    }

    /** `handleScroll`: one pass over the section refs collects the sections
        meeting the viewport into a fresh set and lets every centred one
        take over as active. The old set plays no part. */
    method HandleScroll(refs: seq<Option<Bounds>>, vh: real)
      modifies this
      ensures activeSection == ActiveSection(refs, vh)
      ensures forall i :: i in visibleSections <==> InViewAt(refs, vh, i)
    {
      var currentSection := 0;
      var newVisibleSections: set<nat> := {};
      var index := 0;
      while index < |refs|
        invariant 0 <= index <= |refs|
        invariant currentSection == ActiveUpTo(refs, vh, index)
        invariant forall i :: i in newVisibleSections <==> i < index && InViewAt(refs, vh, i)
      {
        var r := refs[index];
        if r.Some? {
          var relativeTop := r.value.top;
          var relativeBottom := r.value.bottom;
          if relativeTop < vh && relativeBottom > 0.0 {
            newVisibleSections := newVisibleSections + {index};
          }
          if relativeTop <= vh / 2.0 && relativeTop > -vh / 2.0 {
            currentSection := index;
          }
        }
        index := index + 1;
      }
      activeSection := currentSection;
      visibleSections := newVisibleSections;
    }
  }

  /** The skills section is the second one. */
  const SkillsSection: nat := 1

  /** Seconds between the entrances of consecutive skill groups. */
  const SkillStep: real := 0.2

  /** The transition delay of skill group `i`: staggered while the skills
      section is visible, none otherwise. */
  function SkillDelay(visibleSections: set<nat>, i: nat): (d: real)
    ensures SkillsSection !in visibleSections ==> d == 0.0
    ensures SkillsSection in visibleSections ==> d == i as real * SkillStep
  {
    if SkillsSection in visibleSections then StaggerDelay(i, SkillStep) else 0.0
  }

  /** While the skills section is visible the groups enter one after the
      other, at least a step apart. */
  lemma SkillGroupsInOrder(visibleSections: set<nat>, i: nat, j: nat)
    requires SkillsSection in visibleSections && i < j
    ensures SkillDelay(visibleSections, j) - SkillDelay(visibleSections, i) >= SkillStep
  {
    StaggerOrdered(i, j, SkillStep);
  }
}
