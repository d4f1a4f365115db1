/** The Works page: the project table, the active project while scrolling,
    the counter in the corner and what each project shows. */
module WorksPage {
  import opened Wrappers
  import opened Text
  import opened ScrollSpy

  /** One entry of the project table; an absent optional field is `None`. */
  datatype Project = Project(title: string, smallTitle: string, year: string,
                             link: Option<string>, github: Option<string>,
                             image: Option<string>, video: Option<string>)

  const Projects: seq<Project> := [
    Project("Handwritten Digit Recognizer", "CNN", "2025",
      Some("https://project-alpha.demo"),
      Some("https://github.com/AccioMo/handwritten-digit-recognizer"),
      Some("/screenshot-train.png"), None),
    Project("Full Stack Chatting Application", "Chatting App", "2024",
      Some("https://project-beta.demo"),
      Some("https://github.com/AccioMo/chatting-web-application"),
      None, Some("/videos/project-beta-demo.mp4")),
    Project("Movie Rankings Web App", "Streaming App", "2023",
      Some("https://project-gamma.demo"),
      Some("https://github.com/AccioMo/project-gamma"), None, None),
    Project("Spotify Playlist Converter", "yspotify", "2023",
      Some("https://project-delta.demo"),
      Some("https://github.com/AccioMo/project-delta"), None, None),
    Project("Python Decision Tree", "yggdrasil", "2023",
      None, Some("https://github.com/AccioMo/project-epsilon"), None, None)
  ]

  /** The page's state: the index of the highlighted project. */
  class Works {
    var activeProject: nat

    constructor()
      ensures activeProject == 0
    {
      activeProject := 0;
    }

    /** `handleScroll`: walks the project refs in order; every mounted ref
        whose top is in the middle band of the viewport takes over. */
    method HandleScroll(refs: seq<Option<Bounds>>, vh: real)
      modifies this
      ensures activeProject == ActiveSection(refs, vh)
    {
      var currentProject := 0;
      var index := 0;
      while index < |refs|
        invariant 0 <= index <= |refs|
        invariant currentProject == ActiveUpTo(refs, vh, index)
      {
        var r := refs[index];
        if r.Some? {
          var relativeTop := r.value.top;
          if relativeTop <= vh / 2.0 && relativeTop > -vh / 2.0 {
            currentProject := index;
          }
        }
        index := index + 1;
      }
      activeProject := currentProject;
    }
  }

  /** Seconds between the entrance animations of consecutive projects. */
  const EntranceStep: real := 0.2

  /** Project `i` enters `StaggerDelay(i, EntranceStep)` seconds late: the
      first at once, each later one at least a step after any earlier one. */
  lemma EntranceStaggered(i: nat, j: nat)
    requires i < j
    ensures StaggerDelay(0, EntranceStep) == 0.0
    ensures StaggerDelay(j, EntranceStep) - StaggerDelay(i, EntranceStep) >= EntranceStep
  {
    StaggerOrdered(i, j, EntranceStep);
  }

  /** `String(n).padStart(2, '0')`: at least two digits, and numbers from 10
      on are written as they are. */
  function TwoDigits(n: nat): (s: string)
    ensures |s| >= 2 && AllDigits(s)
    ensures n >= 10 ==> s == DecimalString(n)
  {
    PaddedDigits(DecimalString(n));
    PadStart(DecimalString(n), 2, '0')
  }

  /** Padding digits with zeros keeps them digits, and two or more digits
      need no padding. */
  lemma PaddedDigits(d: string)
    requires AllDigits(d)
    ensures AllDigits(PadStart(d, 2, '0'))
    ensures |d| >= 2 ==> PadStart(d, 2, '0') == d
  {
    var s := PadStart(d, 2, '0');
    var off := |s| - |d|;
    forall k | 0 <= k < |s|
      ensures IsDigit(s[k])
    {
      if k >= off {
        assert s[k] == s[off..][k - off];
      }
    }
  }

  /** Below 100 the padded number is two digits that read back as `n`. */
  lemma TwoDigitsReadBack(n: nat)
    requires n < 100
    ensures |TwoDigits(n)| == 2 && AllDigits(TwoDigits(n)) && DigitsValue(TwoDigits(n)) == n
  {
    var s := DecimalString(n);
    DecimalRoundTrip(n);
    if |s| == 1 {
      LeadingZero(s);
      assert PadStart(s, 2, '0') == "0" + s;
    } else {
      DecimalLengthTwo(n);
    }
  }

  /** The counter: the active project counted from one, over the number of
      projects. */
  function Counter(activeProject: nat): (c: (string, string))
    ensures |c.0| >= 2 && AllDigits(c.0)
    ensures c.1 == "05"
  {
    FiveOnTwoDigits();
    (TwoDigits(activeProject + 1), TwoDigits(|Projects|))
  }

  /** The counter reads back as the active project plus one, over "05". */
  lemma CounterReadsBack(activeProject: nat)
    requires activeProject < 99
    ensures DigitsValue(Counter(activeProject).0) == activeProject + 1
    ensures Counter(activeProject).1 == "05"
  {
    TwoDigitsReadBack(activeProject + 1);
    assert |Projects| == 5;
    FiveOnTwoDigits();
  }

  lemma FiveOnTwoDigits()
    ensures TwoDigits(5) == "05"
  {
    assert DigitChar(5) == '5';
    assert DecimalString(5) == "5";
    assert PadStart("5", 2, '0') == PadStart("05", 2, '0');
  }

  /** What the visual half of a project shows. */
  datatype Media = Video(src: string) | Picture(src: string, alt: string) | Placeholder

  /** A video wins over an image; with neither, a placeholder. */
  function MediaFor(p: Project): (m: Media)
    ensures m.Video? <==> Truthy(p.video)
    ensures m.Picture? <==> !Truthy(p.video) && Truthy(p.image)
    ensures m.Video? ==> m.src == p.video.value
    ensures m.Picture? ==> m.src == p.image.value && m.alt == p.title + " preview"
  {
    if Truthy(p.video) then Video(p.video.value)
    else if Truthy(p.image) then Picture(p.image.value, p.title + " preview")
    else Placeholder
  }

  /** A link under a project. */
  datatype Link = Link(text: string, href: string)

  /** "View Project" for a set `link`, then "Source Code" for a set `github`. */
  function Links(p: Project): (ls: seq<Link>)
    ensures |ls| == (if Truthy(p.link) then 1 else 0) + (if Truthy(p.github) then 1 else 0)
    ensures Truthy(p.link) ==> ls[0] == Link("View Project", p.link.value)
    ensures Truthy(p.github) ==> ls[|ls| - 1] == Link("Source Code", p.github.value)
  {
    (if Truthy(p.link) then [Link("View Project", p.link.value)] else [])
    + (if Truthy(p.github) then [Link("Source Code", p.github.value)] else [])
  }

  /** On the table as it stands, the first project shows its screenshot,
      the second its video and the rest a placeholder. */
  lemma TableMedia(i: nat)
    requires i < |Projects|
    ensures MediaFor(Projects[i]).Picture? <==> i == 0
    ensures MediaFor(Projects[i]).Video? <==> i == 1
  {
  }

  /** Every project links its source code; all but the last link a demo. */
  lemma TableLinks(i: nat)
    requires i < |Projects|
    ensures |Links(Projects[i])| == if i == |Projects| - 1 then 1 else 2
  {
  }
}
