/** The background-video lookup: from the first video of a Pexels search,
    the tallest file of at most 720 lines, or a fixed fallback video. */
module Pexels {
  import opened Wrappers

  /** One rendition of a video; `link` may be missing. */
  datatype VideoFile = VideoFile(height: int, link: Option<string>)

  /** One video of the search result. */
  datatype Video = Video(files: seq<VideoFile>)

  /** What the search gave back: a parsed body, whose `videos` may be
      missing, or a failure of the request or of the JSON parsing. */
  datatype Response = Body(videos: Option<seq<Video>>) | Failed

  /** What `getWaterVideo` settles to. */
  datatype Outcome = Returned(url: string) | Threw(message: string)

  const MaxHeight: int := 720
  const FallbackUrl: string :=
    "https://videos.pexels.com/video-files/3045163/3045163-sd_640_360_30fps.mp4"
  const MissingKey: string := "PEXELS_API_KEY is not set"

  /** `files.filter(f => f.height <= 720)`. */
  function FitFiles(files: seq<VideoFile>): (fit: seq<VideoFile>)
    ensures |fit| <= |files|
    ensures forall k :: 0 <= k < |fit| ==> fit[k].height <= MaxHeight
  {
    if files == [] then []
    else
      var rest := FitFiles(files[..|files| - 1]);
      var f := files[|files| - 1];
      assert files == files[..|files| - 1] + [f];
      if f.height <= MaxHeight then rest + [f] else rest
  }

  /** The filter works piecewise, so the kept files keep their order: the
      files of `a ++ b` that are kept are those of `a` followed by those of
      `b`, and a single file is kept exactly when it is low enough. */
  lemma {:induction false} FitFilesFilters(a: seq<VideoFile>, b: seq<VideoFile>)
    ensures FitFiles(a + b) == FitFiles(a) + FitFiles(b)
    ensures |a| == 1 ==> FitFiles(a) == if a[0].height <= MaxHeight then a else []
    decreases |b|
  {
    if b == [] {
      assert a + b == a;
    } else {
      var init := b[..|b| - 1];
      assert (a + b)[..|a + b| - 1] == a + init;
      assert (a + b)[|a + b| - 1] == b[|b| - 1];
      FitFilesFilters(a, init);
    }
    if |a| == 1 {
      assert a[..0] == [];
    }
  }

  /** Every file low enough is kept. */
  lemma {:induction false} FitFilesKeeps(files: seq<VideoFile>, j: nat)
    requires j < |files| && files[j].height <= MaxHeight
    ensures exists k :: 0 <= k < |FitFiles(files)| && FitFiles(files)[k] == files[j]
  {
    var init := files[..|files| - 1];
    if j < |files| - 1 {
      FitFilesKeeps(init, j);
      var k :| 0 <= k < |FitFiles(init)| && FitFiles(init)[k] == init[j];
      assert FitFiles(files)[k] == files[j];
    } else {
      assert FitFiles(files)[|FitFiles(files)| - 1] == files[j];
    }
  }

  /** Every kept file is a file of the video. */
  lemma {:induction false} FitFilesFrom(files: seq<VideoFile>, k: nat)
    requires k < |FitFiles(files)|
    ensures exists j :: 0 <= j < |files| && files[j] == FitFiles(files)[k]
  {
    var init := files[..|files| - 1];
    if k < |FitFiles(init)| {
      FitFilesFrom(init, k);
      var j :| 0 <= j < |init| && init[j] == FitFiles(init)[k];
      assert files[j] == FitFiles(files)[k];
    } else {
      assert files[|files| - 1] == FitFiles(files)[k];
    }
  }

  /** `heights` are in descending order. */
  predicate Descending(fs: seq<VideoFile>) {
    forall a, b :: 0 <= a < b < |fs| ==> fs[a].height >= fs[b].height
  }

  /** Places `f` after every file at least as tall: the step of a stable
      sort by descending height. */
  function InsertDesc(f: VideoFile, sorted: seq<VideoFile>): (r: seq<VideoFile>)
    requires Descending(sorted)
    ensures Descending(r)
    ensures multiset(r) == multiset(sorted) + multiset{f}
    ensures |r| == |sorted| + 1
    ensures r[0] == if sorted != [] && sorted[0].height >= f.height then sorted[0] else f
  {
    if sorted == [] || sorted[0].height < f.height then [f] + sorted
    else
      var rest := InsertDesc(f, sorted[1..]);
      assert sorted == [sorted[0]] + sorted[1..];
      [sorted[0]] + rest
  }

  /** `files.sort((a, b) => b.height - a.height)`: a stable sort, tallest
      first. */
  function SortDesc(files: seq<VideoFile>): (sorted: seq<VideoFile>)
    ensures Descending(sorted)
    ensures multiset(sorted) == multiset(files)
    ensures |sorted| == |files|
  {
    if files == [] then []
    else
      var init := files[..|files| - 1];
      assert files == init + [files[|files| - 1]];
      InsertDesc(files[|files| - 1], SortDesc(init))
  }

  /** `i` is the first of the tallest files. */
  predicate IsFirstTallest(fs: seq<VideoFile>, i: int) {
    && 0 <= i < |fs|
    && (forall j :: 0 <= j < |fs| ==> fs[j].height <= fs[i].height)
    && (forall j :: 0 <= j < i ==> fs[j].height < fs[i].height)
  }

  /** The first of the tallest files. */
  function FirstTallest(fs: seq<VideoFile>): (i: nat)
    requires fs != []
    ensures IsFirstTallest(fs, i)
  {
    if |fs| == 1 then 0
    else
      var init := fs[..|fs| - 1];
      var i := FirstTallest(init);
      assert forall j :: 0 <= j < |init| ==> init[j] == fs[j];
      if fs[|fs| - 1].height > fs[i].height then |fs| - 1 else i
  }

  /** Since the sort is stable, it puts the first of the tallest files in
      front. */
  lemma {:induction false} SortHead(files: seq<VideoFile>)
    requires files != []
    ensures SortDesc(files)[0] == files[FirstTallest(files)]
  {
    if |files| > 1 {
      var init := files[..|files| - 1];
      SortHead(init);
      assert forall j :: 0 <= j < |init| ==> init[j] == files[j];
    }
  }

  /** `sort(...)[0]?.link` on the files low enough, `undefined` as `None`;
      a link it yields is that of a file of the video low enough. */
  function ChosenLink(files: seq<VideoFile>): (l: Option<string>)
    ensures l.Some? ==>
      exists j :: 0 <= j < |files| && files[j].height <= MaxHeight && files[j].link == l
  {
    var fit := FitFiles(files);
    var sorted := SortDesc(fit);
    if sorted == [] then None
    else
      assert exists j :: 0 <= j < |files| && files[j].height <= MaxHeight
                         && files[j].link == sorted[0].link by {
        assert sorted[0] in multiset(fit);
        var k :| 0 <= k < |fit| && fit[k] == sorted[0];
        FitFilesFrom(files, k);
      }
      sorted[0].link
  }

  /** `getWaterVideo`: a missing key throws before anything else; any
      failure inside the `try`, a missing or empty `videos`, or no usable
      link all settle to the fallback video. */
  function GetWaterVideo(apiKey: Option<string>, response: Response): (out: Outcome)
    ensures !Truthy(apiKey) <==> out == Threw(MissingKey)
    ensures Truthy(apiKey) ==> out.Returned?
  {
    if !Truthy(apiKey) then Threw(MissingKey)
    else if response.Failed? || response.videos.None? || response.videos.value == [] then
      Returned(FallbackUrl)
    else
      var link := ChosenLink(response.videos.value[0].files);
      if Truthy(link) then Returned(link.value) else Returned(FallbackUrl)
  }

  /** The link chosen is that of the first of the tallest files low
      enough, or none when no file is low enough. */
  lemma ChosenIsFirstTallest(files: seq<VideoFile>)
    ensures FitFiles(files) == [] ==> ChosenLink(files).None?
    ensures FitFiles(files) != [] ==>
      ChosenLink(files) == FitFiles(files)[FirstTallest(FitFiles(files))].link
  {
    if FitFiles(files) != [] {
      SortHead(FitFiles(files));
    }
  }

  /** The first of the tallest kept files is a file of the video, and no
      file low enough is taller. */
  lemma TallestFitCoversAll(files: seq<VideoFile>)
    requires FitFiles(files) != []
    ensures var top := FitFiles(files)[FirstTallest(FitFiles(files))];
      && top.height <= MaxHeight
      && (exists j :: 0 <= j < |files| && files[j] == top)
      && forall j :: 0 <= j < |files| && files[j].height <= MaxHeight ==> files[j].height <= top.height
  {
    var fit := FitFiles(files);
    var top := fit[FirstTallest(fit)];
    FitFilesFrom(files, FirstTallest(fit));
    forall j | 0 <= j < |files| && files[j].height <= MaxHeight
      ensures files[j].height <= top.height
    {
      FitFilesKeeps(files, j);
      var k :| 0 <= k < |fit| && fit[k] == files[j];
    }
  }

  /** No file low enough, no link. */
  lemma NoFitNoLink(files: seq<VideoFile>)
    requires forall j :: 0 <= j < |files| ==> files[j].height > MaxHeight
    ensures ChosenLink(files).None?
  {
    if FitFiles(files) != [] {
      FitFilesFrom(files, 0);
    }
  }

  /** A link other than the fallback comes from the first video: it is the
      link of the first of its tallest files no taller than 720 lines. */
  lemma ReturnedLinkIsTallestFit(apiKey: Option<string>, response: Response)
    requires GetWaterVideo(apiKey, response).Returned?
    requires GetWaterVideo(apiKey, response).url != FallbackUrl
    ensures response.Body? && response.videos.Some? && response.videos.value != []
    ensures var fit := FitFiles(response.videos.value[0].files);
      fit != [] && fit[FirstTallest(fit)].link == Some(GetWaterVideo(apiKey, response).url)
  {
    ChosenIsFirstTallest(response.videos.value[0].files);
  }

  /** Without a file low enough the fallback video is returned. */
  lemma NoFitFallsBack(apiKey: Option<string>, files: seq<VideoFile>, more: seq<Video>)
    requires Truthy(apiKey)
    requires forall j :: 0 <= j < |files| ==> files[j].height > MaxHeight
    ensures GetWaterVideo(apiKey, Body(Some([Video(files)] + more))) == Returned(FallbackUrl)
  {
    NoFitNoLink(files);
  }
}
