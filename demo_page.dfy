/** The digit-recogniser demo page: reading the classifier's text output into
    a short log and a predicted digit, the request and clear state, and which
    log lines are highlighted. */
module DemoPage {
  import opened Wrappers
  import opened Text

  // ---------------------------------------------------------------- log lines

  /** The regular expression `^\d+:\s+\d+\.\d+%?` matched against `s`: digits, a
      colon, white space, digits, a point and at least one digit at the start.
      Each run is maximal in every match (a colon, a digit and a point end the
      runs before them), so a single left-to-right scan decides it; the
      optional `%` never changes the outcome. */
  predicate LogLineShape(s: string)
    ensures LogLineShape(s) ==> |s| >= 6 && IsDigit(s[0])
  {
    var i := DigitRun(s, 0);
    0 < i < |s| && s[i] == ':' &&
    var j := SkipSpaces(s, i + 1);
    j > i + 1 &&
    var k := DigitRun(s, j);
    k > j && k < |s| && s[k] == '.' &&
    DigitRun(s, k + 1) > k + 1
  }

  /** Where each piece of `a:wc.d...` sits. */
  lemma ShapeLayout(a: string, w: string, c: string, d: string, rest: string)
    ensures var s := a + ":" + w + c + "." + d + rest;
      var j := |a| + 1 + |w|; var k := j + |c|;
      && |s| == k + 1 + |d| + |rest|
      && (forall p :: 0 <= p < |a| ==> s[p] == a[p])
      && s[|a|] == ':'
      && (forall p :: |a| + 1 <= p < j ==> s[p] == w[p - |a| - 1])
      && (forall p :: j <= p < k ==> s[p] == c[p - j])
      && s[k] == '.'
      && (forall p :: k + 1 <= p < k + 1 + |d| ==> s[p] == d[p - k - 1])
  {
  }

  /** Every line of the form digits, colon, white space, digits, point,
      digits — followed by anything — is a log line. */
  lemma ShapeOfPieces(a: string, w: string, c: string, d: string, rest: string)
    requires |a| >= 1 && AllDigits(a)
    requires |w| >= 1 && forall p :: 0 <= p < |w| ==> IsSpace(w[p])
    requires |c| >= 1 && AllDigits(c)
    requires |d| >= 1 && AllDigits(d)
    ensures LogLineShape(a + ":" + w + c + "." + d + rest)
  {
    var s := a + ":" + w + c + "." + d + rest;
    var j := |a| + 1 + |w|;
    var k := j + |c|;
    ShapeLayout(a, w, c, d, rest);
    DigitRunStops(s, 0, |a|);
    SkipSpacesStops(s, |a| + 1, j);
    DigitRunStops(s, j, k);
    assert IsDigit(s[k + 1]);
  }

  /** The first colon of a log line is the one right after its leading
      digits, and at least four characters follow it. */
  lemma ShapeColon(s: string)
    requires LogLineShape(s)
    ensures IndexOf(s, ':') == DigitRun(s, 0) && DigitRun(s, 0) + 4 <= |s|
  {
    IndexOfFirst(s, ':', DigitRun(s, 0));
  }

  /** A line the log keeps: its trimmed form is a log line, so it is at
      least six characters long. */
  predicate IsLogLine(line: string)
    ensures IsLogLine(line) ==> |line| >= 6
  {
    LogLineShape(Trim(line))
  }

  /** What the filter keeps of one line. */
  function KeepLine(line: string): (kept: seq<string>)
    ensures |kept| <= 1
    ensures kept != [] <==> IsLogLine(line)
    ensures forall l :: l in kept ==> l == line
  {
    if IsLogLine(line) then [line] else []
  }

  /** `filter(line => line.trim().match(...))`: the log lines, in their
      original order. */
  function Kept(lines: seq<string>): (kept: seq<string>)
    ensures |kept| <= |lines|
    ensures forall k :: 0 <= k < |kept| ==> IsLogLine(kept[k])
  {
    if lines == [] then [] else KeepLine(lines[0]) + Kept(lines[1..])
  }

  /** Filtering works piecewise, so the kept lines keep their relative order. */
  lemma {:induction false} KeptAppend(a: seq<string>, b: seq<string>)
    ensures Kept(a + b) == Kept(a) + Kept(b)
  {
    if a == [] {
      assert a + b == b;
    } else {
      var head := KeepLine(a[0]);
      assert (a + b)[0] == a[0];
      assert (a + b)[1..] == a[1..] + b;
      KeptAppend(a[1..], b);
      assert Kept(a + b) == head + (Kept(a[1..]) + Kept(b));
      assert head + (Kept(a[1..]) + Kept(b)) == (head + Kept(a[1..])) + Kept(b);
    }
  }

  /** The filter invents nothing: every kept line is one of the input lines. */
  lemma {:induction false} KeptFromInput(lines: seq<string>)
    ensures forall l :: l in Kept(lines) ==> l in lines
  {
    if lines != [] {
      KeptFromInput(lines[1..]);
    }
  }

  /** A line is kept exactly when its trimmed form is a log line. */
  lemma KeptOne(line: string)
    ensures Kept([line]) == if IsLogLine(line) then [line] else []
  {
    assert [line][1..] == [];
  }

  const MaxLogLines: int := 10

  /** `output.split('\n').filter(...).slice(0, 10)`. */
  function LogLines(output: string): (lines: seq<string>)
    ensures |lines| <= MaxLogLines
    ensures var kept := Kept(Split(output, '\n'));
      && |lines| <= |kept| && lines == kept[..|lines|]
      && (|lines| == |kept| || |lines| == MaxLogLines)
  {
    var kept := Kept(Split(output, '\n'));
    if |kept| <= MaxLogLines then kept else kept[..MaxLogLines]
  }

  // ---------------------------------------------------------------- entries

  /** One parsed log line: the text before the colon and the number after it. */
  datatype LogEntry = LogEntry(digit: string, prob: Option<real>)

  /** `line.split(':').map(s => s.trim())`, then `parseFloat` of the second
      piece with its first `%` removed; `None` is NaN. */
  function ParseLogLine(line: string): (e: LogEntry)
    requires |Split(line, ':')| >= 2
    ensures e.digit == Trim(Split(line, ':')[0])
    ensures Free(e.digit, ':')
  {
    var parts := Split(line, ':');
    SplitPiecesFree(line, ':');
    assert Free(parts[0], ':');
    LogEntry(Trim(parts[0]), ParseFloat(RemoveFirst(Trim(parts[1]), '%')))
  }

  /** Where the colon of a log line sits in the untrimmed line. */
  function ColonIndex(line: string): (c: nat)
    requires IsLogLine(line)
    ensures c < |line|
  {
    TrimBounds(line).0 + DigitRun(Trim(line), 0)
  }

  /** How many blanks follow the colon of a log line before its digits. */
  function BlankCount(line: string): (n: nat)
    requires IsLogLine(line)
  {
    var t := Trim(line);
    var i := DigitRun(t, 0);
    SkipSpaces(t, i + 1) - i - 1
  }

  /** The first colon of a log line is the one after its leading digits:
      everything before it is blank or a digit. */
  lemma FirstColon(line: string)
    requires IsLogLine(line)
    ensures IndexOf(line, ':') == ColonIndex(line)
  {
    var b := TrimBounds(line);
    var t := Trim(line);
    var i := DigitRun(t, 0);
    IndexOfInSlice(line, b.0, b.1, ':', i);
  }

  /** In a log line shape the colon is followed by white space up to the
      start of the second run of digits. */
  lemma ShapeBlanks(t: string)
    requires LogLineShape(t)
    ensures var i := DigitRun(t, 0); var j := SkipSpaces(t, i + 1);
      && t[i] == ':' && i + 1 < j < |t| && IsDigit(t[j])
      && forall p :: i < p < j ==> IsSpace(t[p])
  {
    var i := DigitRun(t, 0);
    var j := SkipSpaces(t, i + 1);
    assert DigitRun(t, j) > j;
  }

  /** Blanks and a digit inside a slice are blanks and a digit of the whole
      text, shifted by where the slice starts. */
  lemma BlanksInSlice(line: string, lo: nat, t: string, i: nat, j: nat, c: nat, n: nat)
    requires lo + |t| <= |line| && t == line[lo..lo + |t|]
    requires i + 1 < j < |t| && IsDigit(t[j])
    requires forall p :: i < p < j ==> IsSpace(t[p])
    requires c == lo + i && n == j - i - 1
    ensures c + 1 + n < |line|
    ensures forall p :: c < p <= c + n ==> IsSpace(line[p])
    ensures IsDigit(line[c + 1 + n])
  {
    forall p | c < p <= c + n
      ensures IsSpace(line[p])
    {
      assert line[p] == t[p - lo];
    }
    assert line[c + 1 + n] == t[j];
  }

  /** The colon of a log line is followed by at least one blank, and then a
      digit. */
  lemma BlanksThenDigit(line: string)
    requires IsLogLine(line)
    ensures ColonIndex(line) + 1 + BlankCount(line) < |line|
    ensures forall p :: ColonIndex(line) < p <= ColonIndex(line) + BlankCount(line) ==>
      IsSpace(line[p])
    ensures IsDigit(line[ColonIndex(line) + 1 + BlankCount(line)])
  {
    var b := TrimBounds(line);
    var t := Trim(line);
    var i := DigitRun(t, 0);
    var j := SkipSpaces(t, i + 1);
    ShapeBlanks(t);
    BlanksInSlice(line, b.0, t, i, j, ColonIndex(line), BlankCount(line));
  }

  /** When the first colon of `line` sits at `c` and is followed by `n`
      blanks and a digit, the second piece trims to text that starts with
      that digit. */
  lemma SecondPieceAfterColon(line: string, c: nat, n: nat)
    requires c + 1 + n < |line| && IndexOf(line, ':') == c
    requires forall p :: c < p <= c + n ==> IsSpace(line[p])
    requires IsDigit(line[c + 1 + n])
    ensures var q := Trim(Split(line, ':')[1]); |q| > 0 && IsDigit(q[0])
  {
    SecondCovers(line, ':', n + 1);
    TrimStartsAt(Split(line, ':')[1], n);
  }

  /** After the first colon of a log line come white space and a digit, so
      the second piece trims to text that starts with a digit. */
  lemma SecondPieceStartsWithDigit(line: string)
    requires IsLogLine(line)
    ensures |Split(line, ':')| >= 2
    ensures var q := Trim(Split(line, ':')[1]); |q| > 0 && IsDigit(q[0])
  {
    FirstColon(line);
    BlanksThenDigit(line);
    SecondPieceAfterColon(line, ColonIndex(line), BlankCount(line));
  }

  /** A kept line always reads as a number, never a negative one. */
  lemma KeptLineParses(line: string)
    requires IsLogLine(line)
    ensures |Split(line, ':')| >= 2
    ensures ParseLogLine(line).prob.Some? && ParseLogLine(line).prob.value >= 0.0
  {
    SecondPieceStartsWithDigit(line);
    var q := Trim(Split(line, ':')[1]);
    RemoveFirstKeepsHead(q, '%');
    var r := RemoveFirst(q, '%');
    SkipSpacesStops(r, 0, 0);
    ParseFloatLeadingDigit(r);
  }

  /** Every line of the log is a log line. */
  lemma LogLinesAreLogLines(output: string)
    ensures forall k :: 0 <= k < |LogLines(output)| ==> IsLogLine(LogLines(output)[k])
  {
    var kept := Kept(Split(output, '\n'));
    var lines := LogLines(output);
    assert forall k :: 0 <= k < |lines| ==> lines[k] == kept[k];
  }

  /** Every kept line holds a colon, so every one of them can be parsed. */
  lemma LogLinesHaveColons(output: string)
    ensures forall k :: 0 <= k < |LogLines(output)| ==> |Split(LogLines(output)[k], ':')| >= 2
  {
    var lines := LogLines(output);
    LogLinesAreLogLines(output);
    forall k | 0 <= k < |lines|
      ensures |Split(lines[k], ':')| >= 2
    {
      KeptLineParses(lines[k]);
    }
  }

  /** Every line parsed on its own, in order. */
  function ParseEach(lines: seq<string>): (entries: seq<LogEntry>)
    requires forall k :: 0 <= k < |lines| ==> |Split(lines[k], ':')| >= 2
    ensures |entries| == |lines|
    ensures forall i :: 0 <= i < |lines| ==> entries[i] == ParseLogLine(lines[i])
  {
    seq(|lines|, i requires 0 <= i < |lines| => ParseLogLine(lines[i]))
  }

  /** The parsed log, one entry per log line. */
  function Entries(output: string): (entries: seq<LogEntry>)
    ensures |entries| == |LogLines(output)|
    ensures forall i :: 0 <= i < |entries| ==>
      |Split(LogLines(output)[i], ':')| >= 2 && entries[i] == ParseLogLine(LogLines(output)[i])
  {
    LogLinesHaveColons(output);
    ParseEach(LogLines(output))
  }

  // ---------------------------------------------------------------- best digit

  /** An entry that can beat the starting maximum of -1. */
  predicate Candidate(e: LogEntry) {
    e.prob.Some? && e.prob.value > -1.0
  }

  /** Among the first `n` entries, entry `i` holds the greatest probability
      and no earlier entry holds as much: the first maximum so far. */
  predicate FirstMaxUpTo(entries: seq<LogEntry>, n: int, i: int) {
    && 0 <= i < n <= |entries| && Candidate(entries[i])
    && (forall j :: 0 <= j < n && entries[j].prob.Some? ==>
          entries[j].prob.value <= entries[i].prob.value)
    && (forall j :: 0 <= j < i && entries[j].prob.Some? ==>
          entries[j].prob.value < entries[i].prob.value)
  }

  /** The first maximum of the whole log. */
  predicate IsFirstMax(entries: seq<LogEntry>, i: int) {
    FirstMaxUpTo(entries, |entries|, i)
  }

  /** There is at most one first maximum. */
  lemma FirstMaxUnique(entries: seq<LogEntry>, i: int, j: int)
    requires IsFirstMax(entries, i) && IsFirstMax(entries, j)
    ensures i == j
  {
  }

  /** Whenever one of the first `n` entries can beat -1, a first maximum
      among them exists. */
  lemma {:induction false} FirstMaxExistsUpTo(entries: seq<LogEntry>, n: int, c: int)
    requires 0 <= c < n <= |entries| && Candidate(entries[c])
    ensures exists i :: FirstMaxUpTo(entries, n, i)
    decreases n
  {
    var last := n - 1;
    var e := entries[last];
    if exists k :: 0 <= k < last && Candidate(entries[k]) {
      var k :| 0 <= k < last && Candidate(entries[k]);
      FirstMaxExistsUpTo(entries, last, k);
      var i :| FirstMaxUpTo(entries, last, i);
      if e.prob.Some? && e.prob.value > entries[i].prob.value {
        assert FirstMaxUpTo(entries, n, last);
      } else {
        assert FirstMaxUpTo(entries, n, i);
      }
    } else {
      assert FirstMaxUpTo(entries, n, last);
    }
  }

  /** Whenever some entry can beat -1, a first maximum exists. */
  lemma FirstMaxExists(entries: seq<LogEntry>, c: int)
    requires 0 <= c < |entries| && Candidate(entries[c])
    ensures exists i :: IsFirstMax(entries, i)
  {
    FirstMaxExistsUpTo(entries, |entries|, c);
    var i :| FirstMaxUpTo(entries, |entries|, i);
    assert IsFirstMax(entries, i);
  }

  /** `best` is what the page should report: the digit of the first
      maximum, or the fallback when no entry beats -1 (a NaN never does). */
  ghost predicate ChosenDigit(entries: seq<LogEntry>, fallback: string, best: string) {
    && ((forall i :: 0 <= i < |entries| ==> !Candidate(entries[i])) ==> best == fallback)
    && (forall i :: IsFirstMax(entries, i) ==> best == entries[i].digit)
  }

  /** The scan from position `k` on, holding the best digit and the greatest
      probability seen so far: a line takes over only with a strictly
      greater probability. */
  function ScanFrom(entries: seq<LogEntry>, k: nat, best: string, maxProb: real): (r: string)
    requires k <= |entries|
    ensures r == best || exists i :: k <= i < |entries| && r == entries[i].digit
    decreases |entries| - k
  {
    if k == |entries| then best
    else
      var p := entries[k].prob;
      if p.Some? && p.value > maxProb then ScanFrom(entries, k + 1, entries[k].digit, p.value)
      else ScanFrom(entries, k + 1, best, maxProb)
  }

  /** The digit reported for a parsed log: the scan from the fallback and a
      maximum of -1. It is the fallback or the digit of some line. */
  function BestDigit(entries: seq<LogEntry>, fallback: string): (d: string)
    ensures d == fallback || exists i :: 0 <= i < |entries| && d == entries[i].digit
  {
    ScanFrom(entries, 0, fallback, -1.0)
  }

  /** What the scan knows after `k` entries: either nothing has beaten -1
      yet, or `at` is the first maximum so far and holds the best digit. */
  ghost predicate ScanState(entries: seq<LogEntry>, fallback: string, k: nat, best: string,
                            maxProb: real, at: int) {
    && k <= |entries|
    && (at == -1 ==>
          best == fallback && maxProb == -1.0 && forall j :: 0 <= j < k ==> !Candidate(entries[j]))
    && (at != -1 ==>
          && FirstMaxUpTo(entries, k, at)
          && best == entries[at].digit && maxProb == entries[at].prob.value)
  }

  /** A line with a greater probability than the maximum so far becomes
      the first maximum so far. */
  lemma ScanTakes(entries: seq<LogEntry>, fallback: string, k: nat, best: string,
                  maxProb: real, at: int)
    requires ScanState(entries, fallback, k, best, maxProb, at) && k < |entries|
    requires entries[k].prob.Some? && entries[k].prob.value > maxProb
    ensures ScanState(entries, fallback, k + 1, entries[k].digit, entries[k].prob.value, k)
  {
  }

  /** Any other line leaves the state of the scan as it was. */
  lemma ScanKeeps(entries: seq<LogEntry>, fallback: string, k: nat, best: string,
                  maxProb: real, at: int)
    requires ScanState(entries, fallback, k, best, maxProb, at) && k < |entries|
    requires !(entries[k].prob.Some? && entries[k].prob.value > maxProb)
    ensures ScanState(entries, fallback, k + 1, best, maxProb, at)
  {
  }

  /** Each step of the scan keeps its state, so once the log holds a first
      maximum the scan ends on its digit. */
  lemma {:induction false} ScanFindsFirstMax(entries: seq<LogEntry>, fallback: string, k: nat,
                                             best: string, maxProb: real, at: int, i: int)
    requires ScanState(entries, fallback, k, best, maxProb, at)
    requires IsFirstMax(entries, i)
    ensures ScanFrom(entries, k, best, maxProb) == entries[i].digit
    decreases |entries| - k
  {
    if k == |entries| {
      assert at != -1 by {
        assert Candidate(entries[i]);
      }
      FirstMaxUnique(entries, i, at);
    } else {
      var p := entries[k].prob;
      if p.Some? && p.value > maxProb {
        ScanTakes(entries, fallback, k, best, maxProb, at);
        ScanFindsFirstMax(entries, fallback, k + 1, entries[k].digit, p.value, k, i);
      } else {
        ScanKeeps(entries, fallback, k, best, maxProb, at);
        ScanFindsFirstMax(entries, fallback, k + 1, best, maxProb, at, i);
      }
    }
  }

  /** While no line can beat -1, the scan keeps the fallback. */
  lemma {:induction false} ScanKeepsFallback(entries: seq<LogEntry>, fallback: string, k: nat,
                                             best: string, maxProb: real, at: int)
    requires ScanState(entries, fallback, k, best, maxProb, at)
    requires forall j :: 0 <= j < |entries| ==> !Candidate(entries[j])
    ensures ScanFrom(entries, k, best, maxProb) == fallback
    decreases |entries| - k
  {
    if k < |entries| {
      ScanKeeps(entries, fallback, k, best, maxProb, at);
      ScanKeepsFallback(entries, fallback, k + 1, best, maxProb, at);
    }
  }

  /** The reported digit is the digit of the first maximum, or the fallback
      when no line has a probability. */
  lemma BestDigitChosen(entries: seq<LogEntry>, fallback: string)
    ensures ChosenDigit(entries, fallback, BestDigit(entries, fallback))
  {
    if forall j :: 0 <= j < |entries| ==> !Candidate(entries[j]) {
      ScanKeepsFallback(entries, fallback, 0, fallback, -1.0, -1);
    }
    forall i | IsFirstMax(entries, i)
      ensures BestDigit(entries, fallback) == entries[i].digit
    {
      ScanFindsFirstMax(entries, fallback, 0, fallback, -1.0, -1, i);
    }
  }

  /** The loop of `handlePredict` over the parsed lines. */
  method PickBest(entries: seq<LogEntry>, fallback: string) returns (best: string)
    ensures best == BestDigit(entries, fallback)
  {
    best := fallback;
    var maxProb: real := -1.0;
    var k := 0;
    while k < |entries|
      invariant 0 <= k <= |entries|
      invariant ScanFrom(entries, k, best, maxProb) == BestDigit(entries, fallback)
    {
      var p := entries[k].prob;
      if p.Some? && p.value > maxProb {
        maxProb := p.value;
        best := entries[k].digit;
      }
      k := k + 1;
    }
  }

  const PredictionTag: string := "Prediction: "

  /** The tag followed by `d` sits at the start of `s` exactly when the tag
      does and `d` comes next. */
  lemma TagAt(s: string, d: char)
    requires |s| > |PredictionTag|
    ensures s[..|PredictionTag| + 1] == PredictionTag + [d] <==>
      s[..|PredictionTag|] == PredictionTag && s[|PredictionTag|] == d
  {
    var t := s[..|PredictionTag| + 1];
    assert s[..|PredictionTag|] == t[..|PredictionTag|];
  }

  /** `output.match(/Prediction: (\d)/)`: the digit after the leftmost
      `Prediction: ` that is followed by one. */
  function PredictionCapture(s: string): (c: Option<char>)
    ensures c.Some? ==> IsDigit(c.value) && Contains(s, PredictionTag + [c.value])
    ensures c.None? ==> forall d :: IsDigit(d) ==> !Contains(s, PredictionTag + [d])
    decreases |s|
  {
    if |s| < |PredictionTag| + 1 then None
    else if s[..|PredictionTag|] == PredictionTag && IsDigit(s[|PredictionTag|]) then
      assert s[..|PredictionTag| + 1] == PredictionTag + [s[|PredictionTag|]];
      Some(s[|PredictionTag|])
    else
      var r := PredictionCapture(s[1..]);
      assert forall d :: IsDigit(d) ==> s[..|PredictionTag| + 1] != PredictionTag + [d] by {
        forall d | IsDigit(d)
          ensures s[..|PredictionTag| + 1] != PredictionTag + [d]
        {
          TagAt(s, d);
        }
      }
      r
  }

  /** Whether `Prediction: ` followed by a digit starts at index `k` of `s`. */
  predicate TagDigitAt(s: string, k: int) {
    0 <= k && k + |PredictionTag| + 1 <= |s|
    && s[k..k + |PredictionTag|] == PredictionTag && IsDigit(s[k + |PredictionTag|])
  }

  /** Dropping the first character moves every match one place left. */
  lemma TagDigitShift(s: string, k: int)
    requires |s| > 0 && 0 <= k
    ensures TagDigitAt(s[1..], k) <==> TagDigitAt(s, k + 1)
  {
    if k + |PredictionTag| + 1 <= |s[1..]| {
      assert s[1..][k..k + |PredictionTag|] == s[k + 1..k + 1 + |PredictionTag|];
      assert s[1..][k + |PredictionTag|] == s[k + 1 + |PredictionTag|];
    }
  }

  /** The capture is the leftmost match, as a regular expression without the
      global flag finds it: the digit belongs to a match at some index `k`
      and there is no match before `k`; no capture means no match at all. */
  lemma {:induction false} CaptureIsLeftmost(s: string)
    decreases |s|
    ensures var c := PredictionCapture(s);
      && (c.Some? ==> exists k :: TagDigitAt(s, k) && s[k + |PredictionTag|] == c.value
                                 && forall j :: 0 <= j < k ==> !TagDigitAt(s, j))
      && (c.None? ==> forall k :: !TagDigitAt(s, k))
  {
    var n := |PredictionTag|;
    if |s| < n + 1 {
    } else if s[..n] == PredictionTag && IsDigit(s[n]) {
      assert s[0..n] == s[..n];
      assert TagDigitAt(s, 0);
    } else {
      CaptureIsLeftmost(s[1..]);
      assert s[0..n] == s[..n];
      assert !TagDigitAt(s, 0);
      forall k | 1 <= k
        ensures TagDigitAt(s, k) <==> TagDigitAt(s[1..], k - 1)
      {
        TagDigitShift(s, k - 1);
      }
      var c := PredictionCapture(s[1..]);
      if c.Some? {
        var k' :| TagDigitAt(s[1..], k') && s[1..][k' + n] == c.value
                  && forall j :: 0 <= j < k' ==> !TagDigitAt(s[1..], j);
        assert TagDigitAt(s, k' + 1) && s[k' + 1 + n] == c.value;
        forall j | 0 <= j < k' + 1
          ensures !TagDigitAt(s, j)
        {
          if j > 0 {
            assert !TagDigitAt(s[1..], j - 1);
          }
        }
      }
    }
  }

  /** The digit the page shows before consulting the log: the captured one,
      or `?`. */
  function Fallback(output: string): (f: string)
    ensures |f| == 1
    ensures f == "?" <==> PredictionCapture(output).None?
  {
    match PredictionCapture(output)
    case Some(c) => [c]
    case None => "?"
  }

  /** What the log panel shows: the log lines, or the raw output when no line
      matched. */
  function DisplayLog(output: string): (log: seq<string>)
    ensures |log| >= 1 && |log| <= MaxLogLines
    ensures LogLines(output) != [] ==> log == LogLines(output)
    ensures LogLines(output) == [] ==> log == [output]
  {
    var lines := LogLines(output);
    if |lines| > 0 then lines else [output]
  }

  /** As soon as one line is kept the log decides the digit: every kept line
      is a candidate, so a first maximum exists and the fallback is unused. */
  lemma LogDecides(output: string)
    requires LogLines(output) != []
    ensures exists i :: IsFirstMax(Entries(output), i)
  {
    var lines := LogLines(output);
    KeptLineParses(lines[0]);
    FirstMaxExists(Entries(output), 0);
  }

  // ---------------------------------------------------------------- page state

  /** The answer to the prediction request: a thrown error, or the parsed
      JSON body. */
  datatype Reply = Threw | Replied(success: bool, output: string, inputImage: string)

  /** What a successful reply puts on the page: the digit the scan over the
      parsed log settles on, and the log to display. */
  method AnalyseOutput(output: string) returns (best: string, log: seq<string>)
    ensures best == BestDigit(Entries(output), Fallback(output))
    ensures log == DisplayLog(output)
  {
    best := PickBest(Entries(output), Fallback(output));
    log := DisplayLog(output);
  }

  class Demo {
    var isPredicting: bool
    var prediction: Option<string>
    var processedImage: Option<string>
    var predictionLog: seq<string>
    var lastPredictionTime: Option<int>
    var showVisualization: bool
    /** Whether the drawing canvas is mounted. */
    const hasCanvas: bool

    constructor(hasCanvas: bool)
      ensures this.hasCanvas == hasCanvas && !isPredicting && !showVisualization
      ensures prediction.None? && processedImage.None? && predictionLog == []
      ensures lastPredictionTime.None?
    {
      this.hasCanvas := hasCanvas;
      isPredicting := false;
      prediction := None;
      processedImage := None;
      predictionLog := [];
      lastPredictionTime := None;
      showVisualization := false;
    }

    /** The start of `handlePredict`: without a canvas nothing happens;
        otherwise the page is busy until the reply is handled. */
    method BeginPredict() returns (started: bool)
      modifies this`isPredicting
      ensures started == hasCanvas
      ensures isPredicting == (started || old(isPredicting))
    {
      started := hasCanvas;
      if started {
        isPredicting := true;
      }
    }

    /** The rest of `handlePredict`: a successful reply stores the digit,
        the log, the image, the time and shows the visualization; a failed
        or thrown one changes none of that. Either way the page is no longer
        busy. */
    method FinishPredict(reply: Reply, now: int)
      modifies this`isPredicting, this`prediction, this`predictionLog
      modifies this`processedImage, this`lastPredictionTime, this`showVisualization
      ensures !isPredicting
      ensures reply.Replied? && reply.success ==>
        && prediction == Some(BestDigit(Entries(reply.output), Fallback(reply.output)))
        && predictionLog == DisplayLog(reply.output)
        && processedImage == Some(reply.inputImage)
        && lastPredictionTime == Some(now)
        && showVisualization
      ensures !(reply.Replied? && reply.success) ==>
        && prediction == old(prediction) && predictionLog == old(predictionLog)
        && processedImage == old(processedImage)
        && lastPredictionTime == old(lastPredictionTime)
        && showVisualization == old(showVisualization)
    {
      if reply.Replied? && reply.success {
        var best, log := AnalyseOutput(reply.output);
        ShowResult(best, log, reply.inputImage, now);
      }
      isPredicting := false;
    }

    /** The five state updates of a successful reply. */
    method ShowResult(best: string, log: seq<string>, image: string, now: int)
      modifies this`prediction, this`predictionLog
      modifies this`processedImage, this`lastPredictionTime, this`showVisualization
      ensures prediction == Some(best) && predictionLog == log && processedImage == Some(image)
      ensures lastPredictionTime == Some(now) && showVisualization
    {
      prediction := Some(best);
      predictionLog := log;
      processedImage := Some(image);
      lastPredictionTime := Some(now);
      showVisualization := true;
    }

    /** `handleClear`: every result is reset; a running request stays. */
    method HandleClear()
      modifies this
      ensures prediction.None? && processedImage.None? && predictionLog == []
      ensures !showVisualization && lastPredictionTime.None?
      ensures isPredicting == old(isPredicting)
    {
      prediction := None;
      processedImage := None;
      predictionLog := [];
      showVisualization := false;
      lastPredictionTime := None;
    }
  }

  // ---------------------------------------------------------------- highlight

  const FullMarks: string := "100.00%"

  /** A log line is highlighted when it contains `100.00%` or when the number
      after its first colon is above 50 (NaN, or no colon, is not). */
  predicate HighProb(line: string)
    ensures Free(line, ':') ==> (HighProb(line) <==> Contains(line, FullMarks))
  {
    IndexOfFree(line, ':');
    Contains(line, FullMarks) ||
    var parts := Split(line, ':');
    |parts| >= 2 && ParseFloat(parts[1]).Some? && ParseFloat(parts[1]).value > 50.0
  }

  /** Text after a single colon is the second piece. */
  lemma SecondPieceOfPair(a: string, b: string)
    requires Free(a, ':') && Free(b, ':')
    ensures |Split(a + ":" + b, ':')| == 2 && Split(a + ":" + b, ':')[1] == b
  {
    assert a + ":" + b == Join([a, b], ':');
    SplitJoin([a, b], ':');
  }

  /** The printed probability after the colon and its space reads as the
      fixed-point number it spells. */
  lemma ParsePrintedProbability(whole: string, frac: string)
    requires |whole| >= 1 && AllDigits(whole) && |frac| >= 1 && AllDigits(frac)
    ensures ParseFloat(" " + (whole + "." + frac + "%")) == Some(FixedValue(whole, frac))
  {
    ParseFloatFixed(whole, frac, "%");
    ParseFloatAfterSpaces(" ", whole + "." + frac + "%");
  }

  /** Nor does it hold a colon. */
  lemma PrintedProbabilityFree(whole: string, frac: string)
    requires AllDigits(whole) && AllDigits(frac)
    ensures Free(" " + (whole + "." + frac + "%"), ':')
  {
    var t := " " + (whole + "." + frac + "%");
    assert forall p :: 1 <= p < 1 + |whole| ==> t[p] == whole[p - 1];
    assert forall p :: |whole| + 2 <= p < |whole| + 2 + |frac| ==> t[p] == frac[p - |whole| - 2];
  }

  /** For a line in the classifier's format `d: whole.frac%`, the highlight
      is decided by the printed probability: above 50 always highlights, and
      otherwise only the literal `100.00%` does. */
  lemma HighProbOfLine(a: string, whole: string, frac: string)
    requires |a| >= 1 && AllDigits(a)
    requires |whole| >= 1 && AllDigits(whole) && |frac| >= 1 && AllDigits(frac)
    ensures var line := a + ": " + whole + "." + frac + "%";
      HighProb(line) <==> FixedValue(whole, frac) > 50.0 || Contains(line, FullMarks)
  {
    var second := " " + (whole + "." + frac + "%");
    assert a + ": " + whole + "." + frac + "%" == a + ":" + second;
    assert Free(a, ':') by {
      assert forall p :: 0 <= p < |a| ==> IsDigit(a[p]);
    }
    ParsePrintedProbability(whole, frac);
    PrintedProbabilityFree(whole, frac);
    SecondPieceOfPair(a, second);
  }
}
