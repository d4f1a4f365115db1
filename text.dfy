/** String helpers with the meaning of the ECMAScript built-ins the pages call:
    `trim`, `split` on one character, `includes`, `replace` of the first
    occurrence of a character, `String(n)` for naturals, `padStart` and
    `parseFloat`. A Dafny `char` is a Unicode scalar value, so a character
    outside the Basic Multilingual Plane counts once here where JavaScript,
    which counts UTF-16 code units, counts it twice; the texts these helpers
    read are ASCII apart from white space. */
module Text {
  import opened Wrappers

  predicate IsDigit(c: char) {
    '0' <= c <= '9'
  }

  /** ECMAScript WhiteSpace and LineTerminator code points: exactly what
      `String.prototype.trim` strips, what `parseFloat` skips and what `\s`
      matches in a regular expression. */
  predicate IsSpace(c: char) {
    c == ' ' || ('\t' <= c <= '\r') || (c >= '\U{00A0}' && IsWideSpace(c))
  }

  predicate IsWideSpace(c: char) {
    c == '\U{00A0}' || c == '\U{1680}' || ('\U{2000}' <= c <= '\U{200A}')
    || c == '\U{2028}' || c == '\U{2029}' || c == '\U{202F}' || c == '\U{205F}'
    || c == '\U{3000}' || c == '\U{FEFF}'
  }

  predicate AllDigits(s: string) {
    forall k :: 0 <= k < |s| ==> IsDigit(s[k])
  }

  // ---------------------------------------------------------------- trim

  /** The first position at or after `i` that is not white space. */
  function SkipSpaces(s: string, i: nat): (j: nat)
    requires i <= |s|
    ensures i <= j <= |s|
    ensures forall k :: i <= k < j ==> IsSpace(s[k])
    ensures j < |s| ==> !IsSpace(s[j])
    decreases |s| - i
  {
    if i < |s| && IsSpace(s[i]) then SkipSpaces(s, i + 1) else i
  }

  /** The end of `s[lo..j]` once its trailing white space is cut off. */
  function SkipSpacesBack(s: string, lo: nat, j: nat): (e: nat)
    requires lo <= j <= |s|
    ensures lo <= e <= j
    ensures forall k :: e <= k < j ==> IsSpace(s[k])
    ensures e > lo ==> !IsSpace(s[e - 1])
    decreases j
  {
    if j > lo && IsSpace(s[j - 1]) then SkipSpacesBack(s, lo, j - 1) else j
  }

  /** `trimStart`: `s` without its leading white space. */
  function TrimStart(s: string): (r: string)
    ensures r == s[SkipSpaces(s, 0)..]
    ensures r == [] || !IsSpace(r[0])
  {
    s[SkipSpaces(s, 0)..]
  }

  /** Where the trimmed text starts and ends. */
  function TrimBounds(s: string): (b: (nat, nat))
    ensures b.0 <= b.1 <= |s|
    ensures forall k :: 0 <= k < b.0 ==> IsSpace(s[k])
    ensures forall k :: b.1 <= k < |s| ==> IsSpace(s[k])
    ensures b.0 < b.1 ==> !IsSpace(s[b.0]) && !IsSpace(s[b.1 - 1])
  {
    var i := SkipSpaces(s, 0);
    (i, SkipSpacesBack(s, i, |s|))
  }

  /** The white space found is the white space that is there. */
  lemma {:induction false} SkipSpacesStops(s: string, i: nat, j: nat)
    requires i <= j < |s|
    requires forall k :: i <= k < j ==> IsSpace(s[k])
    requires !IsSpace(s[j])
    ensures SkipSpaces(s, i) == j
    decreases j - i
  {
    if i < j {
      SkipSpacesStops(s, i + 1, j);
    }
  }

  /** `trim`: the slice of `s` between its leading and its trailing white space. */
  function Trim(s: string): (r: string)
    ensures |r| <= |s|
    ensures r == [] || (!IsSpace(r[0]) && !IsSpace(r[|r| - 1]))
    ensures r == [] <==> forall k :: 0 <= k < |s| ==> IsSpace(s[k])
  {
    s[TrimBounds(s).0..TrimBounds(s).1]
  }

  /** Text whose first non-blank character sits at `n` trims to text that
      starts there, with that character. */
  lemma TrimStartsAt(s: string, n: nat)
    requires n < |s| && !IsSpace(s[n])
    requires forall k :: 0 <= k < n ==> IsSpace(s[k])
    ensures TrimBounds(s).0 == n < TrimBounds(s).1
    ensures |Trim(s)| > 0 && Trim(s)[0] == s[n]
  {
    SkipSpacesStops(s, 0, n);
  }

  // ---------------------------------------------------------------- split

  /** `s` holds no `c`. */
  predicate Free(s: string, c: char) {
    forall p :: 0 <= p < |s| ==> s[p] != c
  }

  /** The first position at or after `i` holding `c`, or `|s|` when none does. */
  function FindFrom(s: string, c: char, i: nat): (j: nat)
    requires i <= |s|
    ensures i <= j <= |s|
    ensures forall k :: i <= k < j ==> s[k] != c
    ensures j < |s| ==> s[j] == c
    decreases |s| - i
  {
    if i == |s| || s[i] == c then i else FindFrom(s, c, i + 1)
  }

  /** `s.indexOf(c)`, with `|s|` standing for -1. */
  function IndexOf(s: string, c: char): (i: nat)
    ensures i <= |s| && (i < |s| ==> s[i] == c)
    ensures forall k :: 0 <= k < i ==> s[k] != c
  {
    FindFrom(s, c, 0)
  }

  /** Not found means absent. */
  lemma IndexOfFree(s: string, c: char)
    ensures IndexOf(s, c) == |s| <==> Free(s, c)
  {
  }

  /** The first occurrence is the only position holding `c` with no `c`
      before it. */
  lemma IndexOfFirst(s: string, c: char, i: nat)
    requires i < |s| && s[i] == c
    requires forall k :: 0 <= k < i ==> s[k] != c
    ensures IndexOf(s, c) == i
  {
  }

  /** A character first found at `i` in the slice `s[lo..hi]`, and absent
      before `lo`, is first found at `lo + i` in `s`. */
  lemma IndexOfInSlice(s: string, lo: nat, hi: nat, c: char, i: nat)
    requires lo <= hi <= |s| && i < hi - lo
    requires s[lo..hi][i] == c && forall p :: 0 <= p < i ==> s[lo..hi][p] != c
    requires forall p :: 0 <= p < lo ==> s[p] != c
    ensures IndexOf(s, c) == lo + i
  {
    assert forall p :: lo <= p < hi ==> s[p] == s[lo..hi][p - lo];
    IndexOfFirst(s, c, lo + i);
  }

  /** Pieces glued back together with the separator between them. */
  function Join(parts: seq<string>, sep: char): string
    requires |parts| >= 1
  {
    if |parts| == 1 then parts[0] else parts[0] + [sep] + Join(parts[1..], sep)
  }

  /** `s.split(sep)` for a one-character separator: the pieces between the
      separators, in order, empty pieces included. */
  function Split(s: string, sep: char): (parts: seq<string>)
    ensures |parts| >= 1
    ensures |parts| >= 2 <==> IndexOf(s, sep) < |s|
    decreases |s|
  {
    var i := IndexOf(s, sep);
    if i == |s| then [s] else [s[..i]] + Split(s[i + 1..], sep)
  }

  /** No piece holds the separator. */
  lemma {:induction false} SplitPiecesFree(s: string, sep: char)
    ensures forall k :: 0 <= k < |Split(s, sep)| ==> Free(Split(s, sep)[k], sep)
    decreases |s|
  {
    var i := IndexOf(s, sep);
    if i < |s| {
      SplitPiecesFree(s[i + 1..], sep);
      assert Split(s, sep) == [s[..i]] + Split(s[i + 1..], sep);
    }
  }

  /** Joining a first piece in front of more pieces puts one separator
      between it and the rest. */
  lemma JoinCons(p: string, rest: seq<string>, sep: char)
    requires |rest| >= 1
    ensures Join([p] + rest, sep) == p + [sep] + Join(rest, sep)
  {
    assert ([p] + rest)[1..] == rest;
  }

  /** Joining the pieces with the separator gives the text back. */
  lemma {:induction false} JoinSplit(s: string, sep: char)
    ensures Join(Split(s, sep), sep) == s
    decreases |s|
  {
    var i := IndexOf(s, sep);
    if i < |s| {
      var head, tail := s[..i], s[i + 1..];
      var rest := Split(tail, sep);
      SplitAtFirst(s, sep);
      JoinSplit(tail, sep);
      JoinCons(head, rest, sep);
      CutAt(s, i);
      assert Join(Split(s, sep), sep) == head + [sep] + tail;
    } else {
      assert Split(s, sep) == [s];
    }
  }

  /** With a separator present, the pieces are the text before the first
      one followed by the pieces of the text after it. */
  lemma SplitAtFirst(s: string, sep: char)
    requires IndexOf(s, sep) < |s|
    ensures Split(s, sep) == [s[..IndexOf(s, sep)]] + Split(s[IndexOf(s, sep) + 1..], sep)
  {
  }

  /** A text is the part before index `i`, the character there and the part
      after it. */
  lemma CutAt(s: string, i: nat)
    requires i < |s|
    ensures s == s[..i] + [s[i]] + s[i + 1..]
  {
  }

  /** The first piece is the text before the first separator, or all of it
      when there is none. */
  lemma SplitHead(s: string, sep: char)
    ensures Split(s, sep)[0] == s[..IndexOf(s, sep)]
  {
  }

  /** The second piece is the first piece of what follows the first
      separator. */
  lemma SplitSecondIsHead(s: string, sep: char)
    requires IndexOf(s, sep) < |s|
    ensures Split(s, sep)[1] == Split(s[IndexOf(s, sep) + 1..], sep)[0]
  {
    var i := IndexOf(s, sep);
    var rest := Split(s[i + 1..], sep);
    assert Split(s, sep) == [s[..i]] + rest;
    assert ([s[..i]] + rest)[1] == rest[0];
  }

  /** When the first `m` characters are no separator, the first piece
      starts with all of them. */
  lemma HeadCovers(s: string, sep: char, m: nat)
    requires m <= |s| && forall p :: 0 <= p < m ==> s[p] != sep
    ensures var h := Split(s, sep)[0];
      |h| >= m && forall p :: 0 <= p < m ==> h[p] == s[p]
  {
    SplitHead(s, sep);
  }

  /** When the `m` characters after the first separator are no separator,
      the second piece starts with them. */
  lemma SecondCovers(s: string, sep: char, m: nat)
    requires IndexOf(s, sep) + 1 + m <= |s|
    requires forall p :: IndexOf(s, sep) < p <= IndexOf(s, sep) + m ==> s[p] != sep
    ensures var i := IndexOf(s, sep); var piece := Split(s, sep)[1];
      |piece| >= m && forall p :: 0 <= p < m ==> piece[p] == s[i + 1 + p]
  {
    var i := IndexOf(s, sep);
    SplitSecondIsHead(s, sep);
    HeadCovers(s[i + 1..], sep, m);
  }

  /** Splitting undoes joining: the pieces come back exactly. */
  lemma {:induction false} SplitJoin(parts: seq<string>, sep: char)
    requires |parts| >= 1
    requires forall k :: 0 <= k < |parts| ==> Free(parts[k], sep)
    ensures Split(Join(parts, sep), sep) == parts
  {
    var s := Join(parts, sep);
    var p := parts[0];
    if |parts| == 1 {
      IndexOfFree(s, sep);
    } else {
      var tail := Join(parts[1..], sep);
      assert s == p + [sep] + tail;
      IndexOfFirst(s, sep, |p|);
      assert s[..|p|] == p;
      assert s[|p| + 1..] == tail;
      SplitJoin(parts[1..], sep);
    }
  }

  // ---------------------------------------------------------------- search

  /** `s.includes(sub)`; the empty string is in every string. */
  predicate Contains(s: string, sub: string)
    ensures Contains(s, sub) ==> |sub| <= |s|
    ensures sub == [] ==> Contains(s, sub)
    decreases |s|
  {
    if |sub| > |s| then false
    else if s[..|sub|] == sub then true
    else |s| > 0 && Contains(s[1..], sub)
  }

  /** A string contains every one of its infixes. */
  lemma {:induction false} ContainsInfix(a: string, sub: string, b: string)
    ensures Contains(a + sub + b, sub)
  {
    var s := a + sub + b;
    if a == [] {
      assert s[..|sub|] == sub;
    } else if s[..|sub|] != sub {
      assert s[1..] == a[1..] + sub + b;
      ContainsInfix(a[1..], sub, b);
    }
  }

  /** `sub` occurs in `s` starting at index `k`. */
  predicate OccursAt(s: string, sub: string, k: int) {
    0 <= k && k + |sub| <= |s| && s[k..k + |sub|] == sub
  }

  /** Dropping the first character moves every occurrence one place left. */
  lemma OccursAtShift(s: string, sub: string, k: int)
    requires |s| > 0 && 0 <= k
    ensures OccursAt(s[1..], sub, k) <==> OccursAt(s, sub, k + 1)
  {
    if k + |sub| <= |s[1..]| {
      assert s[1..][k..k + |sub|] == s[k + 1..k + 1 + |sub|];
    }
  }

  /** The scan finds `sub` exactly when it occurs at some index. */
  lemma {:induction false} ContainsAt(s: string, sub: string)
    ensures Contains(s, sub) <==> exists k :: OccursAt(s, sub, k)
    decreases |s|
  {
    if |sub| > |s| {
    } else if s[..|sub|] == sub {
      assert s[0..|sub|] == s[..|sub|];
      assert OccursAt(s, sub, 0);
    } else {
      assert s[0..|sub|] == s[..|sub|];
      assert !OccursAt(s, sub, 0);
      if |s| > 0 {
        ContainsAt(s[1..], sub);
        if Contains(s[1..], sub) {
          var k :| OccursAt(s[1..], sub, k);
          OccursAtShift(s, sub, k);
        }
        forall k | OccursAt(s, sub, k)
          ensures Contains(s[1..], sub)
        {
          OccursAtShift(s, sub, k - 1);
        }
      }
    }
  }

  /** `s.replace(c, '')` with a one-character string pattern: only the first
      occurrence is removed, so a text without `c` is unchanged and any other
      loses exactly one `c` and keeps every other character. */
  function RemoveFirst(s: string, c: char): (r: string)
    ensures Free(s, c) ==> r == s
    ensures !Free(s, c) ==> |r| == |s| - 1 && multiset(r) + multiset{c} == multiset(s)
  {
    var i := IndexOf(s, c);
    IndexOfFree(s, c);
    if i < |s| then
      assert s == s[..i] + [c] + s[i + 1..];
      s[..i] + s[i + 1..]
    else s
  }

  /** Removing a character the text does not start with keeps its first
      character in front. */
  lemma RemoveFirstKeepsHead(s: string, c: char)
    requires |s| > 0 && s[0] != c
    ensures |RemoveFirst(s, c)| > 0 && RemoveFirst(s, c)[0] == s[0]
  {
  }

  // ---------------------------------------------------------------- numbers as text

  function DigitChar(d: nat): (c: char)
    requires d < 10
    ensures IsDigit(c)
  {
    (('0' as int) + d) as char
  }

  function DigitValue(c: char): (d: nat)
    requires IsDigit(c)
    ensures d < 10 && DigitChar(d) == c
  {
    (c as int) - ('0' as int)
  }

  /** The value of a string of decimal digits. */
  function DigitsValue(s: string): nat
    requires AllDigits(s)
  {
    if s == [] then 0 else DigitsValue(s[..|s| - 1]) * 10 + DigitValue(s[|s| - 1])
  }

  /** `String(n)` for a natural number: decimal digits without leading zeros. */
  function DecimalString(n: nat): (s: string)
    ensures |s| >= 1 && AllDigits(s)
    ensures |s| > 1 ==> s[0] != '0'
    ensures |s| == 1 <==> n < 10
  {
    if n < 10 then [DigitChar(n)] else DecimalString(n / 10) + [DigitChar(n % 10)]
  }

  /** Reading the digits back gives the number: formatting loses nothing. */
  lemma {:induction false} DecimalRoundTrip(n: nat)
    ensures DigitsValue(DecimalString(n)) == n
  {
    if n >= 10 {
      var s := DecimalString(n);
      DecimalRoundTrip(n / 10);
      assert s[..|s| - 1] == DecimalString(n / 10);
    }
  }

  /** Distinct numbers have distinct decimal strings. */
  lemma DecimalInjective(m: nat, n: nat)
    requires DecimalString(m) == DecimalString(n)
    ensures m == n
  {
    DecimalRoundTrip(m);
    DecimalRoundTrip(n);
  }

  /** Two-digit numbers format with exactly two characters. */
  lemma {:induction false} DecimalLengthTwo(n: nat)
    requires 10 <= n < 100
    ensures |DecimalString(n)| == 2
  {
    assert DecimalString(n) == DecimalString(n / 10) + [DigitChar(n % 10)];
  }

  /** A leading zero does not change the value of a digit string. */
  lemma {:induction false} LeadingZero(s: string)
    requires AllDigits(s)
    ensures AllDigits("0" + s) && DigitsValue("0" + s) == DigitsValue(s)
    decreases |s|
  {
    var t := "0" + s;
    if s != [] {
      assert t[..|t| - 1] == "0" + s[..|s| - 1];
      assert t[|t| - 1] == s[|s| - 1];
      LeadingZero(s[..|s| - 1]);
    } else {
      assert t[..0] == [];
    }
  }

  /** A run of digits in front of text that starts with a non-digit is
      read off uniquely: equal texts have equal runs and equal rests. */
  lemma DigitsPrefixUnique(a: string, x: string, b: string, y: string)
    requires AllDigits(a) && AllDigits(b)
    requires |x| > 0 && !IsDigit(x[0]) && |y| > 0 && !IsDigit(y[0])
    requires a + x == b + y
    ensures a == b && x == y
  {
    var s := a + x;
    assert s[|a|] == x[0] && s == b + y && s[|b|] == y[0];
    DigitRunStops(s, 0, |a|);
    DigitRunStops(s, 0, |b|);
    assert a == s[..|a|] == b;
    assert x == s[|a|..] == y;
  }

  /** `s.padStart(width, fill)`: `fill` repeated in front until `s` is `width`
      long; a string that is already long enough is left alone. */
  function PadStart(s: string, width: nat, fill: char): (r: string)
    ensures |r| == if |s| >= width then |s| else width
    ensures r[|r| - |s|..] == s
    ensures forall k :: 0 <= k < |r| - |s| ==> r[k] == fill
    decreases width - |s|
  {
    if |s| >= width then s else PadStart([fill] + s, width, fill)
  }

  // ---------------------------------------------------------------- parseFloat

  /** The end of the run of decimal digits that starts at `i`. */
  function DigitRun(s: string, i: nat): (j: nat)
    requires i <= |s|
    ensures i <= j <= |s|
    ensures forall k :: i <= k < j ==> IsDigit(s[k])
    ensures j < |s| ==> !IsDigit(s[j])
    decreases |s| - i
  {
    if i < |s| && IsDigit(s[i]) then DigitRun(s, i + 1) else i
  }

  /** The run found is the one that is there. */
  lemma {:induction false} DigitRunStops(s: string, i: nat, j: nat)
    requires i <= j <= |s|
    requires forall k :: i <= k < j ==> IsDigit(s[k])
    requires j < |s| ==> !IsDigit(s[j])
    ensures DigitRun(s, i) == j
    decreases j - i
  {
    if i < j {
      DigitRunStops(s, i + 1, j);
    }
  }

  function Pow10(n: nat): (p: real)
    ensures p >= 1.0
  {
    if n == 0 then 1.0 else 10.0 * Pow10(n - 1)
  }

  /** The factor an exponent part `e[+-]digits` starting at `k` stands for; 1
      when there is no complete exponent part there. */
  function ExponentScale(t: string, k: nat): (f: real)
    requires k <= |t|
    ensures f > 0.0
  {
    if k < |t| && (t[k] == 'e' || t[k] == 'E') then
      var signed := k + 1 < |t| && (t[k + 1] == '+' || t[k + 1] == '-');
      var d0 := if signed then k + 2 else k + 1;
      var d1 := DigitRun(t, d0);
      if d1 == d0 then 1.0
      else if signed && t[k + 1] == '-' then 1.0 / Pow10(DigitsValue(t[d0..d1]))
      else Pow10(DigitsValue(t[d0..d1]))
    else 1.0
  }

  /** The end of the fraction part `.digits` that may follow position `j`;
      `j` itself when there is no dot there. */
  function FractionEnd(t: string, j: nat): (k: nat)
    requires j <= |t|
    ensures j <= k <= |t|
    ensures k > j <==> j < |t| && t[j] == '.'
  {
    if j < |t| && t[j] == '.' then DigitRun(t, j + 1) else j
  }

  /** The value of `t[i..j]` as whole part and `t[j+1..k]` as fraction. */
  function Mantissa(t: string, i: nat, j: nat, k: nat): (m: real)
    requires i <= j <= k <= |t|
    requires forall p :: i <= p < j ==> IsDigit(t[p])
    requires k > j ==> forall p :: j + 1 <= p < k ==> IsDigit(t[p])
    ensures m >= 0.0
  {
    var whole := DigitsValue(t[i..j]) as real;
    if k > j + 1 then whole + DigitsValue(t[j + 1..k]) as real / Pow10(k - j - 1) else whole
  }

  /** An unsigned decimal literal read from position `i`: digits, an optional
      fraction and an optional exponent, with at least one mantissa digit. */
  function ParseUnsigned(t: string, i: nat): (r: Option<real>)
    requires i <= |t|
    ensures r.Some? ==> r.value >= 0.0
  {
    var j := DigitRun(t, i);
    var k := FractionEnd(t, j);
    if j == i && k <= j + 1 then None
    else Some(Mantissa(t, i, j, k) * ExponentScale(t, k))
  }

  /** `parseFloat(s)`: after leading white space, the longest prefix of the form
      `[+-] digits [. digits] [e[+-]digits]` with at least one mantissa digit,
      read as an exact real; `None` stands for NaN. */
  function ParseFloat(s: string): (r: Option<real>)
    ensures TrimStart(s) == [] ==> r.None?
    ensures r.Some? && r.value < 0.0 ==> TrimStart(s)[0] == '-'
  {
    var t := TrimStart(s);
    if |t| > 0 && t[0] == '-' then
      match ParseUnsigned(t, 1)
      case Some(v) => Some(-v)
      case None => None
    else if |t| > 0 && t[0] == '+' then ParseUnsigned(t, 1)
    else ParseUnsigned(t, 0)
  }

  /** Leading white space does not change where the trimmed text starts. */
  lemma TrimStartAfterSpaces(w: string, s: string)
    requires forall p :: 0 <= p < |w| ==> IsSpace(w[p])
    ensures TrimStart(w + s) == TrimStart(s)
  {
    var ws := w + s;
    var j := SkipSpaces(s, 0);
    assert forall p :: |w| <= p < |ws| ==> ws[p] == s[p - |w|];
    if j < |s| {
      SkipSpacesStops(ws, 0, |w| + j);
      assert ws[|w| + j..] == s[j..];
    } else {
      assert forall p :: 0 <= p < |ws| ==> IsSpace(ws[p]);
    }
  }

  /** `parseFloat` skips leading white space. */
  lemma ParseFloatAfterSpaces(w: string, s: string)
    requires forall p :: 0 <= p < |w| ==> IsSpace(w[p])
    ensures ParseFloat(w + s) == ParseFloat(s)
  {
    TrimStartAfterSpaces(w, s);
    ParseFloatReadsTrimmed(w + s, s);
  }

  /** `parseFloat` looks only at the text after leading white space. */
  lemma ParseFloatReadsTrimmed(a: string, b: string)
    requires TrimStart(a) == TrimStart(b)
    ensures ParseFloat(a) == ParseFloat(b)
  {
  }

  /** Text that starts (after white space) with a digit always reads as a
      number, and never as a negative one. */
  lemma ParseFloatLeadingDigit(s: string)
    requires var t := TrimStart(s); |t| > 0 && IsDigit(t[0])
    ensures ParseFloat(s).Some? && ParseFloat(s).value >= 0.0
  {
    var t := TrimStart(s);
    assert t[0] != '-' && t[0] != '+';
    assert ParseFloat(s) == ParseUnsigned(t, 0);
    assert DigitRun(t, 0) >= 1;
  }

  /** Text that starts with a digit run ending at `j`, an optional fraction
      ending at `k` and no exponent after it reads as that mantissa. */
  lemma ParseFloatPlain(t: string, j: nat, k: nat)
    requires 0 < j <= k <= |t|
    requires forall p :: 0 <= p < j ==> IsDigit(t[p])
    requires j < |t| ==> !IsDigit(t[j])
    requires FractionEnd(t, j) == k && ExponentScale(t, k) == 1.0
    ensures ParseFloat(t) == Some(Mantissa(t, 0, j, k))
  {
    assert !IsSpace(t[0]);
    assert SkipSpaces(t, 0) == 0;
    assert TrimStart(t) == t;
    assert ParseFloat(t) == ParseUnsigned(t, 0);
    DigitRunStops(t, 0, j);
  }

  /** `parseFloat` reads back what `String(n)` writes, whatever follows that
      cannot continue a number. */
  lemma ParseFloatDecimal(n: nat, rest: string)
    requires rest == [] || (!IsDigit(rest[0]) && rest[0] !in ".eE")
    ensures ParseFloat(DecimalString(n) + rest) == Some(n as real)
  {
    var d := DecimalString(n);
    var t := d + rest;
    assert FractionEnd(t, |d|) == |d|;
    assert ExponentScale(t, |d|) == 1.0;
    ParseFloatPlain(t, |d|, |d|);
    assert t[0..|d|] == d;
    DecimalRoundTrip(n);
  }

  /** The value of the fixed-point literal `whole.frac`. */
  function FixedValue(whole: string, frac: string): real
    requires AllDigits(whole) && AllDigits(frac)
  {
    DigitsValue(whole) as real + DigitsValue(frac) as real / Pow10(|frac|)
  }

  /** `parseFloat` of a fixed-point literal `int.frac` followed by something
      that cannot continue it (such as `%`) is the value of the literal. */
  lemma ParseFloatFixed(whole: string, frac: string, rest: string)
    requires |whole| >= 1 && AllDigits(whole) && |frac| >= 1 && AllDigits(frac)
    requires rest == [] || (!IsDigit(rest[0]) && rest[0] !in "eE")
    ensures ParseFloat(whole + "." + frac + rest) == Some(FixedValue(whole, frac))
  {
    var t := whole + "." + frac + rest;
    var j := |whole|;
    var k := j + 1 + |frac|;
    FixedLayout(whole, frac, rest);
    FixedScan(t, j, k);
    ParseFloatPlain(t, j, k);
    MantissaOfPieces(t, j, k, whole, frac);
  }

  /** Where the pieces of `whole.frac rest` sit. */
  lemma FixedLayout(whole: string, frac: string, rest: string)
    requires AllDigits(whole) && AllDigits(frac)
    requires rest == [] || (!IsDigit(rest[0]) && rest[0] !in "eE")
    ensures var t := whole + "." + frac + rest; var j := |whole|; var k := j + 1 + |frac|;
      && |t| == k + |rest|
      && t[0..j] == whole && t[j] == '.' && t[j + 1..k] == frac
      && (forall p :: 0 <= p < j ==> IsDigit(t[p]))
      && (forall p :: j + 1 <= p < k ==> IsDigit(t[p]))
      && (k < |t| ==> !IsDigit(t[k]) && t[k] != 'e' && t[k] != 'E')
  {
    var t := whole + "." + frac + rest;
    var j := |whole|;
    assert forall p :: j + 1 <= p < j + 1 + |frac| ==> t[p] == frac[p - j - 1];
  }

  /** A fraction ends at `k` and no exponent follows it. */
  lemma FixedScan(t: string, j: nat, k: nat)
    requires j + 1 < k <= |t| && t[j] == '.'
    requires forall p :: j + 1 <= p < k ==> IsDigit(t[p])
    requires k < |t| ==> !IsDigit(t[k]) && t[k] != 'e' && t[k] != 'E'
    ensures FractionEnd(t, j) == k && ExponentScale(t, k) == 1.0
  {
    DigitRunStops(t, j + 1, k);
  }

  lemma MantissaOfPieces(t: string, j: nat, k: nat, whole: string, frac: string)
    requires j + 1 < k <= |t| && t[0..j] == whole && t[j + 1..k] == frac
    requires forall p :: 0 <= p < j ==> IsDigit(t[p])
    requires forall p :: j + 1 <= p < k ==> IsDigit(t[p])
    ensures Mantissa(t, 0, j, k) == FixedValue(whole, frac)
  {
  }
}
