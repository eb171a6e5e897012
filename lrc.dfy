/**
 * The LRC lyrics parser: `[mm:ss.xx]text` lines become timed line records and
 * `[tag: value]` lines become tags. The two anchored regular expressions are
 * written out as recognisers, each proved against the grammar of its regex.
 */
module Lrc {
  import opened Optional
  import opened JsText
  import opened Lines

  /** An `[tag: value]` header such as `[ar: Artist]`. */
  datatype LrcTag = LrcTag(tag: string, value: string)

  /** The named groups of `lyricRegex`. */
  datatype LyricGroups = LyricGroups(minutes: string, seconds: string, fraction: string, text: string)

  // ---------------------------------------------------------------------------
  // lyricRegex  ^\[(\d+):(\d+)\.(\d{1,3})\](.*)$
  // ---------------------------------------------------------------------------

  /** A string of `p` characters stops being one at the first character that is not. */
  lemma {:induction false} RunLengthStops(d: string, t: string, p: char -> bool)
    requires forall i :: 0 <= i < |d| ==> p(d[i])
    requires |t| > 0 && !p(t[0])
    ensures RunLength(d + t, p) == |d|
  {
    if |d| > 0 {
      assert (d + t)[1..] == d[1..] + t;
      RunLengthStops(d[1..], t, p);
    }
  }

  /**
   * `\d+` followed by `sep`: the digits and what follows `sep`. Since `sep` is
   * no digit, the greedy run is the only way the pattern can match.
   */
  function DigitsBefore(s: string, sep: char): (r: Option<(string, string)>)
    requires !IsDigit(sep)
    ensures r.Some? ==> |r.value.0| >= 1 && AllDigits(r.value.0) && s == r.value.0 + [sep] + r.value.1
  {
    var n := RunLength(s, IsDigit);
    if n == 0 || n == |s| || s[n] != sep then None
    else
      assert s == s[..n] + [sep] + s[n + 1..];
      Some((s[..n], s[n + 1..]))
  }

  lemma DigitsBeforeExact(d: string, sep: char, rest: string)
    requires !IsDigit(sep) && |d| >= 1 && AllDigits(d)
    ensures DigitsBefore(d + [sep] + rest, sep) == Some((d, rest))
  {
    var s := d + [sep] + rest;
    assert s == d + ([sep] + rest);
    RunLengthStops(d, [sep] + rest, IsDigit);
    assert s[..|d|] == d && s[|d| + 1..] == rest;
  }

  /** The groups are what the regex captures: digit runs, a fraction of 1 to 3 digits, a text on one line. */
  predicate ValidGroups(g: LyricGroups) {
    && |g.minutes| >= 1 && AllDigits(g.minutes)
    && |g.seconds| >= 1 && AllDigits(g.seconds)
    && 1 <= |g.fraction| <= 3 && AllDigits(g.fraction)
    && NoLineTerminator(g.text)
  }

  /** `line.match(lyricRegex)?.groups`. */
  function MatchLyric(line: string): (r: Option<LyricGroups>)
    ensures r.Some? ==> ValidGroups(r.value)
  {
    if |line| == 0 || line[0] != '[' then None
    else
      match DigitsBefore(line[1..], ':')
      case None => None
      case Some((minutes, r1)) =>
        match DigitsBefore(r1, '.')
        case None => None
        case Some((seconds, r2)) =>
          match DigitsBefore(r2, ']')
          case None => None
          case Some((fraction, text)) =>
            if |fraction| <= 3 && NoLineTerminator(text) then Some(LyricGroups(minutes, seconds, fraction, text))
            else None
  }

  /** The text the regex matches with groups `g`. */
  function LyricLine(g: LyricGroups): string {
    "[" + (g.minutes + ":" + (g.seconds + "." + (g.fraction + "]" + g.text)))
  }

  /** The recogniser answers `g` exactly when the line is the regex's match with groups `g`. */
  lemma LyricRegexExact(line: string, g: LyricGroups)
    ensures MatchLyric(line) == Some(g) <==> ValidGroups(g) && line == LyricLine(g)
  {
    if ValidGroups(g) && line == LyricLine(g) {
      LyricRegexComplete(g);
    }
    if MatchLyric(line) == Some(g) {
      LyricRegexSound(line);
    }
  }

  lemma LyricRegexComplete(g: LyricGroups)
    requires ValidGroups(g)
    ensures MatchLyric(LyricLine(g)) == Some(g)
  {
    var line := LyricLine(g);
    var r2 := g.fraction + "]" + g.text;
    var r1 := g.seconds + "." + r2;
    assert line[1..] == g.minutes + ":" + r1;
    DigitsBeforeExact(g.minutes, ':', r1);
    DigitsBeforeExact(g.seconds, '.', r2);
    DigitsBeforeExact(g.fraction, ']', g.text);
  }

  lemma LyricRegexSound(line: string)
    requires MatchLyric(line).Some?
    ensures line == LyricLine(MatchLyric(line).value)
  {
    var g := MatchLyric(line).value;
    var (m, r1) := DigitsBefore(line[1..], ':').value;
    var (sec, r2) := DigitsBefore(r1, '.').value;
    var (f, text) := DigitsBefore(r2, ']').value;
    assert g == LyricGroups(m, sec, f, text);
    calc {
      line;
      [line[0]] + line[1..];
      "[" + (m + ":" + r1);
      "[" + (m + ":" + (sec + "." + r2));
      "[" + (m + ":" + (sec + "." + (f + "]" + text)));
    }
  }

  // ---------------------------------------------------------------------------
  // tagRegex  ^\[(\w+):\s*(.+?)\s*\]$
  // ---------------------------------------------------------------------------

  /** The last position of `s` holding a character `.` matches, if any. */
  function LastNonTerminator(s: string): (r: Option<nat>)
    ensures r.Some? ==> (r.value < |s| && !IsLineTerminator(s[r.value])
      && forall k :: r.value < k < |s| ==> IsLineTerminator(s[k]))
    ensures r.None? ==> forall k :: 0 <= k < |s| ==> IsLineTerminator(s[k])
  {
    if |s| == 0 then None
    else if !IsLineTerminator(s[|s| - 1]) then Some(|s| - 1)
    else LastNonTerminator(s[..|s| - 1])
  }

  /**
   * What `\s*(.+?)\s*` captures from the text between `tag:` and the final `]`.
   * With some non-whitespace present the greedy `\s*` runs up to it and the lazy
   * group stops at the last one: the trimmed text. When everything is
   * whitespace the first `\s*` has to give a character back, so the value is
   * the last whitespace character `.` accepts.
   */
  function TagValue(body: string): Option<string> {
    if AllWhitespace(body) then
      match LastNonTerminator(body)
      case None => None
      case Some(j) => Some([body[j]])
    else
      var v := Trim(body);
      if NoLineTerminator(v) then Some(v) else None
  }

  /** The value is the trimmed text, or for all-whitespace text a single whitespace character. */
  lemma TagValueSpec(body: string)
    ensures var r := TagValue(body);
      && (r.Some? && !AllWhitespace(body) ==> r.value == Trim(body))
      && (r.Some? && AllWhitespace(body) ==> |r.value| == 1 && IsWhitespace(r.value[0]))
  {
  }

  /** `line.match(tagRegex)?.groups`. */
  function MatchTag(line: string): Option<LrcTag> {
    if |line| < 2 || line[0] != '[' || line[|line| - 1] != ']' then None
    else MatchTagInner(line[1..|line| - 1])
  }

  /** `(\w+):\s*(.+?)\s*` against the text between the brackets. */
  function MatchTagInner(inner: string): Option<LrcTag> {
    var n := RunLength(inner, IsWordChar);
    if n == 0 || n == |inner| || inner[n] != ':' then None
    else
      match TagValue(inner[n + 1..])
      case None => None
      case Some(v) => Some(LrcTag(inner[..n], v))
  }

  /** One way the regex can match: `[`, the tag, `:`, whitespace, the value, whitespace, `]`. */
  predicate TagShape(line: string, tag: string, w1: string, v: string, w2: string) {
    && |tag| >= 1 && AllWordChars(tag)
    && AllWhitespace(w1) && |v| >= 1 && NoLineTerminator(v) && AllWhitespace(w2)
    && line == "[" + (tag + ":" + (w1 + v + w2) + "]")
  }

  /** A line `[tag:body]` is recognised exactly when `TagValue` reads `body`, with that tag and value. */
  lemma MatchTagOfParts(line: string, tag: string, body: string)
    requires |tag| >= 1 && AllWordChars(tag)
    requires line == "[" + (tag + ":" + body + "]")
    ensures MatchTag(line) == if TagValue(body).Some? then Some(LrcTag(tag, TagValue(body).value)) else None
  {
    BracketsOfTagLine(line, tag, body);
    MatchTagInnerOf(tag, body);
  }

  /** The brackets of a tag line come off, leaving `tag:body`. */
  lemma BracketsOfTagLine(line: string, tag: string, body: string)
    requires line == "[" + (tag + ":" + body + "]")
    ensures |line| >= 2 && line[0] == '[' && line[|line| - 1] == ']'
    ensures line[1..|line| - 1] == tag + ":" + body
  {
  }

  /** `tag:body` with a `\w+` tag is read as that tag and the value `body` yields. */
  lemma MatchTagInnerOf(tag: string, body: string)
    requires |tag| >= 1 && AllWordChars(tag)
    ensures MatchTagInner(tag + ":" + body) == if TagValue(body).Some? then Some(LrcTag(tag, TagValue(body).value)) else None
  {
    var inner := tag + ":" + body;
    RunLengthStops(tag, ":" + body, IsWordChar);
    assert inner == tag + (":" + body);
    assert inner[..|tag|] == tag && inner[|tag| + 1..] == body;
    MatchTagInnerAt(inner, |tag|);
  }

  /** `MatchTagInner` once the tag's extent and the `:` after it are known. */
  lemma MatchTagInnerAt(inner: string, n: nat)
    requires n == RunLength(inner, IsWordChar) && 0 < n < |inner| && inner[n] == ':'
    ensures MatchTagInner(inner) == if TagValue(inner[n + 1..]).Some? then Some(LrcTag(inner[..n], TagValue(inner[n + 1..]).value)) else None
  {
  }

  /** The text between `tag:` and `]` read as whitespace, a value `.` accepts throughout, whitespace. */
  predicate ValueShape(body: string, w1: string, v: string, w2: string) {
    AllWhitespace(w1) && |v| >= 1 && NoLineTerminator(v) && AllWhitespace(w2) && body == w1 + v + w2
  }

  lemma ThreeSlices(s: string, i: nat, j: nat)
    requires i <= j <= |s|
    ensures s == s[..i] + s[i..j] + s[j..]
  {
  }

  /** A single character `.` accepts, with whitespace around it, is one reading of all-whitespace text. */
  lemma BlankValueShape(body: string, j: nat) returns (w1: string, w2: string)
    requires AllWhitespace(body) && j < |body| && !IsLineTerminator(body[j])
    ensures ValueShape(body, w1, [body[j]], w2)
  {
    w1, w2 := body[..j], body[j + 1..];
    ThreeSlices(body, j, j + 1);
    assert body[j..j + 1] == [body[j]];
  }

  /** The trimmed text, when `.` accepts all of it, is one reading of text that is not all whitespace. */
  lemma TrimmedValueShape(body: string) returns (w1: string, w2: string)
    requires !AllWhitespace(body) && NoLineTerminator(Trim(body))
    ensures ValueShape(body, w1, Trim(body), w2)
  {
    var a := TrimSpan(body);
    var v := Trim(body);
    WhitespaceAround(body, a, a + |v|);
    w1, w2 := body[..a], body[a + |v|..];
  }

  /** Cutting `s` around a span with only whitespace outside it gives two runs of whitespace. */
  lemma WhitespaceAround(s: string, a: nat, b: nat)
    requires a <= b <= |s|
    requires forall k :: 0 <= k < a ==> IsWhitespace(s[k])
    requires forall k :: b <= k < |s| ==> IsWhitespace(s[k])
    ensures AllWhitespace(s[..a]) && AllWhitespace(s[b..]) && s == s[..a] + s[a..b] + s[b..]
  {
    ThreeSlices(s, a, b);
    forall i | 0 <= i < |s| - b ensures IsWhitespace(s[b..][i]) {
      assert s[b..][i] == s[b + i];
    }
  }

  /** The value `TagValue` reports comes with a way of reading the text around it as whitespace. */
  lemma TagValueSound(body: string) returns (w1: string, w2: string)
    requires TagValue(body).Some?
    ensures ValueShape(body, w1, TagValue(body).value, w2)
  {
    if AllWhitespace(body) {
      w1, w2 := BlankValueShape(body, LastNonTerminator(body).value);
    } else {
      w1, w2 := TrimmedValueShape(body);
    }
  }

  /** Where the text is all whitespace, some reading of it gives a value, since one character is not a line terminator. */
  lemma TagValueBlank(body: string, w1: string, v: string, w2: string)
    requires ValueShape(body, w1, v, w2) && AllWhitespace(body)
    ensures TagValue(body).Some? && IsWhitespace(v[0])
  {
    assert body[|w1|] == v[0];
  }

  /** A span whose end characters fail `P` lies inside any stretch outside which every character has `P`. */
  lemma InsideSpan(s: string, p: nat, q: nat, a: nat, b: nat, P: char -> bool)
    requires p <= q <= |s| && a < b <= |s|
    requires forall k :: 0 <= k < p ==> P(s[k])
    requires forall k :: q <= k < |s| ==> P(s[k])
    requires !P(s[a]) && !P(s[b - 1])
    ensures p <= a && b <= q
  {
  }

  /** The character facts `ValueShape` gives, by position in `body`: `v` is `body[p..q]`, whitespace around it. */
  lemma ValueShapeIndex(body: string, w1: string, v: string, w2: string)
    requires ValueShape(body, w1, v, w2)
    ensures var p, q := |w1|, |w1| + |v|;
      && p < q <= |body| && v == body[p..q]
      && (forall k :: 0 <= k < p ==> IsWhitespace(body[k]))
      && (forall k :: q <= k < |body| ==> IsWhitespace(body[k]))
      && (forall k :: p <= k < q ==> !IsLineTerminator(body[k]))
  {
    var p, q := |w1|, |w1| + |v|;
    assert forall k :: 0 <= k < p ==> body[k] == w1[k];
    assert forall k :: q <= k < |body| ==> body[k] == w2[k - q];
    assert forall k :: p <= k < q ==> body[k] == v[k - p];
  }

  /**
   * A span `body[a..b]` with whitespace all around and none at its own ends
   * lies inside `body[p..q]`, which has whitespace all around and no line
   * terminator, so it holds none either; it is `body[p..q]` itself when that
   * has no whitespace at its ends.
   */
  lemma TrimmedInside(body: string, p: nat, q: nat, a: nat, r: string)
    requires p < q <= |body|
    requires forall k :: 0 <= k < p ==> IsWhitespace(body[k])
    requires forall k :: q <= k < |body| ==> IsWhitespace(body[k])
    requires forall k :: p <= k < q ==> !IsLineTerminator(body[k])
    requires |r| > 0 && a + |r| <= |body| && r == body[a..a + |r|]
    requires !IsWhitespace(r[0]) && !IsWhitespace(r[|r| - 1])
    requires forall k :: 0 <= k < a ==> IsWhitespace(body[k])
    requires forall k :: a + |r| <= k < |body| ==> IsWhitespace(body[k])
    ensures NoLineTerminator(r)
    ensures !IsWhitespace(body[p]) && !IsWhitespace(body[q - 1]) ==> r == body[p..q]
  {
    var b := a + |r|;
    assert body[a] == r[0] && body[b - 1] == r[|r| - 1];
    InsideSpan(body, p, q, a, b, IsWhitespace);
    forall i | 0 <= i < |r| ensures !IsLineTerminator(r[i]) {
      assert r[i] == body[a + i];
    }
    if !IsWhitespace(body[p]) && !IsWhitespace(body[q - 1]) {
      InsideSpan(body, a, b, p, q, IsWhitespace);
    }
  }

  /** Trimming such text leaves no line terminator, and leaves `body[p..q]` when that has no whitespace at its ends. */
  lemma TrimOfShape(body: string, p: nat, q: nat)
    requires p < q <= |body| && !AllWhitespace(body)
    requires forall k :: 0 <= k < p ==> IsWhitespace(body[k])
    requires forall k :: q <= k < |body| ==> IsWhitespace(body[k])
    requires forall k :: p <= k < q ==> !IsLineTerminator(body[k])
    ensures NoLineTerminator(Trim(body))
    ensures !IsWhitespace(body[p]) && !IsWhitespace(body[q - 1]) ==> Trim(body) == body[p..q]
  {
    var a := TrimSpan(body);
    TrimmedInside(body, p, q, a, Trim(body));
  }

  /** Otherwise `TagValue` reports the trimmed text, which lies inside `v`. */
  lemma TagValueTrimmed(body: string, w1: string, v: string, w2: string)
    requires ValueShape(body, w1, v, w2) && !AllWhitespace(body)
    ensures TagValue(body).Some?
    ensures !IsWhitespace(v[0]) && !IsWhitespace(v[|v| - 1]) ==> TagValue(body) == Some(v)
  {
    ValueShapeIndex(body, w1, v, w2);
    TrimOfShape(body, |w1|, |w1| + |v|);
    TagValueOfTrimmed(body);
  }


  /** Text that is not all whitespace, trimmed to something `.` accepts throughout, yields its trimmed form. */
  lemma TagValueOfTrimmed(body: string)
    requires !AllWhitespace(body) && NoLineTerminator(Trim(body))
    ensures TagValue(body) == Some(Trim(body))
  {
  }

  /** A matched tag line is `[`, the tag, `:`, the text `TagValue` read, `]`. */
  lemma MatchTagParts(line: string) returns (body: string)
    requires MatchTag(line).Some?
    ensures var t := MatchTag(line).value;
      && |t.tag| >= 1 && AllWordChars(t.tag) && TagValue(body) == Some(t.value)
      && line == "[" + (t.tag + ":" + body + "]")
  {
    var inner := line[1..|line| - 1];
    var n, v := MatchTagInnerSome(inner);
    WordRun(inner);
    body := inner[n + 1..];
    Bracketed(line, inner[..n], body);
  }

  /** A bracketed line whose inside is `tag`, `:`, `body`, written out. */
  lemma Bracketed(line: string, tag: string, body: string)
    requires |line| >= 2 && line[0] == '[' && line[|line| - 1] == ']'
    requires var inner := line[1..|line| - 1];
      |tag| < |inner| && tag == inner[..|tag|] && inner[|tag|] == ':' && body == inner[|tag| + 1..]
    ensures line == "[" + (tag + ":" + body + "]")
  {
    var inner := line[1..|line| - 1];
    assert inner == tag + ":" + body;
    assert line == [line[0]] + inner + [line[|line| - 1]];
  }

  /** What a successful match of the text between the brackets consists of: the tag, the `:` and the value read. */
  lemma MatchTagInnerSome(inner: string) returns (n: nat, v: string)
    requires MatchTagInner(inner).Some?
    ensures n == RunLength(inner, IsWordChar) && 0 < n < |inner| && inner[n] == ':'
    ensures TagValue(inner[n + 1..]) == Some(v) && MatchTagInner(inner) == Some(LrcTag(inner[..n], v))
  {
    n := RunLength(inner, IsWordChar);
    v := TagValue(inner[n + 1..]).value;
  }

  /** The run `\w+` takes is made of word characters. */
  lemma WordRun(s: string)
    ensures AllWordChars(s[..RunLength(s, IsWordChar)])
  {
    var n := RunLength(s, IsWordChar);
    forall i | 0 <= i < n ensures IsWordChar(s[..n][i]) {
      assert s[..n][i] == s[i];
    }
  }

  /** Whatever the recogniser accepts is a match of the regex, with the value it reports. */
  lemma TagRegexSound(line: string)
    requires MatchTag(line).Some?
    ensures exists w1, w2 :: TagShape(line, MatchTag(line).value.tag, w1, MatchTag(line).value.value, w2)
  {
    var t := MatchTag(line).value;
    var body := MatchTagParts(line);
    var w1, w2 := TagValueSound(body);
    assert TagShape(line, t.tag, w1, t.value, w2);
  }

  /**
   * Whenever the regex can match, the recogniser matches with the same tag; and
   * when the value can be read without whitespace at its ends, that is the
   * value reported: surrounding whitespace is stripped.
   */
  lemma TagRegexComplete(line: string, tag: string, w1: string, v: string, w2: string)
    requires TagShape(line, tag, w1, v, w2)
    ensures MatchTag(line).Some? && MatchTag(line).value.tag == tag
    ensures !IsWhitespace(v[0]) && !IsWhitespace(v[|v| - 1]) ==> MatchTag(line) == Some(LrcTag(tag, v))
  {
    var body := w1 + v + w2;
    MatchTagOfParts(line, tag, body);
    if AllWhitespace(body) {
      TagValueBlank(body, w1, v, w2);
    } else {
      TagValueTrimmed(body, w1, v, w2);
    }
  }

  // ---------------------------------------------------------------------------
  // Time stamps
  // ---------------------------------------------------------------------------

  /** `ms2`: the fraction right-padded with `0` and cut to its first two digits. */
  function Centis(fraction: string): (ms2: string)
    requires AllDigits(fraction)
    ensures |ms2| == 2 && AllDigits(ms2)
  {
    PadEnd(fraction, 2, '0')[..2]
  }

  /** The start of a lyric line before the offset: `minutes * 60000 + seconds * 1000 + ms2 * 10`. */
  function TimeInMs(g: LyricGroups): int
    requires ValidGroups(g)
  {
    DigitsValue(g.minutes) * 60000 + DigitsValue(g.seconds) * 1000 + DigitsValue(Centis(g.fraction)) * 10
  }

  /** The time stamp a lyric line keeps: two-digit minutes and seconds, then the two-digit fraction. */
  function TimeStamp(g: LyricGroups): string
    requires ValidGroups(g)
  {
    PadStart(g.minutes, 2, '0') + ":" + PadStart(g.seconds, 2, '0') + "." + Centis(g.fraction)
  }

  /** The milliseconds a decimal fraction of 1 to 3 digits stands for: `.5` is 500, `.12` is 120. */
  function FractionMs(f: string): nat
    requires AllDigits(f) && 1 <= |f| <= 3
  {
    DigitsValue(f) * (if |f| == 1 then 100 else if |f| == 2 then 10 else 1)
  }

  /** The fraction is kept to the hundredth of a second, truncating a third digit: `.123` gives 120 ms. */
  lemma CentisTruncates(f: string)
    requires AllDigits(f) && 1 <= |f| <= 3
    ensures DigitsValue(Centis(f)) * 10 == FractionMs(f) / 10 * 10
  {
    var c := Centis(f);
    if |f| == 1 {
      assert c == f + "0" && c[..1] == f;
      assert DigitsValue(c) == DigitsValue(f) * 10 + DigitValue(c[1]);
    } else if |f| == 2 {
      assert c == f;
    } else {
      assert c == f[..2];
      var x, d := DigitsValue(c), DigitValue(f[2]);
      assert DigitsValue(f) == x * 10 + d && d < 10;
      assert (x * 10 + d) / 10 == x;
    }
  }

  /**
   * Each field goes through `parseInt`, which reads a run of digits as its
   * decimal value, and the start is the minutes, seconds and truncated fraction
   * added up in milliseconds.
   */
  lemma TimeInMsOfGroups(g: LyricGroups)
    requires ValidGroups(g)
    ensures ParseInt(g.minutes) == Some(DigitsValue(g.minutes) as int)
    ensures ParseInt(g.seconds) == Some(DigitsValue(g.seconds) as int)
    ensures ParseInt(Centis(g.fraction)) == Some(DigitsValue(Centis(g.fraction)) as int)
    ensures TimeInMs(g) == DigitsValue(g.minutes) * 60000 + DigitsValue(g.seconds) * 1000 + FractionMs(g.fraction) / 10 * 10
  {
    ParseIntOfDigits(g.minutes, DigitsValue(g.minutes));
    ParseIntOfDigits(g.seconds, DigitsValue(g.seconds));
    ParseIntOfDigits(Centis(g.fraction), DigitsValue(Centis(g.fraction)));
    CentisTruncates(g.fraction);
  }

  // ---------------------------------------------------------------------------
  // Classifying one input line
  // ---------------------------------------------------------------------------

  /** The record a lyric line starts as: trimmed text, lasting until a next line appears, with its time stamp. */
  function LyricRecord(g: LyricGroups): Line
    requires ValidGroups(g)
  {
    Line(Trim(g.text), TimeInMs(g), Inf, Some(TimeStamp(g)))
  }

  /** What one line of the input contributes: a lyric line's record, a tag, an offset, or nothing. */
  datatype Entry = Lyric(line: Line) | Tag(tag: LrcTag) | Offset(value: Option<int>) | Ignored

  /**
   * The body of the parse loop for one line: skipped unless its trimmed form
   * starts with `[`; a lyric when `lyricRegex` matches; otherwise a tag when
   * `tagRegex` matches, the `offset` tag going through `parseInt`; otherwise
   * dropped.
   */
  function Classify(line: string): (e: Entry)
    ensures e.Lyric? <==> TrimmedStartsWith(line, '[') && MatchLyric(line).Some?
    ensures e.Lyric? ==> e.line == LyricRecord(MatchLyric(line).value)
    ensures e.Tag? ==> e.tag.tag != "offset"
  {
    if !TrimmedStartsWith(line, '[') then Ignored
    else
      match MatchLyric(line)
      case Some(g) => Lyric(LyricRecord(g))
      case None =>
        match MatchTag(line)
        case None => Ignored
        case Some(t) => if t.tag == "offset" then Offset(ParseInt(t.value)) else Tag(t)
  }

  /**
   * A line with whitespace before the `[`, or ending in a carriage return left
   * by splitting on `\n` alone, passes the skip test but matches neither
   * anchored pattern, so it is dropped.
   */
  lemma DroppedLines(line: string)
    requires |line| > 0 && (IsWhitespace(line[0]) || line[|line| - 1] == '\r')
    ensures Classify(line) == Ignored
  {
    NoLyricMatch(line);
  }

  lemma NoLyricMatch(line: string)
    requires |line| > 0 && (IsWhitespace(line[0]) || line[|line| - 1] == '\r')
    ensures MatchLyric(line).None?
  {
    if MatchLyric(line).Some? {
      LyricMatchEnds(line);
    }
  }

  /** A line the lyric pattern matches starts with `[` and does not end in `\r`. */
  lemma LyricMatchEnds(line: string)
    requires MatchLyric(line).Some?
    ensures |line| > 0 && line[0] == '[' && line[|line| - 1] != '\r'
  {
    LyricRegexSound(line);
    LyricLineEnds(MatchLyric(line).value);
  }

  /** A lyric line starts with `[` and, its text holding no line terminator, does not end in `\r`. */
  lemma LyricLineEnds(g: LyricGroups)
    requires ValidGroups(g)
    ensures var l := LyricLine(g); |l| > 0 && l[0] == '[' && l[|l| - 1] != '\r'
  {
    var l := LyricLine(g);
    if g.text != [] {
      assert l[|l| - 1] == g.text[|g.text| - 1];
    }
  }

  /** A line whose trimmed form does not start with `[` contributes nothing. */
  lemma SkippedLines(line: string)
    requires !TrimmedStartsWith(line, '[')
    ensures Classify(line) == Ignored
  {
  }

  /** The entries of all input lines, in order. */
  function Classified(rows: seq<string>): (es: seq<Entry>)
    ensures |es| == |rows|
  {
    if rows == [] then [] else Classified(rows[..|rows| - 1]) + [Classify(rows[|rows| - 1])]
  }

  // ---------------------------------------------------------------------------
  // The parse loop, on values
  // ---------------------------------------------------------------------------

  /** The loop's state: the tags so far, the offset (`None` once `parseInt` gave `NaN`), the lines so far. */
  datatype Scan = Scan(tags: seq<LrcTag>, offset: Option<int>, lines: seq<Line>)

  /** `previousLine.duration = timeInMs - previousLine.timeInMs` on the last line, if any. */
  function CloseLast(lines: seq<Line>, t: int): seq<Line> {
    if |lines| == 0 then lines
    else
      var last := lines[|lines| - 1];
      lines[|lines| - 1 := last.(duration := Finite(t - last.timeInMs))]
  }

  /** One turn of the loop, given what the line contributes. */
  function ScanEntry(st: Scan, e: Entry): Scan {
    match e
    case Ignored => st
    case Tag(t) => st.(tags := st.tags + [t])
    case Offset(o) => st.(offset := o)
    case Lyric(l) => st.(lines := CloseLast(st.lines, l.timeInMs) + [l])
  }

  /** The loop over all entries, from no tags, offset 0 and no lines. */
  function ScanEntries(es: seq<Entry>): Scan {
    if es == [] then Scan([], Some(0), [])
    else ScanEntry(ScanEntries(es[..|es| - 1]), es[|es| - 1])
  }

  /** The tags among the entries, in order, duplicates included. */
  function TagsOf(es: seq<Entry>): seq<LrcTag> {
    if es == [] then []
    else TagsOf(es[..|es| - 1]) + (if es[|es| - 1].Tag? then [es[|es| - 1].tag] else [])
  }

  /** The records of the lyric lines among the entries, in order. */
  function RecordsOf(es: seq<Entry>): seq<Line> {
    if es == [] then []
    else RecordsOf(es[..|es| - 1]) + (if es[|es| - 1].Lyric? then [es[|es| - 1].line] else [])
  }

  /** Whether some entry from position `i` on is an offset. */
  predicate OffsetFrom(es: seq<Entry>, i: int) {
    exists j :: i <= j < |es| && 0 <= j && es[j].Offset?
  }

  /**
   * The timed lines as a closed form: line `i` lasts exactly until line `i + 1`
   * starts, and the last one has no end.
   */
  function Timed(recs: seq<Line>): (ls: seq<Line>)
    ensures |ls| == |recs|
  {
    seq(|recs|, i requires 0 <= i < |recs| =>
      recs[i].(duration := if i + 1 < |recs| then Finite(recs[i + 1].timeInMs - recs[i].timeInMs) else Inf))
  }

  lemma TimedSnoc(recs: seq<Line>, r: Line)
    requires r.duration == Inf
    ensures Timed(recs + [r]) == CloseLast(Timed(recs), r.timeInMs) + [r]
  {
    var rs, t := recs + [r], Timed(recs);
    var a, b := Timed(rs), CloseLast(t, r.timeInMs) + [r];
    assert |a| == |b|;
    forall i | 0 <= i < |a| ensures a[i] == b[i] {
      if i + 1 < |recs| {
        assert rs[i] == recs[i] && rs[i + 1] == recs[i + 1];
        assert b[i] == t[i];
      } else if i + 1 == |recs| {
        assert rs[i] == recs[i] && rs[i + 1] == r;
        assert b[i] == t[i].(duration := Finite(r.timeInMs - t[i].timeInMs));
      } else {
        assert a[i] == r.(duration := Inf);
      }
    }
  }

  /** Every lyric entry's record lasts until a next line appears. */
  predicate OpenRecords(es: seq<Entry>) {
    forall i :: 0 <= i < |es| && es[i].Lyric? ==> es[i].line.duration == Inf
  }

  /**
   * The loop collects the tags in order and builds the timed lines of the
   * lyric lines: one per lyric line, each ending where the next begins, the
   * last without end.
   */
  lemma {:induction false} ScanSummary(es: seq<Entry>)
    requires OpenRecords(es)
    ensures ScanEntries(es).tags == TagsOf(es)
    ensures ScanEntries(es).lines == Timed(RecordsOf(es))
  {
    if es != [] {
      var p, x := es[..|es| - 1], es[|es| - 1];
      assert OpenRecords(p) by {
        assert forall i :: 0 <= i < |p| ==> p[i] == es[i];
      }
      ScanSummary(p);
      if x.Lyric? {
        TimedSnoc(RecordsOf(p), x.line);
      }
    }
  }

  /** Without an offset as its last entry, a list has an offset from `i` on exactly when its prefix does. */
  lemma OffsetFromPrefix(es: seq<Entry>, i: int)
    requires es != [] && !es[|es| - 1].Offset?
    ensures OffsetFrom(es, i) <==> OffsetFrom(es[..|es| - 1], i)
  {
    var p := es[..|es| - 1];
    if OffsetFrom(es, i) {
      var j :| i <= j < |es| && 0 <= j && es[j].Offset?;
      assert p[j] == es[j];
    }
    if OffsetFrom(p, i) {
      var j :| i <= j < |p| && 0 <= j && p[j].Offset?;
      assert es[j] == p[j];
    }
  }

  /** The offset in force after the loop is the one the last offset entry gave, or 0 without one. */
  lemma {:induction false} ScanOffset(es: seq<Entry>)
    ensures !OffsetFrom(es, 0) ==> ScanEntries(es).offset == Some(0)
    ensures forall j :: 0 <= j < |es| && es[j].Offset? && !OffsetFrom(es, j + 1) ==>
      ScanEntries(es).offset == es[j].value
  {
    if es != [] {
      var n := |es| - 1;
      var p := es[..n];
      if es[n].Offset? {
        assert OffsetFrom(es, 0);
        forall j | 0 <= j < n && es[j].Offset? ensures OffsetFrom(es, j + 1) {
          assert j + 1 <= n;
        }
      } else {
        ScanOffset(p);
        OffsetFromPrefix(es, 0);
        forall j | 0 <= j < n && es[j].Offset? && !OffsetFrom(es, j + 1)
          ensures ScanEntries(es).offset == es[j].value
        {
          OffsetFromPrefix(es, j + 1);
          assert p[j] == es[j];
        }
      }
    }
  }

  /** Consecutive timed lines meet: each ends exactly where the next begins; the last never ends. */
  lemma TimedGaps(recs: seq<Line>)
    ensures var ls := Timed(recs);
      && (forall i :: 0 <= i < |ls| - 1 ==> End(ls[i]) == Finite(ls[i + 1].timeInMs))
      && (|ls| > 0 ==> ls[|ls| - 1].duration == Inf)
  {
  }

  // ---------------------------------------------------------------------------
  // LRC.parse, on values
  // ---------------------------------------------------------------------------

  /**
   * What `LRC.parse` returns: the tags and the lines; or, when the last
   * `offset` tag made `parseInt` give `NaN` and there are lines to shift, the
   * tags alone (every start time would be `NaN`).
   */
  datatype Lrc = Parsed(tags: seq<LrcTag>, lines: seq<Line>) | OffsetNotANumber(tags: seq<LrcTag>)

  /** The second loop: every start moved by the offset. */
  function Shifted(ls: seq<Line>, offset: int): (r: seq<Line>)
    ensures |r| == |ls|
  {
    seq(|ls|, i requires 0 <= i < |ls| => ls[i].(timeInMs := ls[i].timeInMs + offset))
  }

  /** After the loop: shift by the offset, pad the start past 300 ms with a spanning blank line, merge blank runs. */
  function Finish(st: Scan): (r: Lrc)
    ensures r.tags == st.tags
  {
    match st.offset
    case None => if st.lines == [] then Parsed(st.tags, []) else OffsetNotANumber(st.tags)
    case Some(off) => Parsed(st.tags, Merge(Leading(Shifted(st.lines, off), 300, Span)))
  }

  /** What each line of the text contributes, the text being split on `\n` alone. */
  function Entries(text: string): seq<Entry> {
    Classified(Split(text, '\n'))
  }

  /** The records the lyric lines of the text start as. */
  function LyricRecords(text: string): seq<Line> {
    RecordsOf(Entries(text))
  }

  /** The offset in force when the loop ends. */
  function FinalOffset(text: string): Option<int> {
    ScanEntries(Entries(text)).offset
  }

  /** `LRC.parse`. */
  function ParseLrc(text: string): Lrc {
    Finish(ScanEntries(Entries(text)))
  }

  /** The result never holds two blank lines in a row, and its first line starts by 300 ms. */
  lemma FinishShape(st: Scan)
    requires Finish(st).Parsed?
    ensures NoAdjacentBlanks(Finish(st).lines)
    ensures |Finish(st).lines| > 0 ==> Finish(st).lines[0].timeInMs <= 300
  {
    if st.offset.Some? {
      var padded := Leading(Shifted(st.lines, st.offset.value), 300, Span);
      MergeNoAdjacentBlanks(padded);
      LeadingIdempotent(Shifted(st.lines, st.offset.value), 300, Span);
    }
  }

  lemma ParseLrcShape(text: string)
    requires ParseLrc(text).Parsed?
    ensures NoAdjacentBlanks(ParseLrc(text).lines)
    ensures |ParseLrc(text).lines| > 0 ==> ParseLrc(text).lines[0].timeInMs <= 300
  {
    FinishShape(ScanEntries(Entries(text)));
  }

  /** The tags of `offset` never enter the tag list. */
  lemma {:induction false} TagsNoOffset(es: seq<Entry>)
    requires forall i :: 0 <= i < |es| && es[i].Tag? ==> es[i].tag.tag != "offset"
    ensures forall t :: t in TagsOf(es) ==> t.tag != "offset"
  {
    if es != [] {
      TagsNoOffset(es[..|es| - 1]);
    }
  }

  /** The records lyric lines start as are open-ended, and no tag entry is `offset`. */
  lemma {:induction false} ClassifiedOpen(rows: seq<string>)
    ensures OpenRecords(Classified(rows))
    ensures forall i :: 0 <= i < |rows| && Classified(rows)[i].Tag? ==> Classified(rows)[i].tag.tag != "offset"
  {
    if rows != [] {
      var p := rows[..|rows| - 1];
      ClassifiedOpen(p);
      assert forall i :: 0 <= i < |p| ==> Classified(rows)[i] == Classified(p)[i];
    }
  }

  /**
   * The tags of a parse are the tag lines of the input in order, duplicates
   * kept, none of them `offset`; the result fails only through a `NaN` offset
   * with lines to shift.
   */
  lemma ParseLrcTags(text: string)
    ensures ParseLrc(text).tags == TagsOf(Entries(text))
    ensures forall t :: t in ParseLrc(text).tags ==> t.tag != "offset"
    ensures ParseLrc(text).OffsetNotANumber? <==> FinalOffset(text).None? && LyricRecords(text) != []
  {
    var es := Entries(text);
    ClassifiedOpen(Split(text, '\n'));
    ScanSummary(es);
    TagsNoOffset(es);
  }

  /** A non-blank line of the loop comes out of `Finish` moved by the offset. */
  lemma FinishKeeps(st: Scan, i: nat) returns (k: nat)
    requires st.offset.Some? && i < |st.lines| && !Blank(st.lines[i])
    ensures Finish(st).Parsed? && k < |Finish(st).lines|
    ensures Finish(st).lines[k] == st.lines[i].(timeInMs := st.lines[i].timeInMs + st.offset.value)
  {
    var shifted := Shifted(st.lines, st.offset.value);
    var padded := Leading(shifted, 300, Span);
    var j := if padded == shifted then i else i + 1;
    assert padded[j] == shifted[i];
    k := MergeKeepsNonBlank(padded, j);
  }

  /** A non-blank lyric entry comes out of `Finish`, as its timed line moved by the offset. */
  lemma EntriesKeepLyrics(es: seq<Entry>, i: nat) returns (k: nat)
    requires OpenRecords(es) && ScanEntries(es).offset.Some?
    requires i < |RecordsOf(es)| && !Blank(RecordsOf(es)[i])
    ensures Finish(ScanEntries(es)).Parsed? && k < |Finish(ScanEntries(es)).lines|
    ensures Finish(ScanEntries(es)).lines[k]
      == Timed(RecordsOf(es))[i].(timeInMs := RecordsOf(es)[i].timeInMs + ScanEntries(es).offset.value)
  {
    ScanSummary(es);
    k := FinishKeeps(ScanEntries(es), i);
  }

  /**
   * End to end: every non-blank lyric line reaches the result unchanged but for
   * its start, moved by the offset, and its duration, the gap to the next lyric
   * line's stamp (or none for the last one).
   */
  lemma ParseLrcKeepsLyrics(text: string, i: nat) returns (k: nat)
    requires FinalOffset(text).Some? && i < |LyricRecords(text)| && !Blank(LyricRecords(text)[i])
    ensures ParseLrc(text).Parsed? && k < |ParseLrc(text).lines|
    ensures ParseLrc(text).lines[k]
      == Timed(LyricRecords(text))[i].(timeInMs := LyricRecords(text)[i].timeInMs + FinalOffset(text).value)
  {
    ClassifiedOpen(Split(text, '\n'));
    k := EntriesKeepLyrics(Entries(text), i);
  }

  /**
   * A kept lyric line that is not the last ends where the next lyric line
   * starts, once both are moved by the offset.
   */
  lemma ParseLrcLyricEnd(text: string, i: nat) returns (k: nat)
    requires FinalOffset(text).Some? && i + 1 < |LyricRecords(text)| && !Blank(LyricRecords(text)[i])
    ensures var p := ParseLrc(text);
      && p.Parsed? && k < |p.lines| && p.lines[k].duration.Finite?
      && p.lines[k].timeInMs + p.lines[k].duration.ms == LyricRecords(text)[i + 1].timeInMs + FinalOffset(text).value
  {
    k := ParseLrcKeepsLyrics(text, i);
    KeptEnd(ParseLrc(text).lines, k, LyricRecords(text), i, FinalOffset(text).value);
  }

  /** A line that is record `i` timed and moved by `offset` ends at the next record's start moved by `offset`. */
  lemma KeptEnd(lines: seq<Line>, k: nat, recs: seq<Line>, i: nat, offset: int)
    requires k < |lines| && i + 1 < |recs|
    requires lines[k] == Timed(recs)[i].(timeInMs := recs[i].timeInMs + offset)
    ensures lines[k].duration.Finite? && lines[k].timeInMs + lines[k].duration.ms == recs[i + 1].timeInMs + offset
  {
  }

  /** Timing the records keeps their starts. */
  lemma TimedAscending(recs: seq<Line>)
    requires Ascending(recs)
    ensures Ascending(Timed(recs))
  {
    var ls := Timed(recs);
    assert forall i :: 0 <= i < |ls| ==> ls[i].timeInMs == recs[i].timeInMs;
  }

  /** Moving every start by the same offset keeps their order. */
  lemma ShiftedAscending(ls: seq<Line>, offset: int)
    requires Ascending(ls)
    ensures Ascending(Shifted(ls, offset))
  {
    var r := Shifted(ls, offset);
    assert forall i :: 0 <= i < |r| ==> r[i].timeInMs == ls[i].timeInMs + offset;
  }

  /**
   * Lyric lines whose stamps never go back, with an offset that is a number,
   * give a parse whose starts never go back either.
   */
  lemma ParseLrcMonotone(text: string)
    requires FinalOffset(text).Some? && Ascending(LyricRecords(text))
    ensures ParseLrc(text).Parsed? && Ascending(ParseLrc(text).lines)
  {
    var es := Entries(text);
    ClassifiedOpen(Split(text, '\n'));
    ScanSummary(es);
    var st := ScanEntries(es);
    var shifted := Shifted(st.lines, st.offset.value);
    TimedAscending(RecordsOf(es));
    ShiftedAscending(st.lines, st.offset.value);
    LeadingAscending(shifted, 300, Span);
    MergeAscending(Leading(shifted, 300, Span));
  }

  // ---------------------------------------------------------------------------
  // toLrcTime read back by the lyric pattern
  // ---------------------------------------------------------------------------

  lemma {:induction false} SmallNatDigits(n: nat)
    requires n < 100
    ensures |NatToString(n)| <= 2
  {
  }

  /** A natural number written with `toString` and zero-padded to two places. */
  lemma PaddedNat(n: nat) returns (d: string)
    ensures d == PadStart(IntToString(n), 2, '0')
    ensures |d| >= 2 && AllDigits(d) && DigitsValue(d) == n && PadStart(d, 2, '0') == d
    ensures n < 100 ==> |d| == 2
  {
    d := PadStart(NatToString(n), 2, '0');
    ZeroPaddedValue(NatToString(n), 2);
    if n < 100 {
      SmallNatDigits(n);
    }
  }

  /** Truncating to whole minutes, seconds and centiseconds loses only what is below 10 ms. */
  lemma ClockParts(ms: nat)
    ensures (ms / 60000) * 60000 + (ms % 60000) / 1000 * 1000 + (ms % 1000) / 10 * 10 == ms / 10 * 10
  {
    var r := ms % 60000;
    assert ms == ms / 60000 * 60000 + r;
    assert r % 1000 == ms % 1000 by {
      assert ms == (ms / 60000 * 60) * 1000 + r;
    }
    assert r == r / 1000 * 1000 + r % 1000;
    var c := ms % 1000;
    assert c == c / 10 * 10 + c % 10;
    assert c % 10 == ms % 10 by {
      assert ms == (ms / 1000 * 100) * 10 + c;
    }
  }

  /** `toLrcTime` of a non-negative time is three zero-padded decimal fields. */
  lemma ToLrcTimeParts(ms: nat) returns (a: string, b: string, c: string)
    ensures ToLrcTime(ms) == a + ":" + b + "." + c
    ensures |a| >= 2 && AllDigits(a) && DigitsValue(a) == ms / 60000 && PadStart(a, 2, '0') == a
    ensures |b| == 2 && AllDigits(b) && DigitsValue(b) == ms % 60000 / 1000
    ensures |c| == 2 && AllDigits(c) && DigitsValue(c) == ms % 1000 / 10
  {
    a := PaddedNat(ms / 60000);
    b := PaddedNat(ms % 60000 / 1000);
    c := PaddedNat(ms % 1000 / 10);
  }

  /** A bracketed stamp of valid fields is a lyric line with no text, read back as those fields. */
  lemma BracketedStamp(a: string, b: string, c: string)
    requires ValidGroups(LyricGroups(a, b, c, ""))
    ensures MatchLyric("[" + (a + ":" + b + "." + c) + "]") == Some(LyricGroups(a, b, c, ""))
  {
    var g := LyricGroups(a, b, c, "");
    assert "[" + (a + ":" + b + "." + c) + "]" == LyricLine(g);
    LyricRegexComplete(g);
  }

  /** Two fraction digits are kept as they are. */
  lemma CentisOfTwo(f: string)
    requires |f| == 2 && AllDigits(f)
    ensures Centis(f) == f
  {
  }

  /**
   * The stamp `toLrcTime` writes for a non-negative time, put in brackets, is a
   * lyric line the parser reads back as the same stamp, at the time truncated
   * to 10 ms.
   */
  lemma ToLrcTimeReadBack(ms: nat)
    ensures var g := MatchLyric("[" + ToLrcTime(ms) + "]");
      && g.Some? && TimeStamp(g.value) == ToLrcTime(ms) && TimeInMs(g.value) == ms / 10 * 10
  {
    var a, b, c := ToLrcTimeParts(ms);
    var g := LyricGroups(a, b, c, "");
    StampGroups(a, b, c);
    BracketedStamp(a, b, c);
    ClockParts(ms);
  }

  /** The stamp and the start read from zero-padded fields are those fields and their value. */
  lemma StampGroups(a: string, b: string, c: string)
    requires |a| >= 2 && AllDigits(a) && PadStart(a, 2, '0') == a
    requires |b| == 2 && AllDigits(b) && |c| == 2 && AllDigits(c)
    ensures var g := LyricGroups(a, b, c, "");
      && ValidGroups(g) && TimeStamp(g) == a + ":" + b + "." + c
      && TimeInMs(g) == DigitsValue(a) * 60000 + DigitsValue(b) * 1000 + DigitsValue(c) * 10
  {
    CentisOfTwo(c);
  }

  // ---------------------------------------------------------------------------
  // LRC.parse, on line records updated in place
  // ---------------------------------------------------------------------------

  /** One more input line extends the loop by that line's entry. */
  lemma ScanStep(rows: seq<string>, i: nat)
    requires i < |rows|
    ensures ScanEntries(Classified(rows[..i + 1])) == ScanEntry(ScanEntries(Classified(rows[..i])), Classify(rows[i]))
  {
    assert rows[..i + 1][..i] == rows[..i];
    var es := Classified(rows[..i + 1]);
    assert es[..|es| - 1] == Classified(rows[..i]);
  }

  /**
   * A lyric line's record joins the list: the previous record, the list's last,
   * now lasts until the new one starts.
   */
  method PushLyric(lines: seq<SyncedLineCore>, previous: SyncedLineCore?, v: Line)
    returns (lines': seq<SyncedLineCore>, current: SyncedLineCore)
    requires Distinct(lines)
    requires if lines == [] then previous == null else previous == lines[|lines| - 1]
    modifies previous
    ensures fresh(current) && lines' == lines + [current] && Distinct(lines')
    ensures Values(lines') == CloseLast(old(Values(lines)), v.timeInMs) + [v]
  {
    current := new SyncedLineCore(v);
    if previous != null {
      previous.duration := Finite(current.timeInMs - previous.timeInMs);
    }
    lines' := lines + [current];
  }

  /** The second loop of `LRC.parse`: every record's start moved by the offset. */
  method ShiftAll(lines: seq<SyncedLineCore>, offset: int)
    requires Distinct(lines)
    modifies lines
    ensures Values(lines) == Shifted(old(Values(lines)), offset)
  {
    for k := 0 to |lines|
      invariant forall j :: 0 <= j < k ==>
        lines[j].Value() == old(lines[j].Value()).(timeInMs := old(lines[j].timeInMs) + offset)
      invariant forall j :: k <= j < |lines| ==> lines[j].Value() == old(lines[j].Value())
    {
      lines[k].timeInMs := lines[k].timeInMs + offset;
    }
  }

  /**
   * The body of the first loop, once `Classify` has matched the line: push a
   * lyric line's record, set the offset, or push a tag.
   */
  method ApplyEntry(e: Entry, tags: seq<LrcTag>, offset: Option<int>,
                    lines: seq<SyncedLineCore>, previous: SyncedLineCore?)
    returns (tags': seq<LrcTag>, offset': Option<int>, lines': seq<SyncedLineCore>, previous': SyncedLineCore?)
    requires Distinct(lines)
    requires if lines == [] then previous == null else previous == lines[|lines| - 1]
    modifies previous
    ensures Distinct(lines') && |lines| <= |lines'| && lines'[..|lines|] == lines
    ensures forall k :: |lines| <= k < |lines'| ==> fresh(lines'[k])
    ensures if lines' == [] then previous' == null else previous' == lines'[|lines'| - 1]
    ensures Scan(tags', offset', Values(lines')) == ScanEntry(Scan(tags, offset, old(Values(lines))), e)
  {
    tags', offset', lines', previous' := tags, offset, lines, previous;
    match e
    case Lyric(l) =>
      lines', previous' := PushLyric(lines, previous, l);
    case Offset(o) =>
      offset' := o;
    case Tag(t) =>
      tags' := tags + [t];
    case Ignored =>
  }

  /**
   * After the first loop: with a number for the offset, shift every start,
   * add the leading blank line past 300 ms and merge blank runs; with `NaN`
   * and lines to shift, report it.
   */
  method FinishLines(tags: seq<LrcTag>, offset: Option<int>, lines: seq<SyncedLineCore>)
    returns (lines': seq<SyncedLineCore>, nan: bool)
    requires Distinct(lines)
    modifies lines
    ensures nan <==> Finish(Scan(tags, offset, old(Values(lines)))).OffsetNotANumber?
    ensures !nan ==> Values(lines') == Finish(Scan(tags, offset, old(Values(lines)))).lines
  {
    match offset
    case None =>
      nan := lines != [];
      lines' := [];
    case Some(off) =>
      ShiftAll(lines, off);
      lines' := EnsureLeadingPaddingEmptyLine(lines, 300, Span);
      lines' := MergeConsecutiveEmptySyncedLines(lines');
      nan := false;
  }

  /** The loop of `parse` over the lines of the text: each line's entry applied in order to fresh records. */
  method ScanRows(rows: seq<string>) returns (tags: seq<LrcTag>, offset: Option<int>, lines: seq<SyncedLineCore>)
    ensures Distinct(lines) && forall k :: 0 <= k < |lines| ==> fresh(lines[k])
    ensures Scan(tags, offset, Values(lines)) == ScanEntries(Classified(rows))
  {
    tags := [];
    offset := Some(0);
    lines := [];
    var previous: SyncedLineCore? := null;
    var i := 0;
    while i < |rows|
      invariant i <= |rows|
      invariant Distinct(lines) && forall k :: 0 <= k < |lines| ==> fresh(lines[k])
      invariant if lines == [] then previous == null else previous == lines[|lines| - 1]
      invariant ScanEntries(Classified(rows[..i])) == Scan(tags, offset, Values(lines))
    {
      ScanStep(rows, i);
      var lines';
      tags, offset, lines', previous := ApplyEntry(Classify(rows[i]), tags, offset, lines, previous);
      assert forall k :: 0 <= k < |lines| ==> lines'[k] == lines[k] by {
        assert lines'[..|lines|] == lines;
      }
      lines := lines';
      i := i + 1;
    }
    assert rows[..i] == rows;
  }

  /**
   * `LRC.parse` as the source runs it: the first loop over the lines of the
   * text pushes tags and fresh line records, closing the previous record as
   * each lyric line arrives; the records are then finished in place. `nan`
   * reports the `NaN` offset with lines to shift, whose starts the model does
   * not represent; the records are then not returned.
   */
  method Parse(text: string) returns (tags: seq<LrcTag>, lines: seq<SyncedLineCore>, nan: bool)
    ensures tags == ParseLrc(text).tags
    ensures nan <==> ParseLrc(text).OffsetNotANumber?
    ensures !nan ==> Values(lines) == ParseLrc(text).lines
  {
    var offset;
    tags, offset, lines := ScanRows(Split(text, '\n'));
    lines, nan := FinishLines(tags, offset, lines);
  }
}
