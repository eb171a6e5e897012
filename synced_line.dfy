/**
 * The placeholder stepper of an empty synced line: the end delay a line keeps
 * before its end, the placeholder state shown as playback goes through the
 * line, when the states are shown cumulatively, when a placeholder is shown at
 * all, and the animation delay of each word of a lyric line. Times are whole
 * milliseconds; `Math.round` is written out as rounding half up.
 */
module SyncedLine {
  import opened Optional
  import opened JsText
  import opened Lines

  /** `END_DELAY_SECONDS`, in milliseconds. */
  const EndDelayMs := 1000
  /** `WORD_ANIM_DELAY_STEP`, in milliseconds. */
  const WordAnimDelayStepMs := 50
  const LongMs := 3000
  const ShortMs := 1000
  /** `Math.round(SHORT_SECONDS * 1000 * 0.3)`. */
  const ShortMinGapMs := 150

  function Min(a: int, b: int): int {
    if a <= b then a else b
  }

  function Max(a: int, b: int): int {
    if a >= b then a else b
  }

  /** `r` is the integer nearest to `num / den`, halves going up: what `Math.round` gives. */
  predicate RoundsTo(num: int, den: int, r: int)
    requires den > 0
  {
    (2 * r - 1) * den <= 2 * num < (2 * r + 1) * den
  }

  /** `Math.round(num / den)`. */
  function Round(num: int, den: int): (r: int)
    requires den > 0
    ensures RoundsTo(num, den, r)
  {
    (2 * num + den) / (2 * den)
  }

  /** Multiplying by a positive number keeps a strict order the other way round. */
  lemma CancelLess(a: int, b: int, den: int)
    requires den > 0 && a * den < b * den
    ensures a < b
  {
  }

  /** There is only one such integer. */
  lemma RoundsToUnique(num: int, den: int, r: int, r': int)
    requires den > 0 && RoundsTo(num, den, r) && RoundsTo(num, den, r')
    ensures r == r'
  {
    CancelLess(2 * r - 1, 2 * r' + 1, den);
    CancelLess(2 * r' - 1, 2 * r + 1, den);
  }

  // ---------------------------------------------------------------------------
  // computeEndDelayMs
  // ---------------------------------------------------------------------------

  /**
   * The end delay of a line lasting `total`: one second for long (or endless)
   * lines; between 1000 and 3000 ms the rounded interpolation from half a
   * second to a second; below that the smaller of 80 % of the line and the line
   * less a 150 ms gap.
   */
  function ComputeEndDelayMs(total: Duration): (d: int)
    ensures total.Inf? || total.ms > LongMs ==> d == EndDelayMs
    ensures total.Finite? && ShortMs <= total.ms <= LongMs ==>
      500 <= d <= 1000 && RoundsTo(500 * (LongMs - ShortMs) + 500 * (total.ms - ShortMs), LongMs - ShortMs, d)
    ensures total.Finite? && total.ms < ShortMs ==>
      d <= total.ms - ShortMinGapMs && d <= Round(8 * total.ms, 10)
      && (d == total.ms - ShortMinGapMs || d == Round(8 * total.ms, 10))
  {
    match total
    case Inf => EndDelayMs
    case Finite(t) =>
      if t > LongMs then EndDelayMs
      else if t >= ShortMs then Round(t + 1000, 4)
      else Min(Round(8 * t, 10), t - ShortMinGapMs)
  }

  lemma EndDelayEndpoints()
    ensures ComputeEndDelayMs(Finite(ShortMs)) == 500
    ensures ComputeEndDelayMs(Finite(LongMs)) == 1000
  {
  }

  // ---------------------------------------------------------------------------
  // The `index` memo of EmptyLine
  // ---------------------------------------------------------------------------

  /** `Math.round(x / 1000) * 1000`. */
  function RoundToSecond(x: int): (r: int)
    ensures r % 1000 == 0 && 2 * (r - x) <= 1000 && 2 * (x - r) < 1000
  {
    Round(x, 1000) * 1000
  }

  lemma RoundToSecondMonotone(x: int, y: int)
    requires x <= y
    ensures RoundToSecond(x) <= RoundToSecond(y)
  {
    assert (2 * x + 1000) / 2000 <= (2 * y + 1000) / 2000;
  }

  /**
   * The part of a line of `total` ms the steps are spread over: the line less
   * its end delay, in whole seconds when the timing is not precise and the line
   * is longer than a second.
   */
  function EffectiveTotal(total: int, precise: bool): int {
    var endDelayMs := ComputeEndDelayMs(Finite(total));
    if total <= ShortMs then total - endDelayMs
    else if precise then total - endDelayMs
    else RoundToSecond(total - endDelayMs)
  }

  /** The time into the line, in whole seconds when the timing is not precise. */
  function EffectiveProgress(progress: int, precise: bool): int {
    if precise then progress else RoundToSecond(progress)
  }

  /**
   * The placeholder state shown `currentTime` ms into playback of `line`:
   * `floor((stepCount - 1) * min(1, progress / effectiveTotal))`, at least 0;
   * 0 for a single state, for a non-positive effective total, and for a line
   * without end (the progress over `Infinity` is 0).
   */
  function StepIndex(currentTime: int, line: Line, stepCount: nat, precise: bool): (r: int)
    ensures r >= 0
    ensures stepCount >= 1 ==> r < stepCount
  {
    if stepCount == 1 then 0
    else
      match line.duration
      case Inf => 0
      case Finite(total) =>
        StepAt(EffectiveProgress(currentTime - line.timeInMs, precise), EffectiveTotal(total, precise), stepCount)
  }

  /** The step for an effective progress `p` over an effective total `e`, with `stepCount` states. */
  function StepAt(p: int, e: int, stepCount: nat): (r: int)
    ensures r >= 0
    ensures stepCount >= 1 ==> r < stepCount
  {
    if e <= 0 then 0
    else if p >= e then Max(0, stepCount - 1)
    else Max(0, StepBelow(stepCount - 1, p, e))
  }

  /** The step grows with the progress. */
  lemma StepAtMonotone(p: int, p': int, e: int, stepCount: nat)
    requires p <= p' && stepCount >= 1
    ensures StepAt(p, e, stepCount) <= StepAt(p', e, stepCount)
  {
    if e > 0 && p' < e {
      StepBelowMonotone(stepCount - 1, p, p', e);
    }
  }

  /** `floor(n * p / e)`, the step reached before the end of the effective total. */
  function StepBelow(n: int, p: int, e: int): (r: int)
    requires e > 0 && p < e
    ensures n >= 0 ==> r <= n && (n > 0 ==> r < n)
    ensures n >= 0 && p <= 0 ==> r <= 0
  {
    StepBelowBound(n, p, e);
    n * p / e
  }

  lemma StepBelowBound(n: int, p: int, e: int)
    requires e > 0 && p < e
    ensures n >= 0 ==> n * p / e <= n && (n > 0 ==> n * p / e < n)
    ensures n >= 0 && p <= 0 ==> n * p / e <= 0
  {
    var q := n * p / e;
    assert q * e <= n * p;
    if n > 0 {
      assert n * p < n * e;
      CancelLess(q, n, e);
    }
    if n >= 0 && p <= 0 {
      assert n * p <= 0;
      CancelLess(q, 1, e);
    }
  }

  /** Integer division by a positive number keeps the order. */
  lemma DivMonotone(a: int, b: int, e: int)
    requires e > 0 && a <= b
    ensures a / e <= b / e
  {
    assert (a / e) * e <= a && b < (b / e + 1) * e;
    CancelLess(a / e, b / e + 1, e);
  }

  /** `floor(n * p / e)` grows with `p`. */
  lemma StepBelowMonotone(n: nat, p: int, p': int, e: int)
    requires e > 0 && p <= p' < e
    ensures StepBelow(n, p, e) <= StepBelow(n, p', e)
  {
    assert n * p <= n * p';
    DivMonotone(n * p, n * p', e);
  }

  /** A lone state is always the one shown. */
  lemma SingleStateIndex(currentTime: int, line: Line, precise: bool)
    ensures StepIndex(currentTime, line, 1, precise) == 0
  {
  }

  /** Before the line starts, the first state is shown. */
  lemma IndexBeforeStart(currentTime: int, line: Line, stepCount: nat, precise: bool)
    requires stepCount >= 1 && currentTime < line.timeInMs
    ensures StepIndex(currentTime, line, stepCount, precise) == 0
  {
    if line.duration.Finite? {
      var e := EffectiveTotal(line.duration.ms, precise);
      var p := EffectiveProgress(currentTime - line.timeInMs, precise);
      if !precise {
        RoundToSecondMonotone(currentTime - line.timeInMs, 0);
      }
      assert p <= 0;
    }
  }

  /** Once the effective total has gone by, the last state is shown. */
  lemma IndexAtEnd(currentTime: int, total: int, line: Line, stepCount: nat, precise: bool)
    requires stepCount >= 1 && line.duration == Finite(total) && EffectiveTotal(total, precise) > 0
    requires EffectiveProgress(currentTime - line.timeInMs, precise) >= EffectiveTotal(total, precise)
    ensures StepIndex(currentTime, line, stepCount, precise) == stepCount - 1
  {
  }

  /** As playback moves forward the shown state never goes back. */
  lemma IndexMonotone(t: int, t': int, line: Line, stepCount: nat, precise: bool)
    requires stepCount >= 1 && t <= t'
    ensures StepIndex(t, line, stepCount, precise) <= StepIndex(t', line, stepCount, precise)
  {
    if stepCount > 1 && line.duration.Finite? {
      var e := EffectiveTotal(line.duration.ms, precise);
      var p := EffectiveProgress(t - line.timeInMs, precise);
      var p' := EffectiveProgress(t' - line.timeInMs, precise);
      ProgressMonotone(t - line.timeInMs, t' - line.timeInMs, precise);
      StepAtMonotone(p, p', e, stepCount);
      assert StepIndex(t, line, stepCount, precise) == StepAt(p, e, stepCount);
      assert StepIndex(t', line, stepCount, precise) == StepAt(p', e, stepCount);
    }
  }

  /** The effective progress grows with the time into the line. */
  lemma ProgressMonotone(x: int, y: int, precise: bool)
    requires x <= y
    ensures EffectiveProgress(x, precise) <= EffectiveProgress(y, precise)
  {
    if !precise {
      RoundToSecondMonotone(x, y);
    }
  }

  /** Without precise timing, a line over a second is stepped in whole seconds. */
  lemma CoarseWholeSeconds(total: int, progress: int)
    requires total > ShortMs
    ensures EffectiveTotal(total, false) % 1000 == 0
    ensures EffectiveProgress(progress, false) % 1000 == 0
  {
  }

  /** A line of at most a second keeps at least the 150 ms gap to step over. */
  lemma ShortLineKeepsGap(total: int, precise: bool)
    requires total <= ShortMs
    ensures EffectiveTotal(total, precise) >= ShortMinGapMs
  {
  }

  /**
   * The effective total of a line with an end is always positive, so the
   * `effectiveTotal <= 0` guard never returns: the first branch of `StepAt`
   * is never taken from `StepIndex`.
   */
  lemma EffectiveTotalPositive(total: int, precise: bool)
    ensures EffectiveTotal(total, precise) > 0
  {
    if total <= ShortMs {
      ShortLineKeepsGap(total, precise);
    } else {
      var d := ComputeEndDelayMs(Finite(total));
      assert total - d >= 500;
      if !precise {
        assert RoundToSecond(total - d) >= 1000;
      }
    }
  }

  // ---------------------------------------------------------------------------
  // The `states`, `isCumulative` and `shouldRenderPlaceholder` memos
  // ---------------------------------------------------------------------------

  /** The configured `defaultTextString`: one text or a list of them. */
  datatype DefaultText = Single(text: string) | Many(texts: seq<string>)

  /**
   * The placeholder states: the list, or the one text alone; `''` without a
   * configuration. Only a configured empty list leaves no state at all, which
   * is the one case where the step index has no state to name.
   */
  function States(config: Option<DefaultText>): (states: seq<string>)
    ensures |states| == 0 <==> config == Some(Many([]))
    ensures !(config.Some? && config.value.Many?) ==>
      && |states| == 1 && !IsCumulative(states)
      && states[0] == (if config.None? then "" else config.value.text)
    ensures config.Some? && config.value.Many? ==> states == config.value.texts
  {
    match config
    case None => [""]
    case Some(Single(s)) => [s]
    case Some(Many(a)) => a
  }

  /** `s.every((value) => value === x)`. */
  predicate Every(s: seq<string>, x: string) {
    s == [] || (s[0] == x && Every(s[1..], x))
  }

  lemma {:induction false} EveryAll(s: seq<string>, x: string)
    ensures Every(s, x) <==> forall i :: 0 <= i < |s| ==> s[i] == x
  {
    if s != [] {
      EveryAll(s[1..], x);
      assert forall i :: 1 <= i < |s| ==> s[i] == s[1..][i - 1];
    }
  }

  /** The states are shown cumulatively: at least two of them, all equal to the first. */
  function IsCumulative(states: seq<string>): (b: bool)
    ensures b <==> |states| >= 2 && forall i, j :: 0 <= i < j < |states| ==> states[i] == states[j]
  {
    EveryAll(states, if |states| > 0 then states[0] else "");
    |states| > 1 && Every(states, states[0])
  }

  /** What the status of a line is, relative to the current one. */
  datatype Status = Upcoming | Current | Previous

  /**
   * A placeholder shows on the current line; on a blank line also whenever
   * `showEmptyLineSymbols` is set (false without a configuration).
   */
  function ShouldRenderPlaceholder(text: string, showEmptyLineSymbols: bool, status: Status): (b: bool)
    ensures b <==> status == Current || (IsBlank(text) && showEmptyLineSymbols)
  {
    if IsBlank(text) then showEmptyLineSymbols || status == Current else status == Current
  }

  /** The text of the state shown, `states()[index()] ?? ''`. */
  function ShownState(states: seq<string>, index: int): string {
    if 0 <= index < |states| then states[index] else ""
  }

  /** With at least one state, the index always names one of them. */
  lemma ShownStateInRange(states: seq<string>, currentTime: int, line: Line, precise: bool)
    requires |states| >= 1
    ensures ShownState(states, StepIndex(currentTime, line, |states|, precise)) in states
  {
  }

  /** Unless an empty list is configured, the text shown is always one of the configured states. */
  lemma ShownConfiguredState(config: Option<DefaultText>, currentTime: int, line: Line, precise: bool)
    requires config != Some(Many([]))
    ensures var states := States(config);
      ShownState(states, StepIndex(currentTime, line, |states|, precise)) in states
  {
    ShownStateInRange(States(config), currentTime, line, precise);
  }

  // ---------------------------------------------------------------------------
  // renderWordSpans
  // ---------------------------------------------------------------------------

  /** One word of a lyric line: the text shown and its transition and animation delay. */
  datatype WordSpan = WordSpan(text: string, delayMs: nat)

  /** The words of `input` split on single spaces, each shown with a space after it, word `i` delayed by `i * 50` ms. */
  function WordSpans(input: string): (spans: seq<WordSpan>)
    ensures |spans| == |Split(input, ' ')|
    ensures forall i :: 0 <= i < |spans| ==> spans[i].delayMs == i * WordAnimDelayStepMs
    ensures forall i :: 0 <= i < |spans| ==>
      var t := spans[i].text; |t| >= 1 && t[|t| - 1] == ' ' && ' ' !in t[..|t| - 1]
  {
    var words := Split(input, ' ');
    seq(|words|, i requires 0 <= i < |words| => WordSpan(words[i] + " ", i * WordAnimDelayStepMs))
  }

  /** The texts of the spans, one after another. */
  function Shown(spans: seq<WordSpan>): string {
    if spans == [] then "" else spans[0].text + Shown(spans[1..])
  }

  function Spaced(words: seq<string>): seq<WordSpan> {
    seq(|words|, i requires 0 <= i < |words| => WordSpan(words[i] + " ", i * WordAnimDelayStepMs))
  }

  lemma {:induction false} ShownSpaced(words: seq<string>, from: nat)
    requires from < |words|
    ensures Shown(Spaced(words)[from..]) == Join(words[from..], " ") + " "
    decreases |words| - from
  {
    var sp := Spaced(words);
    assert sp[from..][1..] == sp[from + 1..];
    assert words[from..][1..] == words[from + 1..];
    if from + 1 < |words| {
      ShownSpaced(words, from + 1);
    } else {
      assert sp[from + 1..] == [];
    }
  }

  /** The words shown, one after another, spell the line followed by one space. */
  lemma WordSpansSpellInput(input: string)
    ensures Shown(WordSpans(input)) == input + " "
  {
    var words := Split(input, ' ');
    assert WordSpans(input) == Spaced(words);
    ShownSpaced(words, 0);
    assert Spaced(words)[0..] == Spaced(words) && words[0..] == words;
    JoinSplit(input, ' ');
  }
}
