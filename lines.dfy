/**
 * The line-repair transforms of the synced-lyrics plugin
 * (src/plugins/synced-lyrics/shared/lines.ts).
 *
 * A timed line is a mutable record `{text, timeInMs, duration, time?}`; the
 * transforms receive arrays of such records, build new arrays that share the
 * records, and in two places change a shared record's `duration` in place.
 * The records are therefore the class `SyncedLineCore`; `Line` is the value a
 * record holds at one moment, and the functions `Merge`, `Leading` and
 * `Trailing` say on values what the methods do to the records.
 */
module Lines {
  import opened Optional
  import opened JsText

  /** A duration or end time in milliseconds; `Inf` is JavaScript's `Infinity`. */
  datatype Duration = Finite(ms: int) | Inf

  /** `Math.max` on two end times. */
  function MaxDuration(a: Duration, b: Duration): (r: Duration)
    ensures r == a || r == b
    ensures r.Inf? <==> a.Inf? || b.Inf?
    ensures r.Finite? ==> r.ms >= a.ms && r.ms >= b.ms
  {
    match (a, b)
    case (Finite(x), Finite(y)) => Finite(if x >= y then x else y)
    case _ => Inf
  }

  /** `timeInMs + duration`. */
  function EndOf(timeInMs: int, duration: Duration): Duration {
    match duration
    case Finite(d) => Finite(timeInMs + d)
    case Inf => Inf
  }

  /** `end - start`, the duration that makes a line starting at `start` end at `end`. */
  function Since(end: Duration, start: int): (d: Duration)
    ensures EndOf(start, d) == end
  {
    match end
    case Finite(e) => Finite(e - start)
    case Inf => Inf
  }

  /** The value of one line record. `time` is the optional formatted time stamp. */
  datatype Line = Line(text: string, timeInMs: int, duration: Duration, time: Option<string>)

  function End(l: Line): Duration {
    EndOf(l.timeInMs, l.duration)
  }

  predicate Blank(l: Line) {
    IsBlank(l.text)
  }

  /** A line record, shared by reference between arrays. */
  class SyncedLineCore {
    var text: string
    var timeInMs: int
    var duration: Duration
    var time: Option<string>

    /** `Object.assign({}, ...)`: a new record holding `v`. */
    constructor (v: Line)
      ensures Value() == v
    {
      text, timeInMs, duration, time := v.text, v.timeInMs, v.duration, v.time;
    }

    function Value(): Line
      reads this
    {
      Line(text, timeInMs, duration, time)
    }
  }

  /** The values the records of `s` hold now. */
  function Values(s: seq<SyncedLineCore>): (vs: seq<Line>)
    reads s
    ensures |vs| == |s| && forall i :: 0 <= i < |s| ==> vs[i] == s[i].Value()
  {
    seq(|s|, i reads s requires 0 <= i < |s| => s[i].Value())
  }

  /** No record occurs twice. */
  predicate Distinct(s: seq<SyncedLineCore>) {
    forall i, j :: 0 <= i < j < |s| ==> s[i] != s[j]
  }

  // ---------------------------------------------------------------------------
  // mergeConsecutiveEmptySyncedLines
  // ---------------------------------------------------------------------------

  /** The kept blank line `prev` stretched so that it also covers `l`. */
  function Extended(prev: Line, l: Line): (r: Line)
    ensures r.text == prev.text && r.timeInMs == prev.timeInMs && r.time == prev.time
    ensures End(r) == MaxDuration(End(prev), End(l))
  {
    prev.(duration := Since(MaxDuration(End(prev), End(l)), prev.timeInMs))
  }

  /** One turn of the merge loop: a blank line right after a kept blank line is folded into it. */
  function MergeStep(acc: seq<Line>, l: Line): seq<Line> {
    if Blank(l) && |acc| > 0 && Blank(acc[|acc| - 1]) then
      acc[|acc| - 1 := Extended(acc[|acc| - 1], l)]
    else
      acc + [l]
  }

  /** `mergeConsecutiveEmptySyncedLines` on values. */
  function Merge(s: seq<Line>): (r: seq<Line>)
    ensures |r| <= |s|
    ensures |r| == 0 <==> |s| == 0
    ensures |s| > 0 ==> r[0].text == s[0].text && r[0].timeInMs == s[0].timeInMs && r[0].time == s[0].time
  {
    if s == [] then [] else MergeStep(Merge(s[..|s| - 1]), s[|s| - 1])
  }

  predicate NoAdjacentBlanks(s: seq<Line>) {
    forall i :: 0 < i < |s| ==> !(Blank(s[i - 1]) && Blank(s[i]))
  }

  /** Line `i` survives the merge: it is not a blank line directly after a blank line. */
  predicate Kept(s: seq<Line>, i: int)
    requires 0 <= i < |s|
  {
    !(i > 0 && Blank(s[i - 1]) && Blank(s[i]))
  }

  /** The positions of the surviving lines, in increasing order. */
  ghost function KeptIndices(s: seq<Line>): (ix: seq<nat>)
    ensures forall k :: 0 <= k < |ix| ==> ix[k] < |s|
    ensures forall k, m :: 0 <= k < m < |ix| ==> ix[k] < ix[m]
  {
    if s == [] then []
    else
      var n := |s| - 1;
      var ix := KeptIndices(s[..n]);
      if Kept(s, n) then ix + [n] else ix
  }

  /** `KeptIndices` lists exactly the positions of the lines that survive. */
  lemma {:induction false} KeptIndicesExact(s: seq<Line>)
    ensures forall i :: 0 <= i < |s| ==> (Kept(s, i) <==> i in KeptIndices(s))
  {
    if s != [] {
      var n := |s| - 1;
      var p := s[..n];
      KeptIndicesExact(p);
      forall i | 0 <= i < |s| ensures Kept(s, i) <==> i in KeptIndices(s) {
        if i < n {
          assert Kept(s, i) == Kept(p, i);
        }
      }
    }
  }

  /** The latest end over a non-empty run of lines. */
  function MaxEndOf(run: seq<Line>): Duration
    requires |run| > 0
  {
    if |run| == 1 then End(run[0]) else MaxDuration(MaxEndOf(run[..|run| - 1]), End(run[|run| - 1]))
  }

  /** Where the run of lines merged into the `k`-th survivor stops. */
  function RunStop(ix: seq<nat>, n: nat, k: nat): nat
    requires k < |ix|
  {
    if k + 1 < |ix| then ix[k + 1] else n
  }

  predicate SameStart(a: Line, b: Line) {
    a.text == b.text && a.timeInMs == b.timeInMs && a.time == b.time
  }

  /**
   * The `k`-th output line `r[k]` comes from input line `ix[k]`: same text,
   * start and time stamp; unchanged when that line is not blank; and when it
   * is blank, ending at the latest end of the blank run it absorbed, up to the
   * next survivor.
   */
  ghost predicate Survivor(s: seq<Line>, r: seq<Line>, ix: seq<nat>, k: nat) {
    && k < |r| && k < |ix| && ix[k] < |s|
    && SameStart(r[k], s[ix[k]])
    && (!Blank(s[ix[k]]) ==> r[k] == s[ix[k]])
    && (Blank(s[ix[k]]) ==>
          && ix[k] < RunStop(ix, |s|, k) <= |s|
          && End(r[k]) == MaxEndOf(s[ix[k]..RunStop(ix, |s|, k)]))
  }

  /** A survivor stays one when the blank line `x` is folded into the last output line, itself blank. */
  lemma SurvivorAfterFold(p: seq<Line>, x: Line, r: seq<Line>, ix: seq<nat>, k: nat)
    requires Survivor(p, r, ix, k) && |r| == |ix|
    requires forall m :: 0 <= m < |ix| ==> ix[m] < |p|
    requires Blank(x) && Blank(r[|r| - 1])
    ensures Survivor(p + [x], r[|r| - 1 := Extended(r[|r| - 1], x)], ix, k)
  {
    var s := p + [x];
    var n := |p|;
    var last := |r| - 1;
    assert s[..n] == p;
    if k < last && Blank(s[ix[k]]) {
      var stop := ix[k + 1];
      assert RunStop(ix, |s|, k) == stop == RunStop(ix, |p|, k);
      assert s[ix[k]..stop] == p[ix[k]..stop];
    } else if k == last && Blank(s[ix[k]]) {
      var run := s[ix[k]..n + 1];
      assert RunStop(ix, |p|, k) == n && RunStop(ix, |s|, k) == n + 1;
      assert run[..|run| - 1] == s[ix[k]..n] == p[ix[k]..n];
      assert run[|run| - 1] == x;
    }
  }

  /** A survivor stays one when `x` is appended as a new output line, and `x` is a survivor itself. */
  lemma SurvivorAfterAppend(p: seq<Line>, x: Line, r: seq<Line>, ix: seq<nat>, k: nat)
    requires k < |r| ==> Survivor(p, r, ix, k)
    requires k <= |r| == |ix|
    requires forall m :: 0 <= m < |ix| ==> ix[m] < |p|
    ensures Survivor(p + [x], r + [x], ix + [|p|], k)
  {
    var s := p + [x];
    var ix' := ix + [|p|];
    if k < |r| && Blank(s[ix'[k]]) {
      assert s[ix'[k]..RunStop(ix', |s|, k)] == p[ix[k]..RunStop(ix, |p|, k)];
    } else if k == |r| {
      assert s[ix'[k]..RunStop(ix', |s|, k)] == [x];
    }
  }

  /**
   * What the merge produces, stated without the loop: one output line per
   * surviving input line (see `Kept`), in order, each related to its input
   * line as `Survivor` says; so a merged blank run keeps its start and its
   * latest end, and the time it covers is preserved.
   */
  lemma {:induction false} MergeShape(s: seq<Line>)
    ensures |Merge(s)| == |KeptIndices(s)|
    ensures forall k :: 0 <= k < |Merge(s)| ==> Survivor(s, Merge(s), KeptIndices(s), k)
    ensures |s| > 0 ==> Blank(Merge(s)[|Merge(s)| - 1]) == Blank(s[|s| - 1])
  {
    if s != [] {
      var n := |s| - 1;
      var p, x := s[..n], s[n];
      assert s == p + [x];
      MergeShape(p);
      MergeShapeStep(p, x);
    }
  }

  /** The inductive step of `MergeShape`: appending one line to the input. */
  lemma MergeShapeStep(p: seq<Line>, x: Line)
    requires |Merge(p)| == |KeptIndices(p)|
    requires forall k :: 0 <= k < |Merge(p)| ==> Survivor(p, Merge(p), KeptIndices(p), k)
    requires |p| > 0 ==> Blank(Merge(p)[|Merge(p)| - 1]) == Blank(p[|p| - 1])
    ensures |Merge(p + [x])| == |KeptIndices(p + [x])|
    ensures forall k :: 0 <= k < |Merge(p + [x])| ==> Survivor(p + [x], Merge(p + [x]), KeptIndices(p + [x]), k)
    ensures Blank(Merge(p + [x])[|Merge(p + [x])| - 1]) == Blank(x)
  {
    MergeStepUnfold(p, x);
    var s := p + [x];
    var r0, ix0 := Merge(p), KeptIndices(p);
    if Blank(x) && |p| > 0 && Blank(r0[|r0| - 1]) {
      forall k | 0 <= k < |Merge(s)| ensures Survivor(s, Merge(s), KeptIndices(s), k) {
        SurvivorAfterFold(p, x, r0, ix0, k);
      }
    } else {
      forall k | 0 <= k < |Merge(s)| ensures Survivor(s, Merge(s), KeptIndices(s), k) {
        SurvivorAfterAppend(p, x, r0, ix0, k);
      }
    }
  }

  /** The merge output never holds two blank lines in a row. */
  lemma {:induction false} MergeNoAdjacentBlanks(s: seq<Line>)
    ensures NoAdjacentBlanks(Merge(s))
  {
    if s != [] {
      MergeNoAdjacentBlanks(s[..|s| - 1]);
    }
  }

  /** A list without two blank lines in a row passes through the merge unchanged. */
  lemma {:induction false} MergeKeepsSeparatedBlanks(s: seq<Line>)
    requires NoAdjacentBlanks(s)
    ensures Merge(s) == s
  {
    if s != [] {
      var p := s[..|s| - 1];
      assert NoAdjacentBlanks(p) by {
        forall i | 0 < i < |p| ensures !(Blank(p[i - 1]) && Blank(p[i])) {
          assert p[i - 1] == s[i - 1] && p[i] == s[i];
        }
      }
      MergeKeepsSeparatedBlanks(p);
      assert p + [s[|s| - 1]] == s;
    }
  }

  /** A surviving line has a position in the merge output. */
  lemma KeptPosition(s: seq<Line>, i: nat) returns (k: nat)
    requires i < |s| && Kept(s, i)
    ensures k < |KeptIndices(s)| && KeptIndices(s)[k] == i
  {
    KeptIndicesExact(s);
    k :| 0 <= k < |KeptIndices(s)| && KeptIndices(s)[k] == i;
  }

  /** Every non-blank line comes through the merge as it was. */
  lemma MergeKeepsNonBlank(s: seq<Line>, i: nat) returns (k: nat)
    requires i < |s| && !Blank(s[i])
    ensures k < |Merge(s)| && Merge(s)[k] == s[i]
  {
    k := KeptPosition(s, i);
    MergeShape(s);
    assert Survivor(s, Merge(s), KeptIndices(s), k);
    assert Merge(s)[k] == s[i];
  }

  /** The starts never go back: no line starts before a line ahead of it. */
  predicate Ascending(s: seq<Line>) {
    forall i, j :: 0 <= i < j < |s| ==> s[i].timeInMs <= s[j].timeInMs
  }

  /** The merge keeps a subsequence of the lines with their starts, so starts in order stay in order. */
  lemma MergeAscending(s: seq<Line>)
    requires Ascending(s)
    ensures Ascending(Merge(s))
  {
    MergeShape(s);
    var r, ix := Merge(s), KeptIndices(s);
    forall k, m | 0 <= k < m < |r| ensures r[k].timeInMs <= r[m].timeInMs {
      assert Survivor(s, r, ix, k) && Survivor(s, r, ix, m);
    }
  }

  /** Merging a second time changes nothing. */
  lemma MergeIdempotent(s: seq<Line>)
    ensures Merge(Merge(s)) == Merge(s)
  {
    MergeNoAdjacentBlanks(s);
    MergeKeepsSeparatedBlanks(Merge(s));
  }

  /** One turn of the merge on values, with the survivor positions it keeps. */
  lemma MergeStepUnfold(p: seq<Line>, x: Line)
    ensures Merge(p + [x]) == MergeStep(Merge(p), x)
    ensures KeptIndices(p + [x]) == if Kept(p + [x], |p|) then KeptIndices(p) + [|p|] else KeptIndices(p)
  {
    assert (p + [x])[..|p|] == p;
  }

  /** One turn of the merge, in the terms the loop of `MergeConsecutiveEmptySyncedLines` needs. */
  lemma MergeTurn(p: seq<Line>, x: Line)
    ensures |Merge(p)| == |KeptIndices(p)|
    ensures |p| > 0 ==> Blank(Merge(p)[|Merge(p)| - 1]) == Blank(p[|p| - 1])
    ensures Blank(x) && |p| > 0 && Blank(Merge(p)[|Merge(p)| - 1]) ==>
      && Merge(p + [x]) == Merge(p)[|Merge(p)| - 1 := Extended(Merge(p)[|Merge(p)| - 1], x)]
      && KeptIndices(p + [x]) == KeptIndices(p)
    ensures !(Blank(x) && |p| > 0 && Blank(Merge(p)[|Merge(p)| - 1])) ==>
      && Merge(p + [x]) == Merge(p) + [x]
      && KeptIndices(p + [x]) == KeptIndices(p) + [|p|]
  {
    MergeShape(p);
    MergeStepUnfold(p, x);
    if |p| > 0 {
      assert (p + [x])[|p| - 1] == p[|p| - 1];
    }
  }

  /** `MergeTurn` for the prefixes of one sequence, as the loop walks them. */
  lemma MergePrefixTurn(s: seq<Line>, i: nat)
    requires i < |s|
    ensures |Merge(s[..i])| == |KeptIndices(s[..i])|
    ensures Blank(s[i]) && i > 0 && Blank(Merge(s[..i])[|Merge(s[..i])| - 1]) ==>
      && Merge(s[..i + 1]) == Merge(s[..i])[|Merge(s[..i])| - 1 := Extended(Merge(s[..i])[|Merge(s[..i])| - 1], s[i])]
      && KeptIndices(s[..i + 1]) == KeptIndices(s[..i])
    ensures !(Blank(s[i]) && i > 0 && Blank(Merge(s[..i])[|Merge(s[..i])| - 1])) ==>
      && Merge(s[..i + 1]) == Merge(s[..i]) + [s[i]]
      && KeptIndices(s[..i + 1]) == KeptIndices(s[..i]) + [i]
      && Kept(s, i)
  {
    assert s[..i + 1] == s[..i] + [s[i]];
    MergeTurn(s[..i], s[i]);
    if i > 0 {
      assert s[..i][i - 1] == s[i - 1];
    }
  }

  /** The records at positions `ix` of `s`. */
  function Pick(s: seq<SyncedLineCore>, ix: seq<nat>): (r: seq<SyncedLineCore>)
    requires forall k :: 0 <= k < |ix| ==> ix[k] < |s|
    ensures |r| == |ix| && forall k :: 0 <= k < |ix| ==> r[k] == s[ix[k]]
  {
    seq(|ix|, k requires 0 <= k < |ix| => s[ix[k]])
  }

  /** Stretches the blank record `prev` so that it also covers `line`. */
  method Stretch(prev: SyncedLineCore, line: SyncedLineCore)
    requires prev != line
    modifies prev
    ensures prev.Value() == Extended(old(prev.Value()), line.Value())
  {
    var prevEnd := EndOf(prev.timeInMs, prev.duration);
    var thisEnd := EndOf(line.timeInMs, line.duration);
    var newEnd := MaxDuration(prevEnd, thisEnd);
    prev.duration := Since(newEnd, prev.timeInMs);
  }

  /**
   * The state of the merge loop after its first `i` turns, on values: `ix`
   * and `vals` are the positions and the values of the records kept so far,
   * `cur` the current value of every record.
   */
  ghost predicate MergeLoop(before: seq<Line>, i: nat, ix: seq<nat>, vals: seq<Line>, cur: seq<Line>) {
    MergeTrace(before, i, ix, vals) && MergeMirror(before, i, ix, vals, cur)
  }

  /** What the first `i` turns have kept, as `KeptIndices` and `Merge` of the prefix. */
  ghost predicate MergeTrace(before: seq<Line>, i: nat, ix: seq<nat>, vals: seq<Line>) {
    i <= |before| && ix == KeptIndices(before[..i]) && vals == Merge(before[..i]) && |vals| == |ix|
  }

  /** Kept records hold the merged values; the others still hold their input values. */
  ghost predicate MergeMirror(before: seq<Line>, i: nat, ix: seq<nat>, vals: seq<Line>, cur: seq<Line>) {
    && |cur| == |before| && |vals| == |ix|
    && (forall k :: 0 <= k < |ix| ==> ix[k] < |before| && Kept(before, ix[k]) && vals[k] == cur[ix[k]])
    && (forall j :: 0 <= j < |before| && (i <= j || !Kept(before, j)) ==> cur[j] == before[j])
  }

  lemma TraceFold(before: seq<Line>, i: nat, ix: seq<nat>, vals: seq<Line>)
    requires MergeTrace(before, i, ix, vals) && i < |before|
    requires |vals| > 0 && Blank(before[i]) && Blank(vals[|vals| - 1])
    ensures MergeTrace(before, i + 1, ix, vals[|vals| - 1 := Extended(vals[|vals| - 1], before[i])])
  {
    assert i > 0;
    MergePrefixTurn(before, i);
  }

  /** The kept positions so far are increasing and all before `i`. */
  lemma TraceBounds(before: seq<Line>, i: nat, ix: seq<nat>, vals: seq<Line>)
    requires MergeTrace(before, i, ix, vals)
    ensures forall k :: 0 <= k < |ix| ==> ix[k] < i
    ensures forall k, m :: 0 <= k < m < |ix| ==> ix[k] < ix[m]
  {
  }

  lemma MirrorFold(before: seq<Line>, i: nat, ix: seq<nat>, vals: seq<Line>, cur: seq<Line>)
    requires MergeMirror(before, i, ix, vals, cur) && i < |before| && |vals| > 0
    requires forall k :: 0 <= k < |ix| ==> ix[k] < i
    requires forall k, m :: 0 <= k < m < |ix| ==> ix[k] < ix[m]
    ensures ix[|ix| - 1] < i
    ensures MergeMirror(before, i + 1, ix,
      vals[|vals| - 1 := Extended(vals[|vals| - 1], before[i])],
      cur[ix[|ix| - 1] := Extended(cur[ix[|ix| - 1]], before[i])])
  {
    var last, at := |vals| - 1, ix[|ix| - 1];
    var vals', cur' := vals[last := Extended(vals[last], before[i])], cur[at := Extended(cur[at], before[i])];
    assert at < i && Kept(before, at);
    forall k | 0 <= k < |ix| ensures ix[k] < |before| && Kept(before, ix[k]) && vals'[k] == cur'[ix[k]] {
      if k < last {
        assert ix[k] < at;
      }
    }
    forall j | 0 <= j < |before| && (i + 1 <= j || !Kept(before, j)) ensures cur'[j] == before[j] {
      assert j != at;
    }
  }

  /** A turn that folds line `i` into the last kept record keeps `MergeLoop`. */
  lemma MergeLoopFold(before: seq<Line>, i: nat, ix: seq<nat>, vals: seq<Line>, cur: seq<Line>)
    requires MergeLoop(before, i, ix, vals, cur) && i < |before|
    requires |vals| > 0 && Blank(before[i]) && Blank(vals[|vals| - 1])
    ensures ix[|ix| - 1] < i
    ensures MergeLoop(before, i + 1, ix,
      vals[|vals| - 1 := Extended(vals[|vals| - 1], before[i])],
      cur[ix[|ix| - 1] := Extended(cur[ix[|ix| - 1]], before[i])])
  {
    TraceFold(before, i, ix, vals);
    TraceBounds(before, i, ix, vals);
    MirrorFold(before, i, ix, vals, cur);
  }

  /** A turn that keeps line `i` as a record of its own keeps `MergeLoop`. */
  lemma MergeLoopAppend(before: seq<Line>, i: nat, ix: seq<nat>, vals: seq<Line>, cur: seq<Line>)
    requires MergeLoop(before, i, ix, vals, cur) && i < |before|
    requires !(Blank(before[i]) && |vals| > 0 && Blank(vals[|vals| - 1]))
    ensures MergeLoop(before, i + 1, ix + [i], vals + [before[i]], cur)
  {
    MergePrefixTurn(before, i);
  }

  /** `cur` holds the current values of the records of `input`. */
  ghost predicate Mirrors(input: seq<SyncedLineCore>, cur: seq<Line>)
    reads input
  {
    |input| == |cur| && forall j :: 0 <= j < |input| ==> input[j].Value() == cur[j]
  }

  /** `merged` holds the records of `input` at positions `ix`. */
  ghost predicate Picks(merged: seq<SyncedLineCore>, input: seq<SyncedLineCore>, ix: seq<nat>) {
    |merged| == |ix| && forall k :: 0 <= k < |ix| ==> ix[k] < |input| && merged[k] == input[ix[k]]
  }

  /**
   * The turn of the merge loop that folds record `i` of `input`, a blank line,
   * into the last record kept so far, itself blank.
   */
  method Absorb(input: seq<SyncedLineCore>, merged: seq<SyncedLineCore>, line: SyncedLineCore,
                ghost before: seq<Line>, ghost i: nat, ghost ix: seq<nat>, ghost vals: seq<Line>, ghost cur: seq<Line>)
      returns (ghost vals': seq<Line>, ghost cur': seq<Line>)
    requires Distinct(input) && i < |input| && line == input[i]
    requires MergeLoop(before, i, ix, vals, cur) && Picks(merged, input, ix) && Mirrors(input, cur)
    requires |merged| > 0 && IsBlank(line.text) && IsBlank(merged[|merged| - 1].text)
    modifies input
    ensures MergeLoop(before, i + 1, ix, vals', cur') && Mirrors(input, cur')
  {
    var prev := merged[|merged| - 1];
    var at := ix[|ix| - 1];
    assert prev == input[at] && prev in input && prev.Value() == vals[|vals| - 1];
    MergeLoopFold(before, i, ix, vals, cur);
    Stretch(prev, line);
    vals' := vals[|vals| - 1 := Extended(vals[|vals| - 1], before[i])];
    cur' := cur[at := Extended(cur[at], before[i])];
    forall j | 0 <= j < |input| && j != at ensures input[j].Value() == cur'[j] {
      assert input[j] != prev;
    }
  }

  /** One turn of the merge loop: record `i` is folded into the last kept record, or kept. */
  method MergeTurnInPlace(input: seq<SyncedLineCore>, merged: seq<SyncedLineCore>, i: nat,
                          ghost before: seq<Line>, ghost ix: seq<nat>, ghost vals: seq<Line>, ghost cur: seq<Line>)
      returns (merged': seq<SyncedLineCore>, ghost ix': seq<nat>, ghost vals': seq<Line>, ghost cur': seq<Line>)
    requires Distinct(input) && i < |input|
    requires MergeLoop(before, i, ix, vals, cur) && Picks(merged, input, ix) && Mirrors(input, cur)
    modifies input
    ensures MergeLoop(before, i + 1, ix', vals', cur') && Picks(merged', input, ix') && Mirrors(input, cur')
  {
    var line := input[i];
    var isEmpty := IsBlank(line.text);
    if isEmpty && |merged| > 0 {
      var prev := merged[|merged| - 1];
      if IsBlank(prev.text) {
        vals', cur' := Absorb(input, merged, line, before, i, ix, vals, cur);
        merged', ix' := merged, ix;
        return;
      }
    }
    assert line.Value() == before[i];
    assert |merged| > 0 ==> merged[|merged| - 1].Value() == vals[|vals| - 1];
    MergeLoopAppend(before, i, ix, vals, cur);
    merged', ix', vals', cur' := merged + [line], ix + [i], vals + [before[i]], cur;
  }

  /**
   * `mergeConsecutiveEmptySyncedLines`: returns the surviving records of
   * `input` themselves, and stretches each surviving blank record in place.
   * The records that are dropped keep their values.
   */
  method MergeConsecutiveEmptySyncedLines(input: seq<SyncedLineCore>) returns (merged: seq<SyncedLineCore>)
    requires Distinct(input)
    modifies input
    ensures Values(merged) == Merge(old(Values(input)))
    ensures merged == Pick(input, KeptIndices(old(Values(input))))
    ensures forall j :: 0 <= j < |input| && !Kept(old(Values(input)), j) ==> input[j].Value() == old(input[j].Value())
  {
    ghost var before := Values(input);
    ghost var cur := before;
    ghost var ix: seq<nat> := [];
    ghost var vals: seq<Line> := [];
    merged := [];
    for i := 0 to |input|
      invariant MergeLoop(before, i, ix, vals, cur) && Picks(merged, input, ix) && Mirrors(input, cur)
    {
      merged, ix, vals, cur := MergeTurnInPlace(input, merged, i, before, ix, vals, cur);
    }
    assert before[..|input|] == before;
    assert Values(merged) == vals;
  }

  // ---------------------------------------------------------------------------
  // toLrcTime
  // ---------------------------------------------------------------------------

  /** JavaScript's `%`: the remainder takes the sign of the dividend. */
  function JsRem(a: int, b: int): (r: int)
    requires b > 0
    ensures -b < r < b && (a >= 0 ==> r == a % b)
    ensures a < 0 ==> r <= 0 && (a - r) % b == 0
  {
    if a >= 0 then a % b
    else
      var q := (-a) / b;
      assert a + (-a) % b == b * -q;
      MultipleRem(-q, b);
      -((-a) % b)
  }

  /** A multiple of `b` leaves no remainder. */
  lemma MultipleRem(k: int, b: int)
    requires b > 0
    ensures (b * k) % b == 0
  {
    var d, m := (b * k) / b, (b * k) % b;
    assert b * (k - d) == m;
    if k - d >= 1 {
      MulAtLeast(b, k - d);
    } else if k - d <= -1 {
      MulAtLeast(b, d - k);
    }
  }

  /** A positive multiple of a positive `b` is at least `b`. */
  lemma MulAtLeast(b: int, j: int)
    requires b > 0 && j >= 1
    ensures b * j >= b
  {
  }

  /**
   * `toLrcTime`: whole minutes, the seconds and the centiseconds of the
   * truncated remainders, each written with at least two characters.
   */
  function ToLrcTime(ms: int): string {
    var minutes := ms / 60000;
    var seconds := JsRem(ms, 60000) / 1000;
    var centiseconds := JsRem(ms, 1000) / 10;
    PadStart(IntToString(minutes), 2, '0') + ":" + PadStart(IntToString(seconds), 2, '0')
      + "." + PadStart(IntToString(centiseconds), 2, '0')
  }

  lemma ToLrcTimeZero()
    ensures ToLrcTime(0) == "00:00.00"
  {
    assert JsRem(0, 60000) == 0 && JsRem(0, 1000) == 0;
    var z := PadStart(IntToString(0), 2, '0');
    assert IntToString(0) == "0";
    assert z == "00";
    assert ToLrcTime(0) == z + ":" + z + "." + z;
  }

  // ---------------------------------------------------------------------------
  // ensureLeadingPaddingEmptyLine
  // ---------------------------------------------------------------------------

  /** `'span'` covers the initial silence; `'zero'` only marks the start. */
  datatype PaddingMode = Span | Zero

  /** A copy of `line` whose time stamp, if it has one, is rewritten from its start. */
  function Restamped(line: Line): Line {
    if line.time.Some? then line.(time := Some(ToLrcTime(line.timeInMs))) else line
  }

  /** The leading blank copy of `first`. */
  function PaddingLine(first: Line, mode: PaddingMode): Line {
    Restamped(first.(timeInMs := 0, duration := Finite(if mode == Span then first.timeInMs else 0), text := ""))
  }

  /** `ensureLeadingPaddingEmptyLine` on values. */
  function Leading(s: seq<Line>, thresholdMs: int, mode: PaddingMode): seq<Line> {
    if |s| == 0 || s[0].timeInMs <= thresholdMs then s else [PaddingLine(s[0], mode)] + s
  }

  /**
   * A list that is empty or starts by `thresholdMs` is returned as it is;
   * otherwise exactly one blank line at 0 is put in front, lasting until the
   * first line starts (span) or 0 ms (zero), stamped "00:00.00" when the first
   * line carries a time stamp, and the rest is unchanged.
   */
  lemma LeadingPadding(s: seq<Line>, thresholdMs: int, mode: PaddingMode)
    ensures var r := Leading(s, thresholdMs, mode);
      if |s| == 0 || s[0].timeInMs <= thresholdMs then r == s
      else
        && |r| == |s| + 1 && r[1..] == s
        && Blank(r[0]) && r[0].timeInMs == 0
        && r[0].duration == Finite(if mode == Span then s[0].timeInMs else 0)
        && (mode == Span ==> End(r[0]) == Finite(s[0].timeInMs))
        && r[0].time == (if s[0].time.Some? then Some("00:00.00") else None)
  {
    ToLrcTimeZero();
    assert IsBlank("");
  }

  /** Padding puts a line at 0 only before a first start past a non-negative threshold, so starts in order stay in order. */
  lemma LeadingAscending(s: seq<Line>, thresholdMs: int, mode: PaddingMode)
    requires Ascending(s) && thresholdMs >= 0
    ensures Ascending(Leading(s, thresholdMs, mode))
  {
    var r := Leading(s, thresholdMs, mode);
    if r != s {
      forall i, j | 0 <= i < j < |r| ensures r[i].timeInMs <= r[j].timeInMs {
        assert r[j] == s[j - 1];
        if i == 0 {
          assert r[0].timeInMs == 0 < s[0].timeInMs <= s[j - 1].timeInMs;
        } else {
          assert r[i] == s[i - 1];
        }
      }
    }
  }

  /** With a non-negative threshold the result starts by the threshold, and padding twice pads once. */
  lemma LeadingIdempotent(s: seq<Line>, thresholdMs: int, mode: PaddingMode)
    requires thresholdMs >= 0
    ensures var r := Leading(s, thresholdMs, mode);
      (|r| > 0 ==> r[0].timeInMs <= thresholdMs) && Leading(r, thresholdMs, mode) == r
  {
  }

  /** `ensureLeadingPaddingEmptyLine`: the same array, or a new record in front of the same records. */
  method EnsureLeadingPaddingEmptyLine(input: seq<SyncedLineCore>, thresholdMs: int, mode: PaddingMode)
    returns (out: seq<SyncedLineCore>)
    ensures Values(out) == Leading(old(Values(input)), thresholdMs, mode)
    ensures out == input || (|out| == |input| + 1 && out[1..] == input && fresh(out[0]))
  {
    if |input| == 0 {
      return input;
    }
    var first := input[0];
    if first.timeInMs <= thresholdMs {
      return input;
    }
    ghost var vs := Values(input);
    var v := PaddingLine(first.Value(), mode);
    assert Leading(vs, thresholdMs, mode) == [v] + vs;
    var leading := new SyncedLineCore(v);
    out := [leading] + input;
    ValuesPrepend(leading, input);
  }

  /** The values of a record put in front of others. */
  lemma ValuesPrepend(x: SyncedLineCore, s: seq<SyncedLineCore>)
    ensures Values([x] + s) == [x.Value()] + Values(s)
  {
    assert ([x] + s)[1..] == s;
  }

  // ---------------------------------------------------------------------------
  // ensureTrailingEmptyLine
  // ---------------------------------------------------------------------------

  datatype TrailingStrategy = LastEnd | Midpoint

  /** The last line's end, or its start when it never ends. */
  function LastEndCandidate(last: Line): int {
    match last.duration
    case Finite(d) => last.timeInMs + d
    case Inf => last.timeInMs
  }

  /** The trailing blank copy of `last`, starting at `at`. */
  function TrailingLine(last: Line, at: int, duration: int): Line {
    Restamped(last.(timeInMs := at, duration := Finite(duration), text := ""))
  }

  /** `ensureTrailingEmptyLine` on values; `songEndMs` is `None` when it is not a number. */
  function Trailing(s: seq<Line>, strategy: TrailingStrategy, songEndMs: Option<int>): seq<Line> {
    if |s| == 0 || Blank(s[|s| - 1]) then s
    else
      var last := s[|s| - 1];
      var e := LastEndCandidate(last);
      match strategy
      case LastEnd => s + [TrailingLine(last, e, 0)]
      case Midpoint =>
        if songEndMs.None? || e >= songEndMs.value then s
        else
          var midpoint := (e + songEndMs.value) / 2;
          var moved := last.(duration := Finite(midpoint - last.timeInMs));
          s[..|s| - 1] + [moved, TrailingLine(moved, midpoint, songEndMs.value - midpoint)]
  }

  /** An empty list, or one that already ends with a blank line, is left alone. */
  lemma TrailingNoOp(s: seq<Line>, strategy: TrailingStrategy, songEndMs: Option<int>)
    requires |s| == 0 || Blank(s[|s| - 1])
    ensures Trailing(s, strategy, songEndMs) == s
  {
  }

  /** `lastEnd`: one zero-length blank line is appended where the last line ends (or starts, if it never ends). */
  lemma TrailingLastEnd(s: seq<Line>, songEndMs: Option<int>)
    requires |s| > 0 && !Blank(s[|s| - 1])
    ensures var r, last := Trailing(s, LastEnd, songEndMs), s[|s| - 1];
      && |r| == |s| + 1 && r[..|s|] == s
      && Blank(r[|s|]) && r[|s|].duration == Finite(0)
      && r[|s|].timeInMs == (if last.duration.Finite? then last.timeInMs + last.duration.ms else last.timeInMs)
  {
    assert IsBlank("");
  }

  /**
   * `midpoint`: nothing happens without a song end or when the last line
   * already reaches it; otherwise the last line now ends at the midpoint
   * m = floor((lastEnd + songEnd) / 2), with lastEnd <= m < songEnd, and a new
   * blank line covers [m, songEnd). A last line with an end so ends at m,
   * never earlier than before; one without an end gets the end m.
   */
  lemma TrailingMidpoint(s: seq<Line>, songEndMs: Option<int>)
    requires |s| > 0 && !Blank(s[|s| - 1])
    ensures var r, last := Trailing(s, Midpoint, songEndMs), s[|s| - 1];
      var e := LastEndCandidate(last);
      if songEndMs.None? || e >= songEndMs.value then r == s
      else
        var m := (e + songEndMs.value) / 2;
          && e <= m < songEndMs.value
          && (last.duration.Finite? ==> End(last) == Finite(e))
          && |r| == |s| + 1 && r[..|s| - 1] == s[..|s| - 1]
          && SameStart(r[|s| - 1], last) && End(r[|s| - 1]) == Finite(m)
          && Blank(r[|s|]) && r[|s|].timeInMs == m && End(r[|s|]) == Finite(songEndMs.value)
  {
    assert IsBlank("");
    var last := s[|s| - 1];
    var e := LastEndCandidate(last);
    if songEndMs.Some? && e < songEndMs.value {
      var m := (e + songEndMs.value) / 2;
      var r := Trailing(s, Midpoint, songEndMs);
      var moved := last.(duration := Finite(m - last.timeInMs));
      assert r == s[..|s| - 1] + [moved, TrailingLine(moved, m, songEndMs.value - m)];
      assert r[..|s| - 1] == s[..|s| - 1];
      assert e <= m < songEndMs.value && End(r[|s| - 1]) == Finite(m);
    }
  }

  /**
   * The trailing repair either ends the list with a blank line or leaves it
   * unchanged, so a second repair changes nothing.
   */
  lemma TrailingIdempotent(s: seq<Line>, strategy: TrailingStrategy, songEndMs: Option<int>)
    ensures var r := Trailing(s, strategy, songEndMs);
      Trailing(r, strategy, songEndMs) == r
  {
    assert IsBlank("");
  }

  /**
   * `ensureTrailingEmptyLine`: a copy of the array, possibly with one new
   * record at the end. The `midpoint` strategy moves the end of the last
   * record to the midpoint in place (never earlier, if it had an end; finite,
   * if it had none), so the caller's own array sees the moved end as well.
   */
  method EnsureTrailingEmptyLine(input: seq<SyncedLineCore>, strategy: TrailingStrategy, songEndMs: Option<int>)
    returns (out: seq<SyncedLineCore>)
    requires forall k :: 0 <= k < |input| - 1 ==> input[k] != input[|input| - 1]
    modifies if |input| == 0 then {} else {input[|input| - 1]}
    ensures Values(out) == Trailing(old(Values(input)), strategy, songEndMs)
    ensures |input| <= |out| <= |input| + 1 && out[..|input|] == input
    ensures |out| == |input| + 1 ==> fresh(out[|input|])
    ensures Values(input) == Values(out)[..|input|]
  {
    if |input| == 0 {
      return input;
    }
    ghost var before := Values(input);
    out := input;
    var last := out[|out| - 1];
    var isLastEmpty := IsBlank(last.text);
    if isLastEmpty {
      return out;
    }
    var lastEndCandidate := LastEndCandidate(last.Value());
    if strategy == LastEnd {
      var v := TrailingLine(last.Value(), lastEndCandidate, 0);
      assert Trailing(before, strategy, songEndMs) == before + [v];
      var trailing := new SyncedLineCore(v);
      out := out + [trailing];
      ValuesAppend(input, trailing);
      return out;
    }
    if songEndMs.None? {
      return out;
    }
    if lastEndCandidate >= songEndMs.value {
      return out;
    }
    var midpoint := (lastEndCandidate + songEndMs.value) / 2;
    last.duration := Finite(midpoint - last.timeInMs);
    assert Values(input) == before[..|input| - 1] + [last.Value()];
    var v := TrailingLine(last.Value(), midpoint, songEndMs.value - midpoint);
    assert Trailing(before, strategy, songEndMs) == Values(input) + [v];
    var trailing := new SyncedLineCore(v);
    out := out + [trailing];
    ValuesAppend(input, trailing);
  }

  /** The values of records followed by one more record. */
  lemma ValuesAppend(s: seq<SyncedLineCore>, x: SyncedLineCore)
    ensures Values(s + [x]) == Values(s) + [x.Value()]
    ensures (s + [x])[..|s|] == s
  {
  }
}
