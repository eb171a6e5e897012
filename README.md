# Synced-lyrics timing engine, in Dafny

A model of the timing core of the synced-lyrics plugin of YouTube Music
Desktop, and of two small helpers beside it:

- **`LRC.parse`** (`optional.dfy`, `js_text.dfy`, `lrc.dfy`) turns LRC text into tags and timed lines.
  - `[mm:ss.xx]text` lines become line records. Each lasts until the next lyric line starts; the last one never ends.
  - `[tag: value]` lines become tags, except `offset`, whose value moves every start.
  - The two anchored regular expressions are hand-written recognisers, each proved equal to its pattern's grammar.
  - The parse exists twice:
    - as a function on values (`Lrc.ParseLrc`);
    - as the source's loop over mutable line records (`Lrc.Parse`), proved equal to the function.
- **The line repairs** (`lines.dfy`):
  - merging runs of blank lines, where a record is updated in place and shared with the input array;
  - the leading padding line;
  - the trailing blank line, whose `midpoint` strategy moves the end of the caller's own last record to the midpoint (never earlier, if it had an end; finite, if it had none);
  - `toLrcTime`.
  
  Each repair is a method on a `SyncedLineCore` class, proved against a function on `Line` values. The lemmas are stated about that function.
- **The empty-line placeholder stepper** (`synced_line.dfy`):
  - the end-delay curve;
  - the placeholder state index as playback moves through a line;
  - the cumulative and visibility rules;
  - the per-word animation delay.
- **`clamp` and the scroll constants** (`scrolling.dfy`).
- **The playlist exporter's `convertToCSV`** (`playlist_csv.dfy`), with a reader of its quoted rows proved to give every record's values back.

`JsText` writes out the JavaScript string primitives the code uses:
- `trim` and the `\s` class;
- `\d` and `\w`;
- `split` on one character, and `join`;
- `padStart` and `padEnd`;
- integer `toString`;
- `parseInt`.

Durations are `Finite(ms) | Inf`, because `Infinity` flows through `Math.max`, `+` and `-`.

Two behaviours of the code are easy to misread; the model follows the code:
- **Tag values.** The tag value is trimmed, except for a value made only of whitespace. There the lazy group of `tagRegex` backtracks to one whitespace character, which is kept (`Lrc.TagValue`).
- **The step index.** The index is computed as the code does:
  - `Math.min(1, progress / total)`, then `Math.max(0, floor(...))`;
  - with an empty list of placeholder states, a negative progress can give an index above 0, which the code's `?? ''` hides.
  
  Clamping to `[0, stepCount - 1]` holds only for a non-empty list (`SyncedLine.StepIndex`).

## Model

| member | source | states |
|---|---|---|
| JsText.JoinSplit | src/plugins/synced-lyrics/parsers/lrc.ts:37 | joining the pieces of `split('\n')` with `\n` gives the text back, so splitting loses nothing |
| JsText.SplitJoin | src/plugins/playlist-exporter/backend.ts:13 | pieces free of the separator, joined and split again, come back as they were |
| JsText.NatToString | src/plugins/synced-lyrics/shared/lines.ts:117-119 | `toString` of a natural number is a non-empty run of digits whose decimal value is the number, with no leading zero |
| JsText.ZeroPaddedValue | src/plugins/synced-lyrics/shared/lines.ts:117-119 | `padStart(n, '0')` keeps a digit string all digits and does not change its value |
| JsText.ParseIntOfDigits | src/plugins/synced-lyrics/parsers/lrc.ts:63-65 | `parseInt` of a run of decimal digits is its decimal value |
| JsText.ParseIntToString | src/plugins/synced-lyrics/parsers/lrc.ts:45 | `parseInt` reads back every integer written with `toString`, negative ones included |
| JsText.TrimSpan | src/plugins/synced-lyrics/parsers/lrc.ts:71 | `trim()` is a contiguous slice of the string with only whitespace cut on either side |
| Lines.MaxDuration | src/plugins/synced-lyrics/shared/lines.ts:20 | `Math.max` of two ends is one of them, is endless exactly when one of them is, and is no smaller than either |
| Lines.Since | src/plugins/synced-lyrics/shared/lines.ts:21 | the duration `newEnd - prev.timeInMs` makes the line end exactly at `newEnd`, endless included |
| Lines.SyncedLineCore.constructor | src/plugins/synced-lyrics/shared/lines.ts:42-46 | `Object.assign({}, ...)` gives a new record holding exactly the given values |
| Lines.Extended | src/plugins/synced-lyrics/shared/lines.ts:17-21 | the kept blank line keeps its text, start and stamp, and now ends at the later of its own end and the absorbed line's end |
| Lines.Merge | src/plugins/synced-lyrics/shared/lines.ts:7-28 | the merge is never longer than its input, is empty exactly when the input is, and its first line starts as the input's first |
| Lines.KeptIndicesExact | src/plugins/synced-lyrics/shared/lines.ts:11-25 | the input positions that survive are exactly those that are not a blank line right after a blank line, in order |
| Lines.MergeShape | src/plugins/synced-lyrics/shared/lines.ts:11-27 | output line k comes from the k-th kept input line: a non-blank one unchanged, a blank one with its start and an end equal to the latest end over the blank run it absorbed |
| Lines.MergeNoAdjacentBlanks | src/plugins/synced-lyrics/shared/lines.ts:11-26 | the merge never holds two blank lines in a row |
| Lines.MergeKeepsSeparatedBlanks | src/plugins/synced-lyrics/shared/lines.ts:11-27 | a list without two blank lines in a row comes back unchanged |
| Lines.MergeKeepsNonBlank | src/plugins/synced-lyrics/shared/lines.ts:25 | every non-blank input line is in the merge, unchanged, at a returned position |
| Lines.MergeIdempotent | src/plugins/synced-lyrics/shared/lines.ts:7-28 | merging the merge again changes nothing |
| Lines.Stretch | src/plugins/synced-lyrics/shared/lines.ts:18-21 | `prev.duration` is updated in place so that `prev` becomes its extension over `line`, with no other field changed |
| Lines.MergeConsecutiveEmptySyncedLines | src/plugins/synced-lyrics/shared/lines.ts:7-28 | the returned array holds the kept input records themselves, its values are the merge of the input's values, and records not kept are left as they were |
| Lines.JsRem | src/plugins/synced-lyrics/shared/lines.ts:115-116 | JavaScript `%` is below the divisor in size and agrees with the mathematical remainder for non-negative times; for a negative dividend it takes the dividend's sign (at most 0) and differs from it by a multiple of the divisor |
| Lines.ToLrcTimeZero | src/plugins/synced-lyrics/shared/lines.ts:113-120 | `toLrcTime(0)` is `"00:00.00"` |
| Lines.MergeAscending | src/plugins/synced-lyrics/shared/lines.ts:11-27 | lines whose starts never go back keep that order after merging, since the merge keeps a subsequence of the lines with their starts |
| Lines.LeadingPadding | src/plugins/synced-lyrics/shared/lines.ts:33-54 | an empty list or one starting by the threshold is returned as is; otherwise exactly one blank line at 0 is put in front, lasting until the first line starts (`span`) or 0 ms (`zero`), stamped `00:00.00` when the first line carries a stamp, the rest unchanged |
| Lines.LeadingIdempotent | src/plugins/synced-lyrics/shared/lines.ts:38-40 | for a non-negative threshold the padded list starts by the threshold, so padding it again changes nothing |
| Lines.LeadingAscending | src/plugins/synced-lyrics/shared/lines.ts:33-54 | for a non-negative threshold, padding keeps starts in non-decreasing order: the line at 0 goes only before a first start past the threshold |
| Lines.EnsureLeadingPaddingEmptyLine | src/plugins/synced-lyrics/shared/lines.ts:33-54 | the result is the input array itself or a fresh record followed by the input's records, and its values are the padding of the input's values |
| Lines.TrailingNoOp | src/plugins/synced-lyrics/shared/lines.ts:64-69 | an empty list, or one whose last line is blank, is left alone |
| Lines.TrailingLastEnd | src/plugins/synced-lyrics/shared/lines.ts:71-88 | `lastEnd` appends one zero-length blank line where the last line ends, or where it starts if it never ends, and keeps the rest |
| Lines.TrailingMidpoint | src/plugins/synced-lyrics/shared/lines.ts:90-110 | `midpoint` does nothing without a song end or when the last line reaches it; otherwise, with m = floor((lastEnd + songEnd) / 2), the last line now ends at m, lastEnd <= m < songEnd (so a finite end never moves earlier), and a new blank line covers [m, songEnd) |
| Lines.TrailingIdempotent | src/plugins/synced-lyrics/shared/lines.ts:59-111 | the repair either ends the list with a blank line or leaves it unchanged (`midpoint` without a song end, or with the last line already reaching it), so repairing again changes nothing |
| Lines.EnsureTrailingEmptyLine | src/plugins/synced-lyrics/shared/lines.ts:59-111 | the result copies the input array and adds at most one fresh record; its values are the repair of the input's values; and the caller's array sees the last record's moved end as well |
| Lrc.DigitsBeforeExact | src/plugins/synced-lyrics/parsers/lrc.ts:25 | a run of `\d+` before a separator is read as that run and the rest |
| Lrc.MatchLyric | src/plugins/synced-lyrics/parsers/lrc.ts:25 | any groups found satisfy the pattern: digit minutes and seconds, a 1 to 3 digit fraction, and a text without line terminators |
| Lrc.LyricRegexExact | src/plugins/synced-lyrics/parsers/lrc.ts:25 | the recogniser gives groups g exactly when the line is `[` g.minutes `:` g.seconds `.` g.fraction `]` g.text with g valid for the pattern |
| Lrc.LyricRegexComplete | src/plugins/synced-lyrics/parsers/lrc.ts:25 | every line the pattern accepts is recognised with its own groups |
| Lrc.LyricRegexSound | src/plugins/synced-lyrics/parsers/lrc.ts:25 | every recognised line is made of the groups found |
| Lrc.LastNonTerminator | src/plugins/synced-lyrics/parsers/lrc.ts:23 | the last position that is not a line terminator, or none when there is none |
| Lrc.TagValueSpec | src/plugins/synced-lyrics/parsers/lrc.ts:23 | the value group is the trimmed text, except for text made only of whitespace, where it is one whitespace character |
| Lrc.MatchTagOfParts | src/plugins/synced-lyrics/parsers/lrc.ts:23 | a line `[tag:body]` with a `\w+` tag is recognised exactly when its body yields a value, and then with that tag and value |
| Lrc.TagValueSound | src/plugins/synced-lyrics/parsers/lrc.ts:23 | a value found is a non-empty run without line terminators, between two runs of whitespace that make up the text |
| Lrc.TagValueBlank | src/plugins/synced-lyrics/parsers/lrc.ts:23 | a whitespace-only text that the pattern can split still yields a value, and that value starts with whitespace |
| Lrc.TagValueTrimmed | src/plugins/synced-lyrics/parsers/lrc.ts:23 | a body that is not all whitespace and that the pattern can split always yields a value; it is the trimmed body, so it equals the pattern's own split value whenever that one does not start or end with whitespace |
| Lrc.MatchTagParts | src/plugins/synced-lyrics/parsers/lrc.ts:23 | a recognised tag line is `[`, a `\w+` tag, `:`, a body whose value was found, `]` |
| Lrc.TagRegexSound | src/plugins/synced-lyrics/parsers/lrc.ts:23 | a recognised tag line is `[` tag `:` whitespace value whitespace `]` for the tag and value returned |
| Lrc.TagRegexComplete | src/plugins/synced-lyrics/parsers/lrc.ts:23 | every line of that shape is recognised with its tag, and with its value when the value is not padded |
| Lrc.Centis | src/plugins/synced-lyrics/parsers/lrc.ts:60 | `padEnd(2, '0').slice(0, 2)` is always two digits |
| Lrc.CentisTruncates | src/plugins/synced-lyrics/parsers/lrc.ts:59-66 | the two kept digits times 10 are the fraction's milliseconds truncated to 10 ms: `.5` gives 500, `.123` gives 120 |
| Lrc.TimeInMsOfGroups | src/plugins/synced-lyrics/parsers/lrc.ts:63-66 | each field's `parseInt` is its decimal value, and the start is minutes * 60000 + seconds * 1000 + the truncated fraction |
| Lrc.Classify | src/plugins/synced-lyrics/parsers/lrc.ts:38-73 | a line is a lyric entry exactly when its trimmed form starts with `[` and the lyric pattern matches it, and then it is the record of the groups matched; a tag entry is never `offset` |
| Lrc.NoLyricMatch | src/plugins/synced-lyrics/parsers/lrc.ts:25 | a line starting with whitespace or ending in `\r` is never a lyric line |
| Lrc.DroppedLines | src/plugins/synced-lyrics/parsers/lrc.ts:23-40 | a line with whitespace before `[`, or ending in `\r`, contributes nothing |
| Lrc.SkippedLines | src/plugins/synced-lyrics/parsers/lrc.ts:38 | a line whose trimmed form does not start with `[` contributes nothing |
| Lrc.TimedSnoc | src/plugins/synced-lyrics/parsers/lrc.ts:75-80 | closing the previous line and appending the new one builds the timed lines one lyric line at a time |
| Lrc.ScanSummary | src/plugins/synced-lyrics/parsers/lrc.ts:37-81 | the loop collects the tags in input order, duplicates kept, and the lyric records with each one ending where the next starts and the last endless |
| Lrc.ScanOffset | src/plugins/synced-lyrics/parsers/lrc.ts:44-47 | the offset in force after the loop is the last `offset` tag's, wherever it is, and 0 without one |
| Lrc.TimedGaps | src/plugins/synced-lyrics/parsers/lrc.ts:68-80 | each raw line ends exactly where the next starts, and the last one never ends |
| Lrc.FinishShape | src/plugins/synced-lyrics/parsers/lrc.ts:87-91 | after padding and merging, no two blank lines are adjacent and the first line starts by 300 ms |
| Lrc.ParseLrcShape | src/plugins/synced-lyrics/parsers/lrc.ts:28-94 | a parse never holds two blank lines in a row, and its first line starts by 300 ms |
| Lrc.TagsNoOffset | src/plugins/synced-lyrics/parsers/lrc.ts:44-52 | no tag collected is named `offset` |
| Lrc.ClassifiedOpen | src/plugins/synced-lyrics/parsers/lrc.ts:68-73 | every lyric record starts endless, and no tag entry is `offset` |
| Lrc.ParseLrcTags | src/plugins/synced-lyrics/parsers/lrc.ts:28-94 | the tags are the input's tag lines in order, none `offset`; the parse fails only through a `NaN` offset with lines to shift |
| Lrc.FinishKeeps | src/plugins/synced-lyrics/parsers/lrc.ts:83-91 | a non-blank line of the loop comes out, moved by the offset, at a returned position |
| Lrc.EntriesKeepLyrics | src/plugins/synced-lyrics/parsers/lrc.ts:37-91 | every non-blank lyric record comes out timed and moved by the offset |
| Lrc.ParseLrcKeepsLyrics | src/plugins/synced-lyrics/parsers/lrc.ts:28-94 | every non-blank lyric line is in the result with its text and stamp; its start is moved by the last offset, the stamp is not; its duration is the gap to the next lyric line's stamp, so it ends where that line starts after the shift |
| Lrc.ParseLrcLyricEnd | src/plugins/synced-lyrics/parsers/lrc.ts:68-85 | a kept lyric line that is not the last ends at the next lyric line's stamp plus the offset, where that line starts after the shift |
| Lrc.ParseLrcMonotone | src/plugins/synced-lyrics/parsers/lrc.ts:28-94 | when the lyric lines' stamps never go back and the last offset is a number, the parse succeeds and its lines' starts never go back |
| Lrc.PaddedNat | src/plugins/synced-lyrics/shared/lines.ts:117-119 | `toString().padStart(2, '0')` of n is at least two digits whose value is n, exactly two below 100 |
| Lrc.ClockParts | src/plugins/synced-lyrics/shared/lines.ts:114-116 | whole minutes, seconds and centiseconds add up to the time truncated to 10 ms |
| Lrc.ToLrcTimeParts | src/plugins/synced-lyrics/shared/lines.ts:113-120 | `toLrcTime` of a non-negative time is minutes `:` two-digit seconds `.` two-digit centiseconds, each with its value |
| Lrc.ToLrcTimeReadBack | src/plugins/synced-lyrics/shared/lines.ts:113-120 | a stamp written by `toLrcTime`, in brackets, is a lyric line that the parser reads back as the same stamp, at the time truncated to 10 ms |
| Lrc.ScanStep | src/plugins/synced-lyrics/parsers/lrc.ts:37-81 | one more input line extends the loop by that line's entry |
| Lrc.PushLyric | src/plugins/synced-lyrics/parsers/lrc.ts:68-80 | the previous record's duration is set in place to the gap to the new line, and the new record is pushed |
| Lrc.ShiftAll | src/plugins/synced-lyrics/parsers/lrc.ts:83-85 | every record's start is moved by the offset in place, and nothing else changes |
| Lrc.ApplyEntry | src/plugins/synced-lyrics/parsers/lrc.ts:44-80 | the loop body pushes a record, sets the offset or pushes a tag, as the line's entry says |
| Lrc.FinishLines | src/plugins/synced-lyrics/parsers/lrc.ts:83-91 | shifting, padding and merging the records gives the values of `Finish`; a `NaN` offset with lines is reported |
| Lrc.ScanRows | src/plugins/synced-lyrics/parsers/lrc.ts:37-81 | the loop over the text's lines leaves fresh, distinct records whose values, with the tags and offset, are those of folding the lines' entries in order |
| Lrc.Parse | src/plugins/synced-lyrics/parsers/lrc.ts:28-94 | the loop over mutable records returns the tags and the line values of `ParseLrc` |
| SyncedLine.Round | src/plugins/synced-lyrics/renderer/components/SyncedLine.tsx:47 | `Math.round` gives the integer nearest the quotient, halves rounding up |
| SyncedLine.RoundsToUnique | src/plugins/synced-lyrics/renderer/components/SyncedLine.tsx:47 | only one integer is the nearest |
| SyncedLine.ComputeEndDelayMs | src/plugins/synced-lyrics/renderer/components/SyncedLine.tsx:33-53 | above 3000 ms, or endless, the delay is 1000; from 1000 to 3000 it is the rounded interpolation from 500 to 1000, within [500, 1000]; below 1000 it is the smaller of round(0.8 * total) and total - 150 |
| SyncedLine.EndDelayEndpoints | src/plugins/synced-lyrics/renderer/components/SyncedLine.tsx:43-47 | the delay is exactly 500 at 1000 ms and 1000 at 3000 ms |
| SyncedLine.RoundToSecond | src/plugins/synced-lyrics/renderer/components/SyncedLine.tsx:104 | `Math.round(x / 1000) * 1000` is a whole second within half a second of x |
| SyncedLine.RoundToSecondMonotone | src/plugins/synced-lyrics/renderer/components/SyncedLine.tsx:108-110 | rounding to whole seconds keeps the order |
| SyncedLine.StepIndex | src/plugins/synced-lyrics/renderer/components/SyncedLine.tsx:89-114 | the index is never negative, and with at least one state it names one of them |
| SyncedLine.StepBelow | src/plugins/synced-lyrics/renderer/components/SyncedLine.tsx:111-113 | before the effective total, `floor((n) * progress / total)` stays below n, and is at most 0 for a progress at most 0 |
| SyncedLine.StepBelowMonotone | src/plugins/synced-lyrics/renderer/components/SyncedLine.tsx:111-113 | the step grows with the progress |
| SyncedLine.SingleStateIndex | src/plugins/synced-lyrics/renderer/components/SyncedLine.tsx:95 | a single state is always the one shown |
| SyncedLine.IndexBeforeStart | src/plugins/synced-lyrics/renderer/components/SyncedLine.tsx:89-114 | before the line starts the first state is shown |
| SyncedLine.IndexAtEnd | src/plugins/synced-lyrics/renderer/components/SyncedLine.tsx:111-113 | once the effective total has passed the last state is shown |
| SyncedLine.StepAt | src/plugins/synced-lyrics/renderer/components/SyncedLine.tsx:111-113 | the step for a progress over an effective total is never negative, and with at least one state names one of them |
| SyncedLine.EffectiveTotalPositive | src/plugins/synced-lyrics/renderer/components/SyncedLine.tsx:99-106 | the effective total of a line with an end is positive for every integer length, in both timing modes, so the `effectiveTotal <= 0` guard never fires |
| SyncedLine.StepAtMonotone | src/plugins/synced-lyrics/renderer/components/SyncedLine.tsx:111-113 | over the same effective total, a later progress never gives an earlier step |
| SyncedLine.ProgressMonotone | src/plugins/synced-lyrics/renderer/components/SyncedLine.tsx:108-110 | the effective progress, whole seconds or not, keeps the order of the times into the line |
| SyncedLine.IndexMonotone | src/plugins/synced-lyrics/renderer/components/SyncedLine.tsx:89-114 | as the current time grows the index never goes back |
| SyncedLine.CoarseWholeSeconds | src/plugins/synced-lyrics/renderer/components/SyncedLine.tsx:99-110 | without precise timing, for a line over a second, the effective total and the effective progress are whole seconds |
| SyncedLine.ShortLineKeepsGap | src/plugins/synced-lyrics/renderer/components/SyncedLine.tsx:97-101 | a line of at most a second keeps an effective total of at least 150 ms |
| SyncedLine.States | src/plugins/synced-lyrics/renderer/components/SyncedLine.tsx:78-81 | there is no state exactly when an empty list is configured; a single text, or no configuration (`''`), gives exactly one state, never cumulative; a configured list is used as it is |
| SyncedLine.EveryAll | src/plugins/synced-lyrics/renderer/components/SyncedLine.tsx:86 | `every` holds exactly when each element equals the given one |
| SyncedLine.IsCumulative | src/plugins/synced-lyrics/renderer/components/SyncedLine.tsx:83-87 | cumulative exactly when there are at least two states and all of them are equal |
| SyncedLine.ShouldRenderPlaceholder | src/plugins/synced-lyrics/renderer/components/SyncedLine.tsx:116-123 | a placeholder shows exactly on the current line, or on a blank line when empty-line symbols are on |
| SyncedLine.ShownStateInRange | src/plugins/synced-lyrics/renderer/components/SyncedLine.tsx:179 | with at least one state, the text shown is one of the states, never the `''` fallback |
| SyncedLine.ShownConfiguredState | src/plugins/synced-lyrics/renderer/components/SyncedLine.tsx:78-113 | unless an empty list is configured, the text shown at any time is one of the configured states |
| SyncedLine.WordSpans | src/plugins/synced-lyrics/renderer/components/SyncedLine.tsx:60-75 | one span per `split(' ')` word; word i is delayed by i * 50 ms; each span's text is the word and one space, with no other space |
| SyncedLine.WordSpansSpellInput | src/plugins/synced-lyrics/renderer/components/SyncedLine.tsx:62-70 | the span texts, one after another, spell the line followed by one space |
| Scrolling.Clamp | src/plugins/synced-lyrics/renderer/scrolling.ts:1-2 | the result is in [min, max] when min <= max, is n when n is already there, is min when min > max, and is always one of n, min, max |
| Scrolling.ClampIdempotent | src/plugins/synced-lyrics/renderer/scrolling.ts:1-2 | clamping twice is clamping once |
| Scrolling.ClampMonotone | src/plugins/synced-lyrics/renderer/scrolling.ts:1-2 | clamping keeps the order of its inputs |
| Scrolling.ScrollDurationBounds | src/plugins/synced-lyrics/renderer/scrolling.ts:4-21 | every `SCROLL_DURATION` group has its minimum at most its maximum, so a duration clamped to them lies between them |
| PlaylistCsv.ConvertToCsv | src/plugins/playlist-exporter/backend.ts:7-14 | the text is empty exactly when there are no records |
| PlaylistCsv.ReadEscaped | src/plugins/playlist-exporter/backend.ts:11 | undoing the quote doubling gives back the original value, up to the closing quote |
| PlaylistCsv.ReadQuotedFields | src/plugins/playlist-exporter/backend.ts:11 | quoted values joined by commas read back as the values |
| PlaylistCsv.RowReadBack | src/plugins/playlist-exporter/backend.ts:10-12 | each record's line reads back as its `Object.values` (`ValuesOf`), in their own order |
| PlaylistCsv.ConvertToCsvReadBack | src/plugins/playlist-exporter/backend.ts:7-14 | without line breaks in keys or values, the text is the first record's keys, then one line per record in order, each reading back as that record's values, with no trailing newline |
| PlaylistCsv.HeaderFromFirstRecord | src/plugins/playlist-exporter/backend.ts:9-12 | only the first record's `Object.keys` (`Keys`) matter: later records contribute their values alone |

## Left out

- Floating point.
  - Times are whole milliseconds and `Math.round` is exact rounding half up.
  - Between 1000 and 3000 ms, `computeEndDelayMs` runs its interpolation in doubles. A total 2 more than a multiple of 4 sits on a half, where doubles may round either way.
  - The step index's `(stepCount - 1) * (progress / total)` is also computed in doubles, and may fall just below a whole number where the exact value is one.
  - The printed word delay `${index * 0.05}s` is modelled as `index * 50` ms; the double text of, say, `3 * 0.05` is not modelled.
- `Lrc.Parse`:
  - when the last `offset` tag is not a number, `NaN` flows into every start; the model reports that outcome instead of returning the records;
  - `parseInt` is exact on arbitrarily long digit runs, whereas JavaScript loses precision past 2^53.
- `Lrc.Parse`: the regex decisions of the loop body are the function `Lrc.Classify`. The method carries out its answer on the records.
- `Lines.MergeConsecutiveEmptySyncedLines`: requires the input array not to hold the same record twice. The source accepts such an array, and then its in-place update is seen twice.
- `Lines.EnsureTrailingEmptyLine`: requires the last record not to appear earlier in the array, for the same reason.
- `Lines.EnsureTrailingEmptyLine`: a `songEndMs` that is not a number is `None`; a non-integer song end is not modelled.
- Record fields:
  - `!line.text` for a missing text is not modelled, because text is always a string;
  - the optional `time` field is `Option<string>`.
- `isBlank` lives in a utilities file that is not part of this model. It is taken to mean empty after `trim()`, as in `shared/lines.ts`.
- The rest of `SyncedLine.tsx` is not modelled:
  - JSX rendering, classes and the virtual scroller;
  - the `romanize` effect, an asynchronous external call;
  - `seekToMs`, `timeCodeText`, `isFinalEmpty` and `shouldRemovePadding`.
- Scrolling:
  - `Scrolling.Clamp` works on exact reals; `NaN` and infinite arguments are not modelled;
  - how the scroll animation combines `SCROLL_DURATION`'s bases and multipliers is outside this model.
- CSV export:
  - `String(value)` of non-string values is taken as already done, since a record is its list of key/value pairs;
  - the IPC handler, the save dialog and the file write are I/O.
