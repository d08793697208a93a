# tape2json time base and clip remapping, in Dafny

This project models the computational core of `tape2json.js`. The script turns a song's
music track, dance tape (`dtape`) and karaoke tape (`ktape`) into the flat song file of a
dance-game player. The modelled core is the part between parsing the inputs and writing the
outputs:

- **Markers to beats.** The track's `markers` are rounded with `Math.round(a / 48)`. They are
  sampled on the grid `beatsMap24`, which is `24 * i` for every marker index `i`.
- **`getTime`.** This is everpolate's linear interpolation of the beats over that grid, rounded
  to the nearest integer. The interpolation extrapolates along the first or last segment
  outside the grid. It reads the beat list as it stands after the range step, while the grid
  keeps the original marker count.
- **`videoOffset`.** It is read from the rounded beats before the range step:
  `beats[-startBeat]` for a negative `startBeat`, and `-beats[startBeat]` otherwise.
- **The range step.** The beat list is stretched at the last stride, or cut, towards `endBeat`.
  This follows the loop and the `slice` exactly as written.
- **The final beat list and `AudioPreview`.** Both depend on the sign of `startBeat`.
- **The clip passes.** Each clip is dispatched on its `__class`. Pictograms, gold effects,
  motions and karaoke lines become `{time, duration, ...}` records, with
  `time = getTime(StartTime) + videoOffset` and
  `duration = getTime(StartTime + Duration) - getTime(StartTime)`. A motion goes to
  `moves{CoachId}`. Names are taken from asset paths with
  `split("/").pop().split(".")[0]`.
- **The post-sort.** It sorts the lyrics, the pictograms and the first `NumCoach` move lists.

Modules, one per component: `TimeBase` (rounding, `getTime`), `BeatRange` (offset, range
step, final beats, preview, and the corrected variants), `Names` (path to name), `Tapes`
(clips, records, the two `forEach` passes), `PostSort` (comparator and sort), `Song` (the
whole conversion, `Convert`, and its corrected twin `ConvertIntended`). `JsArray` holds the
`slice`/`map` semantics and `Results` holds the error type.

Inputs on which the program yields `NaN` or hangs are excluded by preconditions:

- fewer than two markers;
- `|startBeat|` not below the marker count;
- a clip time whose interpolation segment runs past the end of the (possibly cut) beat list.

A `CoachId` outside `0..3`, or a `NumCoach` above 4, makes the program throw a `TypeError`.
That case is modelled as `Err(NoMoveList(k))`.

Where the code departs from what it evidently means to do, the model follows the code:

- **Stretching and cutting.** The beat list is evidently meant to end at index `endBeat`.
  The code's loop appends `(endBeat - (len - 1)) / 2 + 1` beats, and its cut keeps `endBeat`
  beats. Both halves are modelled, see "## Findings".
- **Sorting.** The comparator only ever answers -1 or `undefined`, so no order is promised;
  the model claims a permutation only.
- **Too few markers.** The code has no check for fewer than two markers; such inputs are
  outside the model's preconditions.

## Model

| member | source | states |
|---|---|---|
| TimeBase.MarkerToBeat | tape2json.js:64 | the beat is `Math.round(marker / 48)`: the integer within half a unit of `marker / 48`, halves rounded up |
| TimeBase.NormalizeMarkers | tape2json.js:64 | `beats` has one entry per marker, each the rounded marker / 48 |
| TimeBase.Segment | tape2json.js:67-68 | everpolate's segment for `t`: the grid segment containing `t`, else the first (before the grid) or last (at or past its end) |
| TimeBase.GetTime | tape2json.js:67-68 | `getTime(t)` is the linear interpolation on that segment rounded to the nearest integer (scaled by 24 to stay integral) |
| TimeBase.GetTimeAtGrid | tape2json.js:64-68 | interpolation is exact on the grid: `getTime(24 * i) == beats[i]` wherever it is defined |
| TimeBase.GetTimePastGrid | tape2json.js:67-68 | past the grid, `getTime(24 * i)` is the last known beat plus `i - (gridLen - 1)` last strides |
| TimeBase.GetTimeMonotone | tape2json.js:67-68 | over non-decreasing beats a later time never maps to an earlier beat |
| BeatRange.VideoOffset | tape2json.js:70-71 | `beats[-startBeat]` for a negative `startBeat`, else `-beats[startBeat]`; `VideoOffsetAnchorsStartBeat` and `VideoOffsetIgnoresRange` state what it achieves |
| BeatRange.Extend | tape2json.js:74-78 | appending `count` beats keeps the original beats as a prefix and makes each new beat the previous plus the last stride |
| BeatRange.NormalizeRange | tape2json.js:73-79 | range step as written: stretching keeps the beats as a prefix and continues at the last stride; cutting keeps the first `endBeat` beats (a negative `endBeat` counts from the end); equal leaves the list unchanged |
| BeatRange.ExtendBeats | tape2json.js:73-78 | the loop with its re-read bound appends exactly `(endBeat - (len - 1)) / 2 + 1` beats at the fixed stride after an unchanged prefix, and agrees with `NormalizeRange` |
| BeatRange.ContinuesClosedForm | tape2json.js:74-78 | beat `i` past the original end is the last original beat plus `i - (len - 1)` strides |
| BeatRange.ClockMatchesBeats | tape2json.js:64-79 | `getTime` (original grid, stretched or cut beats) returns the listed beat at every grid position where it is defined, including extrapolated ones |
| BeatRange.VideoOffsetAnchorsStartBeat | tape2json.js:70-71 | for `startBeat >= 0`, a clip starting on beat `startBeat` gets time 0 |
| BeatRange.VideoOffsetIgnoresRange | tape2json.js:70-79 | the offset is the same read before or after the range step whenever the index survives it |
| BeatRange.FinalBeats | tape2json.js:81-94 | for `startBeat < 0`: the first `-startBeat` beats unadjusted, then every beat plus the offset; otherwise the beats from `startBeat` on, each minus the offset |
| BeatRange.Preview | tape2json.js:87-99 | both preview beats equal the input minus `startBeat`, whichever branch is taken |
| BeatRange.FinalBeatsMatchClipsWhenStartNegative | tape2json.js:81-85 | for `startBeat < 0`, the beat after the unadjusted prefix at position `i` equals the time of a clip starting at grid position `i` |
| BeatRange.FinalBeatsMisalignedWhenStartPositive | tape2json.js:92-94 | for `startBeat >= 0`, the clip on `startBeat` is at time 0 but the first written beat is twice the original beat |
| BeatRange.PositiveStartExample | tape2json.js:92-94 | beats `[0, 10, 20]`, `startBeat = 1`: offset -10, clip on beat 1 at time 0, written beats `[20, 30]` |
| BeatRange.ExtensionShortfall | tape2json.js:76-78 | the stretched list ends at index `endBeat` exactly when at most two beats were missing |
| BeatRange.ExtensionShortfallExample | tape2json.js:76-78 | beats `[0, 1]` stretched to `endBeat = 5` become `[0, 1, 2, 3, 4]` |
| BeatRange.TruncationDropsEndBeat | tape2json.js:79 | cutting to `endBeat` leaves exactly `endBeat` beats |
| BeatRange.NormalizeRangeIntended | tape2json.js:73-79 | corrected range step: the list has `endBeat + 1` beats, agrees with the original and continues at the last stride |
| BeatRange.FinalBeatsIntended | tape2json.js:91-94 | corrected final list: for `startBeat >= 0` each beat from `startBeat` on plus the offset |
| BeatRange.FinalBeatsIntendedMatchClips | tape2json.js:92-94 | with the correction, written beat `i` equals the time of a clip on beat `startBeat + i`, and the list starts at 0 |
| JsArray.Slice | tape2json.js:79 | `slice(start, end)`, as also used at lines 83 and 93: negative bounds count from the end, both are clamped to the length, and a crossed range is empty |
| JsArray.Shift | tape2json.js:84 | `map(a => a + delta)`, as also used at line 94: same length, every element moved by `delta` |
| Names.Split | tape2json.js:116 | `String.prototype.split` on a one-character separator: always at least one part; `JoinSplit`, `SplitJoin` and `SplitPartsFree` characterise it |
| Names.JoinSplit | tape2json.js:116 | joining the parts of `split(sep)` with `sep` gives back the string |
| Names.SplitJoin | tape2json.js:116 | splitting a join of separator-free parts gives back the parts |
| Names.SplitPartsFree | tape2json.js:116 | no part of `split(sep)` contains `sep` |
| Names.SplitFirstEnds | tape2json.js:116 | `split(sep)[0]` is the whole string or is followed by `sep` |
| Names.SplitLastIsSuffix | tape2json.js:116 | `split(sep).pop()` ends the string and is preceded by `sep` unless it is the whole string |
| Names.BaseName | tape2json.js:116 | `path.split("/").pop().split(".")[0]`, as also used at line 140; `BaseNameLocated` and `LocatedIsBaseName` characterise it in both directions |
| Names.BaseNameHasNoSeparators | tape2json.js:116 | the extracted name contains neither `/` nor `.` |
| Names.BaseNameLocated | tape2json.js:116 | the name starts after the last `/` (or at the start) and ends at a `.` or the end of the path |
| Names.LocatedIsBaseName | tape2json.js:140 | any dot-free name so located is the extracted name (the location determines it) |
| Names.BaseNameOfPlainName | tape2json.js:140 | a string with neither `/` nor `.` is its own name |
| Names.BaseNameOfDirectory | tape2json.js:140 | a path ending in `/` yields the empty name |
| Names.BaseNameIdempotent | tape2json.js:116 | extracting the name twice gives the same name |
| Tapes.Remapped | tape2json.js:113-116 | a record's time is `getTime(StartTime) + videoOffset`, its duration `getTime(StartTime + Duration) - getTime(StartTime)`, and picto and move names come from the path |
| Tapes.RemappedDurationNonNegative | tape2json.js:115 | over non-decreasing beats a clip of non-negative length gets a non-negative duration |
| Tapes.DanceStep | tape2json.js:106-147 | one dtape iteration fails exactly on a motion clip whose `CoachId` is outside 0..3, and otherwise keeps the four move lists |
| Tapes.RemapDance | tape2json.js:106-147 | the dtape pass keeps exactly four move lists when it succeeds |
| Tapes.DanceStepSpec | tape2json.js:106-147 | a successful iteration adds the clip's record to the list of its kind and leaves every other list unchanged |
| Tapes.RemapDanceSucceeds | tape2json.js:134-137 | the dtape pass fails exactly when some motion clip's `CoachId` is outside 0..3 |
| Tapes.RemapDanceSpec | tape2json.js:106-147 | after the dtape pass each list is its prior contents followed by one record per clip of its kind, in tape order; a motion only reaches `moves{CoachId}` |
| Tapes.RemapDanceIgnoresOthers | tape2json.js:109-146 | a clip of any other class, karaoke included, changes nothing in the dtape pass |
| Tapes.RemapKaraoke | tape2json.js:152-169 | the ktape pass only appends to the lyrics, at most one record per clip; `RemapKaraokeSpec` states which |
| Tapes.RemapKaraokeSpec | tape2json.js:150-169 | the lyrics are one record per karaoke clip, in tape order; every other class yields nothing |
| PostSort.Compare | tape2json.js:172-176 | the comparator answers -1 exactly when the first time is earlier, and 0 (`undefined`) otherwise; it never answers "greater" |
| PostSort.Insert | tape2json.js:172-176 | inserting by the comparator adds exactly the inserted record |
| PostSort.Sort | tape2json.js:172-181 | the sorted list is a permutation of its input |
| PostSort.SortMoves | tape2json.js:182-188 | the coach loop fails exactly when `NumCoach` exceeds 4; otherwise lists below `NumCoach` are permuted and the rest untouched |
| PostSort.SortLists | tape2json.js:172-188 | lyrics and pictos are permuted, gold moves untouched, move lists below `NumCoach` permuted and the others untouched; fails exactly when `NumCoach` exceeds 4 |
| Song.OffsetOf | tape2json.js:61-71 | the offset is the rounded marker / 48 at index `-startBeat` for a negative `startBeat`, and minus the rounded marker at `startBeat` otherwise, read before the range step |
| Song.TimelineOf | tape2json.js:61-94 | the grid keeps one point per marker; the beats `getTime` reads agree with the rounded markers and continue them at the last stride; `getTime` returns the listed beat at every grid position where it is defined; for a negative `startBeat` each written beat after the unadjusted prefix is that clip time plus the offset; the offset is the one read from the rounded markers |
| Song.TimelineReadsBeats | tape2json.js:64-79 | over any beat list that continues the rounded markers, `getTime(24 * i)` is beat `i` wherever it is defined |
| Song.FinalBeatsAfterPrefix | tape2json.js:81-85 | for a negative `startBeat` the written beats after the first `-startBeat` are the listed beats plus the offset |
| Song.Unsorted | tape2json.js:102-169 | the two passes fail exactly on an unknown coach and yield four move lists |
| Song.UnsortedSpec | tape2json.js:102-169 | before sorting, every list holds exactly the records of its kind in tape order |
| Song.Assemble | tape2json.js:81-188 | the conversion fails exactly on an unknown coach or `NumCoach > 4`; it carries the offset and beats through, and both preview beats are shifted by `-startBeat` |
| Song.AssembleLists | tape2json.js:102-188 | gold moves in tape order; lyrics, pictos and the move lists below `NumCoach` are permutations of their records; the other move lists keep tape order |
| Song.Convert | tape2json.js:61-188 | the whole conversion as written fails exactly on an unknown coach or `NumCoach > 4`, and its `videoOffset` is the one read from the rounded markers |
| Song.ConvertIntended | tape2json.js:61-188 | with the corrections, for `0 <= startBeat <= endBeat` the beat list has `endBeat + 1 - startBeat` beats and starts at 0 |

## Left out

- Reading and parsing the four input files, the `\x00` strip and the delayed exit on a read failure (tape2json.js:7-27): file I/O and process plumbing.
- `settings.json`, creating the output directory, the JSON/JSONP writing (tape2json.js:4, 191-214), the console log and the 5-second exit timer (216-221): I/O.
- The verbatim copy of the song metadata (tape2json.js:32-48): it has no logic.
- The colour fields (tape2json.js:49-57): `rbg2hex` from `scripts/functions` is not part of this model. The `lyrics` palette entry and `lyricsColor` share the same hex text, with prefixes `0xFF` and `#`.
- TimeBase.GetTime: computes in exact rational arithmetic, whereas everpolate uses IEEE doubles. A double rounding error at an exact `.5` could flip `Math.round`, and that is not modelled.
- TimeBase.GetTime: requires that the segment's right-hand beat exists. When the beat list was cut below the grid, everpolate reads `undefined` there and yields `NaN`, which is not modelled.
- Song.Convert: requires at least two markers and `|startBeat|` below their count. With one marker, everpolate's interval search loops forever when a clip time is exactly 0, and otherwise yields `NaN`. A negative `startBeat` out of range makes `videoOffset` `undefined`, which the JSON output drops, and every clip time `NaN`; a non-negative one out of range makes it `NaN`.
- PostSort.Sort: fixes one order for an inconsistent comparator, namely insertion that moves a record forward only on -1. The JavaScript engine's order is its own, so only the permutation property is stated and sortedness is not claimed.
- Clip fields are integers, and `GoldMove`/`IsEndOfLine`/`EffectType` are kept as the integers the tapes carry. Missing or ill-typed fields (which JavaScript would turn into `NaN` or `undefined`) are not modelled.

## Findings

| source | as written | input that shows it | evidently intended | confidence | as-written member | corrected member |
|---|---|---|---|---|---|---|
| tape2json.js:76-78 | the loop condition re-reads `beats.length` after each push, so it appends `(endBeat - (len - 1)) / 2 + 1` beats | rounded beats `[0, 1]`, `endBeat = 5`: the list becomes `[0, 1, 2, 3, 4]` and has no index 5 | append `endBeat - (len - 1)` beats so the last index is `endBeat` | medium, not executed | BeatRange.NormalizeRange, BeatRange.ExtensionShortfallExample | BeatRange.NormalizeRangeIntended |
| tape2json.js:79 | `beats.slice(0, endBeat)` keeps `endBeat` beats | rounded beats `[0, 1, 2, 3, 4]`, `endBeat = 2`: the list becomes `[0, 1]` | keep indices `0..endBeat` (`slice(0, endBeat + 1)`) | medium, not executed | BeatRange.NormalizeRange, BeatRange.TruncationDropsEndBeat | BeatRange.NormalizeRangeIntended |
| tape2json.js:92-94 | for `startBeat >= 0` the beats are shifted by `-videoOffset`, while the clips (and the other branch) are shifted by `+videoOffset` | rounded beats `[0, 10, 20]`, `startBeat = 1`, `endBeat = 2`: the clip on beat 1 is at time 0, the written beats are `[20, 30]` | shift by `+videoOffset`, giving `[0, 10]` | medium, not executed | BeatRange.FinalBeats, BeatRange.PositiveStartExample | BeatRange.FinalBeatsIntended |
