/** The video offset, the stretching or cutting of the beat list to
    `endBeat`, the final offset-adjusted beat list and the audio preview. */
module BeatRange {
  import JsArray
  import TimeBase

  /** `startBeat < 0 ? beats[-startBeat] : -beats[startBeat]`, read from the
      beats as rounded from the markers, before any stretching or cutting. */
  function VideoOffset(beats: seq<int>, startBeat: int): int
    requires -|beats| < startBeat < |beats|
  {
    if startBeat < 0 then beats[-startBeat] else -beats[startBeat]
  }

  /** The difference between the last two beats. */
  function Stride(beats: seq<int>): int
    requires |beats| >= 2
  {
    beats[|beats| - 1] - beats[|beats| - 2]
  }

  /** `norm` agrees with `orig` wherever both are defined, and every beat past
      the end of `orig` is the one before it plus the last stride of `orig`. */
  predicate Continues(orig: seq<int>, norm: seq<int>)
    requires |orig| >= 2
  {
    && (forall i :: 0 <= i < |orig| && i < |norm| ==> norm[i] == orig[i])
    && (forall i :: |orig| <= i < |norm| ==> norm[i] == norm[i - 1] + Stride(orig))
  }

  /** `beats` followed by `count` more beats, each the one before it plus the
      last stride. */
  function Extend(beats: seq<int>, count: nat): (r: seq<int>)
    requires |beats| >= 2
    ensures |r| == |beats| + count
    ensures r[..|beats|] == beats
    ensures Continues(beats, r)
  {
    if count == 0 then beats
    else
      var e := Extend(beats, count - 1);
      e + [e[|e| - 1] + Stride(beats)]
  }

  /** How many beats the extension loop appends when the last index
      `|beats| - 1` is below `endBeat`. */
  function AppendedCount(len: int, endBeat: int): int {
    (endBeat - (len - 1)) / 2 + 1
  }

  /** The beat list after the stretch-or-cut step, as the program computes it. */
  function NormalizeRange(beats: seq<int>, endBeat: int): (r: seq<int>)
    requires |beats| >= 2
    ensures Continues(beats, r)
    ensures |beats| - 1 < endBeat ==> |beats| < |r| && r[..|beats|] == beats
    ensures |beats| - 1 > endBeat >= 0 ==> r == beats[..endBeat]
    ensures endBeat < 0 ==> r == beats[..JsArray.RelativeIndex(|beats|, endBeat)]
    ensures |beats| - 1 == endBeat ==> r == beats
  {
    if |beats| - 1 < endBeat then Extend(beats, AppendedCount(|beats|, endBeat))
    else if |beats| - 1 > endBeat then JsArray.Slice(beats, 0, endBeat)
    else beats
  }

  /** The extension loop as written: the bound `endBeat - (beats.length - 1)`
      is re-read after every push, so the loop appends about half of the
      missing beats. */
  method ExtendBeats(orig: seq<int>, endBeat: int) returns (beats: seq<int>)
    requires |orig| >= 2 && |orig| - 1 < endBeat
    ensures |beats| == |orig| + (endBeat - (|orig| - 1)) / 2 + 1
    ensures beats[..|orig|] == orig
    ensures forall i :: |orig| <= i < |beats| ==> beats[i] == beats[i - 1] + Stride(orig)
    ensures beats == NormalizeRange(orig, endBeat)
  {
    beats := orig;
    var a := beats[|beats| - 1] - beats[|beats| - 2];
    var b := -1;
    while b < endBeat - (|beats| - 1)
      invariant |beats| == |orig| + b + 1
      invariant b + 1 <= AppendedCount(|orig|, endBeat)
      invariant beats == Extend(orig, b + 1)
      decreases endBeat - (|beats| - 1) - b
    {
      beats := beats + [beats[|beats| - 1] + a];
      b := b + 1;
    }
  }

  /** The beat list written to the song file, as the program computes it:
      for a negative `startBeat` the first `-startBeat` beats unadjusted, then
      every beat plus the offset; otherwise the beats from `startBeat` on,
      each minus the offset. */
  function FinalBeats(beats: seq<int>, videoOffset: int, startBeat: int): (r: seq<int>)
    ensures startBeat < 0 ==>
              var p := if -startBeat < |beats| then -startBeat else |beats|;
              && |r| == p + |beats|
              && r[..p] == beats[..p]
              && forall i :: 0 <= i < |beats| ==> r[p + i] == beats[i] + videoOffset
    ensures 0 <= startBeat ==>
              var s := if startBeat < |beats| then startBeat else |beats|;
              && |r| == |beats| - s
              && forall i :: 0 <= i < |r| ==> r[i] == beats[s + i] - videoOffset
  {
    if startBeat < 0 then
      JsArray.Slice(beats, 0, startBeat * -1) + JsArray.Shift(beats, videoOffset)
    else
      JsArray.Shift(JsArray.Slice(beats, startBeat, |beats|), -videoOffset)
  }

  /** The `AudioPreview` record: `coverflow.startBeat` and `prelobby.startBeat`. */
  datatype AudioPreview = AudioPreview(coverflow: int, prelobby: int)

  /** Both preview beats move by `-startBeat`, whatever its sign. */
  function Preview(previewEntry: int, previewLoopStart: int, startBeat: int): (p: AudioPreview)
    ensures p.coverflow == previewEntry - startBeat
    ensures p.prelobby == previewLoopStart - startBeat
  {
    if startBeat < 0 then
      AudioPreview(previewEntry + startBeat * -1, previewLoopStart + startBeat * -1)
    else
      AudioPreview(previewEntry - startBeat, previewLoopStart - startBeat)
  }

  // ---------------------------------------------------------------------
  // Properties of the as-written pipeline.

  /** Past the original beats, a continued list is the last original beat
      plus whole strides. */
  lemma {:induction false} ContinuesClosedForm(orig: seq<int>, norm: seq<int>, i: int)
    requires |orig| >= 2 && Continues(orig, norm)
    requires |orig| - 1 <= i < |norm|
    ensures norm[i] == orig[|orig| - 1] + (i - (|orig| - 1)) * Stride(orig)
    decreases i
  {
    if i >= |orig| {
      ContinuesClosedForm(orig, norm, i - 1);
      assert norm[i] == norm[i - 1] + Stride(orig);
    }
  }

  /** `getTime`, built over the grid of the original beats and reading the
      continued beats, agrees with the continued beats at every grid position
      where it is defined, including the extrapolated ones. */
  lemma ClockMatchesBeats(orig: seq<int>, norm: seq<int>, i: int)
    requires |orig| >= 2 && Continues(orig, norm)
    requires 0 <= i < |norm| && TimeBase.Defined(norm, |orig|, TimeBase.Ticks * i)
    ensures TimeBase.GetTime(norm, |orig|, TimeBase.Ticks * i) == norm[i]
  {
    var n := |orig|;
    if i < n {
      TimeBase.GetTimeAtGrid(norm, n, i);
    } else {
      TimeBase.GetTimePastGrid(norm, n, i);
      ContinuesClosedForm(orig, norm, i);
      assert norm[n - 1] == orig[n - 1] && norm[n - 2] == orig[n - 2];
    }
  }

  /** The offset re-anchors the clips: for a non-negative `startBeat`, a clip
      starting on beat `startBeat` gets time zero. */
  lemma VideoOffsetAnchorsStartBeat(orig: seq<int>, norm: seq<int>, startBeat: int)
    requires |orig| >= 2 && Continues(orig, norm)
    requires 0 <= startBeat < |orig| && startBeat < |norm|
    requires TimeBase.Defined(norm, |orig|, TimeBase.Ticks * startBeat)
    ensures TimeBase.GetTime(norm, |orig|, TimeBase.Ticks * startBeat) + VideoOffset(orig, startBeat) == 0
  {
    ClockMatchesBeats(orig, norm, startBeat);
  }

  /** Reading the offset from the original beats gives the same value as
      reading it from the stretched or cut list whenever the index survives:
      the range step never changes the offset. */
  lemma VideoOffsetIgnoresRange(orig: seq<int>, endBeat: int, startBeat: int)
    requires |orig| >= 2 && -|orig| < startBeat < |orig|
    requires -|NormalizeRange(orig, endBeat)| < startBeat < |NormalizeRange(orig, endBeat)|
    ensures VideoOffset(orig, startBeat) == VideoOffset(NormalizeRange(orig, endBeat), startBeat)
  {
  }

  /** For a negative `startBeat`, the final beat list and the clip times share
      one time base: beat `i` of the list after the unadjusted prefix is the
      time of a clip starting at grid position `i`. */
  lemma FinalBeatsMatchClipsWhenStartNegative(orig: seq<int>, norm: seq<int>, startBeat: int, i: int)
    requires |orig| >= 2 && Continues(orig, norm) && -|orig| < startBeat < 0
    requires 0 <= i < |norm| && TimeBase.Defined(norm, |orig|, TimeBase.Ticks * i)
    ensures var p := if -startBeat < |norm| then -startBeat else |norm|;
            var vo := VideoOffset(orig, startBeat);
            FinalBeats(norm, vo, startBeat)[p + i]
              == TimeBase.GetTime(norm, |orig|, TimeBase.Ticks * i) + vo
  {
    ClockMatchesBeats(orig, norm, i);
  }

  /** For a positive `startBeat` the program moves the beats the other way
      from the clips: the beat on which the clips are anchored to zero is
      written as twice its original value. */
  lemma FinalBeatsMisalignedWhenStartPositive(orig: seq<int>, norm: seq<int>, startBeat: int)
    requires |orig| >= 2 && Continues(orig, norm)
    requires 0 <= startBeat < |orig| && startBeat < |norm|
    requires TimeBase.Defined(norm, |orig|, TimeBase.Ticks * startBeat)
    ensures var vo := VideoOffset(orig, startBeat);
            && TimeBase.GetTime(norm, |orig|, TimeBase.Ticks * startBeat) + vo == 0
            && FinalBeats(norm, vo, startBeat)[0] == 2 * orig[startBeat]
  {
    VideoOffsetAnchorsStartBeat(orig, norm, startBeat);
  }

  /** A concrete instance: markers rounding to `[0, 10, 20]`, `startBeat = 1`,
      `endBeat = 2`. The clip on beat 1 is at time 0, the first written beat
      is 20 (it should be 0). */
  lemma PositiveStartExample()
    ensures var orig := [0, 10, 20];
            var norm := NormalizeRange(orig, 2);
            var vo := VideoOffset(orig, 1);
            && vo == -10
            && TimeBase.GetTime(norm, 3, 24) + vo == 0
            && FinalBeats(norm, vo, 1) == [20, 30]
  {
    var orig := [0, 10, 20];
    FinalBeatsMisalignedWhenStartPositive(orig, orig, 1);
    assert FinalBeats(orig, -10, 1) == [20, 30];
  }

  /** The extension loop leaves the list short of index `endBeat` as soon as
      more than two beats are missing. */
  lemma ExtensionShortfall(beats: seq<int>, endBeat: int)
    requires |beats| >= 2 && |beats| - 1 < endBeat
    ensures |NormalizeRange(beats, endBeat)| == endBeat + 1 <==> endBeat - (|beats| - 1) <= 2
  {
  }

  /** A concrete instance: beats `[0, 1]` extended to `endBeat = 5` end at
      index 4. */
  lemma ExtensionShortfallExample()
    ensures NormalizeRange([0, 1], 5) == [0, 1, 2, 3, 4]
  {
    var r := NormalizeRange([0, 1], 5);
    assert |r| == 5;
  }

  /** Cutting keeps `endBeat` beats, so index `endBeat` itself is lost. */
  lemma TruncationDropsEndBeat(beats: seq<int>, endBeat: int)
    requires |beats| >= 2 && 0 <= endBeat < |beats| - 1
    ensures |NormalizeRange(beats, endBeat)| == endBeat
  {
  }

  // ---------------------------------------------------------------------
  // The evidently intended behaviour.

  /** The beat list stretched or cut so that its last index is `endBeat`. */
  function NormalizeRangeIntended(beats: seq<int>, endBeat: int): (r: seq<int>)
    requires |beats| >= 2
    ensures |r| == if endBeat < 0 then 0 else endBeat + 1
    ensures Continues(beats, r)
  {
    if |beats| - 1 < endBeat then Extend(beats, endBeat - (|beats| - 1))
    else if endBeat < 0 then []
    else beats[..endBeat + 1]
  }

  /** The final beat list with every beat moved by the offset in the same
      direction as the clips. */
  function FinalBeatsIntended(beats: seq<int>, videoOffset: int, startBeat: int): (r: seq<int>)
    ensures startBeat < 0 ==> r == FinalBeats(beats, videoOffset, startBeat)
    ensures 0 <= startBeat ==>
              var s := if startBeat < |beats| then startBeat else |beats|;
              && |r| == |beats| - s
              && forall i :: 0 <= i < |r| ==> r[i] == beats[s + i] + videoOffset
  {
    if startBeat < 0 then FinalBeats(beats, videoOffset, startBeat)
    else JsArray.Shift(JsArray.Slice(beats, startBeat, |beats|), videoOffset)
  }

  /** With the correction, beat `i` of the final list is the time of a clip
      starting on beat `startBeat + i`, and the list starts at zero. */
  lemma FinalBeatsIntendedMatchClips(orig: seq<int>, norm: seq<int>, startBeat: int, i: int)
    requires |orig| >= 2 && Continues(orig, norm)
    requires 0 <= startBeat < |orig| && 0 <= i && startBeat + i < |norm|
    requires TimeBase.Defined(norm, |orig|, TimeBase.Ticks * (startBeat + i))
    ensures var vo := VideoOffset(orig, startBeat);
            FinalBeatsIntended(norm, vo, startBeat)[i]
              == TimeBase.GetTime(norm, |orig|, TimeBase.Ticks * (startBeat + i)) + vo
    ensures i == 0 ==> FinalBeatsIntended(norm, VideoOffset(orig, startBeat), startBeat)[0] == 0
  {
    ClockMatchesBeats(orig, norm, startBeat + i);
  }
}
