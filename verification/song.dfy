/** The conversion of one song: from the track structure and the two tapes
    to the beat list, the video offset, the audio preview and the sorted
    record lists of the song file and the per-coach move files. */
module Song {
  import opened Results
  import TimeBase
  import BeatRange
  import Tapes
  import PostSort

  /** `musictrack.COMPONENTS[0].trackData.structure`. */
  datatype Structure = Structure(
    startBeat: int,
    markers: seq<int>,
    endBeat: int,
    previewEntry: int,
    previewLoopStart: int)

  /** The parsed inputs the conversion reads. */
  datatype Input = Input(
    structure: Structure,
    numCoach: int,
    danceClips: seq<Tapes.Clip>,
    karaokeClips: seq<Tapes.Clip>)

  /** The computed fields of the song file and the move lists
      (`moves0` .. `moves3`, one file per coach below `NumCoach`). */
  datatype Output = Output(
    videoOffset: int,
    beats: seq<int>,
    audioPreview: BeatRange.AudioPreview,
    pictos: seq<Tapes.Entry>,
    goldMoves: seq<Tapes.Entry>,
    lyrics: seq<Tapes.Entry>,
    moves: seq<seq<Tapes.Entry>>)

  /** The beat side of a conversion: the grid length, the beat list `getTime`
      reads, the video offset and the final beat list. */
  datatype Timeline = Timeline(gridLen: int, rangeBeats: seq<int>, videoOffset: int, beats: seq<int>)

  /** The structure yields numbers: at least two markers, and the offset
      index `|startBeat|` inside the marker list. */
  predicate ValidStructure(st: Structure) {
    |st.markers| >= 2 && -|st.markers| < st.startBeat < |st.markers|
  }

  /** The video offset, read from the rounded markers at index `|startBeat|`
      and negated for a non-negative `startBeat`. */
  function OffsetOf(st: Structure): (videoOffset: int)
    requires ValidStructure(st)
    ensures var b := if st.startBeat < 0 then videoOffset else -videoOffset;
            var m := if st.startBeat < 0 then st.markers[-st.startBeat] else st.markers[st.startBeat];
            48 * b - 24 <= m < 48 * b + 24
  {
    BeatRange.VideoOffset(TimeBase.NormalizeMarkers(st.markers), st.startBeat)
  }

  /** `getTime` over the timeline returns the listed beat at every grid
      position where it is defined. */
  predicate ClockReadsBeats(tl: Timeline) {
    forall i :: 0 <= i < |tl.rangeBeats| && TimeBase.Defined(tl.rangeBeats, tl.gridLen, TimeBase.Ticks * i) ==>
      TimeBase.GetTime(tl.rangeBeats, tl.gridLen, TimeBase.Ticks * i) == tl.rangeBeats[i]
  }

  /** For a negative `startBeat`, the written beat after the unadjusted
      prefix is the listed beat plus the offset: the time of a clip on that
      grid position wherever `ClockReadsBeats` holds. */
  predicate WrittenAfterPrefix(tl: Timeline, startBeat: int) {
    var p := if -startBeat < |tl.rangeBeats| then -startBeat else |tl.rangeBeats|;
    startBeat < 0 ==>
      forall i :: 0 <= i < |tl.rangeBeats| ==> p + i < |tl.beats| && tl.beats[p + i] == tl.rangeBeats[i] + tl.videoOffset
  }

  /** The final beat list as the program writes it satisfies
      `WrittenAfterPrefix`. */
  lemma FinalBeatsAfterPrefix(tl: Timeline, startBeat: int)
    requires tl.beats == BeatRange.FinalBeats(tl.rangeBeats, tl.videoOffset, startBeat)
    ensures WrittenAfterPrefix(tl, startBeat)
  {
  }

  /** A timeline over the rounded markers `orig`, reading beats that
      continue them, reads those beats back. */
  lemma TimelineReadsBeats(tl: Timeline, orig: seq<int>)
    requires |orig| >= 2 && tl.gridLen == |orig| && BeatRange.Continues(orig, tl.rangeBeats)
    ensures ClockReadsBeats(tl)
  {
    var norm := tl.rangeBeats;
    forall i | 0 <= i < |norm| && TimeBase.Defined(norm, |orig|, TimeBase.Ticks * i)
      ensures TimeBase.GetTime(norm, |orig|, TimeBase.Ticks * i) == norm[i]
    {
      BeatRange.ClockMatchesBeats(orig, norm, i);
    }
  }

  /** The beat side as the program computes it. The grid keeps one point
      per marker, the beats `getTime` reads agree with the rounded markers
      and continue them at the last stride, the clock reads those beats
      back, and for a negative `startBeat` the written beats after the
      prefix are the clip times of the grid positions. */
  function TimelineOf(st: Structure): (tl: Timeline)
    requires ValidStructure(st)
    ensures tl.gridLen == |st.markers|
    ensures BeatRange.Continues(TimeBase.NormalizeMarkers(st.markers), tl.rangeBeats)
    ensures tl.videoOffset == OffsetOf(st)
    ensures ClockReadsBeats(tl) && WrittenAfterPrefix(tl, st.startBeat)
  {
    var beats := TimeBase.NormalizeMarkers(st.markers);
    var ranged := BeatRange.NormalizeRange(beats, st.endBeat);
    var tl := Timeline(|beats|, ranged, OffsetOf(st), BeatRange.FinalBeats(ranged, OffsetOf(st), st.startBeat));
    TimelineReadsBeats(tl, beats);
    FinalBeatsAfterPrefix(tl, st.startBeat);
    tl
  }

  /** The beat side with the range step and the final shift corrected. */
  function TimelineIntendedOf(st: Structure): Timeline
    requires ValidStructure(st)
  {
    var beats := TimeBase.NormalizeMarkers(st.markers);
    var ranged := BeatRange.NormalizeRangeIntended(beats, st.endBeat);
    Timeline(|beats|, ranged, OffsetOf(st), BeatRange.FinalBeatsIntended(ranged, OffsetOf(st), st.startBeat))
  }

  function ClockOf(tl: Timeline): Tapes.Clock {
    Tapes.Clock(tl.rangeBeats, tl.gridLen, tl.videoOffset)
  }

  /** Every clip the converter remaps has times that map to numbers. */
  predicate ClipsTimed(inp: Input, tl: Timeline) {
    && (forall i :: 0 <= i < |inp.danceClips| ==> Tapes.DanceTimed(ClockOf(tl), inp.danceClips[i]))
    && (forall i :: 0 <= i < |inp.karaokeClips| && inp.karaokeClips[i].KaraokeClip? ==>
          Tapes.Timed(ClockOf(tl), inp.karaokeClips[i]))
  }

  /** The two `forEach` passes: the lists before sorting. */
  function Unsorted(inp: Input, tl: Timeline): (r: Result<PostSort.Lists>)
    requires ClipsTimed(inp, tl)
    ensures r.Ok? <==> Tapes.CoachesKnown(inp.danceClips)
    ensures r.Ok? ==> |r.value.moves| == Tapes.MoveLists
  {
    var clock := ClockOf(tl);
    Tapes.RemapDanceSucceeds(clock, inp.danceClips, Tapes.NoDance);
    var dance :- Tapes.RemapDance(clock, inp.danceClips, Tapes.NoDance);
    Ok(PostSort.Lists(dance.pictos, dance.goldMoves, Tapes.RemapKaraoke(clock, inp.karaokeClips, []), dance.moves))
  }

  /** Before sorting, each list holds exactly the records of its kind, in
      tape order. */
  lemma UnsortedSpec(inp: Input, tl: Timeline)
    requires ClipsTimed(inp, tl) && Unsorted(inp, tl).Ok?
    ensures var clock, lists := ClockOf(tl), Unsorted(inp, tl).value;
            && lists.pictos == Tapes.Selected(clock, inp.danceClips, Tapes.PictoKind)
            && lists.goldMoves == Tapes.Selected(clock, inp.danceClips, Tapes.GoldKind)
            && lists.lyrics == Tapes.Selected(clock, inp.karaokeClips, Tapes.LyricKind)
            && forall k :: 0 <= k < Tapes.MoveLists ==>
                 lists.moves[k] == Tapes.Selected(clock, inp.danceClips, Tapes.MoveKind(k))
  {
    var clock := ClockOf(tl);
    var clips := inp.danceClips;
    var nothing := Tapes.NoDance;
    Tapes.RemapDanceSpec(clock, clips, nothing, Tapes.PictoKind);
    Tapes.RemapDanceSpec(clock, clips, nothing, Tapes.GoldKind);
    forall k | 0 <= k < Tapes.MoveLists
      ensures Unsorted(inp, tl).value.moves[k] == Tapes.Selected(clock, clips, Tapes.MoveKind(k))
    {
      Tapes.RemapDanceSpec(clock, clips, nothing, Tapes.MoveKind(k));
      assert nothing.moves[k] == [];
    }
    Tapes.RemapKaraokeSpec(clock, inp.karaokeClips, []);
  }

  /** The clip side of a conversion over a given beat side. */
  function Assemble(inp: Input, tl: Timeline): (r: Result<Output>)
    requires ClipsTimed(inp, tl)
    ensures r.Ok? <==> Tapes.CoachesKnown(inp.danceClips) && inp.numCoach <= Tapes.MoveLists
    ensures r.Ok? ==> r.value.videoOffset == tl.videoOffset && r.value.beats == tl.beats
    ensures r.Ok? ==>
              r.value.audioPreview.coverflow == inp.structure.previewEntry - inp.structure.startBeat
              && r.value.audioPreview.prelobby == inp.structure.previewLoopStart - inp.structure.startBeat
  {
    var lists :- Unsorted(inp, tl);
    var sorted :- PostSort.SortLists(lists, inp.numCoach);
    var preview := BeatRange.Preview(inp.structure.previewEntry, inp.structure.previewLoopStart, inp.structure.startBeat);
    Ok(Output(tl.videoOffset, tl.beats, preview, sorted.pictos, sorted.goldMoves, sorted.lyrics, sorted.moves))
  }

  /** The record lists of a successful conversion: the gold moves in tape
      order; the lyrics, the pictograms and the move lists of coaches below
      `NumCoach` a permutation of their records; the other move lists in
      tape order. */
  lemma AssembleLists(inp: Input, tl: Timeline)
    requires ClipsTimed(inp, tl) && Assemble(inp, tl).Ok?
    ensures var clock, out := ClockOf(tl), Assemble(inp, tl).value;
            && out.goldMoves == Tapes.Selected(clock, inp.danceClips, Tapes.GoldKind)
            && multiset(out.pictos) == multiset(Tapes.Selected(clock, inp.danceClips, Tapes.PictoKind))
            && multiset(out.lyrics) == multiset(Tapes.Selected(clock, inp.karaokeClips, Tapes.LyricKind))
            && |out.moves| == Tapes.MoveLists
            && forall k :: 0 <= k < Tapes.MoveLists ==>
                 if k < inp.numCoach
                 then multiset(out.moves[k]) == multiset(Tapes.Selected(clock, inp.danceClips, Tapes.MoveKind(k)))
                 else out.moves[k] == Tapes.Selected(clock, inp.danceClips, Tapes.MoveKind(k))
  {
    UnsortedSpec(inp, tl);
  }

  /** The inputs on which the program computes numbers throughout. */
  predicate Admissible(inp: Input) {
    ValidStructure(inp.structure) && ClipsTimed(inp, TimelineOf(inp.structure))
  }

  /** The conversion as the program performs it. */
  function Convert(inp: Input): (r: Result<Output>)
    requires Admissible(inp)
    ensures r.Ok? <==> Tapes.CoachesKnown(inp.danceClips) && inp.numCoach <= Tapes.MoveLists
    ensures r.Ok? ==> r.value.videoOffset == OffsetOf(inp.structure)
  {
    var tl := TimelineOf(inp.structure);
    Assemble(inp, tl)
  }

  /** The inputs on which the corrected conversion computes numbers throughout. */
  predicate AdmissibleIntended(inp: Input) {
    ValidStructure(inp.structure) && ClipsTimed(inp, TimelineIntendedOf(inp.structure))
  }

  /** The conversion with the range step and the final shift corrected: the
      beat list reaches index `endBeat`, and for a non-negative `startBeat`
      it starts at zero, where the clips are anchored. */
  function ConvertIntended(inp: Input): (r: Result<Output>)
    requires AdmissibleIntended(inp)
    ensures r.Ok? <==> Tapes.CoachesKnown(inp.danceClips) && inp.numCoach <= Tapes.MoveLists
    ensures r.Ok? && 0 <= inp.structure.startBeat <= inp.structure.endBeat ==>
              |r.value.beats| == inp.structure.endBeat + 1 - inp.structure.startBeat
              && r.value.beats[0] == 0
  {
    Assemble(inp, TimelineIntendedOf(inp.structure))
  }
}
