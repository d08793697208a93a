/** The clips of the dance tape and the karaoke tape, and their remapping
    into the flat, offset-adjusted records of the song file. */
module Tapes {
  import opened Results
  import Names
  import TimeBase

  /** A clip, by its `__class`. Any class the converter does not handle is
      `OtherClip`. Times and durations are in grid ticks. */
  datatype Clip =
    | PictogramClip(startTime: int, duration: int, pictoPath: string)
    | GoldEffectClip(startTime: int, duration: int, effectType: int)
    | MotionClip(startTime: int, duration: int, classifierPath: string, goldMove: int, coachId: int)
    | KaraokeClip(startTime: int, duration: int, lyrics: string, isEndOfLine: int)
    | OtherClip(className: string)

  /** What a record carries besides its time and duration. */
  datatype Payload =
    | Picto(name: string)
    | GoldEffect(effectType: int)
    | Move(name: string, goldMove: int)
    | Lyric(text: string, isLineEnding: int)

  /** A remapped record: `{time, duration, ...payload}`. */
  datatype Entry = Entry(time: int, duration: int, payload: Payload)

  /** What `getTime` closes over when the clips are remapped: the beat list
      after the range step, the length of the grid `beatsMap24` (the number
      of markers), and the video offset. */
  datatype Clock = Clock(beats: seq<int>, gridLen: int, videoOffset: int) {

    /** Both ends of a clip starting at `startTime` and lasting `duration`
        map to a number. */
    predicate Times(startTime: int, duration: int) {
      TimeBase.Defined(beats, gridLen, startTime) && TimeBase.Defined(beats, gridLen, startTime + duration)
    }
  }

  /** The clip has times (every class but `OtherClip`), and they map to numbers. */
  predicate Timed(clock: Clock, c: Clip) {
    !c.OtherClip? && clock.Times(c.startTime, c.duration)
  }

  /** The record a clip becomes: the mapped start plus the offset, the mapped
      length, and the clip's payload. */
  function Remapped(clock: Clock, c: Clip): (e: Entry)
    requires Timed(clock, c)
    ensures e.time == TimeBase.GetTime(clock.beats, clock.gridLen, c.startTime) + clock.videoOffset
    ensures e.duration == TimeBase.GetTime(clock.beats, clock.gridLen, c.startTime + c.duration)
                          - TimeBase.GetTime(clock.beats, clock.gridLen, c.startTime)
    ensures c.PictogramClip? ==> e.payload == Picto(Names.BaseName(c.pictoPath))
    ensures c.MotionClip? ==> e.payload == Move(Names.BaseName(c.classifierPath), c.goldMove)
  {
    var start := TimeBase.GetTime(clock.beats, clock.gridLen, c.startTime);
    var end := TimeBase.GetTime(clock.beats, clock.gridLen, c.startTime + c.duration);
    var payload := match c
      case PictogramClip(_, _, path) => Picto(Names.BaseName(path))
      case GoldEffectClip(_, _, effect) => GoldEffect(effect)
      case MotionClip(_, _, path, gold, _) => Move(Names.BaseName(path), gold)
      case KaraokeClip(_, _, text, eol) => Lyric(text, eol);
    Entry(start + clock.videoOffset, end - start, payload)
  }

  /** Over non-decreasing beats, a clip of non-negative duration never gets a
      negative duration. */
  lemma RemappedDurationNonNegative(clock: Clock, c: Clip)
    requires Timed(clock, c) && TimeBase.NonDecreasing(clock.beats) && c.duration >= 0
    ensures Remapped(clock, c).duration >= 0
  {
    TimeBase.GetTimeMonotone(clock.beats, clock.gridLen, c.startTime, c.startTime + c.duration);
  }

  // ---------------------------------------------------------------------
  // The dance tape.

  /** Number of move lists `Song` is created with (`moves0` .. `moves3`). */
  const MoveLists: int := 4

  /** The lists the dance tape fills. */
  datatype DanceOut = DanceOut(pictos: seq<Entry>, goldMoves: seq<Entry>, moves: seq<seq<Entry>>)

  const NoDance := DanceOut([], [], [[], [], [], []])

  /** The dance tape handles pictograms, gold effects and motions. */
  predicate IsDanceClip(c: Clip) {
    c.PictogramClip? || c.GoldEffectClip? || c.MotionClip?
  }

  /** A clip of the dance tape whose times must map to numbers. */
  predicate DanceTimed(clock: Clock, c: Clip) {
    IsDanceClip(c) ==> Timed(clock, c)
  }

  /** One iteration of the dance tape's `forEach`. */
  function DanceStep(clock: Clock, c: Clip, acc: DanceOut): (r: Result<DanceOut>)
    requires |acc.moves| == MoveLists && DanceTimed(clock, c)
    ensures r.Ok? <==> !(c.MotionClip? && !(0 <= c.coachId < MoveLists))
    ensures r.Ok? ==> |r.value.moves| == MoveLists
  {
    match c
    case PictogramClip(_, _, _) =>
      Ok(acc.(pictos := acc.pictos + [Remapped(clock, c)]))
    case GoldEffectClip(_, _, _) =>
      Ok(acc.(goldMoves := acc.goldMoves + [Remapped(clock, c)]))
    case MotionClip(_, _, _, _, coach) =>
      if 0 <= coach < MoveLists then
        Ok(acc.(moves := acc.moves[coach := acc.moves[coach] + [Remapped(clock, c)]]))
      else
        Err(NoMoveList(coach))
    case _ => Ok(acc)
  }

  /** `dtape.Clips.forEach(...)`, pushing onto `acc`; stops at the first
      motion clip whose coach has no move list. */
  function RemapDance(clock: Clock, clips: seq<Clip>, acc: DanceOut): (r: Result<DanceOut>)
    requires |acc.moves| == MoveLists
    requires forall i :: 0 <= i < |clips| ==> DanceTimed(clock, clips[i])
    ensures r.Ok? ==> |r.value.moves| == MoveLists
    decreases |clips|
  {
    if |clips| == 0 then Ok(acc)
    else
      var next :- DanceStep(clock, clips[0], acc);
      RemapDance(clock, clips[1..], next)
  }

  /** The kinds of output list a clip can land in. */
  datatype Kind = PictoKind | GoldKind | MoveKind(coach: int) | LyricKind

  /** The clip belongs in the list of that kind. */
  predicate OfKind(c: Clip, kind: Kind) {
    match kind
    case PictoKind => c.PictogramClip?
    case GoldKind => c.GoldEffectClip?
    case MoveKind(k) => c.MotionClip? && c.coachId == k
    case LyricKind => c.KaraokeClip?
  }

  /** Reference definition: the records of the clips of one kind, in order. */
  function Selected(clock: Clock, clips: seq<Clip>, kind: Kind): seq<Entry>
    requires forall i :: 0 <= i < |clips| && OfKind(clips[i], kind) ==> Timed(clock, clips[i])
  {
    if |clips| == 0 then []
    else
      (if OfKind(clips[0], kind) then [Remapped(clock, clips[0])] else [])
      + Selected(clock, clips[1..], kind)
  }

  /** Every motion clip names a coach that has a move list. */
  predicate CoachesKnown(clips: seq<Clip>) {
    forall i :: 0 <= i < |clips| && clips[i].MotionClip? ==> 0 <= clips[i].coachId < MoveLists
  }

  /** The records one clip contributes to the list of a kind. */
  function Contribution(clock: Clock, c: Clip, kind: Kind): seq<Entry>
    requires OfKind(c, kind) ==> Timed(clock, c)
  {
    if OfKind(c, kind) then [Remapped(clock, c)] else []
  }

  /** A kind the dance tape fills. */
  predicate DanceKind(kind: Kind) {
    kind.PictoKind? || kind.GoldKind? || (kind.MoveKind? && 0 <= kind.coach < MoveLists)
  }

  /** The list of `out` that holds records of `kind`. */
  function ListOf(out: DanceOut, kind: Kind): seq<Entry>
    requires |out.moves| == MoveLists && DanceKind(kind)
  {
    match kind
    case PictoKind => out.pictos
    case GoldKind => out.goldMoves
    case MoveKind(k) => out.moves[k]
  }

  /** A successful step adds the clip's record to the list of its kind and
      leaves every other list as it was. */
  lemma DanceStepSpec(clock: Clock, c: Clip, acc: DanceOut, kind: Kind)
    requires |acc.moves| == MoveLists && DanceTimed(clock, c) && DanceKind(kind)
    ensures DanceStep(clock, c, acc).Ok? ==>
              ListOf(DanceStep(clock, c, acc).value, kind) == ListOf(acc, kind) + Contribution(clock, c, kind)
  {
  }

  /** The dance tape succeeds exactly when every coach is known. */
  lemma {:induction false} RemapDanceSucceeds(clock: Clock, clips: seq<Clip>, acc: DanceOut)
    requires |acc.moves| == MoveLists
    requires forall i :: 0 <= i < |clips| ==> DanceTimed(clock, clips[i])
    ensures RemapDance(clock, clips, acc).Ok? <==> CoachesKnown(clips)
    decreases |clips|
  {
    if |clips| > 0 {
      var c, rest := clips[0], clips[1..];
      assert forall i :: 0 <= i < |rest| ==> rest[i] == clips[i + 1];
      DanceStepSpec(clock, c, acc, PictoKind);
      var step := DanceStep(clock, c, acc);
      if step.Ok? {
        RemapDanceSucceeds(clock, rest, step.value);
        assert CoachesKnown(clips) <==> CoachesKnown(rest) by {
          if CoachesKnown(rest) && c.MotionClip? {
            assert 0 <= c.coachId < MoveLists;
          }
        }
      } else {
        assert clips[0].MotionClip? && !(0 <= clips[0].coachId < MoveLists);
      }
    }
  }

  /** When the dance tape succeeds, each list is what it held before followed
      by the records of its kind, in tape order: a motion clip lands only in
      its own coach's list, and clips of other classes land nowhere. */
  lemma {:induction false} RemapDanceSpec(clock: Clock, clips: seq<Clip>, acc: DanceOut, kind: Kind)
    requires |acc.moves| == MoveLists && DanceKind(kind)
    requires forall i :: 0 <= i < |clips| ==> DanceTimed(clock, clips[i])
    requires RemapDance(clock, clips, acc).Ok?
    ensures ListOf(RemapDance(clock, clips, acc).value, kind) == ListOf(acc, kind) + Selected(clock, clips, kind)
    decreases |clips|
  {
    if |clips| > 0 {
      var c, rest := clips[0], clips[1..];
      assert forall i :: 0 <= i < |rest| ==> rest[i] == clips[i + 1];
      DanceStepSpec(clock, c, acc, kind);
      var next := DanceStep(clock, c, acc).value;
      RemapDanceSpec(clock, rest, next, kind);
      assert RemapDance(clock, clips, acc) == RemapDance(clock, rest, next);
      assert Selected(clock, clips, kind) == Contribution(clock, c, kind) + Selected(clock, rest, kind);
    }
  }

  /** Clips of any other class, karaoke clips included, leave the dance tape's
      output as if they were absent. */
  lemma {:induction false} RemapDanceIgnoresOthers(clock: Clock, clips: seq<Clip>, c: Clip, acc: DanceOut)
    requires |acc.moves| == MoveLists && !IsDanceClip(c)
    requires forall i :: 0 <= i < |clips| ==> DanceTimed(clock, clips[i])
    ensures forall i :: 0 <= i < |clips + [c]| ==> DanceTimed(clock, (clips + [c])[i])
    ensures RemapDance(clock, clips + [c], acc) == RemapDance(clock, clips, acc)
    decreases |clips|
  {
    var all := clips + [c];
    if |clips| == 0 {
      assert all[1..] == [];
    } else {
      assert all[1..] == clips[1..] + [c];
      var step := DanceStep(clock, clips[0], acc);
      if step.Ok? {
        RemapDanceIgnoresOthers(clock, clips[1..], c, step.value);
      }
    }
  }

  // ---------------------------------------------------------------------
  // The karaoke tape.

  /** `ktape.Clips.forEach(...)`: only karaoke clips become lyrics. */
  function RemapKaraoke(clock: Clock, clips: seq<Clip>, acc: seq<Entry>): (r: seq<Entry>)
    requires forall i :: 0 <= i < |clips| && clips[i].KaraokeClip? ==> Timed(clock, clips[i])
    ensures |acc| <= |r| <= |acc| + |clips|
    ensures r[..|acc|] == acc
    decreases |clips|
  {
    if |clips| == 0 then acc
    else if clips[0].KaraokeClip? then RemapKaraoke(clock, clips[1..], acc + [Remapped(clock, clips[0])])
    else RemapKaraoke(clock, clips[1..], acc)
  }

  /** The lyrics are the records of the karaoke clips, in tape order; clips of
      every other class yield nothing. */
  lemma {:induction false} RemapKaraokeSpec(clock: Clock, clips: seq<Clip>, acc: seq<Entry>)
    requires forall i :: 0 <= i < |clips| && clips[i].KaraokeClip? ==> Timed(clock, clips[i])
    ensures RemapKaraoke(clock, clips, acc) == acc + Selected(clock, clips, LyricKind)
    decreases |clips|
  {
    if |clips| > 0 {
      var rest := clips[1..];
      assert forall i :: 0 <= i < |rest| ==> rest[i] == clips[i + 1];
      if clips[0].KaraokeClip? {
        RemapKaraokeSpec(clock, rest, acc + [Remapped(clock, clips[0])]);
      } else {
        RemapKaraokeSpec(clock, rest, acc);
      }
    }
  }
}
