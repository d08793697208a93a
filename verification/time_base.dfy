/** The time base: markers rounded to beats, and `getTime`, the linear
    interpolation of beats over the grid `beatsMap24` that everpolate
    performs, rounded with `Math.round`. */
module TimeBase {

  /** Ticks between two consecutive points of the grid `beatsMap24`. The grid
      is `Ticks * i` for every index `i` of the markers, so it is given below
      by its length `gridLen` alone. */
  const Ticks: int := 24

  /** `Math.round(marker / 48)`: the nearest integer, halves rounded up. */
  function MarkerToBeat(marker: int): (beat: int)
    ensures 48 * beat - 24 <= marker < 48 * beat + 24
  {
    (marker + 24) / 48
  }

  /** `markers.map(a => Math.round(a / 48))`. */
  function NormalizeMarkers(markers: seq<int>): (beats: seq<int>)
    ensures |beats| == |markers|
    ensures forall i :: 0 <= i < |markers| ==> 48 * beats[i] - 24 <= markers[i] < 48 * beats[i] + 24
  {
    seq(|markers|, i requires 0 <= i < |markers| => MarkerToBeat(markers[i]))
  }

  /** The grid segment everpolate interpolates on for `t` over a grid of
      `gridLen` points: the segment holding `t`, or the first or last one
      when `t` lies outside the grid. */
  function Segment(gridLen: int, t: int): (k: int)
    requires gridLen >= 2
    ensures 0 <= k <= gridLen - 2
    ensures 0 <= t < Ticks * (gridLen - 1) ==> Ticks * k <= t < Ticks * (k + 1)
    ensures t < 0 ==> k == 0
    ensures t >= Ticks * (gridLen - 1) ==> k == gridLen - 2
  {
    if t < 0 then 0
    else if t / Ticks > gridLen - 2 then gridLen - 2
    else t / Ticks
  }

  /** `getTime(t)` yields a number: the grid has two points and the beat
      after the segment's start exists (otherwise everpolate reads
      `undefined` and the result is NaN). */
  predicate Defined(beats: seq<int>, gridLen: int, t: int) {
    gridLen >= 2 && Segment(gridLen, t) + 1 < |beats|
  }

  /** `Ticks` times the exact interpolated value at `t`. */
  function ScaledValue(beats: seq<int>, gridLen: int, t: int): int
    requires Defined(beats, gridLen, t)
  {
    var k := Segment(gridLen, t);
    Ticks * beats[k] + (t - Ticks * k) * (beats[k + 1] - beats[k])
  }

  /** `getTime(t)`: the interpolated value, rounded to the nearest integer
      with halves rounded up. */
  function GetTime(beats: seq<int>, gridLen: int, t: int): (r: int)
    requires Defined(beats, gridLen, t)
    ensures Ticks * r - 12 <= ScaledValue(beats, gridLen, t) < Ticks * r + 12
  {
    (ScaledValue(beats, gridLen, t) + 12) / Ticks
  }

  /** Interpolation is exact on the grid: `getTime(24 * i) == beats[i]`. */
  lemma GetTimeAtGrid(beats: seq<int>, gridLen: int, i: int)
    requires 0 <= i < gridLen && Defined(beats, gridLen, Ticks * i)
    ensures i < |beats| && GetTime(beats, gridLen, Ticks * i) == beats[i]
  {
    var k := Segment(gridLen, Ticks * i);
    if i == gridLen - 1 {
      assert k == i - 1;
      assert ScaledValue(beats, gridLen, Ticks * i) == Ticks * beats[i];
    } else {
      assert k == i;
      assert ScaledValue(beats, gridLen, Ticks * i) == Ticks * beats[i];
    }
  }

  /** Past the last grid point, `getTime` continues the last segment's line:
      at the grid position of index `i` it is the last known beat plus
      `i - (gridLen - 1)` strides. */
  lemma GetTimePastGrid(beats: seq<int>, gridLen: int, i: int)
    requires 2 <= gridLen <= i + 1 && gridLen <= |beats|
    ensures Defined(beats, gridLen, Ticks * i)
    ensures GetTime(beats, gridLen, Ticks * i)
         == beats[gridLen - 1] + (i - (gridLen - 1)) * (beats[gridLen - 1] - beats[gridLen - 2])
  {
    var n := gridLen;
    var d := beats[n - 1] - beats[n - 2];
    assert Segment(n, Ticks * i) == n - 2;
    var v := beats[n - 1] + (i - (n - 1)) * d;
    calc {
      ScaledValue(beats, n, Ticks * i);
      Ticks * beats[n - 2] + (Ticks * i - Ticks * (n - 2)) * d;
      { assert Ticks * i - Ticks * (n - 2) == Ticks * (i - (n - 1)) + Ticks; }
      Ticks * beats[n - 2] + Ticks * (i - (n - 1)) * d + Ticks * d;
      Ticks * v;
    }
  }

  /** The beats are in non-decreasing order. */
  predicate NonDecreasing(beats: seq<int>) {
    forall i, j :: 0 <= i <= j < |beats| ==> beats[i] <= beats[j]
  }

  lemma MulNonNegative(a: int, b: int)
    requires 0 <= a && 0 <= b
    ensures 0 <= a * b
  {
  }

  lemma DivMonotone(a: int, b: int)
    requires a <= b
    ensures a / Ticks <= b / Ticks
  {
  }

  /** Over non-decreasing beats, `getTime` is monotone: a later time never
      maps to an earlier beat. */
  lemma GetTimeMonotone(beats: seq<int>, gridLen: int, t1: int, t2: int)
    requires Defined(beats, gridLen, t1) && Defined(beats, gridLen, t2)
    requires NonDecreasing(beats) && t1 <= t2
    ensures GetTime(beats, gridLen, t1) <= GetTime(beats, gridLen, t2)
  {
    var k1, k2 := Segment(gridLen, t1), Segment(gridLen, t2);
    var d1, d2 := beats[k1 + 1] - beats[k1], beats[k2 + 1] - beats[k2];
    var v1, v2 := ScaledValue(beats, gridLen, t1), ScaledValue(beats, gridLen, t2);
    if k1 == k2 {
      MulNonNegative(t2 - t1, d1);
      assert v2 - v1 == (t2 - t1) * d1;
    } else {
      assert k1 < k2;
      // t1 lies at most one segment length past the start of its segment ...
      assert t1 - Ticks * k1 <= Ticks;
      MulNonNegative(Ticks - (t1 - Ticks * k1), d1);
      assert v1 <= Ticks * beats[k1 + 1];
      // ... and t2 lies at or after the start of its segment.
      assert t2 - Ticks * k2 >= 0;
      MulNonNegative(t2 - Ticks * k2, d2);
      assert Ticks * beats[k2] <= v2;
      assert beats[k1 + 1] <= beats[k2];
    }
    DivMonotone(v1 + 12, v2 + 12);
  }
}
