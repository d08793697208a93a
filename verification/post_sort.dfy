/** The final `sort` of the lyrics, the pictograms and the first `NumCoach`
    move lists. */
module PostSort {
  import opened Results
  import opened Tapes

  /** The comparator `(a, b) => { if (a.time < b.time) return -1; }`: the
      missing return yields `undefined`, which `sort` treats as 0. It never
      says "greater", so it is not a consistent ordering and the order the
      engine produces is its own choice. */
  function Compare(a: Entry, b: Entry): (r: int)
    ensures r == -1 || r == 0
    ensures r < 0 <==> a.time < b.time
  {
    if a.time < b.time then -1 else 0
  }

  /** Insert `x` after the sorted prefix `s`, moving it ahead of an element
      only while the comparator answers -1. */
  function Insert(x: Entry, s: seq<Entry>): (r: seq<Entry>)
    ensures multiset(r) == multiset(s) + multiset{x}
  {
    if |s| == 0 || Compare(x, s[|s| - 1]) >= 0 then s + [x]
    else
      assert s == s[..|s| - 1] + [s[|s| - 1]];
      Insert(x, s[..|s| - 1]) + [s[|s| - 1]]
  }

  /** One order an engine may produce for `list.sort(Compare)`: insertion
      driven by the comparator alone. Only its being a permutation is relied
      on. */
  function Sort(s: seq<Entry>): (r: seq<Entry>)
    ensures multiset(r) == multiset(s)
  {
    if |s| == 0 then []
    else
      assert s == s[..|s| - 1] + [s[|s| - 1]];
      Insert(s[|s| - 1], Sort(s[..|s| - 1]))
  }

  /** The loop `for (coach = 0; coach < NumCoach; coach++)` from `coach` on:
      sorting `moves{coach}` fails once there is no such list. */
  function SortMoves(moves: seq<seq<Entry>>, coach: int, numCoach: int): (r: Result<seq<seq<Entry>>>)
    requires |moves| == MoveLists && 0 <= coach
    ensures r.Ok? <==> numCoach <= coach || numCoach <= MoveLists
    ensures r.Ok? ==> |r.value| == MoveLists
    ensures r.Ok? ==> forall k :: 0 <= k < MoveLists ==>
              if coach <= k < numCoach then multiset(r.value[k]) == multiset(moves[k])
              else r.value[k] == moves[k]
    decreases numCoach - coach
  {
    if coach >= numCoach then Ok(moves)
    else if coach >= MoveLists then Err(NoMoveList(coach))
    else SortMoves(moves[coach := Sort(moves[coach])], coach + 1, numCoach)
  }

  /** The lists of the song before or after sorting. */
  datatype Lists = Lists(pictos: seq<Entry>, goldMoves: seq<Entry>, lyrics: seq<Entry>, moves: seq<seq<Entry>>)

  /** The post-sort step: it fails when `NumCoach` exceeds the number of move
      lists; otherwise lyrics, pictograms and the first `NumCoach` move lists
      are permuted, the gold moves and the remaining move lists untouched. */
  function SortLists(lists: Lists, numCoach: int): (r: Result<Lists>)
    requires |lists.moves| == MoveLists
    ensures r.Ok? <==> numCoach <= MoveLists
    ensures r.Ok? ==>
              && multiset(r.value.lyrics) == multiset(lists.lyrics)
              && multiset(r.value.pictos) == multiset(lists.pictos)
              && r.value.goldMoves == lists.goldMoves
              && |r.value.moves| == MoveLists
              && forall k :: 0 <= k < MoveLists ==>
                   if k < numCoach then multiset(r.value.moves[k]) == multiset(lists.moves[k])
                   else r.value.moves[k] == lists.moves[k]
  {
    var lyrics := Sort(lists.lyrics);
    var pictos := Sort(lists.pictos);
    var moves :- SortMoves(lists.moves, 0, numCoach);
    Ok(Lists(pictos, lists.goldMoves, lyrics, moves))
  }
}
