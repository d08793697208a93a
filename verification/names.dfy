/** Extraction of a clip's name from its asset path:
    `path.split("/").pop().split(".")[0]`. */
module Names {

  /** `s.split(sep)` for a one-character separator. */
  function Split(s: string, sep: char): (parts: seq<string>)
    ensures |parts| >= 1
  {
    if |s| == 0 then [""]
    else
      var rest := Split(s[1..], sep);
      if s[0] == sep then [""] + rest
      else [[s[0]] + rest[0]] + rest[1..]
  }

  /** `parts.join(sep)`, the inverse of `Split`. */
  function Join(parts: seq<string>, sep: char): string
    requires |parts| >= 1
  {
    if |parts| == 1 then parts[0] else parts[0] + [sep] + Join(parts[1..], sep)
  }

  /** True when no element of `s` is `c`. */
  predicate Free(s: string, c: char) {
    forall i :: 0 <= i < |s| ==> s[i] != c
  }

  /** No part of a split holds the separator. */
  lemma {:induction false} SplitPartsFree(s: string, sep: char)
    ensures forall i :: 0 <= i < |Split(s, sep)| ==> Free(Split(s, sep)[i], sep)
  {
    if |s| > 0 {
      SplitPartsFree(s[1..], sep);
      var rest := Split(s[1..], sep);
      var parts := Split(s, sep);
      if s[0] != sep {
        assert forall i :: 1 <= i < |parts| ==> parts[i] == rest[i];
      } else {
        assert forall i :: 1 <= i < |parts| ==> parts[i] == rest[i - 1];
      }
    }
  }

  /** A string without the separator splits into itself alone. */
  lemma {:induction false} SplitOfFree(s: string, sep: char)
    requires Free(s, sep)
    ensures Split(s, sep) == [s]
  {
    if |s| > 0 {
      SplitOfFree(s[1..], sep);
      assert [s[0]] + s[1..] == s;
    }
  }

  /** Joining the parts of a split gives back the string. */
  lemma {:induction false} JoinSplit(s: string, sep: char)
    ensures Join(Split(s, sep), sep) == s
  {
    if |s| > 0 {
      var rest := Split(s[1..], sep);
      var parts := Split(s, sep);
      JoinSplit(s[1..], sep);
      if s[0] == sep {
        assert parts[1..] == rest;
        assert s == [sep] + s[1..];
      } else if |rest| == 1 {
        assert s == [s[0]] + s[1..];
      } else {
        assert parts[1..] == rest[1..];
        assert s == [s[0]] + s[1..];
      }
    }
  }

  /** Splitting the join of separator-free parts gives back the parts. */
  lemma {:induction false} SplitJoin(parts: seq<string>, sep: char)
    requires |parts| >= 1
    requires forall i :: 0 <= i < |parts| ==> Free(parts[i], sep)
    ensures Split(Join(parts, sep), sep) == parts
    decreases |parts|, |parts[0]|
  {
    var p := parts[0];
    if |parts| == 1 {
      SplitOfFree(p, sep);
    } else if |p| == 0 {
      var tail := Join(parts[1..], sep);
      SplitJoin(parts[1..], sep);
      assert Join(parts, sep) == [sep] + tail;
      assert ([sep] + tail)[1..] == tail;
      assert [""] + parts[1..] == parts;
    } else {
      var shorter := [p[1..]] + parts[1..];
      assert shorter[1..] == parts[1..];
      assert forall i :: 1 <= i < |shorter| ==> shorter[i] == parts[i];
      SplitJoin(shorter, sep);
      var s := Join(parts, sep);
      assert Join(shorter, sep) == p[1..] + [sep] + Join(parts[1..], sep);
      assert s == [p[0]] + Join(shorter, sep);
      assert s[1..] == Join(shorter, sep);
      assert [p[0]] + p[1..] == p;
      assert [[p[0]] + p[1..]] + parts[1..] == parts;
    }
  }

  /** The first part of a split is a prefix of the string. */
  lemma {:induction false} SplitFirstIsPrefix(s: string, sep: char)
    ensures Split(s, sep)[0] <= s
  {
    if |s| > 0 {
      SplitFirstIsPrefix(s[1..], sep);
    }
  }

  /** The first part of a split is the whole string or is ended by a separator. */
  lemma SplitFirstEnds(s: string, sep: char)
    ensures var first := Split(s, sep)[0];
            |first| == |s| || (|first| < |s| && s[|first|] == sep)
  {
    var parts := Split(s, sep);
    JoinSplit(s, sep);
    if |parts| > 1 {
      assert s == parts[0] + [sep] + Join(parts[1..], sep);
      assert s[|parts[0]|] == sep;
    }
  }

  /** The last part of a split ends the string, and is preceded by a
      separator unless it is the whole string. */
  lemma {:induction false} SplitLastIsSuffix(s: string, sep: char)
    ensures var parts := Split(s, sep);
            var last := parts[|parts| - 1];
            && |last| <= |s|
            && s[|s| - |last|..] == last
            && (|last| == |s| || s[|s| - |last| - 1] == sep)
  {
    if |s| > 0 {
      var tail := s[1..];
      SplitLastIsSuffix(tail, sep);
      var rest := Split(tail, sep);
      var last := rest[|rest| - 1];
      var parts := Split(s, sep);
      assert tail[|tail| - |last|..] == s[|s| - |last|..];
      if s[0] == sep {
        assert parts == [""] + rest;
        assert parts[|parts| - 1] == last;
      } else if |rest| == 1 {
        JoinSplit(tail, sep);
        assert last == tail;
        assert parts == [[s[0]] + tail];
        assert [s[0]] + tail == s;
      } else {
        assert parts == [[s[0]] + rest[0]] + rest[1..];
        assert parts[|parts| - 1] == last;
        if |last| == |tail| {
          SplitPartsFree(tail, sep);
          assert last == tail;
          SplitOfFree(tail, sep);
          assert false;
        }
        assert s[|s| - |last| - 1] == tail[|tail| - |last| - 1];
      }
    }
  }

  /** The name of an asset: the text after the last `/`, cut at the first `.`. */
  function BaseName(path: string): string
  {
    var segments := Split(path, '/');
    Split(segments[|segments| - 1], '.')[0]
  }

  /** The name holds neither a `/` nor a `.`. */
  lemma BaseNameHasNoSeparators(path: string)
    ensures Free(BaseName(path), '/') && Free(BaseName(path), '.')
  {
    var segments := Split(path, '/');
    var last := segments[|segments| - 1];
    SplitPartsFree(path, '/');
    SplitPartsFree(last, '.');
    SplitFirstIsPrefix(last, '.');
    assert Free(last, '/');
  }

  /** `name` starts at index `k` of `path`, right after a `/` or at the start,
      has no `/` after it, and is ended by a `.` or the end of the path. */
  predicate LocatedAt(path: string, k: nat, name: string)
    requires k <= |path|
  {
    && (k == 0 || path[k - 1] == '/')
    && Free(path[k..], '/')
    && name <= path[k..]
    && (k + |name| == |path| || path[k + |name|] == '.')
  }

  /** The name is located in the path as `LocatedAt` says, and nowhere else. */
  lemma BaseNameLocated(path: string)
    ensures exists k :: 0 <= k <= |path| && LocatedAt(path, k, BaseName(path))
  {
    var segments := Split(path, '/');
    var last := segments[|segments| - 1];
    SplitLastIsSuffix(path, '/');
    SplitPartsFree(path, '/');
    var k := |path| - |last|;
    assert path[k..] == last;
    SplitFirstIsPrefix(last, '.');
    SplitFirstEnds(last, '.');
    assert LocatedAt(path, k, BaseName(path));
  }

  /** Any name located in the path as `LocatedAt` says is the extracted name. */
  lemma LocatedIsBaseName(path: string, k: nat, name: string)
    requires k <= |path| && LocatedAt(path, k, name) && Free(name, '.')
    ensures name == BaseName(path)
  {
    var segments := Split(path, '/');
    var last := segments[|segments| - 1];
    SplitLastIsSuffix(path, '/');
    SplitPartsFree(path, '/');
    var j := |path| - |last|;
    assert j == k;
    assert last == path[k..];
    var parts := Split(last, '.');
    SplitFirstIsPrefix(last, '.');
    SplitFirstEnds(last, '.');
    SplitPartsFree(last, '.');
    var first := parts[0];
    assert |first| == |name|;
    assert name == last[..|name|] == first;
  }

  /** A name that already has neither separator is its own name. */
  lemma BaseNameOfPlainName(s: string)
    requires Free(s, '/') && Free(s, '.')
    ensures BaseName(s) == s
  {
    SplitOfFree(s, '/');
    SplitOfFree(s, '.');
  }

  /** A path ending in `/` has the empty name. */
  lemma BaseNameOfDirectory(path: string)
    requires |path| > 0 && path[|path| - 1] == '/'
    ensures BaseName(path) == ""
  {
    var segments := Split(path, '/');
    var last := segments[|segments| - 1];
    SplitLastIsSuffix(path, '/');
    SplitPartsFree(path, '/');
    assert |last| == 0;
    SplitFirstIsPrefix(last, '.');
  }

  /** Extracting the name twice changes nothing. */
  lemma BaseNameIdempotent(path: string)
    ensures BaseName(BaseName(path)) == BaseName(path)
  {
    BaseNameHasNoSeparators(path);
    BaseNameOfPlainName(BaseName(path));
  }
}
