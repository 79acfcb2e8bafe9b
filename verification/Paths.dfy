/** Request paths and the path patterns of the rate-limit tiers: regular expressions of the
    shape `^/piece/piece/.../?$`, where a piece is a literal, a choice of literals, or `[^/]+`. */
module Paths {

  datatype Piece = Lit(text: string) | OneOf(texts: seq<string>) | AnySegment

  type Pattern = seq<Piece>

  predicate Plain(seg: string) {
    seg != "" && '/' !in seg
  }

  predicate Accepts(piece: Piece, seg: string) {
    match piece
    case Lit(text) => seg == text
    case OneOf(texts) => seg in texts
    case AnySegment => true
  }

  /** Segment by segment, `segs` is a word of the pattern. */
  predicate Fits(pattern: Pattern, segs: seq<string>) {
    |segs| == |pattern| && forall i :: 0 <= i < |segs| ==> Plain(segs[i]) && Accepts(pattern[i], segs[i])
  }

  function Join(segs: seq<string>): string
    requires segs != []
  {
    if |segs| == 1 then segs[0] else segs[0] + "/" + Join(segs[1..])
  }

  /** What the regular expression means: the path is the segments, each after a slash, with
      one more slash allowed at the end. */
  ghost predicate InLanguage(pattern: Pattern, path: string) {
    exists segs :: segs != [] && Fits(pattern, segs) && (path == "/" + Join(segs) || path == "/" + Join(segs) + "/")
  }

  // ------------------------------------------------------------------ a matcher

  function Split(s: string): (parts: seq<string>)
    ensures parts != []
  {
    if s == "" then [""]
    else
      var rest := Split(s[1..]);
      if s[0] == '/' then [""] + rest else [[s[0]] + rest[0]] + rest[1..]
  }

  /** Drops the empty part before the leading slash, and the one after a trailing slash. */
  function Trim(parts: seq<string>): seq<string> {
    if |parts| < 2 || parts[0] != "" then []
    else if |parts| > 2 && parts[|parts| - 1] == "" then parts[1..|parts| - 1]
    else parts[1..]
  }

  /** The segments of a path, less one trailing slash; [] when it does not begin with a slash. */
  function Segments(path: string): seq<string> {
    Trim(Split(path))
  }

  predicate Matches(pattern: Pattern, path: string) {
    Segments(path) != [] && Fits(pattern, Segments(path))
  }

  lemma {:induction false} JoinOfSplit(s: string)
    ensures Join(Split(s)) == s
  {
    if s != "" {
      JoinOfSplit(s[1..]);
      var rest, parts := Split(s[1..]), Split(s);
      assert parts[1..] == if s[0] == '/' then rest else rest[1..];
    }
  }

  lemma {:induction false} SplitConcat(s: string, t: string)
    requires '/' !in s
    ensures Split(s + t) == [s + Split(t)[0]] + Split(t)[1..]
  {
    var first := Split(t)[0];
    if s == "" {
      assert s + t == t && s + first == first;
    } else {
      SplitConcat(s[1..], t);
      assert (s + t)[1..] == s[1..] + t;
      assert s[0] in s;
      assert [s[0]] + (s[1..] + first) == s + first;
    }
  }

  lemma SplitSlash(t: string)
    ensures Split("/" + t) == [""] + Split(t)
  {
    assert ("/" + t)[1..] == t;
  }

  lemma {:induction false} SplitOfJoin(segs: seq<string>, tail: string)
    requires segs != [] && forall i :: 0 <= i < |segs| ==> '/' !in segs[i]
    requires tail == "" || tail == "/"
    ensures Split(Join(segs) + tail) == segs + (if tail == "" then [] else [""])
  {
    if |segs| == 1 {
      SplitConcat(segs[0], tail);
      assert segs[0] + "" == segs[0] && segs == [segs[0]];
      if tail == "/" {
        SplitSlash("");
        assert "/" + "" == tail;
      }
    } else {
      SplitOfJoin(segs[1..], tail);
      var rest := Join(segs[1..]) + tail;
      assert Join(segs) + tail == segs[0] + ("/" + rest);
      SplitConcat(segs[0], "/" + rest);
      SplitSlash(rest);
      assert segs[0] + "" == segs[0] && segs == [segs[0]] + segs[1..];
    }
  }

  lemma TrimOfParts(segs: seq<string>)
    requires segs != [] && segs[|segs| - 1] != ""
    ensures Trim([""] + segs) == segs
    ensures Trim([""] + (segs + [""])) == segs
  {
    var parts := [""] + (segs + [""]);
    assert parts[1..|parts| - 1] == segs;
  }

  lemma SegmentsOfJoin(segs: seq<string>, tail: string)
    requires segs != [] && forall i :: 0 <= i < |segs| ==> Plain(segs[i])
    requires tail == "" || tail == "/"
    ensures Segments("/" + Join(segs) + tail) == segs
  {
    hide Split, Join, Trim;
    SplitOfJoin(segs, tail);
    SplitSlash(Join(segs) + tail);
    assert "/" + Join(segs) + tail == "/" + (Join(segs) + tail);
    assert Plain(segs[|segs| - 1]);
    TrimOfParts(segs);
    assert segs + [] == segs;
  }

  lemma SegmentsSpellPath(path: string)
    requires Segments(path) != []
    ensures path == "/" + Join(Segments(path)) || path == "/" + Join(Segments(path)) + "/"
  {
    var parts, segs := Split(path), Segments(path);
    JoinOfSplit(path);
    assert path == "/" + Join(parts[1..]);
    if |parts| > 2 && parts[|parts| - 1] == "" {
      JoinLast(parts[1..]);
      assert parts[1..][..|parts| - 2] == segs;
    }
  }

  lemma {:induction false} JoinLast(parts: seq<string>)
    requires |parts| > 1 && parts[|parts| - 1] == ""
    ensures Join(parts) == Join(parts[..|parts| - 1]) + "/"
  {
    if |parts| > 2 {
      JoinLast(parts[1..]);
      assert parts[1..][..|parts| - 2] == parts[..|parts| - 1][1..];
    }
  }

  /** The matcher decides exactly the language of the pattern, for paths of any length. */
  lemma MatchesIsLanguage(pattern: Pattern, path: string)
    ensures Matches(pattern, path) <==> InLanguage(pattern, path)
  {
    if Matches(pattern, path) {
      SegmentsSpellPath(path);
    }
    if InLanguage(pattern, path) {
      var segs :| segs != [] && Fits(pattern, segs) && (path == "/" + Join(segs) || path == "/" + Join(segs) + "/");
      SegmentsOfJoin(segs, if path == "/" + Join(segs) then "" else "/");
      assert "/" + Join(segs) + "" == "/" + Join(segs);
    }
  }

  /** The first segment of a matching path is the text right after its first slash. */
  lemma FirstSegmentStarts(pattern: Pattern, path: string)
    requires Matches(pattern, path)
    ensures |path| >= 2 && path[0] == '/' && path[1] == Segments(path)[0][0]
  {
    SegmentsSpellPath(path);
    var segs := Segments(path);
    assert Plain(segs[0]);
    assert Join(segs)[0] == segs[0][0];
  }
}
