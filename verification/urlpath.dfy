/**
  This model's reading of the route matcher the query resolver imports
  (the `urlpath` package, whose code is not part of this model).

  A pattern such as "/:owner/:repo/tree/:ref" is cut at every '/'.
  Each piece is a constant that the path segment must equal, or a
  parameter `:name` that binds exactly one path segment (possibly empty).
  A final piece `*` lets the path run on past the pattern, and the rest
  of the path, after the '/' that ends the last matched segment, is
  reported as the trailing text. Without `*` the path must have exactly
  as many segments as the pattern.
 */
module UrlPath {
  import opened Wrappers
  import opened Strings

  datatype Segment = Const(text: string) | Param(name: string)

  /** A parsed pattern (`urlpath.Path`). */
  datatype Path = Path(segments: seq<Segment>, trailing: bool)

  /** A successful match (`urlpath.Match`). */
  datatype Match = Match(params: map<string, string>, trailing: string)

  function ParseSegment(piece: string): Segment
  {
    if HasPrefix(piece, ":") then Param(piece[1..]) else Const(piece)
  }

  /** `urlpath.New`: parse a pattern string. */
  function New(pattern: string): Path
  {
    var pieces := Split(pattern, '/');
    var trailing := pieces[|pieces| - 1] == "*";
    var kept := if trailing then pieces[..|pieces| - 1] else pieces;
    Path(seq(|kept|, i requires 0 <= i < |kept| => ParseSegment(kept[i])), trailing)
  }

  function SegmentText(s: Segment): string
  {
    match s
    case Const(text) => text
    case Param(name) => ":" + name
  }

  /** `pieces`, joined with '/', is the text of pattern `p`. */
  predicate Spells(pieces: seq<string>, p: Path)
  {
    && |pieces| == |p.segments| + (if p.trailing then 1 else 0)
    && (forall i :: 0 <= i < |p.segments| ==> pieces[i] == SegmentText(p.segments[i]))
    && (p.trailing ==> pieces[|pieces| - 1] == "*")
  }

  /** A segment that `New` can produce from a piece without '/'. */
  predicate SegmentWellFormed(s: Segment)
  {
    match s
    case Const(text) => '/' !in text && (text == [] || text[0] != ':')
    case Param(name) => '/' !in name
  }

  /** A pattern that is the parse of some pattern string. */
  predicate WellFormed(p: Path)
  {
    && (p.trailing || |p.segments| >= 1)
    && (!p.trailing ==> p.segments[|p.segments| - 1] != Const("*"))
    && forall i :: 0 <= i < |p.segments| ==> SegmentWellFormed(p.segments[i])
  }

  /** No piece of a pattern's spelling contains the separator. */
  lemma SpelledPiecesUnsplit(p: Path, pieces: seq<string>)
    requires WellFormed(p)
    requires Spells(pieces, p)
    ensures forall i :: 0 <= i < |pieces| ==> '/' !in pieces[i]
  {
    forall i | 0 <= i < |pieces| ensures '/' !in pieces[i] {
      if i < |p.segments| {
        match p.segments[i]
        case Const(t) =>
        case Param(n) => assert pieces[i] == [':'] + n;
      }
    }
  }

  /** The last piece of a spelling is "*" exactly when the pattern has a trailing wildcard. */
  lemma SpelledLastPiece(p: Path, pieces: seq<string>)
    requires WellFormed(p)
    requires Spells(pieces, p)
    ensures |pieces| >= 1
    ensures pieces[|pieces| - 1] == "*" <==> p.trailing
  {
    if !p.trailing {
      var last := p.segments[|p.segments| - 1];
      assert pieces[|pieces| - 1] == SegmentText(last);
      match last
      case Const(t) =>
      case Param(n) => assert SegmentText(last)[0] == ':';
    }
  }

  /** Parsing the text of a pattern gives the pattern back: `New` inverts the spelling. */
  lemma NewOfPieces(p: Path, pieces: seq<string>)
    requires WellFormed(p)
    requires Spells(pieces, p)
    ensures New(Join(pieces, '/')) == p
  {
    SpelledPiecesUnsplit(p, pieces);
    SplitJoin(pieces, '/');
    NewOfSplit(Join(pieces, '/'), p, pieces);
  }

  /** A pattern string that splits into a spelling of `p` parses to `p`. */
  lemma NewOfSplit(pattern: string, p: Path, pieces: seq<string>)
    requires WellFormed(p)
    requires Spells(pieces, p)
    requires Split(pattern, '/') == pieces
    ensures New(pattern) == p
  {
    SpelledLastPiece(p, pieces);
    var kept := if p.trailing then pieces[..|pieces| - 1] else pieces;
    SpelledSegmentsParse(p, pieces, kept);
    assert New(pattern).trailing == p.trailing;
    assert New(pattern).segments == p.segments;
  }

  /** Each piece of a spelling, apart from a final "*", parses back to its segment. */
  lemma SpelledSegmentsParse(p: Path, pieces: seq<string>, kept: seq<string>)
    requires WellFormed(p)
    requires Spells(pieces, p)
    requires kept == if p.trailing then pieces[..|pieces| - 1] else pieces
    ensures |kept| == |p.segments|
    ensures forall i :: 0 <= i < |kept| ==> ParseSegment(kept[i]) == p.segments[i]
  {
    forall i | 0 <= i < |p.segments| ensures ParseSegment(kept[i]) == p.segments[i] {
      assert kept[i] == pieces[i];
      match p.segments[i]
      case Const(t) =>
      case Param(n) =>
        assert HasPrefix(pieces[i], ":");
        assert pieces[i][1..] == n;
    }
  }

  /** The match loop: each pattern segment consumes one path segment, in order. */
  function MatchSegments(segments: seq<Segment>, parts: seq<string>, trailing: bool): Option<Match>
    decreases |segments|
  {
    if segments == [] then
      if trailing then Some(Match(map[], Join(parts, '/')))
      else if parts == [] then Some(Match(map[], ""))
      else None
    else if parts == [] then None
    else
      match segments[0]
      case Const(text) =>
        if parts[0] == text then MatchSegments(segments[1..], parts[1..], trailing) else None
      case Param(name) =>
        var rest := MatchSegments(segments[1..], parts[1..], trailing);
        if rest.None? then None
        else Some(Match(map[name := parts[0]] + rest.value.params, rest.value.trailing))
  }

  /** `Path.Match`: match a '/'-separated path against a pattern. */
  function MatchPath(p: Path, path: string): Option<Match>
  {
    MatchSegments(p.segments, Split(path, '/'), p.trailing)
  }

  /** The path segments fit the pattern: right count, and every constant equal. */
  ghost predicate Fits(segments: seq<Segment>, parts: seq<string>, trailing: bool)
  {
    && (if trailing then |parts| >= |segments| else |parts| == |segments|)
    && forall i :: 0 <= i < |segments| && segments[i].Const? ==> parts[i] == segments[i].text
  }

  /** The names of the parameters of a pattern. */
  function ParamNames(segments: seq<Segment>): set<string>
    decreases |segments|
  {
    if segments == [] then {}
    else (if segments[0].Param? then {segments[0].name} else {}) + ParamNames(segments[1..])
  }

  lemma {:induction false} ParamNamed(segments: seq<Segment>, i: int)
    requires 0 <= i < |segments| && segments[i].Param?
    ensures segments[i].name in ParamNames(segments)
    decreases i
  {
    if i > 0 {
      ParamNamed(segments[1..], i - 1);
    }
  }

  /** The parameter at `i` is the last one of that name (a later one would overwrite it). */
  predicate LastOfName(segments: seq<Segment>, i: int)
    requires 0 <= i < |segments| && segments[i].Param?
  {
    segments[i].name !in ParamNames(segments[i + 1..])
  }

  /**
    The declarative reading of the match loop: it succeeds exactly when the
    segments fit, binds every parameter name (the last occurrence of a name
    wins) and reports the unmatched rest of the path as trailing text.
   */
  lemma {:induction false} MatchSegmentsReading(segments: seq<Segment>, parts: seq<string>, trailing: bool)
    ensures MatchSegments(segments, parts, trailing).Some? <==> Fits(segments, parts, trailing)
    ensures MatchSegments(segments, parts, trailing).Some? ==>
      var m := MatchSegments(segments, parts, trailing).value;
      && m.params.Keys == ParamNames(segments)
      && m.trailing == (if trailing then Join(parts[|segments|..], '/') else "")
      && forall i :: 0 <= i < |segments| && segments[i].Param? && LastOfName(segments, i) ==>
           segments[i].name in m.params && m.params[segments[i].name] == parts[i]
    decreases |segments|
  {
    if segments == [] {
      assert parts[|segments|..] == parts;
      assert ParamNames(segments) == {};
    } else if parts == [] {
    } else {
      MatchSegmentsReading(segments[1..], parts[1..], trailing);
      var rest := MatchSegments(segments[1..], parts[1..], trailing);
      assert Fits(segments, parts, trailing) <==> Fits(segments[1..], parts[1..], trailing) && (segments[0].Const? ==> parts[0] == segments[0].text) by {
        if Fits(segments[1..], parts[1..], trailing) && (segments[0].Const? ==> parts[0] == segments[0].text) {
          forall i | 0 <= i < |segments| && segments[i].Const? ensures parts[i] == segments[i].text {
            if i > 0 {
              assert segments[1..][i - 1] == segments[i];
            }
          }
        }
        if Fits(segments, parts, trailing) {
          forall i | 0 <= i < |segments| - 1 && segments[1..][i].Const? ensures parts[1..][i] == segments[1..][i].text {
            assert segments[1..][i] == segments[i + 1];
          }
        }
      }
      var r := MatchSegments(segments, parts, trailing);
      if r.Some? {
        var m := r.value;
        assert parts[1..][|segments[1..]|..] == parts[|segments|..];
        forall i | 0 <= i < |segments| && segments[i].Param? && LastOfName(segments, i)
          ensures segments[i].name in m.params && m.params[segments[i].name] == parts[i]
        {
          ParamNamed(segments, i);
          if i > 0 {
            assert segments[1..][i - 1] == segments[i];
            assert segments[1..][i..] == segments[i + 1..];
            assert LastOfName(segments[1..], i - 1);
            ParamNamed(segments[1..], i - 1);
          }
        }
      }
    }
  }
}
