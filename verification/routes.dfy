/**
  The route table of the query resolver (src/repo/query.go): the eight
  pattern strings and their parsed form. The parsed routes are written
  out, and proved to be what `New` makes of the strings.
 */
module RouteTable {
  import opened Wrappers
  import opened Strings
  import opened UrlPath

  /** The route patterns, in the order they are tried. */
  const Patterns: seq<string> := [
    "/:owner/:repo",
    "/:query",
    "/:owner/:repo/tree/:ref",
    "/:owner/:repo/tree/:ref/*",
    "/:owner/:repo/blob/:ref/*",
    "/:owner/:repo/pull/:pullRequestID/files",
    "/:owner/:repo/pull/:pullRequestID/*",
    "/:owner/:repo/*"
  ]

  /** The parsed patterns (`urlpath.New(patterns[i])`), in the same order. */
  const Routes: seq<Path> := [
    Path([Const(""), Param("owner"), Param("repo")], false),
    Path([Const(""), Param("query")], false),
    Path([Const(""), Param("owner"), Param("repo"), Const("tree"), Param("ref")], false),
    Path([Const(""), Param("owner"), Param("repo"), Const("tree"), Param("ref")], true),
    Path([Const(""), Param("owner"), Param("repo"), Const("blob"), Param("ref")], true),
    Path([Const(""), Param("owner"), Param("repo"), Const("pull"), Param("pullRequestID"), Const("files")], false),
    Path([Const(""), Param("owner"), Param("repo"), Const("pull"), Param("pullRequestID")], true),
    Path([Const(""), Param("owner"), Param("repo")], true)
  ]

  /** The spelling "/:owner/:repo" that seven of the patterns begin with. */
  lemma OwnerRepoSpelling()
    ensures "" + "/" + ":owner" + "/" + ":repo" == "/:owner/:repo"
  {
  }

  /** The spelling "/:owner/:repo/pull/:pullRequestID" that two of the patterns begin with. */
  lemma PullRequestSpelling()
    ensures "" + "/" + ":owner" + "/" + ":repo" + "/" + "pull" + "/" + ":pullRequestID"
         == "/:owner/:repo/pull/:pullRequestID"
  {
    OwnerRepoSpelling();
    assert "/:owner/:repo" + "/" + "pull" + "/" + ":pullRequestID" == "/:owner/:repo/pull/:pullRequestID";
  }

  /** Route 0 is spelled by the pieces of pattern 0. */
  lemma RouteSpelling0(pieces: seq<string>)
    requires pieces == ["", ":owner", ":repo"]
    ensures Spells(pieces, Routes[0])
  {
    assert ":" + "owner" == ":owner" && ":" + "repo" == ":repo";
  }

  /** The pieces of pattern 0, joined with '/', give the pattern. */
  lemma PatternPieces0(pieces: seq<string>)
    requires pieces == ["", ":owner", ":repo"]
    ensures Join(pieces, '/') == Patterns[0]
  {
    Join3(pieces[0], pieces[1], pieces[2], '/');
    OwnerRepoSpelling();
    assert "/:owner/:repo" == Patterns[0];
  }

  lemma RouteParses0()
    ensures New(Patterns[0]) == Routes[0]
  {
    var pieces := ["", ":owner", ":repo"];
    assert WellFormed(Routes[0]);
    RouteSpelling0(pieces);
    PatternPieces0(pieces);
    NewOfPieces(Routes[0], pieces);
  }

  /** Route 1 is spelled by the pieces of pattern 1. */
  lemma RouteSpelling1(pieces: seq<string>)
    requires pieces == ["", ":query"]
    ensures Spells(pieces, Routes[1])
  {
    assert ":" + "query" == ":query";
  }

  /** The pieces of pattern 1, joined with '/', give the pattern. */
  lemma PatternPieces1(pieces: seq<string>)
    requires pieces == ["", ":query"]
    ensures Join(pieces, '/') == Patterns[1]
  {
    Join2(pieces[0], pieces[1], '/');
    assert "" + "/" + ":query" == Patterns[1];
  }

  lemma RouteParses1()
    ensures New(Patterns[1]) == Routes[1]
  {
    var pieces := ["", ":query"];
    assert WellFormed(Routes[1]);
    RouteSpelling1(pieces);
    PatternPieces1(pieces);
    NewOfPieces(Routes[1], pieces);
  }

  /** Route 2 is spelled by the pieces of pattern 2. */
  lemma RouteSpelling2(pieces: seq<string>)
    requires pieces == ["", ":owner", ":repo", "tree", ":ref"]
    ensures Spells(pieces, Routes[2])
  {
    assert ":" + "owner" == ":owner" && ":" + "repo" == ":repo" && ":" + "ref" == ":ref";
  }

  /** The pieces of pattern 2, joined with '/', give the pattern. */
  lemma PatternPieces2(pieces: seq<string>)
    requires pieces == ["", ":owner", ":repo", "tree", ":ref"]
    ensures Join(pieces, '/') == Patterns[2]
  {
    Join5(pieces[0], pieces[1], pieces[2], pieces[3], pieces[4], '/');
    OwnerRepoSpelling();
    assert "/:owner/:repo" + "/" + "tree" + "/" + ":ref" == Patterns[2];
  }

  lemma RouteParses2()
    ensures New(Patterns[2]) == Routes[2]
  {
    var pieces := ["", ":owner", ":repo", "tree", ":ref"];
    assert WellFormed(Routes[2]);
    RouteSpelling2(pieces);
    PatternPieces2(pieces);
    NewOfPieces(Routes[2], pieces);
  }

  /** Route 3 is spelled by the pieces of pattern 3. */
  lemma RouteSpelling3(pieces: seq<string>)
    requires pieces == ["", ":owner", ":repo", "tree", ":ref", "*"]
    ensures Spells(pieces, Routes[3])
  {
    assert ":" + "owner" == ":owner" && ":" + "repo" == ":repo" && ":" + "ref" == ":ref";
  }

  /** The pieces of pattern 3, joined with '/', give the pattern. */
  lemma PatternPieces3(pieces: seq<string>)
    requires pieces == ["", ":owner", ":repo", "tree", ":ref", "*"]
    ensures Join(pieces, '/') == Patterns[3]
  {
    Join6(pieces[0], pieces[1], pieces[2], pieces[3], pieces[4], pieces[5], '/');
    OwnerRepoSpelling();
    assert "/:owner/:repo" + "/" + "tree" + "/" + ":ref" + "/" + "*" == Patterns[3];
  }

  lemma RouteParses3()
    ensures New(Patterns[3]) == Routes[3]
  {
    var pieces := ["", ":owner", ":repo", "tree", ":ref", "*"];
    assert WellFormed(Routes[3]);
    RouteSpelling3(pieces);
    PatternPieces3(pieces);
    NewOfPieces(Routes[3], pieces);
  }

  /** Route 4 is spelled by the pieces of pattern 4. */
  lemma RouteSpelling4(pieces: seq<string>)
    requires pieces == ["", ":owner", ":repo", "blob", ":ref", "*"]
    ensures Spells(pieces, Routes[4])
  {
    assert ":" + "owner" == ":owner" && ":" + "repo" == ":repo" && ":" + "ref" == ":ref";
  }

  /** The pieces of pattern 4, joined with '/', give the pattern. */
  lemma PatternPieces4(pieces: seq<string>)
    requires pieces == ["", ":owner", ":repo", "blob", ":ref", "*"]
    ensures Join(pieces, '/') == Patterns[4]
  {
    Join6(pieces[0], pieces[1], pieces[2], pieces[3], pieces[4], pieces[5], '/');
    OwnerRepoSpelling();
    assert "/:owner/:repo" + "/" + "blob" + "/" + ":ref" + "/" + "*" == Patterns[4];
  }

  lemma RouteParses4()
    ensures New(Patterns[4]) == Routes[4]
  {
    var pieces := ["", ":owner", ":repo", "blob", ":ref", "*"];
    assert WellFormed(Routes[4]);
    RouteSpelling4(pieces);
    PatternPieces4(pieces);
    NewOfPieces(Routes[4], pieces);
  }

  /** Route 5 is spelled by the pieces of pattern 5. */
  lemma RouteSpelling5(pieces: seq<string>)
    requires pieces == ["", ":owner", ":repo", "pull", ":pullRequestID", "files"]
    ensures Spells(pieces, Routes[5])
  {
    assert ":" + "owner" == ":owner" && ":" + "repo" == ":repo" && ":" + "pullRequestID" == ":pullRequestID";
  }

  /** The pieces of pattern 5, joined with '/', give the pattern. */
  lemma PatternPieces5(pieces: seq<string>)
    requires pieces == ["", ":owner", ":repo", "pull", ":pullRequestID", "files"]
    ensures Join(pieces, '/') == Patterns[5]
  {
    Join6(pieces[0], pieces[1], pieces[2], pieces[3], pieces[4], pieces[5], '/');
    PullRequestSpelling();
    assert "/:owner/:repo/pull/:pullRequestID" + "/" + "files" == Patterns[5];
  }

  lemma RouteParses5()
    ensures New(Patterns[5]) == Routes[5]
  {
    var pieces := ["", ":owner", ":repo", "pull", ":pullRequestID", "files"];
    assert WellFormed(Routes[5]);
    RouteSpelling5(pieces);
    PatternPieces5(pieces);
    NewOfPieces(Routes[5], pieces);
  }

  /** Route 6 is spelled by the pieces of pattern 6. */
  lemma RouteSpelling6(pieces: seq<string>)
    requires pieces == ["", ":owner", ":repo", "pull", ":pullRequestID", "*"]
    ensures Spells(pieces, Routes[6])
  {
    assert ":" + "owner" == ":owner" && ":" + "repo" == ":repo" && ":" + "pullRequestID" == ":pullRequestID";
  }

  /** The pieces of pattern 6, joined with '/', give the pattern. */
  lemma PatternPieces6(pieces: seq<string>)
    requires pieces == ["", ":owner", ":repo", "pull", ":pullRequestID", "*"]
    ensures Join(pieces, '/') == Patterns[6]
  {
    Join6(pieces[0], pieces[1], pieces[2], pieces[3], pieces[4], pieces[5], '/');
    PullRequestSpelling();
    assert "/:owner/:repo/pull/:pullRequestID" + "/" + "*" == Patterns[6];
  }

  lemma RouteParses6()
    ensures New(Patterns[6]) == Routes[6]
  {
    var pieces := ["", ":owner", ":repo", "pull", ":pullRequestID", "*"];
    assert WellFormed(Routes[6]);
    RouteSpelling6(pieces);
    PatternPieces6(pieces);
    NewOfPieces(Routes[6], pieces);
  }

  /** Route 7 is spelled by the pieces of pattern 7. */
  lemma RouteSpelling7(pieces: seq<string>)
    requires pieces == ["", ":owner", ":repo", "*"]
    ensures Spells(pieces, Routes[7])
  {
    assert ":" + "owner" == ":owner" && ":" + "repo" == ":repo";
  }

  /** The pieces of pattern 7, joined with '/', give the pattern. */
  lemma PatternPieces7(pieces: seq<string>)
    requires pieces == ["", ":owner", ":repo", "*"]
    ensures Join(pieces, '/') == Patterns[7]
  {
    Join4(pieces[0], pieces[1], pieces[2], pieces[3], '/');
    OwnerRepoSpelling();
    assert "/:owner/:repo" + "/" + "*" == Patterns[7];
  }

  lemma RouteParses7()
    ensures New(Patterns[7]) == Routes[7]
  {
    var pieces := ["", ":owner", ":repo", "*"];
    assert WellFormed(Routes[7]);
    RouteSpelling7(pieces);
    PatternPieces7(pieces);
    NewOfPieces(Routes[7], pieces);
  }

  /** The route table is the parse of the pattern strings (`urlpath.New(patterns[i])`). */
  lemma RoutesParsePatterns()
    ensures |Routes| == |Patterns| == 8
    ensures forall i :: 0 <= i < |Routes| ==> New(Patterns[i]) == Routes[i]
  {
    forall i | 0 <= i < |Routes| ensures New(Patterns[i]) == Routes[i] {
      if i == 0 { RouteParses0(); }
      else if i == 1 { RouteParses1(); }
      else if i == 2 { RouteParses2(); }
      else if i == 3 { RouteParses3(); }
      else if i == 4 { RouteParses4(); }
      else if i == 5 { RouteParses5(); }
      else if i == 6 { RouteParses6(); }
      else { RouteParses7(); }
    }
  }

  // ---------------------------------------------------------------------
  // Lookup in the table
  // ---------------------------------------------------------------------

  /** The lowest index at or after `from` whose route matches `path`. */
  function FirstMatchFrom(path: string, from: nat): (r: Option<nat>)
    requires from <= |Routes|
    ensures r.Some? ==> from <= r.value < |Routes| && MatchPath(Routes[r.value], path).Some?
    ensures r.Some? ==> forall j :: from <= j < r.value ==> MatchPath(Routes[j], path).None?
    ensures r.None? ==> forall j :: from <= j < |Routes| ==> MatchPath(Routes[j], path).None?
    decreases |Routes| - from
  {
    if from == |Routes| then None
    else if MatchPath(Routes[from], path).Some? then Some(from)
    else FirstMatchFrom(path, from + 1)
  }

  /** The index of the route that classifies `path`, if any matches. */
  function FirstMatch(path: string): Option<nat>
  {
    FirstMatchFrom(path, 0)
  }

  /** The match of the winning route. */
  function MatchOf(path: string): Match
    requires FirstMatch(path).Some?
  {
    MatchPath(Routes[FirstMatch(path).value], path).value
  }

  /** A parameter of a match; an unbound name reads as "", as with a Go map. */
  function Lookup(params: map<string, string>, name: string): string
  {
    if name in params then params[name] else ""
  }
}
