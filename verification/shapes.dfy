/**
  Which route of the table classifies a path, read off the path's own
  segments: an independent description of the first-match search of
  src/repo/query.go, proved against it.

  A path beginning with '/' cuts into segments `parts` with `parts[0] == ""`.
  Counting the segments after the leading '/':
  - one segment is the one-segment route `/:query`;
  - two segments are the route `/:owner/:repo`;
  - three or more are a tree, blob or pull-request route when the third
    segment says so and there are enough segments, and otherwise the
    catch-all route that takes any further segments.
 */
module RouteShapes {
  import opened Wrappers
  import opened Strings
  import opened UrlPath
  import opened RouteTable

  /** The index of the route a path with these segments falls under. */
  function ShapeRoute(parts: seq<string>): (r: nat)
    requires |parts| >= 2
    ensures r < |Routes|
  {
    if |parts| == 2 then 1
    else if |parts| == 3 then 0
    else if |parts| >= 5 && parts[3] == "tree" then (if |parts| == 5 then 2 else 3)
    else if |parts| >= 5 && parts[3] == "blob" then 4
    else if |parts| >= 5 && parts[3] == "pull" then (if |parts| == 6 && parts[5] == "files" then 5 else 6)
    else 7
  }

  /** A path that begins with '/' has an empty first segment and at least one more. */
  lemma SlashPathParts(path: string)
    requires HasPrefix(path, "/")
    ensures |Split(path, '/')| >= 2
    ensures Split(path, '/')[0] == ""
  {
    SplitHead(path, '/');
    assert path[0] in path;
  }

  /** The search stops at `k` when `k` matches and no earlier route does. */
  lemma {:induction false} FirstMatchFromIs(path: string, from: nat, k: nat)
    requires from <= k < |Routes|
    requires MatchPath(Routes[k], path).Some?
    requires forall j :: from <= j < k ==> MatchPath(Routes[j], path).None?
    ensures FirstMatchFrom(path, from) == Some(k)
    decreases k - from
  {
    if from < k {
      FirstMatchFromIs(path, from + 1, k);
    }
  }

  /** The segment counts and constants route `j` asks of a path's segments. */
  predicate RouteFits(j: nat, parts: seq<string>)
    requires j < |Routes|
  {
    && |parts| >= 2 && parts[0] == ""
    && match j
       case 0 => |parts| == 3
       case 1 => |parts| == 2
       case 2 => |parts| == 5 && parts[3] == "tree"
       case 3 => |parts| >= 5 && parts[3] == "tree"
       case 4 => |parts| >= 5 && parts[3] == "blob"
       case 5 => |parts| == 6 && parts[3] == "pull" && parts[5] == "files"
       case 6 => |parts| >= 5 && parts[3] == "pull"
       case _ => |parts| >= 3
  }

  /** Route `j` matches a path exactly when the path's segments fit it. */
  lemma RouteMatchReading(j: nat, path: string)
    requires j < |Routes|
    ensures MatchPath(Routes[j], path).Some? <==> RouteFits(j, Split(path, '/'))
  {
    var parts := Split(path, '/');
    MatchSegmentsReading(Routes[j].segments, parts, Routes[j].trailing);
    if j == 0 { FitsReading0(parts); }
    else if j == 1 { FitsReading1(parts); }
    else if j == 2 { FitsReading2(parts); }
    else if j == 3 { FitsReading3(parts); }
    else if j == 4 { FitsReading4(parts); }
    else if j == 5 { FitsReading5(parts); }
    else if j == 6 { FitsReading6(parts); }
    else { FitsReading7(parts); }
  }

  lemma FitsReading0(parts: seq<string>)
    ensures Fits(Routes[0].segments, parts, Routes[0].trailing) <==> RouteFits(0, parts)
  {
    if Fits(Routes[0].segments, parts, Routes[0].trailing) {
      assert Routes[0].segments[0].Const?;
    }
  }

  lemma FitsReading1(parts: seq<string>)
    ensures Fits(Routes[1].segments, parts, Routes[1].trailing) <==> RouteFits(1, parts)
  {
    if Fits(Routes[1].segments, parts, Routes[1].trailing) {
      assert Routes[1].segments[0].Const?;
    }
  }

  lemma FitsReading2(parts: seq<string>)
    ensures Fits(Routes[2].segments, parts, Routes[2].trailing) <==> RouteFits(2, parts)
  {
    if Fits(Routes[2].segments, parts, Routes[2].trailing) {
      assert Routes[2].segments[0].Const?;
      assert Routes[2].segments[3].Const?;
    }
  }

  lemma FitsReading3(parts: seq<string>)
    ensures Fits(Routes[3].segments, parts, Routes[3].trailing) <==> RouteFits(3, parts)
  {
    if Fits(Routes[3].segments, parts, Routes[3].trailing) {
      assert Routes[3].segments[0].Const?;
      assert Routes[3].segments[3].Const?;
    }
  }

  lemma FitsReading4(parts: seq<string>)
    ensures Fits(Routes[4].segments, parts, Routes[4].trailing) <==> RouteFits(4, parts)
  {
    if Fits(Routes[4].segments, parts, Routes[4].trailing) {
      assert Routes[4].segments[0].Const?;
      assert Routes[4].segments[3].Const?;
    }
  }

  lemma FitsReading5(parts: seq<string>)
    ensures Fits(Routes[5].segments, parts, Routes[5].trailing) <==> RouteFits(5, parts)
  {
    if Fits(Routes[5].segments, parts, Routes[5].trailing) {
      assert Routes[5].segments[0].Const?;
      assert Routes[5].segments[3].Const?;
      assert Routes[5].segments[5].Const?;
    }
  }

  lemma FitsReading6(parts: seq<string>)
    ensures Fits(Routes[6].segments, parts, Routes[6].trailing) <==> RouteFits(6, parts)
  {
    if Fits(Routes[6].segments, parts, Routes[6].trailing) {
      assert Routes[6].segments[0].Const?;
      assert Routes[6].segments[3].Const?;
    }
  }

  lemma FitsReading7(parts: seq<string>)
    ensures Fits(Routes[7].segments, parts, Routes[7].trailing) <==> RouteFits(7, parts)
  {
    if Fits(Routes[7].segments, parts, Routes[7].trailing) {
      assert Routes[7].segments[0].Const?;
    }
  }

  /** The first matching route of a path that begins with '/' is the one its shape names. */
  lemma FirstMatchByShape(path: string)
    requires HasPrefix(path, "/")
    ensures |Split(path, '/')| >= 2
    ensures FirstMatch(path) == Some(ShapeRoute(Split(path, '/')))
  {
    SlashPathParts(path);
    var parts := Split(path, '/');
    var k := ShapeRoute(parts);
    forall j | 0 <= j < |Routes| ensures MatchPath(Routes[j], path).Some? <==> RouteFits(j, parts) {
      RouteMatchReading(j, path);
    }
    FirstMatchFromIs(path, 0, k);
  }

  /**
    What the match of route `k` binds, read off the path's segments: the
    parameters at their positions, no others, and for a route ending in
    `*` the remaining segments joined back with '/'.
   */
  predicate BindsShape(k: nat, parts: seq<string>, m: Match)
    requires k < |Routes| && |parts| >= 2
    requires k in {2, 3, 4, 5, 6} ==> |parts| >= 5
    requires k in {0, 7} ==> |parts| >= 3
  {
    && Lookup(m.params, "owner") == (if k == 1 then "" else parts[1])
    && Lookup(m.params, "repo") == (if k == 1 then "" else parts[2])
    && Lookup(m.params, "ref") == (if k in {2, 3, 4} then parts[4] else "")
    && Lookup(m.params, "pullRequestID") == (if k in {5, 6} then parts[4] else "")
    && m.trailing == (if k in {3, 4, 6} then Join(parts[5..], '/') else if k == 7 then Join(parts[3..], '/') else "")
  }

  /** The parameter names of route 0, each bound once. */
  lemma NamesOf0()
    ensures ParamNames(Routes[0].segments) == {"owner", "repo"}
    ensures LastOfName(Routes[0].segments, 1)
    ensures LastOfName(Routes[0].segments, 2)
  {
    var segments := Routes[0].segments;
    assert LastOfName(segments, 1) by { assert segments[2..] == [Param("repo")]; }
    assert LastOfName(segments, 2) by { assert segments[3..] == []; }
  }

  lemma BindsReading0(path: string)
    requires RouteFits(0, Split(path, '/'))
    ensures MatchPath(Routes[0], path).Some?
    ensures BindsShape(0, Split(path, '/'), MatchPath(Routes[0], path).value)
  {
    var parts := Split(path, '/');
    var segments := Routes[0].segments;
    FitsReading0(parts);
    MatchSegmentsReading(segments, parts, Routes[0].trailing);
    NamesOf0();
    var m := MatchPath(Routes[0], path).value;
    assert segments[1] == Param("owner");
    assert m.params["owner"] == parts[1];
    assert segments[2] == Param("repo");
    assert m.params["repo"] == parts[2];
  }

  /** The parameter names of route 1, each bound once. */
  lemma NamesOf1()
    ensures ParamNames(Routes[1].segments) == {"query"}
    ensures LastOfName(Routes[1].segments, 1)
  {
    var segments := Routes[1].segments;
    assert LastOfName(segments, 1) by { assert segments[2..] == []; }
  }

  lemma BindsReading1(path: string)
    requires RouteFits(1, Split(path, '/'))
    ensures MatchPath(Routes[1], path).Some?
    ensures BindsShape(1, Split(path, '/'), MatchPath(Routes[1], path).value)
  {
    var parts := Split(path, '/');
    var segments := Routes[1].segments;
    FitsReading1(parts);
    MatchSegmentsReading(segments, parts, Routes[1].trailing);
    NamesOf1();
    var m := MatchPath(Routes[1], path).value;
    assert segments[1] == Param("query");
    assert m.params["query"] == parts[1];
  }

  /** The parameter names of route 2, each bound once. */
  lemma NamesOf2()
    ensures ParamNames(Routes[2].segments) == {"owner", "repo", "ref"}
    ensures LastOfName(Routes[2].segments, 1)
    ensures LastOfName(Routes[2].segments, 2)
    ensures LastOfName(Routes[2].segments, 4)
  {
    var segments := Routes[2].segments;
    assert LastOfName(segments, 1) by { assert segments[2..] == [Param("repo"), Const("tree"), Param("ref")]; }
    assert LastOfName(segments, 2) by { assert segments[3..] == [Const("tree"), Param("ref")]; }
    assert LastOfName(segments, 4) by { assert segments[5..] == []; }
  }

  lemma BindsReading2(path: string)
    requires RouteFits(2, Split(path, '/'))
    ensures MatchPath(Routes[2], path).Some?
    ensures BindsShape(2, Split(path, '/'), MatchPath(Routes[2], path).value)
  {
    var parts := Split(path, '/');
    var segments := Routes[2].segments;
    FitsReading2(parts);
    MatchSegmentsReading(segments, parts, Routes[2].trailing);
    NamesOf2();
    var m := MatchPath(Routes[2], path).value;
    assert segments[1] == Param("owner");
    assert m.params["owner"] == parts[1];
    assert segments[2] == Param("repo");
    assert m.params["repo"] == parts[2];
    assert segments[4] == Param("ref");
    assert m.params["ref"] == parts[4];
  }

  /** The parameter names of route 3, each bound once. */
  lemma NamesOf3()
    ensures ParamNames(Routes[3].segments) == {"owner", "repo", "ref"}
    ensures LastOfName(Routes[3].segments, 1)
    ensures LastOfName(Routes[3].segments, 2)
    ensures LastOfName(Routes[3].segments, 4)
  {
    var segments := Routes[3].segments;
    assert LastOfName(segments, 1) by { assert segments[2..] == [Param("repo"), Const("tree"), Param("ref")]; }
    assert LastOfName(segments, 2) by { assert segments[3..] == [Const("tree"), Param("ref")]; }
    assert LastOfName(segments, 4) by { assert segments[5..] == []; }
  }

  lemma BindsReading3(path: string)
    requires RouteFits(3, Split(path, '/'))
    ensures MatchPath(Routes[3], path).Some?
    ensures BindsShape(3, Split(path, '/'), MatchPath(Routes[3], path).value)
  {
    var parts := Split(path, '/');
    var segments := Routes[3].segments;
    FitsReading3(parts);
    MatchSegmentsReading(segments, parts, Routes[3].trailing);
    NamesOf3();
    var m := MatchPath(Routes[3], path).value;
    assert segments[1] == Param("owner");
    assert m.params["owner"] == parts[1];
    assert segments[2] == Param("repo");
    assert m.params["repo"] == parts[2];
    assert segments[4] == Param("ref");
    assert m.params["ref"] == parts[4];
  }

  /** The parameter names of route 4, each bound once. */
  lemma NamesOf4()
    ensures ParamNames(Routes[4].segments) == {"owner", "repo", "ref"}
    ensures LastOfName(Routes[4].segments, 1)
    ensures LastOfName(Routes[4].segments, 2)
    ensures LastOfName(Routes[4].segments, 4)
  {
    var segments := Routes[4].segments;
    assert LastOfName(segments, 1) by { assert segments[2..] == [Param("repo"), Const("blob"), Param("ref")]; }
    assert LastOfName(segments, 2) by { assert segments[3..] == [Const("blob"), Param("ref")]; }
    assert LastOfName(segments, 4) by { assert segments[5..] == []; }
  }

  lemma BindsReading4(path: string)
    requires RouteFits(4, Split(path, '/'))
    ensures MatchPath(Routes[4], path).Some?
    ensures BindsShape(4, Split(path, '/'), MatchPath(Routes[4], path).value)
  {
    var parts := Split(path, '/');
    var segments := Routes[4].segments;
    FitsReading4(parts);
    MatchSegmentsReading(segments, parts, Routes[4].trailing);
    NamesOf4();
    var m := MatchPath(Routes[4], path).value;
    assert segments[1] == Param("owner");
    assert m.params["owner"] == parts[1];
    assert segments[2] == Param("repo");
    assert m.params["repo"] == parts[2];
    assert segments[4] == Param("ref");
    assert m.params["ref"] == parts[4];
  }

  /** The parameter names of route 5, each bound once. */
  lemma NamesOf5()
    ensures ParamNames(Routes[5].segments) == {"owner", "repo", "pullRequestID"}
    ensures LastOfName(Routes[5].segments, 1)
    ensures LastOfName(Routes[5].segments, 2)
    ensures LastOfName(Routes[5].segments, 4)
  {
    var segments := Routes[5].segments;
    assert LastOfName(segments, 1) by { assert segments[2..] == [Param("repo"), Const("pull"), Param("pullRequestID"), Const("files")]; }
    assert LastOfName(segments, 2) by { assert segments[3..] == [Const("pull"), Param("pullRequestID"), Const("files")]; }
    assert LastOfName(segments, 4) by { assert segments[5..] == [Const("files")]; }
  }

  lemma BindsReading5(path: string)
    requires RouteFits(5, Split(path, '/'))
    ensures MatchPath(Routes[5], path).Some?
    ensures BindsShape(5, Split(path, '/'), MatchPath(Routes[5], path).value)
  {
    var parts := Split(path, '/');
    var segments := Routes[5].segments;
    FitsReading5(parts);
    MatchSegmentsReading(segments, parts, Routes[5].trailing);
    NamesOf5();
    var m := MatchPath(Routes[5], path).value;
    assert segments[1] == Param("owner");
    assert m.params["owner"] == parts[1];
    assert segments[2] == Param("repo");
    assert m.params["repo"] == parts[2];
    assert segments[4] == Param("pullRequestID");
    assert m.params["pullRequestID"] == parts[4];
  }

  /** The parameter names of route 6, each bound once. */
  lemma NamesOf6()
    ensures ParamNames(Routes[6].segments) == {"owner", "repo", "pullRequestID"}
    ensures LastOfName(Routes[6].segments, 1)
    ensures LastOfName(Routes[6].segments, 2)
    ensures LastOfName(Routes[6].segments, 4)
  {
    var segments := Routes[6].segments;
    assert LastOfName(segments, 1) by { assert segments[2..] == [Param("repo"), Const("pull"), Param("pullRequestID")]; }
    assert LastOfName(segments, 2) by { assert segments[3..] == [Const("pull"), Param("pullRequestID")]; }
    assert LastOfName(segments, 4) by { assert segments[5..] == []; }
  }

  lemma BindsReading6(path: string)
    requires RouteFits(6, Split(path, '/'))
    ensures MatchPath(Routes[6], path).Some?
    ensures BindsShape(6, Split(path, '/'), MatchPath(Routes[6], path).value)
  {
    var parts := Split(path, '/');
    var segments := Routes[6].segments;
    FitsReading6(parts);
    MatchSegmentsReading(segments, parts, Routes[6].trailing);
    NamesOf6();
    var m := MatchPath(Routes[6], path).value;
    assert segments[1] == Param("owner");
    assert m.params["owner"] == parts[1];
    assert segments[2] == Param("repo");
    assert m.params["repo"] == parts[2];
    assert segments[4] == Param("pullRequestID");
    assert m.params["pullRequestID"] == parts[4];
  }

  /** The parameter names of route 7, each bound once. */
  lemma NamesOf7()
    ensures ParamNames(Routes[7].segments) == {"owner", "repo"}
    ensures LastOfName(Routes[7].segments, 1)
    ensures LastOfName(Routes[7].segments, 2)
  {
    var segments := Routes[7].segments;
    assert LastOfName(segments, 1) by { assert segments[2..] == [Param("repo")]; }
    assert LastOfName(segments, 2) by { assert segments[3..] == []; }
  }

  lemma BindsReading7(path: string)
    requires RouteFits(7, Split(path, '/'))
    ensures MatchPath(Routes[7], path).Some?
    ensures BindsShape(7, Split(path, '/'), MatchPath(Routes[7], path).value)
  {
    var parts := Split(path, '/');
    var segments := Routes[7].segments;
    FitsReading7(parts);
    MatchSegmentsReading(segments, parts, Routes[7].trailing);
    NamesOf7();
    var m := MatchPath(Routes[7], path).value;
    assert segments[1] == Param("owner");
    assert m.params["owner"] == parts[1];
    assert segments[2] == Param("repo");
    assert m.params["repo"] == parts[2];
  }

  /** The match of the winning route, read off the path's segments. */
  lemma MatchByShape(path: string)
    requires HasPrefix(path, "/")
    ensures |Split(path, '/')| >= 2
    ensures FirstMatch(path) == Some(ShapeRoute(Split(path, '/')))
    ensures BindsShape(ShapeRoute(Split(path, '/')), Split(path, '/'), MatchOf(path))
  {
    FirstMatchByShape(path);
    var parts := Split(path, '/');
    var k := ShapeRoute(parts);
    RouteMatchReading(k, path);
    if k == 0 { BindsReading0(path); }
    else if k == 1 { BindsReading1(path); }
    else if k == 2 { BindsReading2(path); }
    else if k == 3 { BindsReading3(path); }
    else if k == 4 { BindsReading4(path); }
    else if k == 5 { BindsReading5(path); }
    else if k == 6 { BindsReading6(path); }
    else { BindsReading7(path); }
  }
}
