/**
  The query resolver of package `repo` (src/repo/query.go): it turns the
  locator a user types — a shorthand, a web URL or a `git-peek://` link —
  into a `Query`, by normalising the text and classifying the path against
  an ordered table of eight route patterns, the first match winning.

  The hosting domain that the Go code reads from its configuration is a
  parameter here.
 */
module RepoQuery {
  import opened Wrappers
  import opened Strings
  import opened UrlPath
  import opened RouteTable
  import opened RouteShapes

  /** What the user asked for; `Clone` is the zero value. */
  datatype Kind = Clone | Root | File | PullRequest | Search

  datatype KindParams = KindParams(
    owner: string,
    repo: string,
    ref: string,
    source: string,
    path: string,
    pullRequestID: string)

  const NoParams := KindParams("", "", "", "", "", "")

  datatype Query = Query(
    kind: Kind,
    gitHub: bool,    // the locator named the hosting domain
    cdn: bool,       // false when the locator opted out with "noCDN"
    src: string,
    params: KindParams,
    exact: bool)     // an explicit ref was given

  /**
    The kind each route stands for. As in the source, the two-segment route
    gives `Search` and the one-segment route gives `Root`.
   */
  const PathKindMap: seq<Kind> := [Search, Root, Root, File, File, PullRequest, PullRequest, Root]

  const SchemePrefix := "git-peek://"
  const HttpsPrefix := "https://"
  const NoCdnMarker := "noCDN"
  const DefaultRef := "main"

  // ---------------------------------------------------------------------
  // Normalisation
  // ---------------------------------------------------------------------

  /** A leading `git-peek://` is removed, then a leading `https://`. */
  function StripSchemes(input: string): string
  {
    TrimPrefix(TrimPrefix(input, SchemePrefix), HttpsPrefix)
  }

  /**
    Nothing but the two prefixes is removed, each at most once and in
    that order: the input is what was removed followed by the result.
   */
  lemma StripSchemesRemovesOnlyPrefixes(input: string)
    ensures var first := if HasPrefix(input, SchemePrefix) then SchemePrefix else "";
            var second := if HasPrefix(TrimPrefix(input, SchemePrefix), HttpsPrefix) then HttpsPrefix else "";
            input == first + second + StripSchemes(input)
    ensures !HasPrefix(input, SchemePrefix) && !HasPrefix(input, HttpsPrefix) ==> StripSchemes(input) == input
  {
    var once := TrimPrefix(input, SchemePrefix);
    var first := if HasPrefix(input, SchemePrefix) then SchemePrefix else "";
    var second := if HasPrefix(once, HttpsPrefix) then HttpsPrefix else "";
    assert input == first + once;
    assert once == second + StripSchemes(input);
    assert first + second + StripSchemes(input) == first + (second + StripSchemes(input));
  }

  /** The text before the first '?' (`strings.Split(url, "?")[0]`), if there is one. */
  function CutQuery(s: string): (r: string)
    ensures '?' !in r
    ensures |r| <= |s| && r == s[..|r|]
    ensures '?' in s ==> |r| < |s| && s[|r|] == '?'
    ensures '?' !in s ==> r == s
  {
    if '?' in s then SplitHead(s, '?'); Split(s, '?')[0] else s
  }

  /** A path separator is put in front unless there is one already. */
  function WithLeadingSlash(s: string): (r: string)
    ensures |r| > 0 && r[0] == '/'
    ensures HasPrefix(s, "/") ==> r == s
    ensures !HasPrefix(s, "/") ==> r == "/" + s
  {
    if HasPrefix(s, "/") then s else "/" + s
  }

  /** The path that `GetQuery` classifies: it always begins with '/' and has no query string. */
  function NormalisedPath(input: string, domain: string): (path: string)
    ensures HasPrefix(path, "/")
    ensures '?' !in path
  {
    WithLeadingSlash(TrimPrefix(CutQuery(StripSchemes(input)), domain))
  }

  // ---------------------------------------------------------------------
  // Classification
  // ---------------------------------------------------------------------

  /**
    What the resolver makes of a normalised path, read off its segments
    `parts` (the first is the empty text before the leading '/'):
    - "/x" is a root query with no owner or repository;
    - "/a/b" is a search for "ab";
    - "/a/b/tree/r" is the root of `a/b` at ref `r`;
    - "/a/b/tree/r/..." and "/a/b/blob/r/..." are a file at ref `r`;
    - "/a/b/pull/n" and longer are pull request `n` (except that
      "/a/b/pull/n/files" is the same pull request by the files route);
    - anything else of two or more segments is the root of `a/b`.
    The ref is exact when it is not empty.
   */
  function ShapeQuery(path: string, gitHub: bool, cdn: bool): (q: Query)
    requires HasPrefix(path, "/")
    ensures q.kind != Clone
    ensures q.exact <==> q.params.ref != ""
    ensures q.kind == Search ==> '/' !in q.src && q.params == NoParams
    ensures q.kind != Search ==> q.src == path
    ensures q.gitHub == gitHub && q.cdn == cdn
    ensures '/' !in q.params.owner && '/' !in q.params.repo && '/' !in q.params.ref
    ensures q.params.source == ""
    ensures q.kind != PullRequest ==> q.params.pullRequestID == ""
    ensures q.kind != File ==> q.params.path == ""
  {
    SlashPathParts(path);
    var parts := Split(path, '/');
    if |parts| == 2 then
      Query(Root, gitHub, cdn, path, NoParams, false)
    else if |parts| == 3 then
      Query(Search, gitHub, cdn, parts[1] + parts[2], NoParams, false)
    else
      var owner, repo := parts[1], parts[2];
      if |parts| >= 5 && parts[3] == "tree" && |parts| == 5 then
        Query(Root, gitHub, cdn, path, KindParams(owner, repo, parts[4], "", "", ""), parts[4] != "")
      else if |parts| >= 5 && (parts[3] == "tree" || parts[3] == "blob") then
        var file := Join(parts[5..], '/');
        Query(File, gitHub, cdn, path, KindParams(owner, repo, parts[4], "", file, ""), parts[4] != "")
      else if |parts| >= 5 && parts[3] == "pull" then
        Query(PullRequest, gitHub, cdn, path, KindParams(owner, repo, "", "", "", parts[4]), false)
      else
        Query(Root, gitHub, cdn, path, KindParams(owner, repo, "", "", "", ""), false)
  }

  /**
    First match wins: a one-segment path is a root query by the one-segment
    route, a two-segment path a search by the owner/repo route, and
    "/o/r/pull/n/files" is pull request `n` by the files route rather than
    by the later pull-request or catch-all routes.
   */
  lemma FirstMatchExamples(path: string, gitHub: bool, cdn: bool)
    requires HasPrefix(path, "/")
    ensures var parts := Split(path, '/');
      var q := ShapeQuery(path, gitHub, cdn);
      && (|parts| == 2 ==> FirstMatch(path) == Some(1) && q.kind == Root)
      && (|parts| == 3 ==> FirstMatch(path) == Some(0) && q.kind == Search)
      && (|parts| == 6 && parts[3] == "pull" && parts[5] == "files" ==>
            FirstMatch(path) == Some(5) && q.kind == PullRequest && q.params.pullRequestID == parts[4])
  {
    FirstMatchByShape(path);
  }

  /** Removing the separators from "/a/b" leaves "ab". */
  lemma SearchSource(path: string)
    requires HasPrefix(path, "/") && |Split(path, '/')| == 3
    ensures RemoveAll(path, '/') == Split(path, '/')[1] + Split(path, '/')[2]
  {
    var parts := Split(path, '/');
    SlashPathParts(path);
    JoinSplit(path, '/');
    RemoveAllJoin(parts, '/');
    assert Concat(parts[2..]) == parts[2] + Concat(parts[3..]);
    assert parts[2] + "" == parts[2];
  }

  /** The kind a classification gives: the route's kind, `Clone` when none matched. */
  function KindOf(route: Option<nat>): Kind
    requires route.Some? ==> route.value < |PathKindMap|
  {
    if route.None? then Clone else PathKindMap[route.value]
  }

  /**
    `findMatchingURL`: try the routes in order and stop at the first that
    matches; the route is reported by its index in the table.
   */
  method FindMatchingURL(path: string) returns (m: Option<Match>, route: Option<nat>, kind: Kind)
    ensures route == FirstMatch(path)
    ensures route.None? ==>
      && m.None? && kind == Clone
      && forall i :: 0 <= i < |Routes| ==> MatchPath(Routes[i], path).None?
    ensures route.Some? ==>
      && route.value < |Routes|
      && m == MatchPath(Routes[route.value], path) && m.Some?
      && kind == PathKindMap[route.value]
      && forall j :: 0 <= j < route.value ==> MatchPath(Routes[j], path).None?
  {
    var routes := Routes;
    var index := 0;
    while index < |routes|
      invariant 0 <= index <= |routes| && routes == Routes
      invariant forall j :: 0 <= j < index ==> MatchPath(Routes[j], path).None?
      invariant FirstMatchFrom(path, index) == FirstMatch(path)
    {
      var result := MatchPath(routes[index], path);
      if result.Some? {
        return result, Some(index), PathKindMap[index];
      }
      index := index + 1;
    }
    return None, None, Clone;
  }

  /**
    The first half of `GetQuery`: strip the schemes, note and cut a query
    string, strip the hosting domain and force a leading '/'.
   */
  method NormaliseLocator(input: string, domain: string) returns (url: string, gitHub: bool, cdn: bool)
    ensures cdn == !('?' in StripSchemes(input) && Contains(StripSchemes(input), NoCdnMarker))
    ensures gitHub == HasPrefix(CutQuery(StripSchemes(input)), domain)
    ensures url == NormalisedPath(input, domain)
  {
    url := input;
    gitHub, cdn := false, false;

    if HasPrefix(url, SchemePrefix) {
      url := url[|SchemePrefix|..];
    }
    if HasPrefix(url, HttpsPrefix) {
      url := url[|HttpsPrefix|..];
    }
    assert url == StripSchemes(input);

    cdn := true;
    if '?' in url {
      if Contains(url, NoCdnMarker) {
        cdn := false;
      }
      url := Split(url, '?')[0];
    }
    assert url == CutQuery(StripSchemes(input));

    if HasPrefix(url, domain) {
      gitHub := true;
      url := url[|domain|..];
    }
    if !HasPrefix(url, "/") {
      url := "/" + url;
    }
  }

  /** The query `e` is what the code builds from match `m` of a route of kind `kind`. */
  predicate BuiltFromMatch(path: string, e: Query, kind: Kind, m: Match)
  {
    && e.kind == kind
    && (kind == Search ==> e.src == RemoveAll(path, '/'))
    && (kind != Search ==>
          && e.params.owner == Lookup(m.params, "owner")
          && e.params.repo == Lookup(m.params, "repo")
          && e.params.ref == Lookup(m.params, "ref")
          && e.params.source == ""
          && e.params.path == (if kind == File then m.trailing else "")
          && e.params.pullRequestID == (if kind == PullRequest then Lookup(m.params, "pullRequestID") else ""))
  }

  /**
    The reading of a path by its segments agrees with what the code builds
    from the first matching route.
   */
  lemma ShapeOfMatch(path: string, gitHub: bool, cdn: bool)
    requires HasPrefix(path, "/")
    ensures FirstMatch(path).Some? && FirstMatch(path).value < |PathKindMap|
    ensures BuiltFromMatch(path, ShapeQuery(path, gitHub, cdn), PathKindMap[FirstMatch(path).value], MatchOf(path))
  {
    SlashPathParts(path);
    var parts := Split(path, '/');
    var k := ShapeRoute(parts);
    if k <= 1 {
      ShortShapeOfMatch(path, gitHub, cdn);
    } else if k == 2 {
      TreeShapeOfMatch(path, gitHub, cdn);
    } else if k <= 4 {
      FileShapeOfMatch(path, gitHub, cdn);
    } else if k <= 6 {
      PullShapeOfMatch(path, gitHub, cdn);
    } else {
      OtherShapeOfMatch(path, gitHub, cdn);
    }
  }

  /** The catch-all route: the root of `owner/repo`, with no ref. */
  lemma OtherShapeOfMatch(path: string, gitHub: bool, cdn: bool)
    requires HasPrefix(path, "/")
    requires |Split(path, '/')| >= 2 && ShapeRoute(Split(path, '/')) == 7
    ensures FirstMatch(path).Some? && FirstMatch(path).value < |PathKindMap|
    ensures BuiltFromMatch(path, ShapeQuery(path, gitHub, cdn), PathKindMap[FirstMatch(path).value], MatchOf(path))
  {
    MatchByShape(path);
    var parts := Split(path, '/');
    assert |parts| >= 4;
    assert ShapeQuery(path, gitHub, cdn) == Query(Root, gitHub, cdn, path, KindParams(parts[1], parts[2], "", "", "", ""), false);
  }

  /** The one- and two-segment routes: a root query with no parameters, or a search. */
  lemma ShortShapeOfMatch(path: string, gitHub: bool, cdn: bool)
    requires HasPrefix(path, "/")
    requires |Split(path, '/')| >= 2 && ShapeRoute(Split(path, '/')) <= 1
    ensures FirstMatch(path).Some? && FirstMatch(path).value < |PathKindMap|
    ensures BuiltFromMatch(path, ShapeQuery(path, gitHub, cdn), PathKindMap[FirstMatch(path).value], MatchOf(path))
  {
    MatchByShape(path);
    if |Split(path, '/')| == 3 {
      SearchSource(path);
    }
  }

  /** The tree route without a file: the root at the ref. */
  lemma TreeShapeOfMatch(path: string, gitHub: bool, cdn: bool)
    requires HasPrefix(path, "/")
    requires |Split(path, '/')| >= 2 && ShapeRoute(Split(path, '/')) == 2
    ensures FirstMatch(path).Some? && FirstMatch(path).value < |PathKindMap|
    ensures BuiltFromMatch(path, ShapeQuery(path, gitHub, cdn), PathKindMap[FirstMatch(path).value], MatchOf(path))
  {
    MatchByShape(path);
  }

  /** The tree and blob routes with a file: the file at the ref, with the trailing text as its path. */
  lemma FileShapeOfMatch(path: string, gitHub: bool, cdn: bool)
    requires HasPrefix(path, "/")
    requires |Split(path, '/')| >= 2 && 3 <= ShapeRoute(Split(path, '/')) <= 4
    ensures FirstMatch(path).Some? && FirstMatch(path).value < |PathKindMap|
    ensures BuiltFromMatch(path, ShapeQuery(path, gitHub, cdn), PathKindMap[FirstMatch(path).value], MatchOf(path))
  {
    MatchByShape(path);
  }

  /** The two pull-request routes: the pull request with its id. */
  lemma PullShapeOfMatch(path: string, gitHub: bool, cdn: bool)
    requires HasPrefix(path, "/")
    requires |Split(path, '/')| >= 2 && 5 <= ShapeRoute(Split(path, '/')) <= 6
    ensures FirstMatch(path).Some? && FirstMatch(path).value < |PathKindMap|
    ensures BuiltFromMatch(path, ShapeQuery(path, gitHub, cdn), PathKindMap[FirstMatch(path).value], MatchOf(path))
  {
    MatchByShape(path);
  }

  /** `GetQuery`: normalise the locator, classify its path and fill in the query. */
  method GetQuery(input: string, domain: string) returns (q: Query)
    ensures q.cdn == !('?' in StripSchemes(input) && Contains(StripSchemes(input), NoCdnMarker))
    ensures q.gitHub == HasPrefix(CutQuery(StripSchemes(input)), domain)
    ensures q.kind == KindOf(FirstMatch(NormalisedPath(input, domain)))
    ensures q == ShapeQuery(NormalisedPath(input, domain), q.gitHub, q.cdn)
  {
    var url, gitHub, cdn := NormaliseLocator(input, domain);
    ShapeOfMatch(url, gitHub, cdn);
    q := Query(Clone, gitHub, cdn, "", NoParams, false);

    var m, _, kind := FindMatchingURL(url);
    q := q.(kind := kind, src := url);

    if kind == Clone {
      return;
    }
    if kind == Search {
      q := q.(src := RemoveAll(url, '/'));
      return;
    }

    assert MatchOf(url) == m.value;
    var params := m.value.params;
    q := q.(params := q.params.(owner := Lookup(params, "owner"), repo := Lookup(params, "repo")));
    if Lookup(params, "ref") != "" {
      q := q.(params := q.params.(ref := Lookup(params, "ref")), exact := true);
    }
    if kind == PullRequest {
      q := q.(params := q.params.(pullRequestID := Lookup(params, "pullRequestID")));
    }
    if kind == File {
      q := q.(params := q.params.(path := m.value.trailing));
    }
  }

  // ---------------------------------------------------------------------
  // Strings derived from a query
  // ---------------------------------------------------------------------

  /** The shape every query `GetQuery` builds has: a ref is given exactly when it is exact. */
  predicate WellFormed(q: Query)
  {
    q.exact <==> q.params.ref != ""
  }

  /** `refToUse`: the ref to ask the hosting API for. */
  function RefToUse(q: Query): (ref: string)
    ensures q.exact ==> ref == q.params.ref
    ensures !q.exact && q.params.ref != "" ==> ref == q.params.owner
    ensures ref == "" <==> if q.exact then q.params.ref == "" else q.params.ref != "" && q.params.owner == ""
  {
    if q.exact then q.params.ref
    else if q.params.ref == "" then DefaultRef
    else q.params.owner
  }

  /**
    On the queries `GetQuery` builds, the ref used is the explicit ref or
    else "main"; it is never empty, and the branch that answers with the
    owner is never taken.
   */
  lemma RefToUseOfWellFormed(q: Query)
    requires WellFormed(q)
    ensures RefToUse(q) == (if q.exact then q.params.ref else DefaultRef)
    ensures RefToUse(q) != ""
  {
  }

  /** `Pretty`: "owner/repo@ref", with the ref that is used. */
  function Pretty(q: Query): (s: string)
    ensures HasPrefix(s, q.params.owner + "/")
    ensures |s| > |RefToUse(q)| && s[|s| - |RefToUse(q)| - 1..] == "@" + RefToUse(q)
    ensures '/' !in q.params.owner && '/' !in q.params.repo && '/' !in RefToUse(q) ==>
      Split(s, '/') == [q.params.owner, q.params.repo + "@" + RefToUse(q)]
  {
    var tail := q.params.repo + "@" + RefToUse(q);
    assert q.params.owner + "/" + q.params.repo + "@" + RefToUse(q) == q.params.owner + "/" + tail;
    Join2(q.params.owner, tail, '/');
    if '/' in q.params.owner || '/' in tail then
      q.params.owner + "/" + q.params.repo + "@" + RefToUse(q)
    else
      SplitJoin([q.params.owner, tail], '/');
      q.params.owner + "/" + q.params.repo + "@" + RefToUse(q)
  }

  /** `PrettyDirname`: "owner@repo-*", a pattern for a fresh temporary directory. */
  function PrettyDirname(q: Query): (d: string)
    ensures HasPrefix(d, q.params.owner + "@")
    ensures |d| == |q.params.owner| + |q.params.repo| + 3 && d[|d| - 2..] == "-*"
    ensures d[|q.params.owner| + 1..|d| - 2] == q.params.repo
    ensures '/' !in q.params.owner && '/' !in q.params.repo ==> '/' !in d
  {
    q.params.owner + "@" + q.params.repo + "-*"
  }

  /**
    For a resolved locator, `Pretty` cuts at its single '/' into the owner
    and "repo@ref", with the ref that is used.
   */
  lemma PrettyOfResolved(path: string, gitHub: bool, cdn: bool)
    requires HasPrefix(path, "/")
    ensures var q := ShapeQuery(path, gitHub, cdn);
      Split(Pretty(q), '/') == [q.params.owner, q.params.repo + "@" + RefToUse(q)]
  {
    var q := ShapeQuery(path, gitHub, cdn);
    assert '/' !in DefaultRef;
  }

  /**
    For a resolved locator, `PrettyDirname` is the owner and the
    repository around the first '@', has no path separator, and ends in the
    '*' that a temporary-directory pattern replaces.
   */
  lemma DirnameOfResolved(path: string, gitHub: bool, cdn: bool)
    requires HasPrefix(path, "/")
    ensures var q := ShapeQuery(path, gitHub, cdn);
      var d := PrettyDirname(q);
      && '/' !in d && d[|d| - 1] == '*'
      && d[..|q.params.owner|] == q.params.owner && d[|q.params.owner|] == '@'
      && d[|q.params.owner| + 1..|d| - 2] == q.params.repo
  {
  }

  /**
    `fallbackRef` as written: the alternative ref to try when the first
    fails. It compares the recorded ref, not the ref that was used, with
    "main".
   */
  function FallbackRef(q: Query): (ref: string)
    ensures ref == "" <==> q.exact
    ensures ref in {"", DefaultRef, "master"}
    ensures !q.exact ==> (ref == "master" <==> q.params.ref == DefaultRef)
  {
    if q.exact then ""
    else if q.params.ref == DefaultRef then "master"
    else "main"
  }

  /**
    On every query `GetQuery` builds without an explicit ref, `fallbackRef`
    as written names the very ref `refToUse` already tried.
   */
  lemma FallbackRefRepeatsRefToUse(q: Query)
    requires WellFormed(q) && !q.exact
    ensures FallbackRef(q) == RefToUse(q) == DefaultRef
  {
  }

  /** The fallback as evidently intended: the other default branch name. */
  function AlternateRef(q: Query): string
  {
    if q.exact then ""
    else if RefToUse(q) == DefaultRef then "master"
    else DefaultRef
  }

  /** The intended fallback differs from the ref tried first, and is one of the two default names. */
  lemma AlternateRefDiffers(q: Query)
    requires WellFormed(q) && !q.exact
    ensures AlternateRef(q) != RefToUse(q)
    ensures AlternateRef(q) in {"main", "master"}
  {
  }
}
