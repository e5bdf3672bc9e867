# go-peek `repo` package: query resolution and tarball clone, in Dafny

This project models the `repo` package of go-peek, which opens a GitHub
repository, file or pull request from a locator such as
`https://github.com/owner/repo/blob/main/README.md`. It has two parts.

- **Query resolution** (`src/repo/query.go`). `GetQuery` normalises the locator:
  - it strips `git-peek://` and then `https://`;
  - it notes a `noCDN` marker and cuts the query string;
  - it strips the hosting domain and forces a leading `/`.

  It then classifies the path against an ordered table of eight route patterns, where the first match wins. It fills a `Query` with the kind, the source text and the bound parameters. `refToUse`, `fallbackRef`, `Pretty` and `PrettyDirname` derive strings from a query.
- **Tarball clone** (`src/repo/clone.go`). The clone runs in stages:
  - look up the repository's tarball link through the hosting API, at the ref the query uses;
  - build a GET request, with the access token as `Authorization` header when there is one;
  - fetch the archive;
  - unpack its entries in stream order below a destination directory.

  The unpacking loop keeps a mutable target directory. It switches that directory to `destination/repo` when it reads the repository's own directory entry. It records a failed `mkdir` or file write in a `hadErrors` flag and never stops on one.

Files and modules:

| file | module | contents |
|---|---|---|
| `wrappers.dfy` | `Wrappers` | `Option` |
| `strings.dfy` | `Strings` | the parts of Go's `strings` package the resolver uses: prefix tests, `Contains`, `Split`, `Join`, `ReplaceAll` of one character; split/join round trips |
| `urlpath.dfy` | `UrlPath` | this model's reading of the `urlpath` route matcher, whose code is not part of this model (see below) |
| `routes.dfy` | `RouteTable` | the eight patterns, their parsed routes (proved to be what `New` makes of the strings), and the first-match search |
| `shapes.dfy` | `RouteShapes` | an independent, segment-count description of which route wins and what it binds, proved equal to the first-match search |
| `query.dfy` | `RepoQuery` | `Query`, `KindParams`, `_PathKindMap`, the normalisation, `findMatchingURL`, `GetQuery`, `refToUse`, `fallbackRef`, `Pretty`, `PrettyDirname` |
| `paths.dfy` | `Paths` | lexical `path.Clean` and two-element `path.Join` |
| `clone.dfy` | `RepoClone` | `TarballLink`, `CloneOperation`, the link lookup, the request, the filesystem object, the extraction loop and its specification, `tarballClone`, `TarballClone` |

Reading of the route matcher. The `urlpath` package is not part of this model, so the model states how it is read:
- A pattern is cut at every `/`, and the empty text before the leading `/` is a constant segment.
- A constant segment must equal the path segment.
- `:name` binds exactly one path segment, which may be empty.
- A final `*` lets the path have more segments, and the rest after the matched segments, joined with `/`, is the trailing text.
- Without `*`, the path must have exactly as many segments as the pattern (one `/` after the last segment is not accepted; see "Left out").
- When a name occurs twice, the later binding wins.

Under this reading every normalised path matches one of the eight routes, so `GetQuery` never yields `KindClone`. This is proved: `ShapeQuery` never has kind `Clone`.

Behaviour of the code that a reader might not expect, which the model keeps as written:
- The route variables name pattern 0 (`/:owner/:repo`) `rootRepoRoute` and pattern 1 (`/:query`) `searchRepoRoute` (src/repo/query.go:25-26). But `_PathKindMap` maps index 0 to `KindSearch` and index 1 to `KindRoot` (src/repo/query.go:46-48). So `octocat/Hello-World` is a search for `octocatHello-World`, and `lodash` is a root query with no owner or repository.
- A failed link lookup, request build or fetch returns `isFinished = false, hadErrors = true` (src/repo/clone.go:85, 97, 109).
- A query without an explicit ref asks the API for ref `main` (`refToUse`, src/repo/query.go:93-94), so a ref option is always sent for the queries `GetQuery` builds.
- A non-success HTTP status is not a failure: only an error from `client.Do` stops the clone (src/repo/clone.go:105-110). Whatever body arrives is handed to the archive reader. The error from `tar.Open` is ignored (src/repo/clone.go:116).
- Every entry that is the repository's own directory switches the target directory (src/repo/clone.go:141-143). The switch is always to the same directory, so entries after the first such one change nothing.

Outside inputs are parameters:
- the hosting domain (`github_domain`) is a parameter of `GetQuery`;
- the access token is a parameter of the clone;
- the hosting API, the request builder and the HTTP client form a `Network` value of functions;
- the filesystem is a `FileSystem` object whose `fails` oracle decides which operation fails in which state.

## Model

| member | source | states |
|---|---|---|
| Strings.TrimPrefix | src/repo/query.go:138-144 | the prefix is removed once when present, and the input is otherwise unchanged |
| Strings.Contains | src/repo/query.go:148-149 | `strings.Contains`: true iff `sub` occurs in `s` at some index |
| Strings.Split | src/repo/query.go:153 | `strings.Split`: at least one part; no part holds the separator; exactly one part iff the separator does not occur |
| Strings.RemoveAll | src/repo/query.go:175 | `strings.ReplaceAll(s, c, "")`: no `c` is left, nothing is added, and every other character keeps its count |
| Strings.RemoveAllJoin | src/repo/query.go:175 | removing the separators from a join of separator-free parts gives their concatenation |
| UrlPath.NewOfPieces | src/repo/query.go:25-32 | parsing the text of a well-formed pattern gives that pattern back |
| UrlPath.MatchSegmentsReading | src/repo/query.go:122 | a route matches iff the path segments fit it (count and constants); the match binds exactly the route's parameter names, each to its segment (last occurrence wins), with the rest of the path as trailing text |
| RouteTable.RoutesParsePatterns | src/repo/query.go:13-33 | each of the eight routes is what `New` makes of the pattern at the same index |
| RouteTable.FirstMatchFrom | src/repo/query.go:121-128 | the result is a matching route at or after `from` with no earlier match; no result means no route from `from` on matches |
| RouteShapes.RouteMatchReading | src/repo/query.go:13-22 | route `j` matches a path iff the path's segments have the count and constant segments of pattern `j` |
| RouteShapes.FirstMatchByShape | src/repo/query.go:109-129 | every path beginning with `/` is matched, and the first matching route is the one the segment shape names |
| RouteShapes.MatchByShape | src/repo/query.go:121-126 | the winning route binds `owner`, `repo`, `ref` and `pullRequestID` to the segments at their positions, and the trailing text to the segments after them |
| RepoQuery.StripSchemesRemovesOnlyPrefixes | src/repo/query.go:138-144 | only a leading `git-peek://` and then a leading `https://` are removed; the input is those prefixes followed by the result |
| RepoQuery.CutQuery | src/repo/query.go:148-154 | the text before the first `?`: a prefix of the input without `?`, which is followed by `?` when one occurs |
| RepoQuery.WithLeadingSlash | src/repo/query.go:161-163 | a `/` is put in front exactly when there is none |
| RepoQuery.NormalisedPath | src/repo/query.go:132-163 | the path handed to matching begins with `/` and has no query string |
| RepoQuery.NormaliseLocator | src/repo/query.go:132-163 | CDN is false iff the stripped input contains both `?` and `noCDN`; GitHub is true iff the cut text starts with the domain; the path is the normalised path |
| RepoQuery.FindMatchingURL | src/repo/query.go:109-129 | the loop returns the lowest matching route, its match and `_PathKindMap` of it, and `KindClone` with no match when no route matches |
| RepoQuery.ShapeQuery | src/repo/query.go:165-195 | never `Clone`; exact iff a ref was bound; a search has no `/` in its source and empty params; other kinds keep the path as source; `pullRequestID` only for pull requests; `path` only for files; owner, repo and ref hold no `/` |
| RepoQuery.FirstMatchExamples | src/repo/query.go:13-22 | a one-segment path is Root by route 1, a two-segment path is Search by route 0, and `/o/r/pull/n/files` is pull request `n` by route 5 rather than the catch-alls |
| RepoQuery.SearchSource | src/repo/query.go:174-177 | a search's source is the path with every `/` removed, which for `/a/b` is `a` followed by `b` |
| RepoQuery.ShapeOfMatch | src/repo/query.go:165-195 | the segment-shape reading equals what the code builds from the first match: kind from `_PathKindMap`, owner, repo, ref, pull request id and file path from the bound parameters |
| RepoQuery.GetQuery | src/repo/query.go:131-196 | the query's CDN and GitHub flags are as normalisation sets them, its kind is `_PathKindMap` of the first matching route, and the whole query equals the segment-shape reading of the normalised path |
| RepoQuery.RefToUse | src/repo/query.go:88-98 | an exact query asks for its own ref; a non-exact query with a recorded ref answers with the owner; the ref used is empty only for an exact query with an empty ref, or a non-exact query with a ref but no owner |
| RepoQuery.Pretty | src/repo/query.go:66-68 | `owner/` then `repo`, ending in `@` and the ref used; when none of the three holds a `/`, it splits back into the owner and `repo@ref` |
| RepoQuery.PrettyDirname | src/repo/query.go:70-72 | `owner@`, then exactly the repository name, then the `-*` that the temporary-directory pattern replaces; no `/` when owner and repo have none |
| RepoQuery.FallbackRef | src/repo/query.go:76-86 | empty exactly for an exact query; otherwise `master` exactly when the recorded ref is `main`, and `main` else |
| RepoQuery.RefToUseOfWellFormed | src/repo/query.go:88-98 | on queries `GetQuery` builds, the ref used is the explicit ref or else `main`, never empty; the owner branch is never taken |
| RepoQuery.PrettyOfResolved | src/repo/query.go:66-68 | for a resolved query, `Pretty` splits at its single `/` into the owner and `repo@ref` with the ref used |
| RepoQuery.DirnameOfResolved | src/repo/query.go:70-72 | for a resolved query, `PrettyDirname` is the owner, `@`, the repository name and `-*`, with no `/` |
| RepoQuery.FallbackRefRepeatsRefToUse | src/repo/query.go:76-86 | as written, for every non-exact query `GetQuery` builds, `fallbackRef` returns `main`, the ref `refToUse` already used |
| RepoQuery.AlternateRefDiffers | src/repo/query.go:76-86 | the corrected fallback differs from the ref used and is `main` or `master` |
| Paths.Resolve | src/repo/clone.go:139 | the cleaned segment stack holds no empty, `.` or `/`-containing segment |
| Paths.Clean | src/repo/clone.go:139 | `path.Clean` never returns the empty string |
| Paths.JoinPath | src/repo/clone.go:142-145 | `path.Join` of two elements is empty only when both are |
| Paths.CleanPlainName | src/repo/clone.go:139 | a plain name is already clean |
| RepoClone.FetchTarballURL | src/repo/clone.go:26-46 | no ref option iff the ref is empty, else options carrying exactly that ref, tarball format, following redirects; success and the URL iff the API answered with a link, else an empty URL and the error |
| RepoClone.FetchTarballLink | src/repo/clone.go:48-56 | the lookup asks for the query's owner and repo at `refToUse`, and for queries `GetQuery` builds always sends a ref option |
| RepoClone.AuthorizationOnlyWithToken | src/repo/clone.go:93-102 | the GET request carries an `Authorization` header iff the token is non-empty, and its value is the raw token |
| RepoClone.Outcome | src/repo/clone.go:148-160 | a failed operation changes nothing; a successful one (re)creates its path and keeps every other path |
| RepoClone.FileSystem.Mkdir | src/repo/clone.go:149-153 | reports success as the oracle decides and creates the directory only on success |
| RepoClone.FileSystem.WriteNewFile | src/repo/clone.go:155-159 | reports success as the oracle decides and creates the file with its mode and bytes only on success |
| RepoClone.ExtractEntries | src/repo/clone.go:120-169 | the loop's error flag and filesystem are those of the specification fold `Run` over all entries in order |
| RepoClone.RunTargetDir | src/repo/clone.go:125-146 | the target directory is `destination` until the repository's directory entry has been read, and `destination/repo` after; it never holds anything else |
| RepoClone.EntryOut | src/repo/clone.go:139-146 | entry `i` goes to `destination/repo` if it is the repository's directory, and otherwise to its cleaned name below the target directory earlier entries left |
| RepoClone.RunStep | src/repo/clone.go:133-169 | each turn writes the entry at its placement, adds its failure to the flag, and changes the filesystem only by that operation |
| RepoClone.RunHadErrors | src/repo/clone.go:130-169 | the final error flag is true iff the operation of at least one entry failed |
| RepoClone.RunNodes | src/repo/clone.go:148-160 | after the loop a path exists iff it existed before or some entry whose operation succeeded was placed there |
| RepoClone.RunNodeContents | src/repo/clone.go:139-160 | later entries overwrite earlier ones: a path holds the node made by the last successful operation placed at it, and a path no successful operation reached holds what it held before |
| RepoClone.CleanRunPlacesAll | src/repo/clone.go:130-169 | when no operation failed, every entry's placement exists afterwards |
| RepoClone.CloneOutcomeShapes | src/repo/clone.go:81-178 | a clone that stops early is unfinished with errors and leaves the filesystem untouched; a finished one got a link, a request and a response, and has errors iff some entry failed |
| RepoClone.CloneTarball | src/repo/clone.go:81-178 | link failure, request failure and fetch failure each give `isFinished = false, hadErrors = true` with nothing created; otherwise `isFinished = true` with the loop's flag and filesystem |
| RepoClone.TarballClone | src/repo/clone.go:180-189 | returns exactly the outcome of `tarballClone` |

## Left out

- Goroutines and channels (`tarballLinkChannel`, `go fetchTarballURL`, the goroutine in `TarballClone`) are modelled as direct calls. The sequential reading gives the same result for the one lookup and the one clone a process makes: the command clones once and then exits (src/cmd/root.go:41-42). `tarballLinkChannel` is a package-level channel that the first `fetchTarballURL` closes (src/repo/clone.go:24, 27), so a second lookup in the same process would receive a zero `TarballLink`, and its goroutine would panic on the send. The model does not capture this.
- The GitHub API call, `http.NewRequestWithContext` and `client.Do` are functions of the `Network` parameter. Only whether each fails, and what it answers, is modelled. Closing the response body is left out.
- gzip and tar decoding, and `StripComponents = 1`, are left out. The archive is the sequence of entries the reader delivers, with names as delivered.
- Bodies that do not decode are not modelled: `Response(archive)` stands only for a body that decodes to the entries `archive`. An undecodable body, or a read error other than end of archive, leaves `file` a zero entry, and the process then stops at `file.Name()` (src/repo/clone.go:139). How it stops depends on the archive library, which is not part of this model.
- `mkdir` and `writeNewFile` are not part of this model. They are a failure oracle plus a map of created paths. Parent directories that `mkdir` creates and the byte copy stream are not recorded.
- A failed `mkdir` or `writeNewFile` is assumed to change nothing. A file that was created or truncated and then failed while its bytes were copied is not recorded, and neither are parent directories created before a failure. The "only if" half of `RunNodes`, and the "holds what it held before" half of `RunNodeContents`, rest on this.
- `path.Clean` is modelled lexically without Go's byte-level details. No claim is made that `..` stays inside the destination, because the code does not guarantee it.
- `peek.Log`, `peek.LogV`, `peek.Error` and `peek.Line` output is left out.
- `viper` configuration is left out; the domain and token are parameters.
- The commented-out dual-ref fallback (src/repo/clone.go:52-72) and per-entry error policy (src/repo/clone.go:162-168) are dead code and are left out.
- The `urlpath` package is not part of this model. Its matching is the reading stated above, which for a pattern without `*` demands exactly as many path segments as the pattern has.
- `UrlPath.MatchSegmentsReading`: the matcher's code may also accept one `/` after the last segment of a pattern without `*`, which this reading rejects. For such paths the model's classification then differs. `/o/r/` is a root query by pattern 7 in the model, where that matcher gives a search by pattern 0. `/o/r/tree/x/` is a file query with an empty path by pattern 3 in the model, where that matcher gives a root query at ref `x` by pattern 2.
- Kind strings generated by `go-enum` are not part of this model; `Kind` is a plain datatype.

## Findings

| source | as written | input that shows it | evidently intended | confidence | as-written member | corrected member |
|---|---|---|---|---|---|---|
| src/repo/query.go:76-86 | `fallbackRef` compares the recorded ref `Params.ref` with `main`. For a query without an explicit ref, `Params.ref` is always empty, so it returns `main`. | any locator without a ref, e.g. `owner/repo/issues`: `refToUse` gives `main`, and `fallbackRef` also gives `main` | the other default branch name, `master`, when `main` was the ref used | not executed; the function is only reached from commented-out code | RepoQuery.FallbackRefRepeatsRefToUse | RepoQuery.AlternateRefDiffers |
