/**
  The clone pipeline of package `repo` (src/repo/clone.go): ask the hosting
  API for the tarball link of a repository at a ref, fetch it, and unpack
  the archive's entries below a destination directory.

  The hosting API, the HTTP client and the filesystem are not part of this
  model: the API and the HTTP client are functions given as parameters
  (a `Network`), and the filesystem is an object whose operations consult a
  failure oracle and record what they create.
 */
module RepoClone {
  import opened Wrappers
  import opened Strings
  import opened Paths
  import opened RepoQuery

  /** `TarballLink`: the outcome of the link lookup. */
  datatype TarballLink = TarballLink(url: string, success: bool, error: Option<string>)

  /** `CloneOperation`: the outcome of a clone. */
  datatype CloneOperation = CloneOperation(isFinished: bool, hadErrors: bool)

  // ---------------------------------------------------------------------
  // The hosting API and the HTTP client
  // ---------------------------------------------------------------------

  const TarballFormat := "tarball"

  /** `github.RepositoryContentGetOptions`, of which only the ref is set. */
  datatype ContentGetOptions = ContentGetOptions(ref: string)

  /** The arguments of a `GetArchiveLink` call. */
  datatype ArchiveLinkRequest = ArchiveLinkRequest(
    owner: string,
    repo: string,
    format: string,
    opts: Option<ContentGetOptions>,
    followRedirects: bool)

  /** What `GetArchiveLink` answers: a link, or an error. */
  datatype ApiAnswer = LinkFound(url: string) | ApiError(cause: string)

  /** An HTTP request: method, URL and the headers added to it, in order. */
  datatype HttpRequest = HttpRequest(verb: string, url: string, headers: seq<(string, string)>)

  /** A tar archive entry as the archive reader presents it. */
  datatype Entry = Entry(name: string, isDir: bool, mode: nat, data: seq<bv8>)

  /** What the HTTP client answers: the archive in the response body, or an error. */
  datatype FetchAnswer = Response(archive: seq<Entry>) | FetchError(cause: string)

  /**
    The outside world the pipeline talks to: the API's answer to each
    link request, whether a URL makes a valid request, and the client's
    answer to each request.
   */
  datatype Network = Network(
    api: ArchiveLinkRequest -> ApiAnswer,
    requestOk: string -> bool,
    fetch: HttpRequest -> FetchAnswer)

  /** The link request for a repository at a ref; an empty ref sends no options. */
  function LinkRequest(owner: string, repo: string, ref: string): ArchiveLinkRequest
  {
    ArchiveLinkRequest(owner, repo, TarballFormat,
      if ref == "" then None else Some(ContentGetOptions(ref)), true)
  }

  /** The link the lookup reports for an API answer. */
  function LinkOf(answer: ApiAnswer): TarballLink
  {
    match answer
    case LinkFound(url) => TarballLink(url, true, None)
    case ApiError(cause) => TarballLink("", false, Some(cause))
  }

  /**
    `fetchTarballURL`: ask the API for the tarball link, passing the ref as
    an option only when there is one, and report the link or the error.
   */
  method FetchTarballURL(api: ArchiveLinkRequest -> ApiAnswer, owner: string, repo: string, ref: string)
    returns (request: ArchiveLinkRequest, link: TarballLink)
    ensures request == LinkRequest(owner, repo, ref)
    ensures request.owner == owner && request.repo == repo
    ensures request.format == TarballFormat && request.followRedirects
    ensures request.opts.None? <==> ref == ""
    ensures request.opts.Some? ==> request.opts.value.ref == ref
    ensures link.success <==> api(request).LinkFound?
    ensures link.success ==> link.url == api(request).url && link.error.None?
    ensures !link.success ==> link.url == "" && link.error == Some(api(request).cause)
  {
    if ref == "" {
      request := ArchiveLinkRequest(owner, repo, TarballFormat, None, true);
    } else {
      var opts := ContentGetOptions(ref);
      request := ArchiveLinkRequest(owner, repo, TarballFormat, Some(opts), true);
    }
    var answer := api(request);
    if answer.ApiError? {
      link := TarballLink("", false, Some(answer.cause));
    } else {
      link := TarballLink(answer.url, true, None);
    }
  }

  /** `fetchTarballLink`: look up the tarball link of the query's repository at the ref to use. */
  method FetchTarballLink(api: ArchiveLinkRequest -> ApiAnswer, query: Query)
    returns (request: ArchiveLinkRequest, link: TarballLink)
    ensures request == LinkRequest(query.params.owner, query.params.repo, RefToUse(query))
    ensures link == LinkOf(api(request))
    ensures WellFormed(query) ==> request.opts == Some(ContentGetOptions(RefToUse(query)))
  {
    request, link := FetchTarballURL(api, query.params.owner, query.params.repo, RefToUse(query));
    if WellFormed(query) {
      RefToUseOfWellFormed(query);
    }
  }

  /** The GET request for a URL, with the token as `Authorization` header when there is one. */
  function GetRequest(url: string, token: string): HttpRequest
  {
    HttpRequest("GET", url, if token != "" then [("Authorization", token)] else [])
  }

  /**
    The request carries an `Authorization` header exactly when the token
    is not empty, and then the header's value is the raw token.
   */
  lemma AuthorizationOnlyWithToken(url: string, token: string)
    ensures var r := GetRequest(url, token);
      && r.verb == "GET" && r.url == url
      && ((exists i :: 0 <= i < |r.headers| && r.headers[i].0 == "Authorization") <==> token != "")
      && forall i :: 0 <= i < |r.headers| ==> r.headers[i] == ("Authorization", token)
  {
    var r := GetRequest(url, token);
    if token != "" {
      assert r.headers[0].0 == "Authorization";
    }
  }

  // ---------------------------------------------------------------------
  // The filesystem
  // ---------------------------------------------------------------------

  datatype Node = Dir(mode: nat) | File(mode: nat, data: seq<bv8>)

  /** An operation of the extraction loop: `mkdir` or `writeNewFile`. */
  datatype FsOp = Mkdir(path: string, mode: nat) | WriteNewFile(path: string, mode: nat, data: seq<bv8>)

  /** What a successful operation leaves at its path. */
  function Created(op: FsOp): Node
  {
    match op
    case Mkdir(_, mode) => Dir(mode)
    case WriteNewFile(_, mode, data) => Node.File(mode, data)
  }

  /** The filesystem after an operation: unchanged if it failed, else with the path (re)created. */
  function Outcome(nodes: map<string, Node>, op: FsOp, failed: bool): (after: map<string, Node>)
    ensures failed ==> after == nodes
    ensures !failed ==> op.path in after && after[op.path] == Created(op)
    ensures !failed ==> after.Keys == nodes.Keys + {op.path}
    ensures forall p :: p in nodes && p != op.path ==> p in after && after[p] == nodes[p]
  {
    if failed then nodes else nodes[op.path := Created(op)]
  }

  /**
    The filesystem the entries are unpacked into: the nodes created so far,
    by path, and an oracle that says which operation fails in which state.
   */
  class FileSystem {
    var nodes: map<string, Node>
    const fails: (map<string, Node>, FsOp) -> bool

    constructor (initial: map<string, Node>, fails: (map<string, Node>, FsOp) -> bool)
      ensures nodes == initial && this.fails == fails
    {
      nodes := initial;
      this.fails := fails;
    }

    /** `mkdir`: create a directory with a mode; reports whether it succeeded. */
    method Mkdir(path: string, mode: nat) returns (ok: bool)
      modifies this
      ensures ok == !fails(old(nodes), FsOp.Mkdir(path, mode))
      ensures nodes == Outcome(old(nodes), FsOp.Mkdir(path, mode), !ok)
    {
      ok := !fails(nodes, FsOp.Mkdir(path, mode));
      if ok {
        nodes := nodes[path := Dir(mode)];
      }
    }

    /** `writeNewFile`: create or truncate a file and copy the entry's bytes into it. */
    method WriteNewFile(path: string, data: seq<bv8>, mode: nat) returns (ok: bool)
      modifies this
      ensures ok == !fails(old(nodes), FsOp.WriteNewFile(path, mode, data))
      ensures nodes == Outcome(old(nodes), FsOp.WriteNewFile(path, mode, data), !ok)
    {
      ok := !fails(nodes, FsOp.WriteNewFile(path, mode, data));
      if ok {
        nodes := nodes[path := Node.File(mode, data)];
      }
    }
  }

  // ---------------------------------------------------------------------
  // The extraction loop, as a fold over the entries
  // ---------------------------------------------------------------------

  /** The variables of the extraction loop, and the filesystem they act on. */
  datatype Extraction = Extraction(targetDir: string, out: string, hadErrors: bool, nodes: map<string, Node>)

  /** An entry that is the repository's own directory. */
  predicate IsRepoRoot(e: Entry, repo: string)
  {
    e.isDir && repo == Clean(e.name)
  }

  /** The operation that unpacks an entry to `out`. */
  function OpFor(e: Entry, out: string): FsOp
  {
    if e.isDir then FsOp.Mkdir(out, e.mode) else FsOp.WriteNewFile(out, e.mode, e.data)
  }

  /** The target directory after reading an entry: the repository's directory once it is seen. */
  function NextTargetDir(targetDir: string, e: Entry, destination: string, repo: string): string
  {
    if IsRepoRoot(e, repo) then JoinPath(destination, Clean(e.name)) else targetDir
  }

  /** Where an entry is unpacked: the repository's directory itself, or its cleaned name below the target directory. */
  function OutPath(targetDir: string, e: Entry, destination: string, repo: string): string
  {
    if IsRepoRoot(e, repo) then JoinPath(destination, Clean(e.name)) else JoinPath(targetDir, Clean(e.name))
  }

  /** One turn of the loop. */
  function Step(s: Extraction, e: Entry, destination: string, repo: string,
                fails: (map<string, Node>, FsOp) -> bool): Extraction
  {
    var out := OutPath(s.targetDir, e, destination, repo);
    var failed := fails(s.nodes, OpFor(e, out));
    Extraction(NextTargetDir(s.targetDir, e, destination, repo), out,
               s.hadErrors || failed, Outcome(s.nodes, OpFor(e, out), failed))
  }

  /** The loop's state after the given entries, from the start state at `destination`. */
  function Run(entries: seq<Entry>, destination: string, repo: string,
               initial: map<string, Node>, fails: (map<string, Node>, FsOp) -> bool): Extraction
    decreases |entries|
  {
    if entries == [] then Extraction(destination, "", false, initial)
    else Step(Run(entries[..|entries| - 1], destination, repo, initial, fails),
              entries[|entries| - 1], destination, repo, fails)
  }

  /** A turn of the loop, spelled out from the resolved paths. */
  lemma StepIs(s: Extraction, e: Entry, destination: string, repo: string,
               fails: (map<string, Node>, FsOp) -> bool, targetDir: string, out: string)
    requires targetDir == NextTargetDir(s.targetDir, e, destination, repo)
    requires out == OutPath(s.targetDir, e, destination, repo)
    ensures Step(s, e, destination, repo, fails)
         == Extraction(targetDir, out, s.hadErrors || fails(s.nodes, OpFor(e, out)),
                       Outcome(s.nodes, OpFor(e, out), fails(s.nodes, OpFor(e, out))))
  {
  }

  /** Running one more entry is one more step. */
  lemma RunSnoc(entries: seq<Entry>, i: int, destination: string, repo: string,
                initial: map<string, Node>, fails: (map<string, Node>, FsOp) -> bool)
    requires 0 <= i < |entries|
    ensures Run(entries[..i + 1], destination, repo, initial, fails)
         == Step(Run(entries[..i], destination, repo, initial, fails), entries[i], destination, repo, fails)
  {
    assert entries[..i + 1][..i] == entries[..i];
  }

  /**
    The extraction loop of `tarballClone`: read the entries in order,
    resolve each one's output path, create it, and note any failure
    without stopping. Returns the error flag.
   */
  method ExtractEntries(entries: seq<Entry>, destination: string, repo: string, fs: FileSystem)
    returns (hadErrors: bool)
    modifies fs
    ensures hadErrors == Run(entries, destination, repo, old(fs.nodes), fs.fails).hadErrors
    ensures fs.nodes == Run(entries, destination, repo, old(fs.nodes), fs.fails).nodes
  {
    var targetDirPath := destination;
    hadErrors := false;
    var out := "";
    var i := 0;
    while i < |entries|
      invariant 0 <= i <= |entries|
      invariant Run(entries[..i], destination, repo, old(fs.nodes), fs.fails)
             == Extraction(targetDirPath, out, hadErrors, fs.nodes)
    {
      ghost var before := Extraction(targetDirPath, out, hadErrors, fs.nodes);
      RunSnoc(entries, i, destination, repo, old(fs.nodes), fs.fails);
      var file := entries[i];
      var name := Clean(file.name);
      if file.isDir && repo == name {
        targetDirPath := JoinPath(destination, name);
        out := targetDirPath;
      } else {
        out := JoinPath(targetDirPath, name);
      }
      assert out == OutPath(before.targetDir, file, destination, repo);
      assert targetDirPath == NextTargetDir(before.targetDir, file, destination, repo);

      var ok;
      if file.isDir {
        ok := fs.Mkdir(out, file.mode);
      } else {
        ok := fs.WriteNewFile(out, file.data, file.mode);
      }
      if !ok {
        hadErrors := true;
      }
      StepIs(before, file, destination, repo, fs.fails, targetDirPath, out);
      assert hadErrors == (before.hadErrors || fs.fails(before.nodes, OpFor(file, out)));
      assert fs.nodes == Outcome(before.nodes, OpFor(file, out), fs.fails(before.nodes, OpFor(file, out)));
      assert Step(before, file, destination, repo, fs.fails) == Extraction(targetDirPath, out, hadErrors, fs.nodes);
      assert Run(entries[..i + 1], destination, repo, old(fs.nodes), fs.fails) == Extraction(targetDirPath, out, hadErrors, fs.nodes);
      i := i + 1;
    }
    assert entries[..i] == entries;
  }

  // ---------------------------------------------------------------------
  // What the loop computes
  // ---------------------------------------------------------------------

  /** Some entry among `entries` is the repository's own directory. */
  predicate SeenRepoRoot(entries: seq<Entry>, repo: string)
  {
    exists i :: 0 <= i < |entries| && IsRepoRoot(entries[i], repo)
  }

  /**
    Where entry `i` is unpacked: the repository's own directory goes to
    `destination/repo`; every other entry goes, under its cleaned name,
    below `destination/repo` once an earlier entry was the repository's
    directory, and below `destination` before that.
   */
  function Placement(entries: seq<Entry>, i: int, destination: string, repo: string): string
    requires 0 <= i < |entries|
  {
    var targetDir := if SeenRepoRoot(entries[..i], repo) then JoinPath(destination, repo) else destination;
    if IsRepoRoot(entries[i], repo) then JoinPath(destination, repo)
    else JoinPath(targetDir, Clean(entries[i].name))
  }

  /** The operation for entry `i` failed. */
  predicate StepFailed(entries: seq<Entry>, i: int, destination: string, repo: string,
                       initial: map<string, Node>, fails: (map<string, Node>, FsOp) -> bool)
    requires 0 <= i < |entries|
  {
    fails(Run(entries[..i], destination, repo, initial, fails).nodes,
          OpFor(entries[i], Placement(entries, i, destination, repo)))
  }

  /** The repository's directory is among the entries when it is among all but the last, or is the last. */
  lemma SeenRepoRootSnoc(entries: seq<Entry>, repo: string)
    requires entries != []
    ensures SeenRepoRoot(entries, repo)
        <==> SeenRepoRoot(entries[..|entries| - 1], repo) || IsRepoRoot(entries[|entries| - 1], repo)
  {
    var prefix := entries[..|entries| - 1];
    if SeenRepoRoot(entries, repo) {
      var i :| 0 <= i < |entries| && IsRepoRoot(entries[i], repo);
      if i < |prefix| {
        assert prefix[i] == entries[i];
      }
    }
    if SeenRepoRoot(prefix, repo) {
      var i :| 0 <= i < |prefix| && IsRepoRoot(prefix[i], repo);
      assert entries[i] == prefix[i];
    }
  }

  /**
    The target directory starts as `destination` and only ever becomes
    `destination/repo`: it is that once the repository's directory has
    been read.
   */
  lemma {:induction false} RunTargetDir(entries: seq<Entry>, destination: string, repo: string,
                                        initial: map<string, Node>, fails: (map<string, Node>, FsOp) -> bool)
    ensures Run(entries, destination, repo, initial, fails).targetDir
         == if SeenRepoRoot(entries, repo) then JoinPath(destination, repo) else destination
    decreases |entries|
  {
    if entries != [] {
      var n := |entries| - 1;
      var prefix := entries[..n];
      RunTargetDir(prefix, destination, repo, initial, fails);
      var s := Run(prefix, destination, repo, initial, fails);
      assert Run(entries, destination, repo, initial, fails).targetDir
          == NextTargetDir(s.targetDir, entries[n], destination, repo);
      if IsRepoRoot(entries[n], repo) {
        assert Clean(entries[n].name) == repo;
        assert NextTargetDir(s.targetDir, entries[n], destination, repo) == JoinPath(destination, repo);
      } else {
        assert NextTargetDir(s.targetDir, entries[n], destination, repo) == s.targetDir;
      }
      SeenRepoRootSnoc(entries, repo);
    }
  }

  /** Entry `i` is unpacked at its placement. */
  lemma EntryOut(entries: seq<Entry>, i: int, destination: string, repo: string,
                 initial: map<string, Node>, fails: (map<string, Node>, FsOp) -> bool)
    requires 0 <= i < |entries|
    ensures OutPath(Run(entries[..i], destination, repo, initial, fails).targetDir, entries[i], destination, repo)
         == Placement(entries, i, destination, repo)
  {
    RunTargetDir(entries[..i], destination, repo, initial, fails);
    if IsRepoRoot(entries[i], repo) {
      assert Clean(entries[i].name) == repo;
    }
  }

  /** Step `i` of a run, in terms of the entry's placement and whether its operation failed. */
  lemma RunStep(entries: seq<Entry>, i: int, destination: string, repo: string,
                initial: map<string, Node>, fails: (map<string, Node>, FsOp) -> bool)
    requires 0 <= i < |entries|
    ensures var s := Run(entries[..i], destination, repo, initial, fails);
      var r := Run(entries[..i + 1], destination, repo, initial, fails);
      var failed := StepFailed(entries, i, destination, repo, initial, fails);
      && r.out == Placement(entries, i, destination, repo)
      && r.hadErrors == (s.hadErrors || failed)
      && r.nodes == Outcome(s.nodes, OpFor(entries[i], Placement(entries, i, destination, repo)), failed)
  {
    RunSnoc(entries, i, destination, repo, initial, fails);
    EntryOut(entries, i, destination, repo, initial, fails);
  }

  /** The operation of one of the first `k` entries failed. */
  predicate SomeStepFailed(entries: seq<Entry>, k: int, destination: string, repo: string,
                           initial: map<string, Node>, fails: (map<string, Node>, FsOp) -> bool)
    requires 0 <= k <= |entries|
  {
    exists i :: 0 <= i < k && StepFailed(entries, i, destination, repo, initial, fails)
  }

  /** The error flag after the first `k` entries: set exactly when one of their operations failed. */
  lemma {:induction false} RunHadErrorsUpTo(entries: seq<Entry>, k: int, destination: string, repo: string,
                                            initial: map<string, Node>, fails: (map<string, Node>, FsOp) -> bool)
    requires 0 <= k <= |entries|
    ensures Run(entries[..k], destination, repo, initial, fails).hadErrors
        <==> SomeStepFailed(entries, k, destination, repo, initial, fails)
    decreases k
  {
    if k > 0 {
      RunHadErrorsUpTo(entries, k - 1, destination, repo, initial, fails);
      RunStep(entries, k - 1, destination, repo, initial, fails);
      SomeStepFailedSnoc(entries, k, destination, repo, initial, fails);
    }
  }

  /** One of the first `k` entries failed: one of the first `k - 1`, or entry `k - 1`. */
  lemma SomeStepFailedSnoc(entries: seq<Entry>, k: int, destination: string, repo: string,
                           initial: map<string, Node>, fails: (map<string, Node>, FsOp) -> bool)
    requires 0 < k <= |entries|
    ensures SomeStepFailed(entries, k, destination, repo, initial, fails)
        <==> SomeStepFailed(entries, k - 1, destination, repo, initial, fails)
             || StepFailed(entries, k - 1, destination, repo, initial, fails)
  {
  }

  /**
    A failed operation never stops the loop: the error flag is set
    exactly when the operation of at least one entry failed.
   */
  lemma RunHadErrors(entries: seq<Entry>, destination: string, repo: string,
                     initial: map<string, Node>, fails: (map<string, Node>, FsOp) -> bool)
    ensures Run(entries, destination, repo, initial, fails).hadErrors
        <==> SomeStepFailed(entries, |entries|, destination, repo, initial, fails)
  {
    RunHadErrorsUpTo(entries, |entries|, destination, repo, initial, fails);
    assert entries[..|entries|] == entries;
  }

  /** One of the first `k` entries, whose operation succeeded, is placed at `p`. */
  predicate PlacedBySome(entries: seq<Entry>, k: int, p: string, destination: string, repo: string,
                         initial: map<string, Node>, fails: (map<string, Node>, FsOp) -> bool)
    requires 0 <= k <= |entries|
  {
    exists i :: 0 <= i < k && !StepFailed(entries, i, destination, repo, initial, fails)
                && Placement(entries, i, destination, repo) == p
  }

  /**
    The paths after the first `k` entries: those there before and the
    placements of the entries whose operation succeeded.
   */
  lemma {:induction false} RunNodesUpTo(entries: seq<Entry>, k: int, destination: string, repo: string,
                                        initial: map<string, Node>, fails: (map<string, Node>, FsOp) -> bool)
    requires 0 <= k <= |entries|
    ensures forall p :: p in Run(entries[..k], destination, repo, initial, fails).nodes
                    <==> p in initial || PlacedBySome(entries, k, p, destination, repo, initial, fails)
    decreases k
  {
    if k > 0 {
      RunNodesUpTo(entries, k - 1, destination, repo, initial, fails);
      RunStep(entries, k - 1, destination, repo, initial, fails);
      forall p
        ensures PlacedBySome(entries, k, p, destination, repo, initial, fails)
            <==> PlacedBySome(entries, k - 1, p, destination, repo, initial, fails)
                 || (!StepFailed(entries, k - 1, destination, repo, initial, fails)
                     && Placement(entries, k - 1, destination, repo) == p)
      {
        PlacedBySomeSnoc(entries, k, p, destination, repo, initial, fails);
      }
    }
  }

  /**
    What the loop leaves behind: a path is there after the run exactly
    when it was there before or some entry whose operation succeeded was
    placed at it.
   */
  lemma RunNodes(entries: seq<Entry>, destination: string, repo: string,
                 initial: map<string, Node>, fails: (map<string, Node>, FsOp) -> bool)
    ensures forall p :: p in Run(entries, destination, repo, initial, fails).nodes
                    <==> p in initial || PlacedBySome(entries, |entries|, p, destination, repo, initial, fails)
  {
    RunNodesUpTo(entries, |entries|, destination, repo, initial, fails);
    assert entries[..|entries|] == entries;
  }

  /**
    Entry `i` is the last entry whose operation succeeded to be placed at
    `p`: no later entry with a successful operation is placed there.
   */
  predicate LastPlacedAt(entries: seq<Entry>, i: int, p: string, destination: string, repo: string,
                         initial: map<string, Node>, fails: (map<string, Node>, FsOp) -> bool)
  {
    && 0 <= i < |entries|
    && !StepFailed(entries, i, destination, repo, initial, fails)
    && Placement(entries, i, destination, repo) == p
    && forall j :: i < j < |entries| && !StepFailed(entries, j, destination, repo, initial, fails) ==>
         Placement(entries, j, destination, repo) != p
  }

  /** After the first `k` entries, a path holds what the last successful operation placed there. */
  lemma {:induction false} RunLastWriteUpTo(entries: seq<Entry>, k: int, i: int, p: string,
                                            destination: string, repo: string,
                                            initial: map<string, Node>, fails: (map<string, Node>, FsOp) -> bool)
    requires 0 <= i < k <= |entries|
    requires !StepFailed(entries, i, destination, repo, initial, fails)
    requires Placement(entries, i, destination, repo) == p
    requires forall j :: i < j < k && !StepFailed(entries, j, destination, repo, initial, fails) ==>
               Placement(entries, j, destination, repo) != p
    ensures var nodes := Run(entries[..k], destination, repo, initial, fails).nodes;
      p in nodes && nodes[p] == Created(OpFor(entries[i], p))
    decreases k
  {
    RunStep(entries, k - 1, destination, repo, initial, fails);
    if k - 1 > i {
      RunLastWriteUpTo(entries, k - 1, i, p, destination, repo, initial, fails);
    }
  }

  /** One of the first `k` entries was placed at `p`: one of the first `k - 1`, or entry `k - 1`. */
  lemma PlacedBySomeSnoc(entries: seq<Entry>, k: int, p: string, destination: string, repo: string,
                         initial: map<string, Node>, fails: (map<string, Node>, FsOp) -> bool)
    requires 0 < k <= |entries|
    ensures PlacedBySome(entries, k, p, destination, repo, initial, fails)
        <==> PlacedBySome(entries, k - 1, p, destination, repo, initial, fails)
             || (!StepFailed(entries, k - 1, destination, repo, initial, fails)
                 && Placement(entries, k - 1, destination, repo) == p)
  {
  }

  /** After the first `k` entries, a path that none of them was placed at holds what it held before. */
  lemma {:induction false} RunUntouchedUpTo(entries: seq<Entry>, k: int, p: string,
                                            destination: string, repo: string,
                                            initial: map<string, Node>, fails: (map<string, Node>, FsOp) -> bool)
    requires 0 <= k <= |entries|
    requires p in initial && !PlacedBySome(entries, k, p, destination, repo, initial, fails)
    ensures var nodes := Run(entries[..k], destination, repo, initial, fails).nodes;
      p in nodes && nodes[p] == initial[p]
    decreases k
  {
    if k == 0 {
      assert entries[..k] == [];
    } else {
      PlacedBySomeSnoc(entries, k, p, destination, repo, initial, fails);
      RunUntouchedUpTo(entries, k - 1, p, destination, repo, initial, fails);
      RunStep(entries, k - 1, destination, repo, initial, fails);
    }
  }

  /**
    Later entries overwrite earlier ones: after the run, a path holds the
    node made by the last successful operation placed at it, and a path
    no successful operation was placed at holds what it held before.
   */
  lemma RunNodeContents(entries: seq<Entry>, destination: string, repo: string,
                        initial: map<string, Node>, fails: (map<string, Node>, FsOp) -> bool)
    ensures forall p, i :: LastPlacedAt(entries, i, p, destination, repo, initial, fails) ==>
      var nodes := Run(entries, destination, repo, initial, fails).nodes;
      p in nodes && nodes[p] == Created(OpFor(entries[i], p))
    ensures forall p :: p in initial && !PlacedBySome(entries, |entries|, p, destination, repo, initial, fails) ==>
      var nodes := Run(entries, destination, repo, initial, fails).nodes;
      p in nodes && nodes[p] == initial[p]
  {
    assert entries[..|entries|] == entries;
    forall p, i | LastPlacedAt(entries, i, p, destination, repo, initial, fails)
      ensures var nodes := Run(entries, destination, repo, initial, fails).nodes;
        p in nodes && nodes[p] == Created(OpFor(entries[i], p))
    {
      RunLastWriteUpTo(entries, |entries|, i, p, destination, repo, initial, fails);
    }
    forall p | p in initial && !PlacedBySome(entries, |entries|, p, destination, repo, initial, fails)
      ensures var nodes := Run(entries, destination, repo, initial, fails).nodes;
        p in nodes && nodes[p] == initial[p]
    {
      RunUntouchedUpTo(entries, |entries|, p, destination, repo, initial, fails);
    }
  }

  /** A clean run puts every entry at its placement. */
  lemma CleanRunPlacesAll(entries: seq<Entry>, destination: string, repo: string,
                          initial: map<string, Node>, fails: (map<string, Node>, FsOp) -> bool)
    requires !Run(entries, destination, repo, initial, fails).hadErrors
    ensures forall i :: 0 <= i < |entries| ==>
      Placement(entries, i, destination, repo) in Run(entries, destination, repo, initial, fails).nodes
  {
    RunHadErrors(entries, destination, repo, initial, fails);
    RunNodes(entries, destination, repo, initial, fails);
    forall i | 0 <= i < |entries|
      ensures Placement(entries, i, destination, repo) in Run(entries, destination, repo, initial, fails).nodes
    {
      assert PlacedBySome(entries, |entries|, Placement(entries, i, destination, repo), destination, repo, initial, fails);
    }
  }

  // ---------------------------------------------------------------------
  // The clone
  // ---------------------------------------------------------------------

  /**
    The outcome of cloning `query` into `destination` with the filesystem
    in state `before`: `op`, and the filesystem `after`. The link lookup,
    the request building and the fetch each end the clone unfinished and
    with errors, before anything is unpacked; otherwise the clone is
    finished, with the error flag and the filesystem the loop leaves.
   */
  predicate CloneOutcome(net: Network, token: string, query: Query, destination: string,
                         before: map<string, Node>, fails: (map<string, Node>, FsOp) -> bool,
                         op: CloneOperation, after: map<string, Node>)
  {
    var link := LinkOf(net.api(LinkRequest(query.params.owner, query.params.repo, RefToUse(query))));
    if !link.success || !net.requestOk(link.url) || net.fetch(GetRequest(link.url, token)).FetchError? then
      op == CloneOperation(false, true) && after == before
    else
      var run := Run(net.fetch(GetRequest(link.url, token)).archive, destination, query.params.repo, before, fails);
      op == CloneOperation(true, run.hadErrors) && after == run.nodes
  }

  /**
    Every clone that stops early is unfinished, reports errors and leaves
    the filesystem as it was; a finished one reports errors exactly when
    the operation of some archive entry failed.
   */
  lemma CloneOutcomeShapes(net: Network, token: string, query: Query, destination: string,
                           before: map<string, Node>, fails: (map<string, Node>, FsOp) -> bool,
                           op: CloneOperation, after: map<string, Node>)
    requires CloneOutcome(net, token, query, destination, before, fails, op, after)
    ensures !op.isFinished ==> op.hadErrors && after == before
    ensures op.isFinished ==>
      var link := LinkOf(net.api(LinkRequest(query.params.owner, query.params.repo, RefToUse(query))));
      var archive := net.fetch(GetRequest(link.url, token)).archive;
      && link.success && net.requestOk(link.url) && net.fetch(GetRequest(link.url, token)).Response?
      && (op.hadErrors <==> SomeStepFailed(archive, |archive|, destination, query.params.repo, before, fails))
  {
    var link := LinkOf(net.api(LinkRequest(query.params.owner, query.params.repo, RefToUse(query))));
    if op.isFinished {
      RunHadErrors(net.fetch(GetRequest(link.url, token)).archive, destination, query.params.repo, before, fails);
    }
  }

  /**
    `tarballClone`: look up the link, build the request (with the token
    when there is one), fetch the archive and unpack it.
   */
  method CloneTarball(net: Network, token: string, query: Query, destination: string, fs: FileSystem)
    returns (op: CloneOperation)
    modifies fs
    ensures CloneOutcome(net, token, query, destination, old(fs.nodes), fs.fails, op, fs.nodes)
  {
    var _, link := FetchTarballLink(net.api, query);
    if !link.success {
      return CloneOperation(false, true);
    }
    if !net.requestOk(link.url) {
      return CloneOperation(false, true);
    }
    var request := HttpRequest("GET", link.url, []);
    if token != "" {
      request := request.(headers := request.headers + [("Authorization", token)]);
    }
    assert request == GetRequest(link.url, token);
    var response := net.fetch(request);
    if response.FetchError? {
      return CloneOperation(false, true);
    }
    var hadErrors := ExtractEntries(response.archive, destination, query.params.repo, fs);
    op := CloneOperation(true, hadErrors);
  }

  /** `TarballClone`: the clone's outcome, passed through unchanged. */
  method TarballClone(net: Network, token: string, query: Query, destination: string, fs: FileSystem)
    returns (op: CloneOperation)
    modifies fs
    ensures CloneOutcome(net, token, query, destination, old(fs.nodes), fs.fails, op, fs.nodes)
  {
    op := CloneTarball(net, token, query, destination, fs);
  }
}
