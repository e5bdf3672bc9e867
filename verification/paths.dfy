/**
  Lexical slash-separated paths, after Go's `path.Clean` and `path.Join`,
  which the extraction loop of src/repo/clone.go uses to resolve where an
  archive entry goes. Nothing here touches a filesystem.
 */
module Paths {
  import opened Strings

  /** A segment that survives cleaning in a path that does not climb above its start. */
  predicate PlainName(s: string)
  {
    s != "" && s != "." && s != ".." && '/' !in s
  }

  /**
    The segment stack after reading `segments` from left to right: empty
    and "." segments vanish, ".." removes the segment before it, and a ".."
    with nothing to remove is kept, unless the path is rooted (nothing is
    above "/").
   */
  function Resolve(segments: seq<string>, stack: seq<string>, rooted: bool): (r: seq<string>)
    requires forall i :: 0 <= i < |stack| ==> stack[i] != "" && stack[i] != "." && '/' !in stack[i]
    requires forall i :: 0 <= i < |segments| ==> '/' !in segments[i]
    ensures forall i :: 0 <= i < |r| ==> r[i] != "" && r[i] != "." && '/' !in r[i]
    decreases |segments|
  {
    if segments == [] then stack
    else
      var s := segments[0];
      var next :=
        if s == "" || s == "." then stack
        else if s == ".." then
          if |stack| > 0 && stack[|stack| - 1] != ".." then stack[..|stack| - 1]
          else if rooted then stack
          else stack + [".."]
        else stack + [s];
      Resolve(segments[1..], next, rooted)
  }

  /** `path.Clean`: the shortest lexically equivalent path; "." for an empty result. */
  function Clean(p: string): (r: string)
    ensures r != ""
  {
    var rooted := |p| > 0 && p[0] == '/';
    var body := Join(Resolve(Split(p, '/'), [], rooted), '/');
    if rooted then "/" + body
    else if body == "" then "."
    else body
  }

  /** `path.Join` of two elements: the non-empty ones joined by '/' and cleaned; "" if both are empty. */
  function JoinPath(dir: string, name: string): (r: string)
    ensures dir != "" || name != "" ==> r != ""
  {
    if dir == "" && name == "" then ""
    else if dir == "" then Clean(name)
    else if name == "" then Clean(dir)
    else Clean(dir + "/" + name)
  }

  /** A plain name is already clean. */
  lemma CleanPlainName(s: string)
    requires PlainName(s)
    ensures Clean(s) == s
  {
    JoinSplit(s, '/');
    assert Split(s, '/') == [s];
    assert Resolve([s], [], false) == Resolve([], [s], false);
    assert s[0] != '/' by {
      assert s[0] in s;
    }
  }
}
