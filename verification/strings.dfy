/**
  The part of Go's `strings` package that the query resolver and the path
  functions rely on, over `string` = `seq<char>`.
 */
module Strings {

  /** `strings.HasPrefix`. */
  predicate HasPrefix(s: string, prefix: string)
  {
    |prefix| <= |s| && s[..|prefix|] == prefix
  }

  /** `s[len(prefix):]` guarded by `strings.HasPrefix`: the prefix is removed once, if present. */
  function TrimPrefix(s: string, prefix: string): (r: string)
    ensures HasPrefix(s, prefix) ==> prefix + r == s
    ensures !HasPrefix(s, prefix) ==> r == s
  {
    if HasPrefix(s, prefix) then s[|prefix|..] else s
  }

  /** `sub` occurs in `s` starting at index `i`. */
  predicate OccursAt(s: string, sub: string, i: int)
  {
    0 <= i && i + |sub| <= |s| && s[i..i + |sub|] == sub
  }

  /** An occurrence in `s[1..]` is an occurrence in `s` one place further on, and back. */
  lemma OccursInTail(s: string, sub: string)
    requires s != []
    ensures (exists j :: OccursAt(s[1..], sub, j)) <==> (exists i :: 1 <= i && OccursAt(s, sub, i))
  {
    if exists j :: OccursAt(s[1..], sub, j) {
      var j :| OccursAt(s[1..], sub, j);
      assert s[1..][j..j + |sub|] == s[j + 1..j + 1 + |sub|];
      assert OccursAt(s, sub, j + 1);
    }
    if exists i :: 1 <= i && OccursAt(s, sub, i) {
      var i :| 1 <= i && OccursAt(s, sub, i);
      assert s[1..][i - 1..i - 1 + |sub|] == s[i..i + |sub|];
      assert OccursAt(s[1..], sub, i - 1);
    }
  }

  /** `strings.Contains`: `sub` occurs somewhere in `s`. */
  function Contains(s: string, sub: string): (found: bool)
    ensures found <==> exists i :: OccursAt(s, sub, i)
    decreases |s|
  {
    if HasPrefix(s, sub) then
      assert OccursAt(s, sub, 0);
      true
    else if s == [] then
      false
    else
      OccursInTail(s, sub);
      assert forall i :: OccursAt(s, sub, i) && i < 1 ==> HasPrefix(s, sub);
      Contains(s[1..], sub)
  }

  /** `strings.Split(s, sep)` for a one-character separator. */
  function Split(s: string, sep: char): (parts: seq<string>)
    ensures |parts| >= 1
    ensures forall i :: 0 <= i < |parts| ==> sep !in parts[i]
    ensures |parts| == 1 <==> sep !in s
    decreases |s|
  {
    if s == [] then [""]
    else
      var rest := Split(s[1..], sep);
      if s[0] == sep then [""] + rest
      else [[s[0]] + rest[0]] + rest[1..]
  }

  /** `strings.Join(parts, sep)` for a one-character separator. */
  function Join(parts: seq<string>, sep: char): string
    decreases |parts|
  {
    if parts == [] then ""
    else if |parts| == 1 then parts[0]
    else parts[0] + [sep] + Join(parts[1..], sep)
  }

  /** Join of a list of two or more parts, one step unfolded. */
  lemma JoinCons(head: string, rest: seq<string>, sep: char)
    requires rest != []
    ensures Join([head] + rest, sep) == head + [sep] + Join(rest, sep)
  {
    assert ([head] + rest)[1..] == rest;
  }

  /** Join of a display of two to six parts, unfolded. */
  lemma Join2(a: string, b: string, sep: char)
    ensures Join([a, b], sep) == a + [sep] + b
  {
    JoinCons(a, [b], sep);
    assert [a] + [b] == [a, b];
  }

  lemma Join3(a: string, b: string, c: string, sep: char)
    ensures Join([a, b, c], sep) == a + [sep] + b + [sep] + c
  {
    JoinCons(a, [b, c], sep);
    assert [a] + [b, c] == [a, b, c];
    Join2(b, c, sep);
  }

  lemma Join4(a: string, b: string, c: string, d: string, sep: char)
    ensures Join([a, b, c, d], sep) == a + [sep] + b + [sep] + c + [sep] + d
  {
    JoinCons(a, [b, c, d], sep);
    assert [a] + [b, c, d] == [a, b, c, d];
    Join3(b, c, d, sep);
  }

  lemma Join5(a: string, b: string, c: string, d: string, e: string, sep: char)
    ensures Join([a, b, c, d, e], sep) == a + [sep] + b + [sep] + c + [sep] + d + [sep] + e
  {
    JoinCons(a, [b, c, d, e], sep);
    assert [a] + [b, c, d, e] == [a, b, c, d, e];
    Join4(b, c, d, e, sep);
  }

  lemma Join6(a: string, b: string, c: string, d: string, e: string, f: string, sep: char)
    ensures Join([a, b, c, d, e, f], sep) == a + [sep] + b + [sep] + c + [sep] + d + [sep] + e + [sep] + f
  {
    JoinCons(a, [b, c, d, e, f], sep);
    assert [a] + [b, c, d, e, f] == [a, b, c, d, e, f];
    Join5(b, c, d, e, f, sep);
  }

  /** The first element of a split is the text before the first separator. */
  lemma {:induction false} SplitHead(s: string, sep: char)
    ensures var h := Split(s, sep)[0];
            && |h| <= |s|
            && h == s[..|h|]
            && sep !in h
            && (|h| < |s| ==> s[|h|] == sep)
    decreases |s|
  {
    if s != [] {
      SplitHead(s[1..], sep);
      var rest := Split(s[1..], sep);
      if s[0] != sep {
        assert Split(s, sep)[0] == [s[0]] + rest[0];
        assert s[..1 + |rest[0]|] == [s[0]] + s[1..][..|rest[0]|];
      }
    }
  }

  /** Splitting `a + b` when `a` has no separator glues `a` onto the first part of `b`. */
  lemma {:induction false} SplitAppend(a: string, b: string, sep: char)
    requires sep !in a
    ensures Split(a + b, sep) == [a + Split(b, sep)[0]] + Split(b, sep)[1..]
    decreases |a|
  {
    if a != [] {
      SplitAppend(a[1..], b, sep);
      assert (a + b)[0] == a[0] && (a + b)[1..] == a[1..] + b;
      var rest := Split(a[1..] + b, sep);
      assert Split(a + b, sep) == [[a[0]] + rest[0]] + rest[1..];
      assert rest[0] == a[1..] + Split(b, sep)[0] && rest[1..] == Split(b, sep)[1..];
      assert [a[0]] + (a[1..] + Split(b, sep)[0]) == a + Split(b, sep)[0];
    } else {
      assert a + b == b && a + Split(b, sep)[0] == Split(b, sep)[0];
    }
  }

  /** Split undoes Join when no part contains the separator. */
  lemma {:induction false} SplitJoin(parts: seq<string>, sep: char)
    requires |parts| >= 1
    requires forall i :: 0 <= i < |parts| ==> sep !in parts[i]
    ensures Split(Join(parts, sep), sep) == parts
    decreases |parts|
  {
    if |parts| == 1 {
      SplitAppend(parts[0], "", sep);
      assert parts[0] + "" == parts[0];
    } else {
      SplitJoin(parts[1..], sep);
      var tail := [sep] + Join(parts[1..], sep);
      assert Join(parts, sep) == parts[0] + tail;
      SplitAppend(parts[0], tail, sep);
      assert Split(tail, sep) == [""] + parts[1..];
      assert parts[0] + "" == parts[0];
    }
  }

  /** Join undoes Split. */
  lemma {:induction false} JoinSplit(s: string, sep: char)
    ensures Join(Split(s, sep), sep) == s
    decreases |s|
  {
    if s != [] {
      JoinSplit(s[1..], sep);
      var rest := Split(s[1..], sep);
      if s[0] == sep {
        assert Join(Split(s, sep), sep) == "" + [sep] + Join(rest, sep);
      } else if |rest| == 1 {
        assert Join(Split(s, sep), sep) == [s[0]] + rest[0];
      } else {
        assert Join(rest, sep) == rest[0] + [sep] + Join(rest[1..], sep);
        assert Join(Split(s, sep), sep) == [s[0]] + rest[0] + [sep] + Join(rest[1..], sep);
      }
    }
  }

  /** `strings.ReplaceAll(s, string(c), "")`: every `c` is deleted. */
  function RemoveAll(s: string, c: char): (r: string)
    ensures c !in r
    ensures |r| <= |s|
    ensures forall x :: x != c ==> multiset(r)[x] == multiset(s)[x]
    decreases |s|
  {
    if s == [] then ""
    else
      var rest := RemoveAll(s[1..], c);
      assert s == [s[0]] + s[1..];
      if s[0] == c then rest else [s[0]] + rest
  }

  /** Removal distributes over concatenation. */
  lemma {:induction false} RemoveAllAppend(a: string, b: string, c: char)
    ensures RemoveAll(a + b, c) == RemoveAll(a, c) + RemoveAll(b, c)
    decreases |a|
  {
    if a != [] {
      RemoveAllAppend(a[1..], b, c);
      assert (a + b)[0] == a[0] && (a + b)[1..] == a[1..] + b;
      var head := if a[0] == c then "" else [a[0]];
      assert RemoveAll(a + b, c) == head + RemoveAll(a[1..] + b, c);
      assert RemoveAll(a, c) == head + RemoveAll(a[1..], c);
    } else {
      assert a + b == b;
    }
  }

  /** A string without `c` is left as it is. */
  lemma {:induction false} RemoveAllAbsent(s: string, c: char)
    requires c !in s
    ensures RemoveAll(s, c) == s
    decreases |s|
  {
    if s != [] {
      RemoveAllAbsent(s[1..], c);
    }
  }

  /** The parts laid end to end, with nothing between them. */
  function Concat(parts: seq<string>): string
    decreases |parts|
  {
    if parts == [] then "" else parts[0] + Concat(parts[1..])
  }

  /** Deleting the separator from a join lays the parts end to end. */
  lemma {:induction false} RemoveAllJoin(parts: seq<string>, sep: char)
    requires forall i :: 0 <= i < |parts| ==> sep !in parts[i]
    ensures RemoveAll(Join(parts, sep), sep) == Concat(parts)
    decreases |parts|
  {
    if parts == [] {
    } else if |parts| == 1 {
      RemoveAllAbsent(parts[0], sep);
      assert Concat(parts[1..]) == "";
      assert parts[0] + "" == parts[0];
    } else {
      RemoveAllJoin(parts[1..], sep);
      RemoveAllAppend(parts[0] + [sep], Join(parts[1..], sep), sep);
      RemoveAllAppend(parts[0], [sep], sep);
      RemoveAllAbsent(parts[0], sep);
      assert RemoveAll([sep], sep) == "";
      assert parts[0] + "" == parts[0];
    }
  }
}
