/** What the router needs of Python's `pathlib.Path` on a POSIX system:
    the normalised string `str(Path(p))` and the extension `Path(p).suffix`. */
module Paths {
  import opened Strings

  /** The root `pathlib` splits off a POSIX path: "//" for exactly two leading
      slashes, "/" for one or for three and more, "" for a relative path. */
  function Root(p: string): (r: string)
    ensures StartsWith(p, r)
  {
    if |p| == 0 || p[0] != '/' then ""
    else if |p| >= 2 && p[1] == '/' && (|p| == 2 || p[2] != '/') then "//"
    else "/"
  }

  /** A piece that `pathlib` keeps as a component: not empty and not ".". */
  predicate IsPart(x: string) {
    x != "" && x != "."
  }

  /** The pieces of `xs` that are components, in order. */
  function Keep(xs: seq<string>): (r: seq<string>)
    ensures forall k :: 0 <= k < |r| ==> IsPart(r[k])
    ensures forall k :: 0 <= k < |r| ==> r[k] in xs
  {
    if |xs| == 0 then []
    else (if IsPart(xs[0]) then [xs[0]] else []) + Keep(xs[1..])
  }

  /** Keeping only components changes nothing in a list of components. */
  lemma {:induction false} KeepAll(xs: seq<string>)
    requires forall k :: 0 <= k < |xs| ==> IsPart(xs[k])
    ensures Keep(xs) == xs
  {
    if |xs| > 0 {
      KeepAll(xs[1..]);
    }
  }

  /** The components of `p`: the pieces between slashes after the root,
      without empty pieces and ".". */
  function Parts(p: string): (ps: seq<string>)
    ensures forall k :: 0 <= k < |ps| ==> IsPart(ps[k]) && '/' !in ps[k]
  {
    var pieces := Split(p[|Root(p)|..], '/');
    assert forall x :: x in pieces ==> '/' !in x;
    Keep(pieces)
  }

  /** Python's `str(Path(p))`: the root followed by the components joined by
      single slashes, or "." when both are empty. */
  function PathString(p: string): string {
    var f := Root(p) + Join("/", Parts(p));
    if f == "" then "." else f
  }

  /** Python's `Path(p).name`: the last component, or "". */
  function Name(p: string): (n: string)
    ensures '/' !in n
  {
    var ps := Parts(p);
    if |ps| == 0 then "" else ps[|ps| - 1]
  }

  /** Python's `s.rfind(c)`: the position of the last `c`, or -1. */
  function LastIndexOf(s: string, c: char): (i: int)
    ensures -1 <= i < |s|
    ensures i >= 0 ==> s[i] == c
    ensures forall j :: i < j < |s| ==> s[j] != c
  {
    if |s| == 0 then -1
    else if s[|s| - 1] == c then |s| - 1
    else LastIndexOf(s[..|s| - 1], c)
  }

  /** Python's `Path(p).suffix`: empty, or a dot followed by at least one
      character, with no further dot and no slash. A non-empty suffix is the
      tail of the name from its last dot, and the suffix is empty exactly
      when the name has no dot after its first character or ends with a dot. */
  function Suffix(p: string): (x: string)
    ensures x == "" || (|x| >= 2 && x[0] == '.' && '.' !in x[1..] && '/' !in x)
    ensures x != "" ==> |x| < |Name(p)| && x == Name(p)[|Name(p)| - |x|..]
    ensures x == "" <==>
      (forall j :: 0 < j < |Name(p)| ==> Name(p)[j] != '.') || (|Name(p)| > 0 && Name(p)[|Name(p)| - 1] == '.')
  {
    var n := Name(p);
    var i := LastIndexOf(n, '.');
    if 0 < i < |n| - 1 then n[i..] else ""
  }

  /** Parsing `str(Path(p))` again gives the same root and components as `p`,
      so `Path(str(Path(p)))` is `Path(p)`. */
  lemma Reparse(p: string)
    ensures Root(PathString(p)) == Root(p)
    ensures Parts(PathString(p)) == Parts(p)
  {
    if Parts(p) == [] {
      ReparseBare(p);
    } else {
      ReparseWithParts(p);
    }
  }

  /** A path without components prints as its root, or as "." */
  lemma ReparseBare(p: string)
    requires Parts(p) == []
    ensures Root(PathString(p)) == Root(p)
    ensures Parts(PathString(p)) == []
  {
    var r := Root(p);
    assert Join("/", []) == "";
    if r == "" {
      assert PathString(p) == ".";
      assert Root(".") == "" && "."[0..] == ".";
      assert Split(".", '/') == ["."];
      assert Keep(["."]) == [];
    } else {
      assert PathString(p) == r;
      assert r[|Root(r)|..] == "";
      assert Split("", '/') == [""];
      assert Keep([""]) == [];
    }
  }

  /** A path with components prints as its root followed by them. */
  lemma ReparseWithParts(p: string)
    requires Parts(p) != []
    ensures Root(PathString(p)) == Root(p)
    ensures Parts(PathString(p)) == Parts(p)
  {
    var r, ps := Root(p), Parts(p);
    var j := Join("/", ps);
    var f := r + j;
    JoinHead("/", ps);
    assert j[0] != '/';
    assert f != "" && PathString(p) == f;
    assert Root(f) == r;
    assert f[|r|..] == j;
    SplitJoin(ps, '/');
    KeepAll(ps);
  }

  /** Normalising a path twice is normalising it once. */
  lemma PathStringIdempotent(p: string)
    ensures PathString(PathString(p)) == PathString(p)
  {
    Reparse(p);
  }

  /** The suffix of a path and of its normalised string agree. */
  lemma SuffixOfPathString(p: string)
    ensures Suffix(PathString(p)) == Suffix(p)
  {
    Reparse(p);
  }
}
