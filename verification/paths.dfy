/** File paths as `java.io.File` holds them after normalising separators:
    whether the path starts at the file-system root, and its names in order. */
module Paths {
  import opened Options
  import opened Text

  datatype Path = Path(rooted: bool, names: seq<string>)

  /** `File(dir, "a/b")`: the names of `rel` appended below `dir`. */
  function Child(dir: Path, rel: seq<string>): Path
  {
    Path(dir.rooted, dir.names + rel)
  }

  /** `parentFile`: the path without its last name; null for a relative path
      of one name and for the root itself, while a rooted path of one name
      has the root as its parent. */
  function Parent(p: Path): (r: Option<Path>)
    ensures r.None? <==> |p.names| == 0 || (!p.rooted && |p.names| == 1)
    ensures r.Some? ==> Child(r.value, [p.names[|p.names| - 1]]) == p
  {
    if |p.names| == 0 || (!p.rooted && |p.names| == 1) then None
    else Some(Path(p.rooted, p.names[..|p.names| - 1]))
  }

  /** `parentFile?.parentFile`. */
  function Grandparent(p: Path): (r: Option<Path>)
    ensures r.Some? ==> |r.value.names| + 2 == |p.names| && r.value.rooted == p.rooted
    ensures r.None? <==> |p.names| < (if p.rooted then 2 else 3)
    ensures r.Some? ==> Child(r.value, p.names[|p.names| - 2..]) == p
  {
    match Parent(p)
    case None => None
    case Some(q) => Parent(q)
  }

  /** Going down one name and back up returns to the directory, except from
      the empty relative path, which has no parent to return to. */
  lemma ParentOfChild(dir: Path, name: string)
    ensures Parent(Child(dir, [name])) == if !dir.rooted && |dir.names| == 0 then None else Some(dir)
  {
    assert (dir.names + [name])[..|dir.names|] == dir.names;
  }

  /** `absolutePath`, with `cwd` the names of the working directory a
      relative path is resolved against. */
  function Absolute(p: Path, cwd: seq<string>): (r: Path)
    ensures r.rooted
    ensures p.rooted ==> r == p
    ensures |p.names| <= |r.names| && r.names[|r.names| - |p.names|..] == p.names
    ensures !p.rooted ==> r.names == cwd + p.names
  {
    if p.rooted then p else Path(true, cwd + p.names)
  }

  /** Going down two names and back up twice returns to the directory, unless
      the directory is relative and has no name left to stand on. */
  lemma GrandparentOfChild(dir: Path, a: string, b: string)
    ensures Grandparent(Child(dir, [a, b])) == if !dir.rooted && |dir.names| == 0 then None else Some(dir)
  {
    var p := Child(dir, [a, b]);
    assert p.names[..|p.names| - 1] == dir.names + [a];
    assert (dir.names + [a])[..|dir.names|] == dir.names;
  }

  /** Resolving is idempotent, and the second working directory plays no part. */
  lemma AbsoluteIdempotent(p: Path, cwd: seq<string>, cwd2: seq<string>)
    ensures Absolute(Absolute(p, cwd), cwd2) == Absolute(p, cwd)
  {
  }

  /** The path as text, names separated by `/`. */
  function Render(p: Path): string
  {
    (if p.rooted then "/" else "") + Join(p.names, '/')
  }
}
