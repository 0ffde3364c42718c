/** Where the merge action looks for a bash interpreter: two directories
    above the configured git executable, then two system locations, taking
    the first candidate that exists. */
module BashLocator {
  import opened Options
  import opened Paths

  /** Whether `p`, resolved against the working directory, names an existing file. */
  predicate Exists(p: Path, files: set<Path>, cwd: seq<string>)
  {
    Absolute(p, cwd) in files
  }

  /** The six candidates in probing order: four below the git installation
      root, then `/usr/bin/bash` and `/bin/bash`. */
  function Candidates(root: Path): (cs: seq<Path>)
    ensures |cs| == 6
    ensures forall i :: 0 <= i < 4 ==> cs[i].rooted == root.rooted && |root.names| < |cs[i].names| && cs[i].names[..|root.names|] == root.names
    ensures cs[4].rooted && cs[5].rooted
  {
    [ Child(root, ["bin", "bash.exe"]),
      Child(root, ["usr", "bin", "bash.exe"]),
      Child(root, ["usr", "bin", "bash"]),
      Child(root, ["bin", "bash"]),
      Path(true, ["usr", "bin", "bash"]),
      Path(true, ["bin", "bash"]) ]
  }

  /** `firstOrNull { it.exists() }`, as an index into `cs`. */
  function FirstExisting(cs: seq<Path>, files: set<Path>, cwd: seq<string>): (r: Option<nat>)
    ensures r.Some? ==> r.value < |cs| && Exists(cs[r.value], files, cwd)
    ensures r.Some? ==> forall j :: 0 <= j < r.value ==> !Exists(cs[j], files, cwd)
    ensures r.None? <==> forall j :: 0 <= j < |cs| ==> !Exists(cs[j], files, cwd)
  {
    if |cs| == 0 then None
    else if Exists(cs[0], files, cwd) then Some(0)
    else
      match FirstExisting(cs[1..], files, cwd)
      case None => None
      case Some(i) => Some(i + 1)
  }

  /** A candidate that exists with none existing before it is the one taken. */
  lemma {:induction false} FirstExistingAt(cs: seq<Path>, files: set<Path>, cwd: seq<string>, k: nat)
    requires k < |cs| && Exists(cs[k], files, cwd)
    requires forall j :: 0 <= j < k ==> !Exists(cs[j], files, cwd)
    ensures FirstExisting(cs, files, cwd) == Some(k)
  {
    if k > 0 {
      assert !Exists(cs[0], files, cwd);
      forall j | 0 <= j < k - 1
        ensures !Exists(cs[1..][j], files, cwd)
      {
        assert cs[1..][j] == cs[j + 1];
      }
      FirstExistingAt(cs[1..], files, cwd, k - 1);
    }
  }

  /** The installation root derived from the git executable's path. */
  function InstallRoot(gitPath: Option<Path>): Option<Path>
  {
    match gitPath
    case None => None
    case Some(g) => Grandparent(g)
  }

  /** `findBashFromGit`: the absolute path of the first existing candidate,
      or nothing. */
  function FindBash(gitPath: Option<Path>, files: set<Path>, cwd: seq<string>): (r: Option<Path>)
    ensures InstallRoot(gitPath).None? ==> r.None?
    ensures r.Some? ==> r.value.rooted && r.value in files
    ensures InstallRoot(gitPath).Some? ==>
      (r.None? <==> forall j :: 0 <= j < 6 ==> !Exists(Candidates(InstallRoot(gitPath).value)[j], files, cwd))
  {
    match InstallRoot(gitPath)
    case None => None
    case Some(root) =>
      var cs := Candidates(root);
      match FirstExisting(cs, files, cwd)
      case None => None
      case Some(i) => Some(Absolute(cs[i], cwd))
  }

  /** The result is the first existing candidate in probing order: the
      candidate at `k` exists and every one before it does not. */
  lemma FindBashFirstMatch(gitPath: Option<Path>, files: set<Path>, cwd: seq<string>, k: nat)
    requires InstallRoot(gitPath).Some?
    requires k < 6
    requires Exists(Candidates(InstallRoot(gitPath).value)[k], files, cwd)
    requires forall j :: 0 <= j < k ==> !Exists(Candidates(InstallRoot(gitPath).value)[j], files, cwd)
    ensures FindBash(gitPath, files, cwd) == Some(Absolute(Candidates(InstallRoot(gitPath).value)[k], cwd))
  {
    FirstExistingAt(Candidates(InstallRoot(gitPath).value), files, cwd, k);
  }

  /** When exactly one candidate exists it is found, whatever its position. */
  lemma SoleCandidateFound(gitPath: Option<Path>, files: set<Path>, cwd: seq<string>, k: nat)
    requires InstallRoot(gitPath).Some?
    requires k < 6
    requires forall j :: 0 <= j < 6 ==>
      (Exists(Candidates(InstallRoot(gitPath).value)[j], files, cwd) <==> j == k)
    ensures FindBash(gitPath, files, cwd) == Some(Absolute(Candidates(InstallRoot(gitPath).value)[k], cwd))
  {
    FindBashFirstMatch(gitPath, files, cwd, k);
  }

  /** A git path without a grandparent (a bare `git` resolved through the
      search path, say) finds nothing, even with `/usr/bin/bash` present:
      the absolute fallbacks are never reached. */
  lemma NoFallbackWithoutInstallRoot(files: set<Path>, cwd: seq<string>)
    requires Path(true, ["usr", "bin", "bash"]) in files
    ensures FindBash(Some(Path(false, ["git"])), files, cwd) == None
  {
  }

  /** Found candidates exist, so the second existence test the action makes
      on the returned path always passes on the same file-system state. */
  lemma FoundPathExists(gitPath: Option<Path>, files: set<Path>, cwd: seq<string>)
    requires FindBash(gitPath, files, cwd).Some?
    ensures Exists(FindBash(gitPath, files, cwd).value, files, cwd)
  {
  }
}
