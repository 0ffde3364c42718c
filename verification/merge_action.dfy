/** The merge action's `actionPerformed`: the guards in their fixed order,
    staging of the script, locating bash, and the launch with its command
    and console header. Host lookups, the script resource, the temporary
    file and the file system are inputs; notifications and the launch are
    the outcome. */
module MergeAction {
  import opened Options
  import opened Text
  import opened Paths
  import opened BranchName
  import opened LineEndings
  import opened BashLocator
  import opened MergeRun

  /** A git repository of the project: its root and the name (or revision)
      the host reports as checked out, if any. */
  datatype Repository = Repository(root: Path, currentBranch: Option<string>)

  /** Everything the action reads from its surroundings. */
  datatype Invocation = Invocation(
    hasProject: bool,                  // `e.project != null`
    repositories: seq<Repository>,     // the repository manager's list
    selection: Option<string>,         // the selected branch as the host hands it over
    script: Option<string>,            // text of the bundled `merge.sh`, None when missing
    tempFile: Path,                    // the file `createTempFile("merge", ".sh")` returns
    gitPath: Option<Path>,             // the configured git executable
    files: set<Path>,                  // absolute paths that exist when bash is probed
    cwd: seq<string>)                  // the working directory relative paths resolve against

  /** `NotificationType.ERROR` and `WARNING`, the two the action uses. */
  datatype Severity = Error | Warning

  datatype Message =
    | UnknownTarget     // "无法识别目标分支"
    | SameBranch        // "当前分支与目标分支相同，无需合并"
    | ScriptNotFound    // "未找到 merge.sh 文件"
    | BashNotFound      // "未找到 bash，请确认 Git 已正确配置"

  datatype Notice = Notice(message: Message, severity: Severity)

  /** The temporary copy of the script: where it is, what was written, and
      whether it was marked executable. */
  datatype StagedScript = StagedScript(path: Path, text: string, executable: bool)

  /** The spawned merge: its command, working directory and run state. */
  datatype Launch = Launch(command: seq<string>, workDir: Path, run: RunState)

  datatype Outcome =
    | Silent
    | Notified(notice: Notice, staged: Option<StagedScript>)
    | Launched(script: StagedScript, launch: Launch)

  const PushFlag: string := "--push"
  const NoFastForwardFlag: string := "--no-ff"

  /** The command line: interpreter, script, target, then the two fixed flags. */
  function MergeCommand(bash: string, script: string, target: string): (command: seq<string>)
    ensures |command| == 5
    ensures command[0] == bash && command[1] == script && command[2] == target
    ensures command[3..] == [PushFlag, NoFastForwardFlag]
  {
    [bash, script, target, PushFlag, NoFastForwardFlag]
  }

  /** Staging: the script text with Windows line endings replaced, written to
      the temporary file, which is then marked executable. */
  function Stage(tempFile: Path, text: string): (staged: StagedScript)
    ensures staged.path == tempFile && staged.executable
    ensures |staged.text| <= |text|
    ensures CrlfCount(text) == 0 ==> staged.text == text
    ensures staged.text == NormaliseLineEndings(text)
  {
    StagedScript(tempFile, NormaliseLineEndings(text), true)
  }

  /** What the staged file holds, counted against the script: every line
      feed kept, one carriage return gone per replaced pair, and a
      carriage-return/line-feed pair left only where the script had
      "\r\r\n". */
  lemma StagedText(tempFile: Path, text: string)
    ensures multiset(Stage(tempFile, text).text)['\n'] == multiset(text)['\n']
    ensures multiset(Stage(tempFile, text).text)['\r'] + CrlfCount(text) == multiset(text)['\r']
    ensures CrlfCount(Stage(tempFile, text).text) == CrCrlfCount(text)
  {
    CharacterCounts(text, '\n');
    SurvivingPairs(text);
  }

  /** The current branch when the first guards pass: project, first
      repository and its checked-out name. */
  function CurrentBranch(inv: Invocation): Option<string>
  {
    if !inv.hasProject || |inv.repositories| == 0 then None
    else inv.repositories[0].currentBranch
  }

  function ActionPerformed(inv: Invocation): (r: Outcome)
    ensures CurrentBranch(inv).None? <==> r.Silent?
    ensures r.Notified? && r.notice.severity == Warning <==> r.Notified? && r.notice.message == SameBranch
    ensures r.Notified? ==> (r.staged.Some? <==> r.notice.message == BashNotFound)
    ensures r.Launched? ==>
      && inv.selection.Some? && inv.script.Some?
      && CurrentBranch(inv) != Some(NormaliseTarget(inv.selection.value))
      && r.launch.workDir == inv.repositories[0].root
      && FindBash(inv.gitPath, inv.files, inv.cwd).Some?
      && r.launch.command == MergeCommand(Render(FindBash(inv.gitPath, inv.files, inv.cwd).value),
                                          Render(Absolute(inv.tempFile, inv.cwd)),
                                          NormaliseTarget(inv.selection.value))
      && r.launch.run == Start(CurrentBranch(inv).value, NormaliseTarget(inv.selection.value), r.launch.command)
      && r.script == Stage(inv.tempFile, inv.script.value)
  {
    if !inv.hasProject || |inv.repositories| == 0 then Silent
    else
      var repo := inv.repositories[0];
      if repo.currentBranch.None? then Silent
      else
        var current := repo.currentBranch.value;
        if inv.selection.None? then Notified(Notice(UnknownTarget, Error), None)
        else
          var target := NormaliseTarget(inv.selection.value);
          if current == target then Notified(Notice(SameBranch, Warning), None)
          else if inv.script.None? then Notified(Notice(ScriptNotFound, Error), None)
          else
            var staged := Stage(inv.tempFile, inv.script.value);
            var bash := FindBash(inv.gitPath, inv.files, inv.cwd);
            if bash.None? || !Exists(bash.value, inv.files, inv.cwd) then
              Notified(Notice(BashNotFound, Error), Some(staged))
            else
              var command := MergeCommand(Render(bash.value), Render(Absolute(inv.tempFile, inv.cwd)), target);
              Launched(staged, Launch(command, repo.root, Start(current, target, command)))
  }

  // The guards, one lemma each, in the order the action applies them.

  /** No project, no repository or no current branch: return with no notification. */
  lemma MissingContextIsSilent(inv: Invocation)
    requires !inv.hasProject || |inv.repositories| == 0 || inv.repositories[0].currentBranch.None?
    ensures ActionPerformed(inv) == Silent
  {
  }

  /** With a current branch but no target: one error, nothing staged or launched. */
  lemma MissingTargetIsError(inv: Invocation)
    requires CurrentBranch(inv).Some?
    requires inv.selection.None?
    ensures ActionPerformed(inv) == Notified(Notice(UnknownTarget, Error), None)
  {
  }

  /** The raw current branch equal to the normalised target: one warning,
      whatever the script, git configuration or file system. */
  lemma SameBranchOnlyWarns(inv: Invocation)
    requires CurrentBranch(inv).Some? && inv.selection.Some?
    requires CurrentBranch(inv).value == NormaliseTarget(inv.selection.value)
    ensures ActionPerformed(inv) == Notified(Notice(SameBranch, Warning), None)
  {
  }

  /** A missing script resource is reported before any file is written. */
  lemma MissingScriptIsError(inv: Invocation)
    requires CurrentBranch(inv).Some? && inv.selection.Some?
    requires CurrentBranch(inv).value != NormaliseTarget(inv.selection.value)
    requires inv.script.None?
    ensures ActionPerformed(inv) == Notified(Notice(ScriptNotFound, Error), None)
  {
  }

  /** No bash found: an error and no command, with the script already staged. */
  lemma MissingBashIsErrorAfterStaging(inv: Invocation)
    requires CurrentBranch(inv).Some? && inv.selection.Some? && inv.script.Some?
    requires CurrentBranch(inv).value != NormaliseTarget(inv.selection.value)
    requires FindBash(inv.gitPath, inv.files, inv.cwd).None?
    ensures ActionPerformed(inv) == Notified(Notice(BashNotFound, Error), Some(Stage(inv.tempFile, inv.script.value)))
  {
  }

  /** The action launches exactly when every guard passes: the existence
      recheck of the located bash never turns a found interpreter away. */
  lemma LaunchIffGuardsPass(inv: Invocation)
    ensures ActionPerformed(inv).Launched? <==>
      && CurrentBranch(inv).Some? && inv.selection.Some? && inv.script.Some?
      && CurrentBranch(inv).value != NormaliseTarget(inv.selection.value)
      && FindBash(inv.gitPath, inv.files, inv.cwd).Some?
  {
    var bash := FindBash(inv.gitPath, inv.files, inv.cwd);
    if && CurrentBranch(inv).Some? && inv.selection.Some? && inv.script.Some?
       && CurrentBranch(inv).value != NormaliseTarget(inv.selection.value)
       && bash.Some?
    {
      FoundPathExists(inv.gitPath, inv.files, inv.cwd);
      assert ActionPerformed(inv).Launched?;
    }
  }

  /** The example run: `main` merging into the decorated remote branch
      `feature` launches `<bash> <script> feature --push --no-ff`, and the
      exit report names both branches on success and the code on failure. */
  lemma FeatureScenario(inv: Invocation, code: int)
    requires CurrentBranch(inv) == Some("main")
    requires inv.selection == Some(RemotePrefix + "feature" + ClosingBracket)
    requires inv.script.Some?
    requires FindBash(inv.gitPath, inv.files, inv.cwd).Some?
    ensures ActionPerformed(inv).Launched?
    ensures var l := ActionPerformed(inv).launch;
      && l.command == MergeCommand(Render(FindBash(inv.gitPath, inv.files, inv.cwd).value),
                                   Render(Absolute(inv.tempFile, inv.cwd)), "feature")
      && Run(l.run, [Exit(code)]).sink
         == [ Line(System, Header(Join(l.command, ' '))),
              Line(System, if code == 0 then Merged("main", "feature") else MergeFailed(code)) ]
  {
    DecoratedRoundTrip("feature");
    assert NormaliseTarget(inv.selection.value) == "feature";
    LaunchIffGuardsPass(inv);
    var l := ActionPerformed(inv).launch;
    ExitRightAfterStart("main", "feature", l.command, code);
  }
}
