# Merge-to-branch action, modelled in Dafny

The git-merge plugin adds an IDE action that merges the checked-out branch
into a branch picked in the branch popup. It runs a bundled `merge.sh`
through bash and shows the script's output live in a console with a stop
button. This project models the decision logic of that action as pure
functions, and proves what the action does in every case:

- **Guards** (`MergeAction`). The action checks, in a fixed order: project,
  first repository and current branch, then the selected target. It then
  normalises the target and compares it with the current branch. Next it
  checks the script resource, stages the script, and checks for bash. Each
  guard ends the action silently, with one notification of a given severity,
  or moves on. The result is an `Outcome`: `Silent`, `Notified` (with the
  staged script when staging already happened), or `Launched`.
- **Target normalisation** (`BranchName`). The action strips the
  `[refs/remotes/origin/` prefix when it is present, then strips one trailing
  `]` when it is present. The two strips are independent.
- **Script staging** (`LineEndings`). The script text goes through a single
  left-to-right replacement of `"\r\n"` by `"\n"`. It is then written to the
  temporary file, and the file is marked executable.
- **Locating bash** (`BashLocator`, `Paths`). The installation root is two
  directories above the configured git executable. The action probes six
  candidates in a fixed order and takes the first that exists.
- **Command and run** (`MergeAction`, `MergeRun`). The command is
  `bash script target --push --no-ff`. The console is an append-only sequence
  of lines tagged SYSTEM or NORMAL. The first line is the header naming the
  command. After that the lines come from the run: process output chunks,
  stop-button presses and the exit notification.
  The run lemmas about whole traces assume the process handler's delivery
  order (`MergeRun.HandlerOrder`): once the exit has been delivered, the
  process sends nothing more, and only stop presses can follow.

Inputs take the place of the host environment. These are: whether a project
is open, the repository list with each repository's root and checked-out
name, the selection, the script resource text, the temporary file's path, the
configured git path, the set of absolute paths that exist when bash is
probed, and the working directory that relative paths resolve against.
Notifications are values in the outcome. They are not calls to a bus.

Several properties one might expect of this action do not hold. The model
follows the code:

- Target normalisation is not idempotent. `"a]]"` becomes `"a]"`, and a
  second pass gives `"a"`. The normalised target can also be empty: the bare
  decoration `[refs/remotes/origin/]` yields `""`.
- Line-ending replacement is not idempotent. `"\r\r\n"` becomes `"\r\n"`,
  and a second pass gives `"\n"`. A second pass changes the text exactly when
  the input contains `"\r\r\n"`.
- The same-branch guard compares the raw current branch with the normalised
  target. Only the target is normalised.
- A missing git path, or one with no grandparent, finds no bash. This holds
  even when `/usr/bin/bash` exists, because the absolute fallbacks are never
  probed.
- The stop button is not idempotent while the process is still running.
  `isProcessTerminated` stays false until the exit is delivered, so every
  press before the exit prints its own "terminated" line. After the exit,
  presses do nothing.
- There is no separate "cancelled" outcome. After a stop, the exit is
  reported by its code like any other exit: a failure line for a nonzero
  code, and a success line if the script exits with 0.
- Only existence is checked for the interpreter. Nothing checks that it is
  executable.

## Model

| member | source | states |
|---|---|---|
| `BranchName.NormaliseTarget` | src/main/kotlin/com/fathuhu/gitmerge/MergeToBranchAction.kt:41-46 | At most the prefix and one bracket are removed. The result is a prefix of the text after the optional decoration prefix. The raw text is returned unchanged exactly when it neither starts with the prefix nor ends with `]`. In each of the other three cases the raw text is the result with exactly the decoration that was present put back: prefix and `]`, the prefix alone, or the `]` alone |
| `BranchName.DecoratedRoundTrip` | src/main/kotlin/com/fathuhu/gitmerge/MergeToBranchAction.kt:41-46 | `[refs/remotes/origin/X]` normalises to exactly `X`, for every `X` |
| `BranchName.PrefixAlone` | src/main/kotlin/com/fathuhu/gitmerge/MergeToBranchAction.kt:41-43 | With the prefix and no trailing `]`, only the prefix is removed: for `"[refs/remotes/origin/ab"` the target is `"ab"` |
| `BranchName.TrailingBracketAlone` | src/main/kotlin/com/fathuhu/gitmerge/MergeToBranchAction.kt:44-46 | Without the prefix, a trailing `]` is still removed, and only that bracket |
| `BranchName.NormaliseFixedPoint` | src/main/kotlin/com/fathuhu/gitmerge/MergeToBranchAction.kt:41-46 | A second normalisation changes the name exactly when the first result still starts with the prefix or ends with `]` |
| `BranchName.BracketStripNotIdempotent` | src/main/kotlin/com/fathuhu/gitmerge/MergeToBranchAction.kt:44-46 | `"a]]"` gives `"a]"` on one pass and `"a"` on a second |
| `BranchName.BareDecorationIsEmpty` | src/main/kotlin/com/fathuhu/gitmerge/MergeToBranchAction.kt:41-46 | The bare decoration normalises to the empty name |
| `Text.StartsWith` | src/main/kotlin/com/fathuhu/gitmerge/MergeToBranchAction.kt:41 | The text is at least as long as the prefix, and its leading characters are the prefix (`startsWith`) |
| `Text.EndsWith` | src/main/kotlin/com/fathuhu/gitmerge/MergeToBranchAction.kt:44 | The text is at least as long as the suffix, and its trailing characters are the suffix (`endsWith`) |
| `Text.RemovePrefix` | src/main/kotlin/com/fathuhu/gitmerge/MergeToBranchAction.kt:42 | With the prefix present, prefix plus result is the input; otherwise the input is returned |
| `Text.RemoveSuffix` | src/main/kotlin/com/fathuhu/gitmerge/MergeToBranchAction.kt:45 | With the suffix present, result plus suffix is the input; otherwise the input is returned |
| `LineEndings.NormaliseLineEndings` | src/main/kotlin/com/fathuhu/gitmerge/MergeToBranchAction.kt:59 | The result is shorter by exactly the number of `"\r\n"` pairs in the input, so it is never longer. It equals the input exactly when the input has no `"\r\n"` |
| `LineEndings.CountsPerCharacter` | src/main/kotlin/com/fathuhu/gitmerge/MergeToBranchAction.kt:59 | Per character: each replaced pair loses exactly one `'\r'`, and every other character keeps its count |
| `LineEndings.CharacterCounts` | src/main/kotlin/com/fathuhu/gitmerge/MergeToBranchAction.kt:59 | The number of `'\n'` is unchanged. The number of `'\r'` drops by the number of pairs. No other character's count changes |
| `LineEndings.SurvivingPairs` | src/main/kotlin/com/fathuhu/gitmerge/MergeToBranchAction.kt:59 | The output has one `"\r\n"` for every `"\r\r\n"` in the input, and no others |
| `LineEndings.NormaliseIdempotentIff` | src/main/kotlin/com/fathuhu/gitmerge/MergeToBranchAction.kt:59 | Replacing twice equals replacing once exactly when the input has no `"\r\r\n"` |
| `LineEndings.CrlfReplaceNotIdempotent` | src/main/kotlin/com/fathuhu/gitmerge/MergeToBranchAction.kt:59 | `"\r\r\n"` gives `"\r\n"` on one pass and `"\n"` on a second |
| `Paths.Child` | src/main/kotlin/com/fathuhu/gitmerge/MergeToBranchAction.kt:142-145 | `File(dir, "a/b")`: the directory with the relative names appended, keeping its rootedness |
| `Paths.Render` | src/main/kotlin/com/fathuhu/gitmerge/MergeToBranchAction.kt:150 | The path as text: a leading `/` for a rooted path, then the names joined with `/` |
| `Paths.Parent` | src/main/kotlin/com/fathuhu/gitmerge/MergeToBranchAction.kt:139 | There is no parent for the root or for a relative path of one name. Otherwise the parent joined with the last name gives the path back |
| `Paths.Grandparent` | src/main/kotlin/com/fathuhu/gitmerge/MergeToBranchAction.kt:139 | A grandparent exists exactly when a rooted path has at least two names or a relative path has at least three. It is two names shorter, with the same rootedness, and adding back the path's last two names gives the path |
| `Paths.GrandparentOfChild` | src/main/kotlin/com/fathuhu/gitmerge/MergeToBranchAction.kt:139 | Going down two names and back up twice returns to the directory, except from the empty relative path |
| `Paths.ParentOfChild` | src/main/kotlin/com/fathuhu/gitmerge/MergeToBranchAction.kt:139-145 | Going down one name and back up returns to the directory, except from the empty relative path |
| `Paths.Absolute` | src/main/kotlin/com/fathuhu/gitmerge/MergeToBranchAction.kt:150 | The absolute path is rooted, leaves rooted paths alone, and ends with the original names. A relative path is resolved below the working directory's names |
| `Paths.AbsoluteIdempotent` | src/main/kotlin/com/fathuhu/gitmerge/MergeToBranchAction.kt:150 | Resolving an already absolute path changes nothing, whatever the working directory |
| `BashLocator.Exists` | src/main/kotlin/com/fathuhu/gitmerge/MergeToBranchAction.kt:150 | `exists()`: the path, resolved against the working directory, is one of the paths present in the file-system snapshot. The recheck at line 65 asks the same question |
| `BashLocator.InstallRoot` | src/main/kotlin/com/fathuhu/gitmerge/MergeToBranchAction.kt:137-139 | The installation root is the git path's grandparent; with no git path, or one without a grandparent, there is none |
| `BashLocator.Candidates` | src/main/kotlin/com/fathuhu/gitmerge/MergeToBranchAction.kt:141-148 | There are six candidates. The first four lie below the installation root; the last two are rooted system paths |
| `BashLocator.FirstExisting` | src/main/kotlin/com/fathuhu/gitmerge/MergeToBranchAction.kt:150 | The index returned is of an existing candidate, and no earlier candidate exists. Nothing is returned exactly when no candidate exists |
| `BashLocator.FirstExistingAt` | src/main/kotlin/com/fathuhu/gitmerge/MergeToBranchAction.kt:150 | An existing candidate with no existing one before it is the one taken |
| `BashLocator.FindBash` | src/main/kotlin/com/fathuhu/gitmerge/MergeToBranchAction.kt:136-151 | A missing git path or one without a grandparent gives nothing. A result is absolute and exists. With a root, nothing is found exactly when none of the six candidates exists |
| `BashLocator.FindBashFirstMatch` | src/main/kotlin/com/fathuhu/gitmerge/MergeToBranchAction.kt:141-150 | The result is the absolute path of the first existing candidate in probing order |
| `BashLocator.SoleCandidateFound` | src/main/kotlin/com/fathuhu/gitmerge/MergeToBranchAction.kt:141-150 | When exactly one candidate exists, it is found wherever it sits in the order |
| `BashLocator.NoFallbackWithoutInstallRoot` | src/main/kotlin/com/fathuhu/gitmerge/MergeToBranchAction.kt:137-139 | A bare `git` path finds nothing even when `/usr/bin/bash` exists |
| `BashLocator.FoundPathExists` | src/main/kotlin/com/fathuhu/gitmerge/MergeToBranchAction.kt:64-65 | A found bash passes the existence recheck made on the same file-system state |
| `Text.Join` | src/main/kotlin/com/fathuhu/gitmerge/MergeToBranchAction.kt:114 | `joinToString`: the tokens in order with one separator between neighbours, the single token itself, or the empty text for no tokens |
| `MergeAction.CurrentBranch` | src/main/kotlin/com/fathuhu/gitmerge/MergeToBranchAction.kt:30-33 | The checked-out name of the first repository, when a project is open and has a repository; otherwise none |
| `MergeAction.MergeCommand` | src/main/kotlin/com/fathuhu/gitmerge/MergeToBranchAction.kt:70 | The command has exactly five tokens: bash, script, target, `--push`, `--no-ff` |
| `MergeAction.Stage` | src/main/kotlin/com/fathuhu/gitmerge/MergeToBranchAction.kt:58-61 | The staged file is the temporary file and is marked executable. Its text is never longer than the script, and is the script itself when the script has no `"\r\n"`. The staged text is exactly the script with line endings replaced |
| `MergeAction.StagedText` | src/main/kotlin/com/fathuhu/gitmerge/MergeToBranchAction.kt:59-60 | The staged file keeps every `'\n'` of the script, has one `'\r'` fewer per replaced pair, and holds a `"\r\n"` only for each `"\r\r\n"` of the script |
| `MergeAction.ActionPerformed` | src/main/kotlin/com/fathuhu/gitmerge/MergeToBranchAction.kt:29-114 | The action is silent exactly when there is no project, repository or current branch. The only warning is the same-branch one. A staged script comes with a notification only for a missing bash. A launch has passed every guard, runs the five-token command with the located bash, the absolute temporary path and the normalised target in the repository root, has the normalised script staged, and starts with the header |
| `MergeAction.MissingContextIsSilent` | src/main/kotlin/com/fathuhu/gitmerge/MergeToBranchAction.kt:30-33 | With no project, no repository or no current branch, the action returns with no notification |
| `MergeAction.MissingTargetIsError` | src/main/kotlin/com/fathuhu/gitmerge/MergeToBranchAction.kt:36-40 | With no target there is one error, and nothing is staged or launched |
| `MergeAction.SameBranchOnlyWarns` | src/main/kotlin/com/fathuhu/gitmerge/MergeToBranchAction.kt:47-50 | When the current branch equals the normalised target, the outcome is exactly one warning, with nothing staged and no command |
| `MergeAction.MissingScriptIsError` | src/main/kotlin/com/fathuhu/gitmerge/MergeToBranchAction.kt:53-56 | A missing script resource gives one error before any file is staged |
| `MergeAction.MissingBashIsErrorAfterStaging` | src/main/kotlin/com/fathuhu/gitmerge/MergeToBranchAction.kt:58-68 | When no bash is found there is one error and no command, but the script has already been staged |
| `MergeAction.LaunchIffGuardsPass` | src/main/kotlin/com/fathuhu/gitmerge/MergeToBranchAction.kt:30-70 | The action launches exactly when every guard passes |
| `MergeRun.Start` | src/main/kotlin/com/fathuhu/gitmerge/MergeToBranchAction.kt:114 | A launch starts running, with no stop requested and the sink holding only the SYSTEM header: the command tokens joined by spaces |
| `MergeRun.HeaderNamesCommand` | src/main/kotlin/com/fathuhu/gitmerge/MergeToBranchAction.kt:114 | The first console line of a launch is a SYSTEM header. When no token contains a space, splitting the header on spaces gives back exactly the command |
| `MergeAction.FeatureScenario` | src/main/kotlin/com/fathuhu/gitmerge/MergeToBranchAction.kt:41-131 | `main` merging into `[refs/remotes/origin/feature]` runs `bash script feature --push --no-ff`. On exit the console reads the header, then success naming `main` and `feature` for code 0, or failure with the code otherwise |
| `Text.SplitJoin` | src/main/kotlin/com/fathuhu/gitmerge/MergeToBranchAction.kt:114 | Splitting a joined line gives back the tokens when no token contains the separator |
| `MergeRun.StopEnabled` | src/main/kotlin/com/fathuhu/gitmerge/MergeToBranchAction.kt:97-99 | The stop button is enabled exactly while the run has not terminated |
| `MergeRun.ExitLine` | src/main/kotlin/com/fathuhu/gitmerge/MergeToBranchAction.kt:124-131 | The exit report is a SYSTEM line. It is the success line naming both branches exactly when the code is 0; otherwise it is the failure line with that code |
| `MergeRun.Step` | src/main/kotlin/com/fathuhu/gitmerge/MergeToBranchAction.kt:89-131 | Each event appends at most one line and keeps the rest of the sink. An output chunk appends a NORMAL line with its text and changes nothing else. A stop while running requests destruction and appends a SYSTEM stop line. A stop once terminated changes nothing. An exit terminates the run, disables the stop button, and appends the exit report |
| `MergeRun.Run` | src/main/kotlin/com/fathuhu/gitmerge/MergeToBranchAction.kt:116-132 | The events are applied one `Step` at a time, in delivery order; no events leave the state as it was |
| `MergeRun.StepViews` | src/main/kotlin/com/fathuhu/gitmerge/MergeToBranchAction.kt:89-131 | Per event: an output adds its text to the chunks, a stop while running adds one stop line, and an exit adds one report |
| `MergeRun.RunAppendsOnly` | src/main/kotlin/com/fathuhu/gitmerge/MergeToBranchAction.kt:116-132 | Over any events the sink only grows, its old lines stay, and the branch names never change |
| `MergeRun.RunChunks` | src/main/kotlin/com/fathuhu/gitmerge/MergeToBranchAction.kt:117-122 | The chunk lines of the sink are the output events' texts, in arrival order |
| `MergeRun.RunExitReports` | src/main/kotlin/com/fathuhu/gitmerge/MergeToBranchAction.kt:124-131 | Each exit event prints exactly one report, whatever preceded it |
| `MergeRun.RunPhase` | src/main/kotlin/com/fathuhu/gitmerge/MergeToBranchAction.kt:97-99 | The stop button stays enabled exactly until an exit event arrives |
| `MergeRun.RunStopReports` | src/main/kotlin/com/fathuhu/gitmerge/MergeToBranchAction.kt:90-95 | Before the exit, each stop press prints exactly one stop line and requests destruction |
| `MergeRun.StopsAfterExitIgnored` | src/main/kotlin/com/fathuhu/gitmerge/MergeToBranchAction.kt:90-95 | Once the run has terminated, any number of stop presses leaves the state unchanged |
| `MergeRun.HandlerOrder` | src/main/kotlin/com/fathuhu/gitmerge/MergeToBranchAction.kt:116-131 | The handler's delivery order: after an exit event only stop presses follow, since the process sends nothing once terminated |
| `MergeRun.HandlerOrderExitsAtMostOnce` | src/main/kotlin/com/fathuhu/gitmerge/MergeToBranchAction.kt:124-131 | Under the handler's delivery order there is at most one exit event |
| `MergeRun.HandlerOrderSplit` | src/main/kotlin/com/fathuhu/gitmerge/MergeToBranchAction.kt:116-131 | A handler-ordered trace with an exit is exit-free events, then that exit, then stop presses only |
| `MergeRun.HandlerRunCompletes` | src/main/kotlin/com/fathuhu/gitmerge/MergeToBranchAction.kt:114-131 | Any handler-ordered trace with an exit ends terminated with that exit's code, with exactly one exit report as its last line |
| `MergeRun.CompletedRun` | src/main/kotlin/com/fathuhu/gitmerge/MergeToBranchAction.kt:114-131 | A whole run delivered in handler order opens with the command header. It holds every chunk in order and one stop line per press before the exit. It has exactly one exit report, which is the last line, and ends terminated |
| `MergeRun.BeforeExit` | src/main/kotlin/com/fathuhu/gitmerge/MergeToBranchAction.kt:114-122 | Before the exit, the run is still enabled and opens with the header. It has no exit report, and the chunk and stop lines are as delivered |
| `MergeRun.StopThenExit` | src/main/kotlin/com/fathuhu/gitmerge/MergeToBranchAction.kt:89-131 | A stop followed by an exit prints the stop line and then the ordinary exit report. For a nonzero code that is the failure line; there is no separate cancelled outcome |
| `MergeRun.ExitRightAfterStart` | src/main/kotlin/com/fathuhu/gitmerge/MergeToBranchAction.kt:114-131 | A run that exits with no output shows the header and then the report for its code |

## Left out

- The console view, tool window, panel, toolbar and content manager (lines 73–112) are presentation only. The console is the abstract line sequence in `MergeRun`.
- Message wording: the Chinese and emoji texts are modelled as line kinds and message kinds that carry the values they interpolate. The surrounding newlines are not modelled either.
- The notification bus (lines 153–155) is not called. Each notification is a `(message, severity)` value in the outcome.
- `getSelectedBranchName` (lines 157–161) is not modelled: it is an unchecked cast into the host's data context. The selection it returns is an input. Its `.toString()` turns a missing value into the text `"null"`, so in the source it never returns null and the unknown-target branch is unreachable through it.
- The repository, current-branch and git-path lookups are foreign calls, so their results are inputs.
- Process spawning, merging standard error into standard output, and killing descendant processes are OS behaviour. The process appears only through the events it causes.
- Whatever text the process handler passes to the listener is one `Output` event. The listener prints every piece as normal output and ignores its output type, so the model does not track output types.
- The model orders events as one sequence. The real threads (the UI thread for the stop button and the pipe reader for output) are not modelled.
- `MergeAction.ActionPerformed`: there is one file-system state, so the existence recheck at line 65 can never fail in the model. The source could fail it if the file were removed between the probe and the recheck.
- `MergeAction.ActionPerformed`: a failed spawn is not modelled. `File.exists()` holds for a directory or a non-executable file too, and the working directory may be unusable; then `processBuilder.start()` at line 85 throws out of the action before the header at line 114 is printed, while the model returns `Launched` with the header for the same input.
- `MergeAction.ActionPerformed`: `File(bashPath)` at line 65 re-parses the rendered path. The model checks the located `Path` directly.
- Creating the temporary file, writing it and `setExecutable` (lines 58–61) are reduced to the `StagedScript` value. I/O exceptions from these calls escape to the host and are not modelled. The return value of `setExecutable` is ignored in the source and in the model. The temporary file is never deleted in the source.
- `Paths`: Windows drive prefixes and backslash separators are not modelled. Paths are rendered with `/`, and `java.io.File`'s own normalisation of separators is assumed to have happened already.
- The contents of `merge.sh` are opaque text.
