# licorice worktree and process lifecycle, in Dafny

licorice is a desktop tool. It keeps preview worktrees of a git repository, starts a dev server in each of them, and reacts to repository-switch notifications sent by git hooks. This project models the logic of that lifecycle and proves what it promises:

- **VCS worktree store** (`WorktreeStore`, `Porcelain`, `PorcelainRoundTrip`). `WorktreeManager` parses `git worktree list --porcelain` in the format of the git-worktree(1) manual page, section "PORCELAIN FORMAT". It keeps only the main worktree, the managed previews under `<root>/.licorice/previews`, and agent worktrees (paths containing `.cursor` or `worktrees`). It then gives every entry without a branch, or with a detached HEAD, a label derived from its folder name. `list`, `create` and `remove` are decisions over the outcome of each git command. Git itself is an oracle from an argument list to `Ok(stdout)` or `Err(message)`. `PorcelainRoundTrip` renders well-formed records as a listing and proves that the parser recovers one candidate per record. This holds for the text git prints, where every record, the last included, ends with a blank line, so the text ends in two newlines. It also holds with any number of trailing newlines, or with none after the last record.
- **Process supervisor** (`ProcessSupervisor`). `ProcessManager` is a class whose `processes` map is updated by:
  - `start`, which replaces any live entry under the same id;
  - the exit listener, which forgets the id;
  - `stop`, which issues a kill and forgets the id at once;
  - `stopAll`.

  The events and kill requests it issues are logs in the model. The environment a child gets is the ambient one plus the HOME, PATH and bun-cache fallbacks.
- **Readiness poller** (`ReadinessPoller`). The `worktree:waitReady` handler is a loop over file-system samples, and the model bounds it by the number of polls that fit in the timeout. Its stability counter is proved equivalent to a direct reading: ready at sample `k` exactly when samples `k-5..k` are the same positive count.
- **Repository switch** (`RepoSwitch`). Git Bash drive paths (`/c/...`) are normalised. The main repository root is the first `worktree` line of the porcelain listing. The `repo-changed` payload is built from both.
- **Reconciler** (`BranchReconciler`). After every listing, `refresh` in BranchList.tsx does two things:
  - it starts the worktree named by the last notification, once;
  - when auto-start is on, it starts worktrees that were not in the previous listing. The first listing only seeds the baseline.

  The start/stop toggle addresses the dev server as `server-<branch>`.
- **Application state and small transforms** (`AppState`, `RepoSelector`, `TerminalLog`). These cover:
  - the recent-repository list, which is deduplicated with the newest first, or prepended only when absent;
  - payload decoding and the auto-start setting;
  - the repository tab name;
  - the bounded process-output log, which keeps the last 1000 entries and then appends.

`Text` and `Seqs` hold the JavaScript string and array operations the model relies on:
- `split` on one character, `trim` with the ECMAScript whitespace set, `replace` of the first occurrence, and `toLowerCase` on ASCII letters;
- `filter`, `findIndex`, and `a || b` on possibly-undefined strings.

JavaScript truthiness is kept: an empty string counts as missing, both for a record's path and for a branch.

Where the code and its design documentation disagree, the model follows the code:

- **Readiness needs six samples.** The counter starts at 0 on the first positive count and reaches the threshold 5 on the sixth equal sample. So the documented example `[0,0,3,3,3,3,3]` times out, and one more `3` is needed (`ReadinessPoller.FiveStableCountsAreNotEnough`).
- **The label can be empty.** The label of a worktree whose path is `/` (or only slashes) is the empty basename, so "every label is non-empty" does not hold for such paths (`WorktreeStore.BasenameShape`).
- **A second start replaces the first.** A second `start` under a live id replaces the entry; it is not rejected. The first child's late exit then also forgets the replacement (`ProcessSupervisor.RestartUnderSameId`).

## Model

| member | source | states |
|---|---|---|
| WorktreeStore.WorktreeManager.constructor | packages/core/src/worktree.ts:14-17 | the managed root is `<projectRoot>/.licorice/previews` |
| WorktreeStore.WorktreeManager.CommitTree | packages/core/src/worktree.ts:82-105 | a pending record is pushed exactly when its path is non-empty and passes the allow-list; the pending record is reset in every case |
| WorktreeStore.WorktreeManager.CollectRetained | packages/core/src/worktree.ts:107-119 | the parsing loop with its end-of-input flush returns the allow-listed candidates of the line-by-line reading, in input order |
| WorktreeStore.WorktreeManager.LabelInPlace | packages/core/src/worktree.ts:122-132 | the in-place `forEach` rewrites every entry to its label and leaves the order and paths as they were |
| WorktreeStore.WorktreeManager.ParseWorktrees | packages/core/src/worktree.ts:77-138 | the result is the labelled, allow-listed candidates; every entry has a non-empty, allow-listed path and a branch |
| WorktreeStore.WorktreeManager.List | packages/core/src/worktree.ts:27-37 | a failing git call gives no worktrees; otherwise the parsed listing |
| WorktreeStore.WorktreeManager.Create | packages/core/src/worktree.ts:39-65 | success gives `{worktreeRoot/branch, branch}`; the result is an error exactly when the existing-branch attach fails, `add -b` also fails, and its message lacks "already exists"; the error message names the branch |
| WorktreeStore.WorktreeManager.Remove | packages/core/src/worktree.ts:67-75 | it issues `git worktree remove <worktreeRoot>/<branch> --force`, and whatever git answers the caller sees success |
| WorktreeStore.CandidatePathsNonEmpty | packages/core/src/worktree.ts:82-86 | a pending record without a path is discarded, so every candidate has a non-empty path |
| WorktreeStore.ListedShape | packages/core/src/worktree.ts:77-138 | every listed worktree has a non-empty path that passes the allow-list, and a branch |
| WorktreeStore.LabelShape | packages/core/src/worktree.ts:122-132 | an explicit branch is kept; a missing or detached one becomes the basename, prefixed `Cursor: ` when the path contains `.cursor` |
| WorktreeStore.BasenameShape | packages/core/src/worktree.ts:124 | the basename has no separator and is empty only for a path made of separators |
| WorktreeStore.BasenameOfChild | packages/core/src/worktree.ts:124 | the basename of `dir/name` and of `dir/name/` is `name` |
| Porcelain.ListingSplits | packages/core/src/worktree.ts:78 | splitting the text of a well-formed listing on newlines gives back its lines |
| Porcelain.ListingHead | packages/core/src/worktree.ts:108-110 | a non-empty listing starts with the first record's `worktree` line |
| PorcelainRoundTrip.StepAttr | packages/core/src/worktree.ts:111-114 | a `branch` line sets the branch to the ref minus its first `refs/heads/`; `detached` sets `Detached HEAD`; other attribute lines change nothing |
| PorcelainRoundTrip.ScanRecord | packages/core/src/worktree.ts:108-114 | a `worktree` line starts a record with the line minus its 9-character prefix, and its attribute lines fix its branch |
| PorcelainRoundTrip.StepWorktreeFlushes | packages/core/src/worktree.ts:108-110 | a `worktree` line appends the record in progress to the candidates when it has a path, and starts a record with the line minus its prefix and no branch |
| PorcelainRoundTrip.ScanAdjacentRecords | packages/core/src/worktree.ts:108-114 | two records with no blank line between them: the second one's `worktree` line flushes the first |
| PorcelainRoundTrip.ScanBlank | packages/core/src/worktree.ts:115-116 | a blank line flushes the record in progress |
| PorcelainRoundTrip.ScanBlocks | packages/core/src/worktree.ts:107-118 | records each followed by a blank line are flushed one by one, in order |
| PorcelainRoundTrip.CandidatesOfListingLines | packages/core/src/worktree.ts:107-119 | the listing's lines give exactly the described records, with or without the trailing blank line |
| PorcelainRoundTrip.CandidatesOfListing | packages/core/src/worktree.ts:78-119 | N well-formed records in the listing text give N candidates, each the record's path and branch |
| PorcelainRoundTrip.CandidatesOfGitOutput | packages/core/src/worktree.ts:30-32 | the text git hands to the parser unchanged, each record blank-terminated and followed by any number of further newlines (one, as git prints it), gives exactly the described records, in order |
| Porcelain.ListingSplitsTrailing | packages/core/src/worktree.ts:78 | that text splits into the records' lines, each record closed by an empty line, followed by one empty line per extra newline |
| Text.JoinBlanks | packages/core/src/worktree.ts:78 | joining parts followed by k empty parts gives the joined parts followed by k separators |
| PorcelainRoundTrip.BranchOfHeadsRef | packages/core/src/worktree.ts:112 | `branch refs/heads/<name>` labels the record `<name>` |
| Text.ReplaceFirst | packages/core/src/worktree.ts:112 | `replace` with a string pattern rewrites only its first occurrence, and nothing when it is absent |
| Text.SplitJoin | packages/core/src/worktree.ts:78 | splitting joined separator-free parts returns the parts |
| Text.TrimEmptyIff | packages/core/src/worktree.ts:115 | a line trims to empty exactly when it is all ECMAScript whitespace |
| ProcessSupervisor.BuildEnvFallbacks | packages/core/src/process.ts:9-18 | HOME falls back to USERPROFILE and PATH to Path; BUN_INSTALL_CACHE_DIR falls back to USERPROFILE + `\.bun\install\cache`, or is absent without USERPROFILE; every other variable is inherited |
| ProcessSupervisor.ProcessManager.constructor | packages/core/src/process.ts:5 | the live map starts empty |
| ProcessSupervisor.ProcessManager.Start | packages/core/src/process.ts:7-50 | the child runs with the fallback environment and is recorded under `id`, replacing any live entry; nothing else changes |
| ProcessSupervisor.ProcessManager.OnOutput | packages/core/src/process.ts:31-41 | an output of a launched child is emitted under the id that child was started with, with its stream and data |
| ProcessSupervisor.OutputCarriesStartId | packages/core/src/process.ts:7-41 | after `start(id, …)` and another start, an output of the first child is reported under `id` |
| ProcessSupervisor.ProcessManager.OnExit | packages/core/src/process.ts:43-46 | the exit of a launched child emits `{id, code}` with the id it was started with, then removes that id from the live map, whichever child it now maps to |
| ProcessSupervisor.ProcessManager.Stop | packages/core/src/process.ts:52-66 | an unknown id changes nothing; a live id gets one kill (tree kill with SIGKILL when it has a pid) and is removed at once; other ids are untouched |
| ProcessSupervisor.ProcessManager.StopAll | packages/core/src/process.ts:68-72 | afterwards the live map is empty, and each child that was live got exactly one kill |
| ProcessSupervisor.RestartUnderSameId | packages/core/src/process.ts:43-48 | a second start under a live id replaces the first child; the FIRST child's late exit is reported under the shared id and untracks the second child, and `stop` then kills nothing |
| ReadinessPoller.PrevCountIsLastCount | packages/desktop/electron/main.ts:212-255 | `prevCount` is the last successful count, and -1 before any sample or right after a failure |
| ReadinessPoller.StableIffRun | packages/desktop/electron/main.ts:227-235 | the counter is at least `m` exactly when the last `m+1` samples are one positive count |
| ReadinessPoller.ReadyIffSettled | packages/desktop/electron/main.ts:240-243 | the loop's test fires at sample `k` exactly when samples `k-5..k` are the same positive count |
| ReadinessPoller.WaitReady | packages/desktop/electron/main.ts:207-260 | it returns ready at the first settled sample within the 120 polls that fit in the timeout; otherwise it returns the timeout error naming the path, and no sample in the window was settled; failures never end the loop early |
| ReadinessPoller.FiveStableCountsAreNotEnough | packages/desktop/electron/main.ts:214-243 | `[0,0,3,3,3,3,3]` times out and the same run with one more `3` is ready at the eighth sample |
| RepoSwitch.NormalizeGitBashPath | packages/desktop/electron/main.ts:330-337 | `/x/rest` becomes `X:/rest`, where `X` is the input's drive letter upper-cased; any other path is unchanged |
| RepoSwitch.NormalizeIdempotent | packages/desktop/electron/main.ts:330-337 | normalising a normalised path changes nothing |
| RepoSwitch.FirstWorktreeIndex | packages/desktop/electron/main.ts:346-347 | the first line starting with `worktree `, or none when no line does |
| RepoSwitch.MainRootOfListing | packages/desktop/electron/main.ts:344-352 | for a listing of records, the root is the first record's path, trimmed |
| RepoSwitch.MainRootFallback | packages/desktop/electron/main.ts:353-358 | a failed listing, or one without a `worktree` line, falls back to the normalised path |
| RepoSwitch.OnRepoNotification | packages/desktop/electron/main.ts:344-366 | the payload carries the resolved root and the normalised incoming path as `active` |
| BranchReconciler.Normalize | packages/desktop/src/components/BranchList.tsx:90 | every `\` becomes `/`, ASCII letters are lower-cased, and at most one trailing separator is removed |
| BranchReconciler.NormalizeIgnoresCase | packages/desktop/src/components/BranchList.tsx:90 | normalisation does not see letter case |
| BranchReconciler.NormalizeIgnoresSeparator | packages/desktop/src/components/BranchList.tsx:90 | normalisation does not tell `\` from `/` |
| BranchReconciler.NormalizeFixesNormalForm | packages/desktop/src/components/BranchList.tsx:90 | a lower-case `/`-separated path without a trailing `/` is its own normal form |
| BranchReconciler.FindTargetAsWritten | packages/desktop/src/components/BranchList.tsx:93-97 | the first worktree whose normalised path is the target's or a `/`-terminated prefix of it |
| BranchReconciler.TargetAsWrittenPicksMainWorktree | packages/desktop/src/components/BranchList.tsx:93-97 | for any listing and any target below its first worktree, the lookup as written picks that first worktree, which is not an exact match; when the target itself is listed, the corrected lookup does not pick the first worktree |
| BranchReconciler.FindTarget | packages/desktop/src/components/BranchList.tsx:93-97 | an exact normalised match wins over a containing one; something is found exactly when some worktree matches |
| BranchReconciler.NewEntries | packages/desktop/src/components/BranchList.tsx:110 | the candidates are exactly the entries whose path is not in the baseline, compared case-sensitively |
| BranchReconciler.TargetPick | packages/desktop/src/components/BranchList.tsx:87-98 | a non-empty target picks the first worktree that equals or contains it; nothing is picked exactly when there is no target or no worktree matches |
| BranchReconciler.TargetPickCorrected | packages/desktop/src/components/BranchList.tsx:87-98 | the corrected pick: a matching worktree, an exact one whenever one is listed; nothing exactly when there is no target or no match |
| BranchReconciler.AutoStarts | packages/desktop/src/components/BranchList.tsx:108-130 | a worktree is auto-started exactly when auto-start is on, the baseline is non-empty, its path is new and its lower-cased path is not the target's |
| BranchReconciler.Toggles | packages/desktop/src/components/BranchList.tsx:80-130 | with the lookup as written: the picked worktree comes first; on the seed pass or with auto-start off only it is toggled; every other toggled entry is new and not the target |
| BranchReconciler.TogglesCorrected | packages/desktop/src/components/BranchList.tsx:80-130 | the same with the corrected pick |
| BranchReconciler.PreviewHeldBackByGuard | packages/desktop/src/components/BranchList.tsx:119-126 | a new targeted preview is the only newcomer and the double-start guard holds it back |
| BranchReconciler.PreviewTargetTogglesMain | packages/desktop/src/components/BranchList.tsx:85-130 | main listed first, a new preview below it as the target: as written only the main worktree is handed to the toggle (so the preview never starts); corrected, only the preview is |
| BranchReconciler.SeedPassStartsNothingNew | packages/desktop/src/components/BranchList.tsx:119-129 | with an empty baseline nothing is auto-started |
| BranchReconciler.NewWorktreeIsStarted | packages/desktop/src/components/BranchList.tsx:108-126 | with baseline `{A, B}` and listing `[A, B, C]`, only `C` is started |
| BranchReconciler.BackslashTargetToggledTwice | packages/desktop/src/components/BranchList.tsx:88-126 | a target written with `\` that is also a new worktree is handed to the toggle twice, because the double-start guard only lower-cases |
| BranchReconciler.ServerId | packages/desktop/src/components/BranchList.tsx:57 | the id is `server-` followed by the branch |
| BranchReconciler.ServerIdInjective | packages/desktop/src/components/BranchList.tsx:57 | distinct branches get distinct process ids |
| BranchReconciler.ToggleAction | packages/desktop/src/components/BranchList.tsx:55-62 | no branch means no action; a running branch is stopped; otherwise its server starts in the worktree |
| BranchReconciler.StartNewcomers | packages/desktop/src/components/BranchList.tsx:120-126 | the `forEach` toggles the new entries the double-start guard lets through, in list order |
| BranchReconciler.Reconcile | packages/desktop/src/components/BranchList.tsx:85-130 | the toggled worktrees are those of `Toggles`, and the target counts as found exactly when it was picked |
| BranchReconciler.BranchList.constructor | packages/desktop/src/components/BranchList.tsx:15-19 | no worktrees, an empty baseline and no target |
| BranchReconciler.BranchList.SetAutoStart | packages/desktop/src/components/BranchList.tsx:29-31 | only the auto-start flag changes |
| BranchReconciler.BranchList.Refresh | packages/desktop/src/components/BranchList.tsx:80-139 | a failed listing changes nothing; otherwise the toggles are `Toggles` of the old state, the target is cleared only when found, and the baseline becomes the listed paths whether or not auto-start is on |
| BranchReconciler.BranchList.SetActiveWorktree | packages/desktop/src/components/BranchList.tsx:21-27 | the effect runs only when the prop changed: then a non-empty value becomes the target and a refresh runs; an unchanged value changes nothing |
| BranchReconciler.BranchList.ToggleProcess | packages/desktop/src/components/BranchList.tsx:55-78 | a stop marks the branch not running; a start marks it running only when it succeeded |
| AppState.Dedup | packages/desktop/src/App.tsx:70 | the result has no duplicates and the same elements, ordered by their first occurrence in the input |
| AppState.DedupOfDistinct | packages/desktop/src/App.tsx:70 | a list without duplicates is unchanged |
| AppState.AddToRecents | packages/desktop/src/App.tsx:70 | the added repository is first, the list has no duplicates, and nothing else is added or lost |
| AppState.AddToRecentsMovesToFront | packages/desktop/src/App.tsx:70 | with a duplicate-free list, the repository moves to the front and the others keep their order |
| AppState.AddToRecentsIdempotent | packages/desktop/src/App.tsx:70 | adding the same repository twice equals adding it once |
| AppState.PrependIfAbsent | packages/desktop/src/App.tsx:88-95 | the list is unchanged exactly when the root is already listed; otherwise the root is put in front |
| AppState.Decode | packages/desktop/src/App.tsx:82-83 | a string payload gives that root and no active worktree; an object payload gives its `root` and `active` |
| AppState.DecodeEncode | packages/desktop/src/App.tsx:81-83 | the renderer reads back exactly the root and active path the main process sends |
| AppState.LoadAutoStart | packages/desktop/src/App.tsx:33-36 | a saved `'true'` turns auto-start on, any other saved text turns it off, and nothing saved keeps the current value |
| AppState.AutoStartRoundTrip | packages/desktop/src/App.tsx:33-36 | the saved `String(enabled)` loads back as `enabled` |
| AppState.App.constructor | packages/desktop/src/App.tsx:8-11 | nothing selected, no recents, auto-start on |
| AppState.App.Load | packages/desktop/src/App.tsx:14-36 | the saved recents entry, when it parses as an array, is restored and its first path selected when nothing is; the auto-start setting is loaded |
| AppState.RecentsSurviveRestart | packages/desktop/src/App.tsx:14-77 | a repository added and saved before a restart is restored and selected by the next load |
| AppState.App.ToggleAutoStart | packages/desktop/src/App.tsx:56-59 | the flag is set and saved as text |
| AppState.App.SelectRepo | packages/desktop/src/App.tsx:61-64 | the repository is selected and the active worktree cleared |
| AppState.App.AddRepo | packages/desktop/src/App.tsx:51-77 | a chosen folder joins the recents at the front, is saved and selected; a cancelled dialog changes nothing |
| AppState.App.OnRepoChanged | packages/desktop/src/App.tsx:80-99 | the root is selected and prepended to the recents if absent (and saved then), and the active worktree is set |
| RepoSelector.DropOneSlash | packages/desktop/src/components/RepoSelector.tsx:16 | at most one trailing `/` is removed |
| RepoSelector.RepoName | packages/desktop/src/components/RepoSelector.tsx:13-18 | the name is non-empty and contains neither `/` nor `\` |
| RepoSelector.RepoNameOfChild | packages/desktop/src/components/RepoSelector.tsx:15-17 | a separator-free name is its own name, and the name of `dir` + separator + `name`, with or without one trailing separator, either separator being `/` or `\` |
| RepoSelector.RepoNameUnknown | packages/desktop/src/components/RepoSelector.tsx:17 | `""`, `/`, `\` and `a//` are named `Unknown` |
| TerminalLog.AppendLog | packages/desktop/src/components/Terminal.tsx:16 | the entry is last; at most 1001 entries; the older ones are the latest `min(n, 1000)` of the previous log in order; nothing is dropped from a log of at most 1000 |
| TerminalLog.AppendKeepsLatest | packages/desktop/src/components/Terminal.tsx:16 | appending to the latest entries of a stream keeps the latest entries of the longer stream |
| TerminalLog.FeedKeepsLatest | packages/desktop/src/components/Terminal.tsx:15-17 | after any number of outputs the log holds exactly the latest 1001 (or all), in arrival order |

## Left out

- Running git, the file system, child processes and `tree-kill` are outside the model. Git is an oracle from arguments to `Ok(stdout)` or `Err(message)`. A readiness sample is a count or an error code. Starting a child yields an optional pid.
- `WorktreeManager.init` (creating the previews folder) is left out. It is an `mkdir` whose failure is ignored.
- Wall-clock time is replaced by a sample count. The poller takes at most `120000 / 1000` samples. Running out of supplied samples counts as the timeout. The time each check itself takes is not modelled.
- Paths use `/` as the only separator. `path.resolve` is the identity, and `path.join(a, b)` is `a + "/" + b`. `path.basename` strips trailing `/` and takes the last part. Windows separators and drive resolution are not modelled there.
- `toLowerCase` and `toUpperCase` map ASCII letters only. Unicode case mapping is not modelled.
- Windows treats environment variable names case-insensitively. The model treats them as exact keys.
- EventEmitter listener wiring and `data.toString()` decoding are left out. Output is given as a string.
- The timestamp of a log entry comes from a clock. `TerminalLog` keeps entries of any type and leaves the timestamp to the caller.
- `JSON.parse` of the saved recents is reduced to four outcomes: missing, unparsable, not an array, or an array of paths. Arrays holding non-strings are not modelled.
- A payload that is neither a string nor an object with `root` and `active`, such as `null`, is not modelled. The code would throw there.
- `initializeServices` failing, or there being no window, means main.ts sends no payload. That path is not modelled.
- Overlapping `refresh` calls and un-awaited `handleToggleProcess` calls are concurrency, so they are not modelled. One `refresh` is atomic. The toggles it issues are returned rather than run, and each reads the same `running` snapshot. The refresh run at mount and the refreshes registered then (the branch watcher and the list's own `repo-changed` listener) use the first render's toggle, so they always see the initial, empty `running` and always take the start path; the model does not tell those refreshes apart from the one the `[activeWorktree]` effect runs.
- `handleCreate` and `handleRemove` in BranchList.tsx are thin UI flows over `create`, `remove`, `stop` and `refresh`. They are not modelled separately.
- The hook installer, Electron window, tray and menu wiring, the notification HTTP server, the file watcher, the preload bridge, the settings dialog and all rendering are left out. They are I/O or library plumbing.
- ProcessSupervisor.ProcessManager.StopAll: the kills are proved to cover every live child once, in some order. The model does not fix that order to the Map's insertion order.
- Remounting `BranchList` resets its refs and its last-seen active worktree. This happens when no repository was selected before. The model keeps one instance.
- WorktreeStore.WorktreeManager.Create: an error whose `message` is undefined is not distinguished from one with a message.

## Findings

| source | as written | input that shows it | evidently intended | confidence | as-written member | corrected member |
|---|---|---|---|---|---|---|
| packages/desktop/src/components/BranchList.tsx:93-97 | the target is the FIRST worktree whose normalised path equals the target or is a directory above it | listing `[/r (main), /r/.licorice/previews/feat]`, target `/r/.licorice/previews/feat`: the main worktree `/r` is picked, because git lists it first and the managed previews live under it | the worktree whose path is the target is picked; a containing worktree is picked only when none matches exactly | medium, not executed | BranchReconciler.FindTargetAsWritten, BranchReconciler.TargetAsWrittenPicksMainWorktree | BranchReconciler.FindTarget, BranchReconciler.TogglesCorrected |

The reconciler (`BranchReconciler.TargetPick`, `BranchReconciler.Toggles`, `BranchReconciler.Reconcile`, `BranchReconciler.BranchList.Refresh`, `BranchReconciler.BranchList.SetActiveWorktree`) follows the code as written. `BranchReconciler.TargetPickCorrected` and `BranchReconciler.TogglesCorrected` give the intended behaviour. `BranchReconciler.PreviewTargetTogglesMain` shows both on the same input: as written the main worktree is handed to the toggle and the preview is never started. When that refresh is the one run by the `[activeWorktree]` effect, the toggle sees the current `running` state and stops main's server if it runs. A refresh run or registered at mount (by the branch watcher or the list's own `repo-changed` listener) sees the empty initial `running` state, so it starts a second server for main instead.
