# mockcicd: a Dafny model of the deployment controller

mockcicd is a small continuous-delivery controller. At start-up it clones one
branch of a Git repository into a source directory. It then builds a container
image from that directory and tags it with the checked-out commit hash. It
pushes the image and installs it with Helm. After that it polls: each cycle
compares the local HEAD with the remote branch head. When they differ, it
pulls and runs the build, push and install pipeline again. A failure in a cycle
is logged, and the controller waits for the next cycle.

This project models that control logic and the Git-backed stages:

- `errors.dfy` (`Errors`): Go errors as values. `Status` is nil or an error.
  `Ret<T>` is a `(T, error)` pair. `Wrapped` is `fmt.Errorf("...: %w")`. `Is`
  is `errors.Is`.
- `git.dfy` (`Git`): the go-git helpers of `pkg/git`. go-git's answers are
  given as a `GitLibrary` value. The model covers:
  - the short-circuits on each failure;
  - the search of the remote's refs for `refs/heads/<branch>`;
  - the mapping of "already up to date" to success;
  - the hexadecimal string form of a 20-byte hash.
- `checker.dfy` (`Checker`), `obtainer.dfy` (`Obtainer`, `Updater`) and
  `tagdeducer.dfy` (`TagDeducer`): the adapters `GitChecker`,
  `GitCloneObtainer`, `GitPullUpdater` and `GitHashTagDeducer`.
- `orchestrator.dfy` (`Orchestrator`): `buildAndInstall`, `setup`, `run` and
  the part of `main` after configuration.
  - Each injected stage is given by the outcome it returns.
  - The controller's behaviour is recorded as the sequence of stage
    invocations it makes, with their arguments.
  - `run` is an imperative `Run` method with a loop over a finite sequence of
    poll cycles. Each cycle says whether `done` is closed when it begins, and
    what the stages return during it.
  - `Run` is proved equal to the `RunCalls` specification function.
- `wiring.dfy` (`Wiring`): how `main` builds the Git-backed stages from the
  configuration. It also shows why change detection and tagging refer to the
  same commit.

## Model

| member | source | states |
|---|---|---|
| Git.HashString | pkg/tagdeduce/tagdeducer.go:29 | The string form of a hash has 40 characters, and every one is a hexadecimal digit. |
| Git.HexRoundTrip | pkg/tagdeduce/tagdeducer.go:29 | Decoding the hexadecimal form of any byte string gives back exactly that byte string. |
| Git.HashStringInjective | pkg/tagdeduce/tagdeducer.go:29 | Two hashes have the same string form if and only if they are the same hash. |
| Git.RefName | pkg/git/git.go:49 | The target reference name is `refs/heads/` followed by the branch name, unchanged. |
| Git.LocalHeadHash | pkg/git/git.go:11-28 | Success happens exactly when both the repository open and HEAD succeed, and it returns HEAD's hash. An open failure is returned wrapped and a HEAD failure is returned wrapped. Every error comes with the zero hash. |
| Git.LocalHeadHashReadsOnlyPath | pkg/git/git.go:14 | Only the repository at the given path is consulted. |
| Git.ListRemoteRefs | pkg/git/git.go:33-46 | The ref listing is obtained exactly when open, `Remote("origin")` and `List` all succeed, and it is then the listing itself. Otherwise the first failure is returned wrapped with its own context (opening, obtaining the remote, listing), around that failure's own error. |
| Git.FirstMatch | pkg/git/git.go:50-59 | Returns the index of a ref with the wanted name, and no earlier ref has that name. It is absent only when no ref has that name. |
| Git.RemoteHeadHash | pkg/git/git.go:30-63 | Every error from the remote lookup comes with the zero hash. A failed open, remote or listing makes the lookup fail with exactly that wrapped error. |
| Git.GetRemoteHeadHash | pkg/git/git.go:30-63 | The loop skips every ref not named `refs/heads/<branch>` and returns at the first one that is. Its result equals `RemoteHeadHash`. |
| Git.RemoteHeadHashIsFirstMatch | pkg/git/git.go:49-58 | On success the hash is that of the first listed ref with the branch's reference name. |
| Git.RemoteHeadHashNotFound | pkg/git/git.go:61-62 | When no listed ref has the branch's name, the result is the zero hash and the "unable to locate target branch" error for that branch and path. |
| Git.SelectedIsFirstNamed | pkg/git/git.go:50-59 | The search selects the first of the refs with the target name, in listing order. |
| Git.OtherRefsIgnored | pkg/git/git.go:51-54 | Two listings that agree on the refs with the target name give the same result, whatever other refs they hold. |
| Git.CloneGitRepo | pkg/git/git.go:65-81 | Succeeds exactly when the single-branch clone of the URL and `refs/heads/<branch>` into the destination succeeds. Otherwise it wraps the clone's error. |
| Git.PullGitRepo | pkg/git/git.go:83-108 | Succeeds exactly when open and worktree succeed and the pull returns nil or exactly the already-up-to-date sentinel. An open failure is returned wrapped as an opening error, a worktree failure as a worktree error, each around its own cause. Every error is wrapped. |
| Git.AlreadyUpToDateIsSuccess | pkg/git/git.go:101-102 | A pull answering "already up to date" makes `PullGitRepo` return nil. |
| Git.PullErrorWrapped | pkg/git/git.go:103-104 | Any other pull error is returned wrapped with the pulling context, and `errors.Is` still finds it. |
| Checker.GitChecker.Check | pkg/check/checker.go:25-37 | Success happens exactly when both hash lookups succeed. Then "changed" is true exactly when the local and remote hashes differ. A local failure is wrapped as the local-hash error, and a remote failure as the remote-hash error. An error is never paired with `true`. |
| Checker.LocalFailureSkipsRemote | pkg/check/checker.go:26-29 | When the local lookup fails, the remote side's answer makes no difference: it is never consulted. |
| Checker.FailedCheckReportsNoChange | pkg/check/checker.go:26-34 | A failed check returns `false` together with its error. |
| Checker.CheckIgnoresOtherRefs | pkg/check/checker.go:31-36 | Remote refs of other branches cannot change the outcome of a check. |
| Obtainer.GitCloneObtainer.Obtain | pkg/obtain/obtainer.go:28-38 | Succeeds exactly when Prepare and the clone both succeed. A Prepare failure is returned wrapped as a preparing error. A clone failure is wrapped as a cloning error. |
| Obtainer.PrepareFailureSkipsClone | pkg/obtain/obtainer.go:29-31 | When Prepare fails, no clone is attempted: the clone's answer makes no difference. |
| Obtainer.ObtainClonesConfiguredBranch | pkg/obtain/obtainer.go:33 | Only the clone of the configured URL and branch into the same destination that Prepare got is consulted. |
| Obtainer.CloneFailureKeepsCause | pkg/obtain/obtainer.go:33-35 | A clone failure makes Obtain fail, and `errors.Is` finds the library's error through both wrappings. |
| Updater.GitPullUpdater.Update | pkg/obtain/updater.go:23-29 | Succeeds exactly when `PullGitRepo` on the given path and the configured branch succeeds. Otherwise it wraps that error. |
| Updater.UpdatePullsPathAndBranch | pkg/obtain/updater.go:24 | Only the repository at the given path and the pull of the configured branch are consulted. |
| Updater.UpToDateUpdateSucceeds | pkg/obtain/updater.go:24 | Updating a checkout that is already up to date succeeds. |
| Updater.PullFailureKeepsCause | pkg/obtain/updater.go:24-26 | Any other pull failure makes Update fail, and `errors.Is` still finds the library's error. |
| TagDeducer.GitHashTagDeducer.Deduce | pkg/tagdeduce/tagdeducer.go:23-30 | Succeeds exactly when the local HEAD lookup does. The tag is then the hexadecimal form of HEAD's hash. On failure the tag is empty and the error wraps the lookup's error. |
| TagDeducer.DeduceReadsOnlyPath | pkg/tagdeduce/tagdeducer.go:24 | The tag depends only on the repository at the configured path. |
| TagDeducer.TagIdentifiesCommit | pkg/tagdeduce/tagdeducer.go:23-30 | Two successful deductions give the same tag exactly when HEAD is the same commit. |
| Orchestrator.BuildAndInstall | main.go:158-184 | The calls made are a prefix, of length 1 to 4, of Deduce, Build, Push, Install, with the deduced tag passed to Build, Push and Install. Every stage before the last one called succeeded. A pipeline cut short ends at a failed stage. The result is nil exactly when all four succeed; otherwise it wraps the failed stage's own error with that stage's context. |
| Orchestrator.BuildAndInstallReach | main.go:166-181 | The number of stages called is one more than the number of leading successes, at most four. |
| Orchestrator.BuildAndInstallKeepsCause | main.go:166-181 | When stage k is the first to fail, exactly the first k+1 stages are called, and `errors.Is` finds the stage's error. |
| Orchestrator.NoCheckInPipeline | main.go:158-184 | `buildAndInstall` never invokes the checker. |
| Orchestrator.Setup | main.go:80-104 | Obtain is called first, on the source directory. If it fails, nothing else is called and its error is returned wrapped. Otherwise the calls that follow are exactly those of `buildAndInstall`, whose error is wrapped as the initial build and install error. The result is nil exactly when all five stages succeed. |
| Orchestrator.SetupSucceeds | main.go:88-103 | A fully successful setup calls Obtain, Deduce, Build, Push and Install once each, in order, with the deduced tag, and returns nil. |
| Orchestrator.SetupObtainFails | main.go:88-90 | A failed Obtain calls no other stage, and `errors.Is` finds its error in the result. |
| Orchestrator.SetupStopsAtFailure | main.go:93-101 | When pipeline stage k fails during setup, only Obtain and the first k+1 stages are called, and `errors.Is` finds the stage's error through both wrappings. |
| Orchestrator.CycleCalls | main.go:128-153 | Every poll cycle begins with a call to Check. |
| Orchestrator.PollOnce | main.go:126-154 | One uncancelled iteration calls Check. It stops after a failed Check or when nothing changed. Otherwise it calls Update on the source directory, stops if that fails, and then runs `buildAndInstall`. The result equals `CycleCalls`. |
| Orchestrator.Run | main.go:106-156 | The loop stops at the first cycle that finds `done` closed and at no other. It begins every cycle before that one. Its invocations are exactly those of `RunCalls`. |
| Orchestrator.RunCounts | main.go:119-155 | When the loop stops at a closed `done`, or at the end of the horizon, after `polled` uncancelled cycles, Check has been invoked exactly `polled` times and Obtain never. |
| Orchestrator.CancellationStopsRun | main.go:120-122 | Once `done` is found closed, no later cycle invokes anything. |
| Orchestrator.CycleCounts | main.go:128-153 | In one cycle, each stage up to the first failure (or up to Install) is invoked exactly once, every later stage never, and Obtain never. |
| Orchestrator.RepeatedFailure | main.go:119-155 | If stage S is the first to fail in each of n cycles, every stage up to and including S is invoked exactly n times and every stage after S never. |
| Orchestrator.RepeatedDeployment | main.go:119-155 | If every cycle detects a change and succeeds throughout, each of the six stages is invoked once per cycle. |
| Orchestrator.QuietCycle | main.go:128-135 | A cycle whose Check fails or reports no change invokes Check and nothing else. |
| Orchestrator.DeployingCycle | main.go:135-153 | A cycle that detects a change and succeeds invokes Check, then Update on the source directory, then Deduce, Build, Push and Install with the deduced tag. |
| Orchestrator.PollsOncePerCycle | main.go:119-133 | Without cancellation, Check is invoked exactly once per cycle, whatever the stages return. |
| Orchestrator.NeverCancelled | main.go:67-77 | `main` passes a nil `done` channel, so no cycle is ever cancelled. |
| Orchestrator.Launch | main.go:55-77 | `main` after configuration has the status of `setup`. Its calls begin with those of `setup`. When setup fails they end there: the process exits. Otherwise they continue with the calls of a `run` that is never cancelled. |
| Orchestrator.LaunchPollsIffSetupSucceeds | main.go:55-77 | A failed setup is fatal: the process exits with that error, and Check is never invoked. Otherwise the loop polls once per cycle. |
| Wiring.Wire | main.go:44-53 | The tag deducer and the checker read the one checkout at SrcDirPath. The obtainer, the checker and the updater all follow GitBranch. The obtainer clones GitRepoURL and uses the filesystem preparer. |
| Wiring.UnchangedIffTagIsRemoteHead | main.go:46-53 | The checker and the tag deducer share the source directory and the branch. So a successful check reports "no change" exactly when the tag `Deduce` returns on that same checkout, before any pull, is the string form of the remote branch head. |
| Wiring.UpdateFollowsCheckedBranch | main.go:52-53 | The updater pulls the branch the checker compares against into the checkout the checker reads, and a checkout already at the remote head counts as updated. |
| Wiring.ObtainClonesCheckedBranch | main.go:45-52 | Once Prepare has succeeded on the source directory, Obtain succeeds exactly when the clone of the configured URL and the checker's branch into that directory succeeds. |

## Left out

- Configuration (envconfig) is not modelled. The model starts from the values it yields, and a configuration error is outside it.
- The sleep between polls and the poll period are not modelled: they do not change which calls are made.
- `run` never returns on its own. The model runs it over a finite sequence of cycles, and each cycle says whether `done` is closed when the cycle begins. The non-blocking channel `select` is modelled as reading that flag.
- Logging is not modelled.
- The Preparer, Builder, Pusher and Installer adapters are not part of this model, because they run the filesystem, Docker and Helm. Each is given by the status it returns. Helm's `--atomic` rollback after a failed install is therefore not claimed.
- go-git itself (opening, cloning, listing and pulling) is not part of this model. Its answers are the `GitLibrary` inputs.
- The `Worktree` object is reduced to whether obtaining it succeeds, because it is only used to pull.
- The other fields of the clone and pull options (`SingleBranch`, the remote name `origin`) are fixed in the code and are not carried.
- The exact text of error messages, including the quoted paths, URLs and branches, is not modelled. Only which wrapping context applies and the cause it wraps are kept.
- Within one cycle each stage returns a single outcome. Stages that would behave differently on a second call are irrelevant, because no stage is called twice in a cycle.
- `InstallTimeout` is an integer passed through unchanged. Its unit (`time.Duration`) is not modelled.
- Git.RemoteHeadHash: its own contract states the failure cases: the zero hash beside every error, and a failed listing passed on unchanged. What it returns on success and on "not found" is stated by `RemoteHeadHashIsFirstMatch`, `RemoteHeadHashNotFound` and `GetRemoteHeadHash`.
