/** main.go: how `main` wires the Git-backed stages from the configuration.
    The checker, the tag deducer and the updater all work on the one checkout
    at SrcDirPath, and the obtainer, the checker and the updater all follow
    GitBranch, so change detection and tagging speak about the same commit. */
module Wiring {
  import opened Errors
  import opened Git
  import opened Checker
  import opened Obtainer
  import opened Updater
  import opened TagDeducer

  /** The configuration fields the Git-backed stages are built from. */
  datatype Settings = Settings(srcDirPath: string, gitRepoURL: string, gitBranch: string)

  datatype Stages = Stages(
    obtainer: GitCloneObtainer,
    tagDeducer: GitHashTagDeducer,
    checker: GitChecker,
    updater: GitPullUpdater)

  /** The constructor calls of `main`; `prepare` is the filesystem preparer.
      The deducer and the checker read the one checkout at SrcDirPath; the
      obtainer, the checker and the updater all follow GitBranch. */
  function Wire(s: Settings, prepare: string -> Status): (r: Stages)
    ensures r.tagDeducer.path == r.checker.path == s.srcDirPath
    ensures r.obtainer.branch == r.checker.remoteBranch == r.updater.branch == s.gitBranch
    ensures r.obtainer.url == s.gitRepoURL && r.obtainer.prepare == prepare
  {
    Stages(
      GitCloneObtainer(s.gitRepoURL, s.gitBranch, prepare),
      GitHashTagDeducer(s.srcDirPath),
      GitChecker(s.srcDirPath, s.gitBranch),
      GitPullUpdater(s.gitBranch))
  }

  /** A successful check reports "no change" exactly when the tag `Deduce`
      returns on that same checkout, before any pull, is the string form of
      the remote branch head. */
  lemma UnchangedIffTagIsRemoteHead(s: Settings, prepare: string -> Status, lib: GitLibrary)
    requires Wire(s, prepare).checker.Check(lib).status.Nil?
    ensures var w := Wire(s, prepare);
      w.tagDeducer.Deduce(lib).status.Nil?
      && (!w.checker.Check(lib).value
          <==> w.tagDeducer.Deduce(lib).value == HashString(RemoteHeadHash(lib, s.srcDirPath, s.gitBranch).value))
  {
    HashStringInjective(LocalHeadHash(lib, s.srcDirPath).value, RemoteHeadHash(lib, s.srcDirPath, s.gitBranch).value);
  }

  /** The updater pulls the branch the checker compares against into the
      checkout the checker reads, and a checkout already at the remote head
      counts as updated. */
  lemma UpdateFollowsCheckedBranch(s: Settings, prepare: string -> Status, lib: GitLibrary)
    requires lib.plainOpen(s.srcDirPath).Ok? && lib.plainOpen(s.srcDirPath).value.worktree.Nil?
    requires lib.pull(s.srcDirPath, RefName(Wire(s, prepare).checker.remoteBranch)) == Err(AlreadyUpToDate)
    ensures Wire(s, prepare).updater.Update(lib, Wire(s, prepare).checker.path).Nil?
  {
  }

  /** The obtainer clones the branch the checker follows into a destination
      that `setup` gives as SrcDirPath. */
  lemma ObtainClonesCheckedBranch(s: Settings, prepare: string -> Status, lib: GitLibrary)
    requires prepare(s.srcDirPath).Nil?
    ensures var w := Wire(s, prepare);
      w.obtainer.Obtain(lib, w.checker.path).Nil?
      <==> lib.plainClone(s.srcDirPath, CloneOptions(s.gitRepoURL, RefName(w.checker.remoteBranch))).Nil?
  {
  }
}
