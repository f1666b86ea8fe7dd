/** pkg/obtain/obtainer.go: first-time acquisition of the source tree. */
module Obtainer {
  import opened Errors
  import opened Git

  /** `GitCloneObtainer`. The injected `Preparer` is given by what its
      `Prepare(path)` returns; preparing the directory itself is not modelled. */
  datatype GitCloneObtainer = GitCloneObtainer(url: string, branch: string, prepare: string -> Status)
  {
    /** `Obtain(destPath)`: prepare the directory, then clone into it. */
    function Obtain(lib: GitLibrary, destPath: string): (r: Status)
      ensures r.Nil? <==> prepare(destPath).Nil? && CloneGitRepo(lib, url, branch, destPath).Nil?
      ensures prepare(destPath).Err? ==>
                r.Err? && r.error.Wrapped? && r.error.context == PreparingFilesystem && Is(r.error, prepare(destPath).error)
      ensures prepare(destPath).Nil? && r.Err? ==>
                r.error.Wrapped? && r.error.context == CloningRepo && Is(r.error, CloneGitRepo(lib, url, branch, destPath).error)
    {
      var prepared := prepare(destPath);
      if prepared.Err? then Err(Wrapped(PreparingFilesystem, prepared.error))
      else
        var cloned := CloneGitRepo(lib, url, branch, destPath);
        if cloned.Err? then Err(Wrapped(CloningRepo, cloned.error))
        else Nil
    }
  }

  /** A failed Prepare means Clone is never attempted: the library's answer
      to any clone request makes no difference. */
  lemma PrepareFailureSkipsClone(o: GitCloneObtainer, lib1: GitLibrary, lib2: GitLibrary, destPath: string)
    requires o.prepare(destPath).Err?
    ensures o.Obtain(lib1, destPath) == o.Obtain(lib2, destPath)
  {
  }

  /** Clone gets the configured URL and branch unchanged and the same
      destination as Prepare: only that one clone request is consulted. */
  lemma ObtainClonesConfiguredBranch(o: GitCloneObtainer, lib1: GitLibrary, lib2: GitLibrary, destPath: string)
    requires lib1.plainClone(destPath, CloneOptions(o.url, RefName(o.branch)))
          == lib2.plainClone(destPath, CloneOptions(o.url, RefName(o.branch)))
    ensures o.Obtain(lib1, destPath) == o.Obtain(lib2, destPath)
  {
  }

  /** A clone failure is reported through two wrappings, and still identifies
      the library's own error. */
  lemma CloneFailureKeepsCause(o: GitCloneObtainer, lib: GitLibrary, destPath: string)
    requires o.prepare(destPath).Nil?
    requires lib.plainClone(destPath, CloneOptions(o.url, RefName(o.branch))).Err?
    ensures o.Obtain(lib, destPath).Err?
    ensures Is(o.Obtain(lib, destPath).error, lib.plainClone(destPath, CloneOptions(o.url, RefName(o.branch))).error)
  {
    var cause := lib.plainClone(destPath, CloneOptions(o.url, RefName(o.branch))).error;
    var inner := CloneGitRepo(lib, o.url, o.branch, destPath).error;
    IsTransitive(o.Obtain(lib, destPath).error, inner, cause);
  }
}

/** pkg/obtain/updater.go: bring the checkout up to the remote branch tip. */
module Updater {
  import opened Errors
  import opened Git

  /** `GitPullUpdater`: the branch to pull. */
  datatype GitPullUpdater = GitPullUpdater(branch: string)
  {
    /** `Update(path)`: pull `branch` into the checkout at `path`. */
    function Update(lib: GitLibrary, path: string): (r: Status)
      ensures r.Nil? <==> PullGitRepo(lib, path, branch).Nil?
      ensures r.Err? ==> r.error.Wrapped? && r.error.context == PullingRepo && Is(r.error, PullGitRepo(lib, path, branch).error)
    {
      var pulled := PullGitRepo(lib, path, branch);
      if pulled.Err? then Err(Wrapped(PullingRepo, pulled.error)) else Nil
    }
  }

  /** Only the repository at `path` and the configured branch are consulted. */
  lemma UpdatePullsPathAndBranch(u: GitPullUpdater, lib1: GitLibrary, lib2: GitLibrary, path: string)
    requires lib1.plainOpen(path) == lib2.plainOpen(path)
    requires lib1.pull(path, RefName(u.branch)) == lib2.pull(path, RefName(u.branch))
    ensures u.Update(lib1, path) == u.Update(lib2, path)
  {
  }

  /** Updating a checkout that is already up to date succeeds. */
  lemma UpToDateUpdateSucceeds(u: GitPullUpdater, lib: GitLibrary, path: string)
    requires lib.plainOpen(path).Ok? && lib.plainOpen(path).value.worktree.Nil?
    requires lib.pull(path, RefName(u.branch)) == Err(AlreadyUpToDate)
    ensures u.Update(lib, path) == Nil
  {
    AlreadyUpToDateIsSuccess(lib, path, u.branch);
  }

  /** Any other pull failure is an error that still identifies the library's error. */
  lemma PullFailureKeepsCause(u: GitPullUpdater, lib: GitLibrary, path: string)
    requires lib.plainOpen(path).Ok? && lib.plainOpen(path).value.worktree.Nil?
    requires lib.pull(path, RefName(u.branch)).Err? && lib.pull(path, RefName(u.branch)) != Err(AlreadyUpToDate)
    ensures u.Update(lib, path).Err?
    ensures Is(u.Update(lib, path).error, lib.pull(path, RefName(u.branch)).error)
  {
    PullErrorWrapped(lib, path, u.branch);
    IsTransitive(u.Update(lib, path).error, PullGitRepo(lib, path, u.branch).error, lib.pull(path, RefName(u.branch)).error);
  }
}
