/** pkg/check: has the remote branch moved away from the local checkout? */
module Checker {
  import opened Errors
  import opened Git

  /** `GitChecker`: the checkout path and the branch it tracks. */
  datatype GitChecker = GitChecker(path: string, remoteBranch: string)
  {
    /** `Check()`: local HEAD and remote branch head differ. Hashes are compared
        only for equality, never for which one is newer. */
    function Check(lib: GitLibrary): (r: Ret<bool>)
      ensures r.status.Err? ==> !r.value
      ensures r.status.Nil? <==>
                LocalHeadHash(lib, path).status.Nil? && RemoteHeadHash(lib, path, remoteBranch).status.Nil?
      ensures r.status.Nil? ==>
                (r.value <==> LocalHeadHash(lib, path).value != RemoteHeadHash(lib, path, remoteBranch).value)
      ensures LocalHeadHash(lib, path).status.Err? ==>
                r.status.Err? && r.status.error.Wrapped? && r.status.error.context == GettingLocalHash
                && Is(r.status.error, LocalHeadHash(lib, path).status.error)
      ensures LocalHeadHash(lib, path).status.Nil? && RemoteHeadHash(lib, path, remoteBranch).status.Err? ==>
                r.status.Err? && r.status.error.Wrapped? && r.status.error.context == GettingRemoteHash
                && Is(r.status.error, RemoteHeadHash(lib, path, remoteBranch).status.error)
    {
      var local := LocalHeadHash(lib, path);
      if local.status.Err? then Ret(false, Err(Wrapped(GettingLocalHash, local.status.error)))
      else
        var remote := RemoteHeadHash(lib, path, remoteBranch);
        if remote.status.Err? then Ret(false, Err(Wrapped(GettingRemoteHash, remote.status.error)))
        else Ret(local.value != remote.value, Nil)
    }
  }

  /** When the local lookup fails the remote is not queried: whatever the
      remote side answers, the result is the same. */
  lemma LocalFailureSkipsRemote(c: GitChecker, lib1: GitLibrary, lib2: GitLibrary)
    requires LocalHeadHash(lib1, c.path) == LocalHeadHash(lib2, c.path)
    requires LocalHeadHash(lib1, c.path).status.Err?
    ensures c.Check(lib1) == c.Check(lib2)
  {
  }

  /** A failed check never reads as "no change" to a caller that tests the
      error first, and never reports a change either. */
  lemma FailedCheckReportsNoChange(c: GitChecker, lib: GitLibrary)
    requires c.Check(lib).status.Err?
    ensures c.Check(lib) == Ret(false, c.Check(lib).status)
  {
  }

  /** A ref for another branch, added anywhere to the remote listing, cannot
      turn "unchanged" into "changed" or back. */
  lemma CheckIgnoresOtherRefs(c: GitChecker, lib1: GitLibrary, lib2: GitLibrary)
    requires LocalHeadHash(lib1, c.path) == LocalHeadHash(lib2, c.path)
    requires ListRemoteRefs(lib1, c.path).Ok? && ListRemoteRefs(lib2, c.path).Ok?
    requires Named(ListRemoteRefs(lib1, c.path).value, RefName(c.remoteBranch))
          == Named(ListRemoteRefs(lib2, c.path).value, RefName(c.remoteBranch))
    ensures c.Check(lib1) == c.Check(lib2)
  {
    OtherRefsIgnored(lib1, lib2, c.path, c.remoteBranch);
  }
}
