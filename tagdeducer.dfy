/** pkg/tagdeduce: the deployment tag is the commit checked out. */
module TagDeducer {
  import opened Errors
  import opened Git

  /** `GitHashTagDeducer`: the checkout whose HEAD names the build. */
  datatype GitHashTagDeducer = GitHashTagDeducer(path: string)
  {
    /** `Deduce()`: the string form of the local HEAD hash, or "" and an error. */
    function Deduce(lib: GitLibrary): (r: Ret<string>)
      ensures r.status.Nil? <==> LocalHeadHash(lib, path).status.Nil?
      ensures r.status.Nil? ==> HexDecode(r.value) == Some(LocalHeadHash(lib, path).value)
      ensures r.status.Err? ==> r.value == "" && r.status.error.Wrapped? && r.status.error.context == GettingLocalHash
                                && Is(r.status.error, LocalHeadHash(lib, path).status.error)
    {
      var head := LocalHeadHash(lib, path);
      if head.status.Err? then Ret("", Err(Wrapped(GettingLocalHash, head.status.error)))
      else
        HexRoundTrip(head.value);
        Ret(HashString(head.value), Nil)
    }
  }

  /** Only the configured path is read. */
  lemma DeduceReadsOnlyPath(d: GitHashTagDeducer, lib1: GitLibrary, lib2: GitLibrary)
    requires lib1.plainOpen(d.path) == lib2.plainOpen(d.path)
    ensures d.Deduce(lib1) == d.Deduce(lib2)
  {
    LocalHeadHashReadsOnlyPath(lib1, lib2, d.path);
  }

  /** Tags are content-addressed: two successful deductions give the same tag
      exactly when HEAD is the same commit. */
  lemma TagIdentifiesCommit(d: GitHashTagDeducer, lib1: GitLibrary, lib2: GitLibrary)
    requires d.Deduce(lib1).status.Nil? && d.Deduce(lib2).status.Nil?
    ensures d.Deduce(lib1).value == d.Deduce(lib2).value
            <==> LocalHeadHash(lib1, d.path).value == LocalHeadHash(lib2, d.path).value
  {
    HashStringInjective(LocalHeadHash(lib1, d.path).value, LocalHeadHash(lib2, d.path).value);
  }
}
