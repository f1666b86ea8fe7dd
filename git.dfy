/** pkg/git: the few helpers the adapters use to talk to go-git.

    go-git itself is outside the model. What it answers is given by a
    `GitLibrary`: for each path, what `PlainOpen` yields; for each clone request,
    what `PlainClone` yields; for each pull request, what `Worktree().Pull` yields.
    The helpers below are the code around those calls: short-circuits on
    failure, the search of the remote's refs for the branch, and the
    "already up to date" mapping.
 */
module Git {
  import opened Errors

  newtype byte = x: int | 0 <= x < 256

  /** go-git's `plumbing.Hash`: a 20-byte SHA-1. */
  type Hash = h: seq<byte> | |h| == 20 witness [0, 0, 0, 0, 0, 0, 0, 0, 0, 0, 0, 0, 0, 0, 0, 0, 0, 0, 0, 0]

  /** `plumbing.Hash{}`, returned beside every error. */
  const ZeroHash: Hash := [0, 0, 0, 0, 0, 0, 0, 0, 0, 0, 0, 0, 0, 0, 0, 0, 0, 0, 0, 0]

  // ---------------------------------------------------------------------------
  // Hash.String(): lowercase hexadecimal, two digits per byte

  function HexDigit(n: int): (c: char)
    requires 0 <= n < 16
  {
    if n < 10 then (48 + n) as char else (97 + n - 10) as char
  }

  function DigitValue(c: char): (r: Option<int>)
    ensures r.Some? ==> 0 <= r.value < 16
  {
    if '0' <= c <= '9' then Some(c as int - 48)
    else if 'a' <= c <= 'f' then Some(c as int - 97 + 10)
    else None
  }

  lemma DigitRoundTrip(n: int)
    requires 0 <= n < 16
    ensures DigitValue(HexDigit(n)) == Some(n)
  {
  }

  function HexEncode(bs: seq<byte>): (s: string)
    ensures |s| == 2 * |bs|
    ensures forall i :: 0 <= i < |s| ==> DigitValue(s[i]).Some?
  {
    if bs == [] then []
    else [HexDigit(bs[0] as int / 16), HexDigit(bs[0] as int % 16)] + HexEncode(bs[1..])
  }

  /** The inverse of `HexEncode`; `None` on an odd length or a non-digit. */
  function HexDecode(s: string): (r: Option<seq<byte>>)
    ensures r.Some? ==> 2 * |r.value| == |s|
    decreases |s|
  {
    if s == [] then Some([])
    else if |s| == 1 then None
    else
      match (DigitValue(s[0]), DigitValue(s[1]), HexDecode(s[2..]))
      case (Some(hi), Some(lo), Some(rest)) => Some([(hi * 16 + lo) as byte] + rest)
      case _ => None
  }

  lemma {:induction false} HexRoundTrip(bs: seq<byte>)
    ensures HexDecode(HexEncode(bs)) == Some(bs)
  {
    if bs != [] {
      var hi, lo := bs[0] as int / 16, bs[0] as int % 16;
      var s := HexEncode(bs);
      assert s == [HexDigit(hi), HexDigit(lo)] + HexEncode(bs[1..]);
      assert s[2..] == HexEncode(bs[1..]);
      DigitRoundTrip(hi);
      DigitRoundTrip(lo);
      HexRoundTrip(bs[1..]);
      assert [bs[0]] + bs[1..] == bs;
    }
  }

  /** `Hash.String()`: the 40-character hexadecimal form. */
  function HashString(h: Hash): (s: string)
    ensures |s| == 40
    ensures forall i :: 0 <= i < |s| ==> DigitValue(s[i]).Some?
  {
    HexEncode(h)
  }

  /** Distinct commits have distinct string forms, so a tag names one commit. */
  lemma HashStringInjective(a: Hash, b: Hash)
    ensures HashString(a) == HashString(b) <==> a == b
  {
    HexRoundTrip(a);
    HexRoundTrip(b);
  }

  // ---------------------------------------------------------------------------
  // What go-git answers

  /** One entry of `remote.List`: a reference name and the hash it points to. */
  datatype Ref = Ref(name: string, hash: Hash)

  /** The `origin` remote: what listing its refs yields. */
  datatype Remote = Remote(listing: Result<seq<Ref>>)

  /** An opened repository: what `Head()`, `Remote("origin")` and `Worktree()` yield. */
  datatype Repository = Repository(head: Result<Hash>, origin: Result<Remote>, worktree: Status)

  /** The fields of `git.CloneOptions` the clone sets (it always clones a single branch). */
  datatype CloneOptions = CloneOptions(url: string, referenceName: string)

  datatype GitLibrary = GitLibrary(
    /** `git.PlainOpen(path)` */
    plainOpen: string -> Result<Repository>,
    /** `git.PlainClone(destPath, false, options)` */
    plainClone: (string, CloneOptions) -> Status,
    /** `Worktree().Pull` on the repository at a path, for a reference name */
    pull: (string, string) -> Status)

  /** The reference name of a branch: `"refs/heads/" + branch`. */
  function RefName(branch: string): (r: string)
    ensures |r| == 11 + |branch| && r[..11] == "refs/heads/" && r[11..] == branch
  {
    "refs/heads/" + branch
  }

  // ---------------------------------------------------------------------------
  // GetLocalGitHeadHash

  /** `GetLocalGitHeadHash(path)`. */
  function LocalHeadHash(lib: GitLibrary, path: string): (r: Ret<Hash>)
    ensures r.status.Err? ==> r.value == ZeroHash
    ensures r.status.Nil? <==> lib.plainOpen(path).Ok? && lib.plainOpen(path).value.head.Ok?
    ensures r.status.Nil? ==> r.value == lib.plainOpen(path).value.head.value
    ensures lib.plainOpen(path).Failed? ==> r.status == Err(Wrapped(OpeningRepository, lib.plainOpen(path).error))
    ensures lib.plainOpen(path).Ok? && lib.plainOpen(path).value.head.Failed? ==>
              r.status == Err(Wrapped(ObtainingHead, lib.plainOpen(path).value.head.error))
  {
    match lib.plainOpen(path)
    case Failed(e) => Ret(ZeroHash, Err(Wrapped(OpeningRepository, e)))
    case Ok(repo) =>
      match repo.head
      case Failed(e) => Ret(ZeroHash, Err(Wrapped(ObtainingHead, e)))
      case Ok(h) => Ret(h, Nil)
  }

  /** Only the repository at `path` is consulted. */
  lemma LocalHeadHashReadsOnlyPath(lib1: GitLibrary, lib2: GitLibrary, path: string)
    requires lib1.plainOpen(path) == lib2.plainOpen(path)
    ensures LocalHeadHash(lib1, path) == LocalHeadHash(lib2, path)
  {
  }

  // ---------------------------------------------------------------------------
  // GetRemoteHeadHash

  /** The refs of `origin` as listed for the repository at `path`: the three
      short-circuits that precede the search. */
  function ListRemoteRefs(lib: GitLibrary, path: string): (r: Result<seq<Ref>>)
    ensures r.Failed? ==> r.error.Wrapped?
    ensures r.Ok? <==> lib.plainOpen(path).Ok? && lib.plainOpen(path).value.origin.Ok?
                       && lib.plainOpen(path).value.origin.value.listing.Ok?
    ensures r.Ok? ==> r == lib.plainOpen(path).value.origin.value.listing
    ensures lib.plainOpen(path).Failed? ==> r == Failed(Wrapped(OpeningRepository, lib.plainOpen(path).error))
    ensures lib.plainOpen(path).Ok? && lib.plainOpen(path).value.origin.Failed? ==>
              r == Failed(Wrapped(ObtainingRemote, lib.plainOpen(path).value.origin.error))
    ensures lib.plainOpen(path).Ok? && lib.plainOpen(path).value.origin.Ok?
            && lib.plainOpen(path).value.origin.value.listing.Failed? ==>
              r == Failed(Wrapped(ListingRemoteRefs, lib.plainOpen(path).value.origin.value.listing.error))
  {
    match lib.plainOpen(path)
    case Failed(e) => Failed(Wrapped(OpeningRepository, e))
    case Ok(repo) =>
      match repo.origin
      case Failed(e) => Failed(Wrapped(ObtainingRemote, e))
      case Ok(remote) =>
        match remote.listing
        case Failed(e) => Failed(Wrapped(ListingRemoteRefs, e))
        case Ok(refs) => Ok(refs)
  }

  /** The position of the first ref called `name`, if any. */
  function FirstMatch(refs: seq<Ref>, name: string): (r: Option<nat>)
    ensures r.Some? ==> r.value < |refs| && refs[r.value].name == name
    ensures r.Some? ==> forall j :: 0 <= j < r.value ==> refs[j].name != name
    ensures r.None? ==> forall j :: 0 <= j < |refs| ==> refs[j].name != name
  {
    if refs == [] then None
    else if refs[0].name == name then Some(0)
    else
      match FirstMatch(refs[1..], name)
      case None => None
      case Some(k) => Some(k + 1)
  }

  /** What `GetRemoteHeadHash(localPath, branch)` returns. */
  function RemoteHeadHash(lib: GitLibrary, localPath: string, branch: string): (r: Ret<Hash>)
    ensures r.status.Err? ==> r.value == ZeroHash
    ensures ListRemoteRefs(lib, localPath).Failed? ==> r.status == Err(ListRemoteRefs(lib, localPath).error)
  {
    var listed := ListRemoteRefs(lib, localPath);
    if listed.Failed? then Ret(ZeroHash, Err(listed.error))
    else
      var found := FirstMatch(listed.value, RefName(branch));
      if found.Some? then Ret(listed.value[found.value].hash, Nil)
      else Ret(ZeroHash, Err(BranchNotFound(branch, localPath)))
  }

  /** `GetRemoteHeadHash`: the early returns, then a scan of the listed refs
      that skips every ref not named `refs/heads/<branch>`. */
  method GetRemoteHeadHash(lib: GitLibrary, localPath: string, branch: string)
      returns (hash: Hash, status: Status)
    ensures Ret(hash, status) == RemoteHeadHash(lib, localPath, branch)
  {
    var listed := ListRemoteRefs(lib, localPath);
    if listed.Failed? {
      return ZeroHash, Err(listed.error);
    }
    var refs := listed.value;
    var target := RefName(branch);
    var i := 0;
    while i < |refs|
      invariant 0 <= i <= |refs|
      invariant forall j :: 0 <= j < i ==> refs[j].name != target
    {
      if refs[i].name != target {
        i := i + 1;
        continue;
      }
      return refs[i].hash, Nil;
    }
    return ZeroHash, Err(BranchNotFound(branch, localPath));
  }

  /** Success returns the hash of the FIRST listed ref named `refs/heads/<branch>`. */
  lemma RemoteHeadHashIsFirstMatch(lib: GitLibrary, localPath: string, branch: string, i: nat)
    requires ListRemoteRefs(lib, localPath).Ok?
    requires var refs := ListRemoteRefs(lib, localPath).value;
      i < |refs| && refs[i].name == RefName(branch) &&
      forall j :: 0 <= j < i ==> refs[j].name != RefName(branch)
    ensures RemoteHeadHash(lib, localPath, branch) == Ret(ListRemoteRefs(lib, localPath).value[i].hash, Nil)
  {
    var refs := ListRemoteRefs(lib, localPath).value;
    var m := FirstMatch(refs, RefName(branch));
    assert refs[i].name == RefName(branch);
  }

  /** No ref with the branch's name: the zero hash and the not-found error. */
  lemma RemoteHeadHashNotFound(lib: GitLibrary, localPath: string, branch: string)
    requires ListRemoteRefs(lib, localPath).Ok?
    requires var refs := ListRemoteRefs(lib, localPath).value;
      forall j :: 0 <= j < |refs| ==> refs[j].name != RefName(branch)
    ensures RemoteHeadHash(lib, localPath, branch) == Ret(ZeroHash, Err(BranchNotFound(branch, localPath)))
  {
  }

  /** The refs named `name`, in listing order. */
  function Named(refs: seq<Ref>, name: string): (r: seq<Ref>)
    ensures forall x :: x in r ==> x in refs && x.name == name
  {
    if refs == [] then []
    else if refs[0].name == name then [refs[0]] + Named(refs[1..], name)
    else Named(refs[1..], name)
  }

  /** The hash the search selects among `refs` for `name`. */
  function SelectedHash(refs: seq<Ref>, name: string): Option<Hash>
  {
    match FirstMatch(refs, name)
    case Some(i) => Some(refs[i].hash)
    case None => None
  }

  lemma {:induction false} SelectedIsFirstNamed(refs: seq<Ref>, name: string)
    ensures SelectedHash(refs, name) == if Named(refs, name) == [] then None else Some(Named(refs, name)[0].hash)
  {
    if refs != [] && refs[0].name != name {
      SelectedIsFirstNamed(refs[1..], name);
      var m := FirstMatch(refs[1..], name);
      if m.Some? {
        assert FirstMatch(refs, name) == Some(m.value + 1);
        assert refs[m.value + 1] == refs[1..][m.value];
      }
    }
  }

  /** Refs with other names never influence the result: two listings that
      agree on the refs named `refs/heads/<branch>` give the same answer. */
  lemma OtherRefsIgnored(lib1: GitLibrary, lib2: GitLibrary, localPath: string, branch: string)
    requires ListRemoteRefs(lib1, localPath).Ok? && ListRemoteRefs(lib2, localPath).Ok?
    requires Named(ListRemoteRefs(lib1, localPath).value, RefName(branch))
          == Named(ListRemoteRefs(lib2, localPath).value, RefName(branch))
    ensures RemoteHeadHash(lib1, localPath, branch) == RemoteHeadHash(lib2, localPath, branch)
  {
    var refs1, refs2 := ListRemoteRefs(lib1, localPath).value, ListRemoteRefs(lib2, localPath).value;
    SelectedIsFirstNamed(refs1, RefName(branch));
    SelectedIsFirstNamed(refs2, RefName(branch));
  }

  // ---------------------------------------------------------------------------
  // CloneGitRepo and PullGitRepo

  /** `CloneGitRepo(URL, branch, destPath)`: clone the single branch into `destPath`. */
  function CloneGitRepo(lib: GitLibrary, url: string, branch: string, destPath: string): (r: Status)
    ensures r.Nil? <==> lib.plainClone(destPath, CloneOptions(url, RefName(branch))).Nil?
    ensures r.Err? ==> r.error.Wrapped? && r.error.context == CloningBranch
                       && Is(r.error, lib.plainClone(destPath, CloneOptions(url, RefName(branch))).error)
  {
    match lib.plainClone(destPath, CloneOptions(url, RefName(branch)))
    case Nil => Nil
    case Err(e) => Err(Wrapped(CloningBranch, e))
  }

  /** `PullGitRepo(path, branch)`. */
  function PullGitRepo(lib: GitLibrary, path: string, branch: string): (r: Status)
    ensures r.Nil? <==> lib.plainOpen(path).Ok? && lib.plainOpen(path).value.worktree.Nil?
                        && lib.pull(path, RefName(branch)) in {Nil, Err(AlreadyUpToDate)}
    ensures r.Err? ==> r.error.Wrapped?
    ensures lib.plainOpen(path).Failed? ==> r == Err(Wrapped(OpeningRepository, lib.plainOpen(path).error))
    ensures lib.plainOpen(path).Ok? && lib.plainOpen(path).value.worktree.Err? ==>
              r == Err(Wrapped(GettingWorktree, lib.plainOpen(path).value.worktree.error))
  {
    match lib.plainOpen(path)
    case Failed(e) => Err(Wrapped(OpeningRepository, e))
    case Ok(repo) =>
      if repo.worktree.Err? then Err(Wrapped(GettingWorktree, repo.worktree.error))
      else
        match lib.pull(path, RefName(branch))
        case Err(AlreadyUpToDate) => Nil
        case Err(e) => Err(Wrapped(PullingBranch, e))
        case Nil => Nil
  }

  /** A pull that finds nothing new is a success. */
  lemma AlreadyUpToDateIsSuccess(lib: GitLibrary, path: string, branch: string)
    requires lib.plainOpen(path).Ok? && lib.plainOpen(path).value.worktree.Nil?
    requires lib.pull(path, RefName(branch)) == Err(AlreadyUpToDate)
    ensures PullGitRepo(lib, path, branch) == Nil
  {
  }

  /** Any other pull error comes back wrapped, and still identifies its cause. */
  lemma PullErrorWrapped(lib: GitLibrary, path: string, branch: string)
    requires lib.plainOpen(path).Ok? && lib.plainOpen(path).value.worktree.Nil?
    requires lib.pull(path, RefName(branch)).Err? && lib.pull(path, RefName(branch)) != Err(AlreadyUpToDate)
    ensures PullGitRepo(lib, path, branch) == Err(Wrapped(PullingBranch, lib.pull(path, RefName(branch)).error))
    ensures Is(PullGitRepo(lib, path, branch).error, lib.pull(path, RefName(branch)).error)
  {
  }
}
