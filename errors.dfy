/** Go's `error` values as the deployment controller produces and inspects them.

    Every adapter and the orchestrator return either nil or an error that wraps
    the cause with `fmt.Errorf("<context>: %w", cause)`. The text of the context
    is not modelled, only which context it is; `errors.Is` walks the chain of
    wrapped causes.
 */
module Errors {

  datatype Option<+T> = None | Some(value: T)

  /** The fixed prefix each `fmt.Errorf(...: %w)` call site adds. */
  datatype Context =
    // main.go
    | ObtainingSource | InitialBuildAndInstall
    | DeducingTag | BuildingImage | PushingImage | InstallingImage
    // pkg/check, pkg/obtain, pkg/tagdeduce
    | GettingLocalHash | GettingRemoteHash
    | PreparingFilesystem | CloningRepo | PullingRepo
    // pkg/git
    | OpeningRepository | ObtainingHead | ObtainingRemote | ListingRemoteRefs
    | CloningBranch | GettingWorktree | PullingBranch

  datatype Error =
      /** An error raised outside the model: by go-git, a tool, the filesystem or a test double. */
    | Opaque(id: nat)
      /** go-git's `NoErrAlreadyUpToDate` sentinel. */
    | AlreadyUpToDate
      /** The "unable to locate target branch" error, created without a cause. */
    | BranchNotFound(branch: string, path: string)
    | Wrapped(context: Context, cause: Error)

  /** Go's `error` result: nil or an error. */
  datatype Status = Nil | Err(error: Error)

  /** A library result whose value is meaningless when it failed. */
  datatype Result<T> = Ok(value: T) | Failed(error: Error)

  /** Go's `(T, error)` pair: the value is defined (a zero value) even on failure. */
  datatype Ret<T> = Ret(value: T, status: Status)

  /** `errors.Is(e, target)`: `target` is `e` or one of the causes it wraps. */
  predicate Is(e: Error, target: Error)
  {
    e == target || (e.Wrapped? && Is(e.cause, target))
  }

  /** Wrapping twice keeps identity checks against the innermost cause. */
  lemma {:induction false} IsTransitive(a: Error, b: Error, c: Error)
    requires Is(a, b) && Is(b, c)
    ensures Is(a, c)
    decreases a
  {
    if a != b {
      IsTransitive(a.cause, b, c);
    }
  }
}
