/** main.go: the deployment controller's stage pipeline, its setup phase and
    its cancellable poll loop.

    The stages (Obtainer, Checker, Updater, TagDeducer, Builder, Pusher,
    Installer) are injected interfaces; here each one is given by the outcome
    it returns when invoked. What the controller does with those outcomes is
    recorded as the sequence of stage invocations it makes, with their
    arguments, in order.
 */
module Orchestrator {
  import opened Errors

  /** The parts of the process configuration that `setup` and `run` pass on. */
  datatype Config = Config(srcDirPath: string, imageName: string, installTimeout: int)

  datatype Stage = Obtain | Check | Update | Deduce | Build | Push | Install

  /** One invocation of a stage, with the arguments it was given. */
  datatype Call =
    | ObtainCall(destPath: string)
    | CheckCall
    | UpdateCall(path: string)
    | DeduceCall
    | BuildCall(contextPath: string, name: string, tag: string)
    | PushCall(name: string, tag: string)
    | InstallCall(imageName: string, imageTag: string, timeout: int)

  function StageOf(c: Call): Stage
  {
    match c
    case ObtainCall(_) => Obtain
    case CheckCall => Check
    case UpdateCall(_) => Update
    case DeduceCall => Deduce
    case BuildCall(_, _, _) => Build
    case PushCall(_, _) => Push
    case InstallCall(_, _, _) => Install
  }

  /** How many times stage `s` was invoked. */
  function Count(calls: seq<Call>, s: Stage): (n: nat)
    ensures n <= |calls|
  {
    if calls == [] then 0
    else (if StageOf(calls[0]) == s then 1 else 0) + Count(calls[1..], s)
  }

  lemma {:induction false} CountConcat(a: seq<Call>, b: seq<Call>, s: Stage)
    ensures Count(a + b, s) == Count(a, s) + Count(b, s)
  {
    if a == [] {
      assert a + b == b;
    } else {
      assert (a + b)[1..] == a[1..] + b;
      CountConcat(a[1..], b, s);
    }
  }

  /** A stage is invoked zero times exactly when no invocation is of that stage. */
  lemma {:induction false} CountAbsent(calls: seq<Call>, s: Stage)
    ensures Count(calls, s) == 0 <==> forall i :: 0 <= i < |calls| ==> StageOf(calls[i]) != s
  {
    if calls != [] {
      CountAbsent(calls[1..], s);
      assert forall i :: 1 <= i < |calls| ==> calls[i] == calls[1..][i - 1];
    }
  }

  /** What a set of invocations returns or is given, with the result. */
  datatype Attempt = Attempt(calls: seq<Call>, status: Status)

  // ---------------------------------------------------------------------------
  // buildAndInstall

  /** What Deduce, Build, Push and Install return if they are invoked. */
  datatype Pipeline = Pipeline(deduce: Ret<string>, build: Status, push: Status, install: Status)

  /** The error result of the k-th stage of the pipeline (0 = Deduce). */
  function PipelineStatus(p: Pipeline, k: nat): Status
    requires k < 4
  {
    if k == 0 then p.deduce.status else if k == 1 then p.build else if k == 2 then p.push else p.install
  }

  /** The context `buildAndInstall` adds to the k-th stage's error. */
  function PipelineContext(k: nat): Context
    requires k < 4
  {
    if k == 0 then DeducingTag else if k == 1 then BuildingImage else if k == 2 then PushingImage else InstallingImage
  }

  /** The four stages in order, all with the one deduced tag. */
  function PipelineCalls(cfg: Config, tag: string): (calls: seq<Call>)
    ensures |calls| == 4
  {
    [ DeduceCall,
      BuildCall(cfg.srcDirPath, cfg.imageName, tag),
      PushCall(cfg.imageName, tag),
      InstallCall(cfg.imageName, tag, cfg.installTimeout) ]
  }

  /** `buildAndInstall`: Deduce, Build, Push, Install, stopping at the first
      failure. The calls made are a prefix of the full pipeline for the deduced
      tag; a stage runs only after every earlier one succeeded; the result is
      nil exactly when all four succeeded, and otherwise wraps the error of the
      stage that failed. */
  function BuildAndInstall(cfg: Config, p: Pipeline): (r: Attempt)
    ensures 1 <= |r.calls| <= 4
    ensures r.calls == PipelineCalls(cfg, p.deduce.value)[..|r.calls|]
    ensures forall k :: 0 <= k < |r.calls| - 1 ==> PipelineStatus(p, k).Nil?
    ensures |r.calls| < 4 ==> PipelineStatus(p, |r.calls| - 1).Err?
    ensures r.status.Nil? <==> forall k :: 0 <= k < 4 ==> PipelineStatus(p, k).Nil?
    ensures r.status.Err? ==>
              r.status.error == Wrapped(PipelineContext(|r.calls| - 1), PipelineStatus(p, |r.calls| - 1).error)
  {
    var tag := p.deduce.value;
    var deduce := [DeduceCall];
    var build := deduce + [BuildCall(cfg.srcDirPath, cfg.imageName, tag)];
    var push := build + [PushCall(cfg.imageName, tag)];
    var install := push + [InstallCall(cfg.imageName, tag, cfg.installTimeout)];
    if p.deduce.status.Err? then Attempt(deduce, Err(Wrapped(DeducingTag, p.deduce.status.error)))
    else if p.build.Err? then Attempt(build, Err(Wrapped(BuildingImage, p.build.error)))
    else if p.push.Err? then Attempt(push, Err(Wrapped(PushingImage, p.push.error)))
    else if p.install.Err? then
      assert PipelineStatus(p, 3).Err?;
      Attempt(install, Err(Wrapped(InstallingImage, p.install.error)))
    else Attempt(install, Nil)
  }

  /** The number of stages `buildAndInstall` reaches: up to the first failure. */
  function PipelineReach(p: Pipeline): nat
  {
    if p.deduce.status.Err? then 1 else if p.build.Err? then 2 else if p.push.Err? then 3 else 4
  }

  lemma BuildAndInstallReach(cfg: Config, p: Pipeline)
    ensures |BuildAndInstall(cfg, p).calls| == PipelineReach(p)
  {
  }

  /** The error of a failed `buildAndInstall` still identifies the stage's own error. */
  lemma BuildAndInstallKeepsCause(cfg: Config, p: Pipeline, k: nat)
    requires k < 4 && PipelineStatus(p, k).Err?
    requires forall j :: 0 <= j < k ==> PipelineStatus(p, j).Nil?
    ensures BuildAndInstall(cfg, p).calls == PipelineCalls(cfg, p.deduce.value)[..k + 1]
    ensures BuildAndInstall(cfg, p).status.Err?
    ensures Is(BuildAndInstall(cfg, p).status.error, PipelineStatus(p, k).error)
  {
  }

  // ---------------------------------------------------------------------------
  // setup

  /** `setup`: Obtain, then one `buildAndInstall`; every failure is returned wrapped. */
  function Setup(cfg: Config, obtain: Status, p: Pipeline): (r: Attempt)
    ensures 1 <= |r.calls| <= 5 && r.calls[0] == ObtainCall(cfg.srcDirPath)
    ensures obtain.Err? ==> r.calls == [ObtainCall(cfg.srcDirPath)]
    ensures obtain.Err? ==> r.status.Err? && r.status.error.Wrapped? && r.status.error.context == ObtainingSource
                            && Is(r.status.error, obtain.error)
    ensures r.status.Nil? <==> obtain.Nil? && forall k :: 0 <= k < 4 ==> PipelineStatus(p, k).Nil?
    ensures obtain.Nil? ==> r.calls[1..] == BuildAndInstall(cfg, p).calls
    ensures obtain.Nil? && r.status.Err? ==>
              r.status.error.Wrapped? && r.status.error.context == InitialBuildAndInstall
              && Is(r.status.error, BuildAndInstall(cfg, p).status.error)
  {
    var obtained := [ObtainCall(cfg.srcDirPath)];
    if obtain.Err? then Attempt(obtained, Err(Wrapped(ObtainingSource, obtain.error)))
    else
      var initial := BuildAndInstall(cfg, p);
      if initial.status.Err? then
        Attempt(obtained + initial.calls, Err(Wrapped(InitialBuildAndInstall, initial.status.error)))
      else
        Attempt(obtained + initial.calls, Nil)
  }

  /** A successful setup invokes Obtain, Deduce, Build, Push and Install once
      each, in that order, with the deduced tag. */
  lemma SetupSucceeds(cfg: Config, p: Pipeline)
    requires forall k :: 0 <= k < 4 ==> PipelineStatus(p, k).Nil?
    ensures Setup(cfg, Nil, p) == Attempt([ObtainCall(cfg.srcDirPath)] + PipelineCalls(cfg, p.deduce.value), Nil)
  {
  }

  /** A failed Obtain: nothing is built, and the error identifies the cause. */
  lemma SetupObtainFails(cfg: Config, obtain: Status, p: Pipeline)
    requires obtain.Err?
    ensures forall s :: s != Obtain ==> Count(Setup(cfg, obtain, p).calls, s) == 0
    ensures Is(Setup(cfg, obtain, p).status.error, obtain.error)
  {
  }

  /** A failure of the k-th pipeline stage during setup: the stages after it
      are never invoked, and the fatal error identifies the stage's own error. */
  lemma SetupStopsAtFailure(cfg: Config, p: Pipeline, k: nat)
    requires k < 4 && PipelineStatus(p, k).Err?
    requires forall j :: 0 <= j < k ==> PipelineStatus(p, j).Nil?
    ensures Setup(cfg, Nil, p).calls == [ObtainCall(cfg.srcDirPath)] + PipelineCalls(cfg, p.deduce.value)[..k + 1]
    ensures Setup(cfg, Nil, p).status.Err?
    ensures Is(Setup(cfg, Nil, p).status.error, PipelineStatus(p, k).error)
  {
    BuildAndInstallKeepsCause(cfg, p, k);
    var r := Setup(cfg, Nil, p);
    IsTransitive(r.status.error, BuildAndInstall(cfg, p).status.error, PipelineStatus(p, k).error);
  }

  // ---------------------------------------------------------------------------
  // run

  /** What Check, Update and the pipeline return in one poll cycle, if invoked. */
  datatype Poll = Poll(check: Ret<bool>, update: Status, pipeline: Pipeline)

  /** One cycle of the loop: whether `done` is closed when the cycle begins,
      and what the stages return during it. */
  datatype Cycle = Cycle(done: bool, poll: Poll)

  /** Check succeeded and reported a change. */
  predicate Changed(c: Poll)
  {
    c.check.status.Nil? && c.check.value
  }

  /** The invocations of one cycle that was not cancelled. */
  function CycleCalls(cfg: Config, c: Poll): (calls: seq<Call>)
    ensures 1 <= |calls| && calls[0] == CheckCall
  {
    var checked := [CheckCall];
    if c.check.status.Err? then checked
    else if !c.check.value then checked
    else
      var updated := checked + [UpdateCall(cfg.srcDirPath)];
      if c.update.Err? then updated
      else updated + BuildAndInstall(cfg, c.pipeline).calls
  }

  /** The invocations of the loop over `cycles`: it stops at the first cycle
      that finds `done` closed, and at no other. */
  function RunCalls(cfg: Config, cycles: seq<Cycle>): seq<Call>
  {
    if cycles == [] || cycles[0].done then []
    else CycleCalls(cfg, cycles[0].poll) + RunCalls(cfg, cycles[1..])
  }

  /** `run`: the poll loop, over a finite horizon of cycles. Each cycle first
      tests `done` and returns if it is closed; otherwise it calls Check, and
      only on a change Update and then `buildAndInstall`. Every failure ends the
      cycle, never the loop. `polled` is the number of cycles begun; how often
      each stage is then invoked is stated about `RunCalls` by `RunCounts`. */
  method Run(cfg: Config, cycles: seq<Cycle>) returns (calls: seq<Call>, polled: nat)
    ensures polled <= |cycles|
    ensures forall i :: 0 <= i < polled ==> !cycles[i].done
    ensures polled < |cycles| ==> cycles[polled].done
    ensures calls == RunCalls(cfg, cycles)
  {
    calls, polled := [], 0;
    assert cycles[0..] == cycles;
    while polled < |cycles|
      invariant polled <= |cycles|
      invariant forall i :: 0 <= i < polled ==> !cycles[i].done
      invariant RunCalls(cfg, cycles) == calls + RunCalls(cfg, cycles[polled..])
    {
      if cycles[polled].done {
        break;
      }
      // time.Sleep(pollPeriod) is not modelled.
      var cycleCalls := PollOnce(cfg, cycles[polled].poll);
      RunStep(cfg, cycles, polled, calls, cycleCalls);
      calls, polled := calls + cycleCalls, polled + 1;
    }
    RunStop(cfg, cycles, polled, calls);
  }

  /** An uncancelled cycle contributes its own calls, then the loop goes on. */
  lemma RunStep(cfg: Config, cycles: seq<Cycle>, i: nat, calls: seq<Call>, cycleCalls: seq<Call>)
    requires i < |cycles| && !cycles[i].done
    requires RunCalls(cfg, cycles) == calls + RunCalls(cfg, cycles[i..])
    requires cycleCalls == CycleCalls(cfg, cycles[i].poll)
    ensures RunCalls(cfg, cycles) == (calls + cycleCalls) + RunCalls(cfg, cycles[i + 1..])
  {
    var rest := cycles[i..];
    assert rest[0] == cycles[i] && rest[1..] == cycles[i + 1..];
  }

  /** Where the loop stops, nothing more is invoked. */
  lemma RunStop(cfg: Config, cycles: seq<Cycle>, i: nat, calls: seq<Call>)
    requires i <= |cycles| && (i < |cycles| ==> cycles[i].done)
    requires RunCalls(cfg, cycles) == calls + RunCalls(cfg, cycles[i..])
    ensures RunCalls(cfg, cycles) == calls
  {
    if i == |cycles| {
      assert cycles[i..] == [];
    }
  }

  /** Over the cycles `Run` stops after, Check is invoked exactly once per
      cycle begun, and Obtain never. */
  lemma RunCounts(cfg: Config, cycles: seq<Cycle>, polled: nat)
    requires polled <= |cycles|
    requires forall i :: 0 <= i < polled ==> !cycles[i].done
    requires polled < |cycles| ==> cycles[polled].done
    ensures Count(RunCalls(cfg, cycles), Check) == polled
    ensures Count(RunCalls(cfg, cycles), Obtain) == 0
  {
    if polled < |cycles| {
      CancellationStopsRun(cfg, cycles, polled);
    } else {
      assert cycles[..polled] == cycles;
    }
    PollsOncePerCycle(cfg, cycles[..polled]);
  }

  /** The body of one uncancelled iteration of `run`'s loop: each early
      `return` here is a `continue` there. */
  method PollOnce(cfg: Config, c: Poll) returns (calls: seq<Call>)
    ensures calls == CycleCalls(cfg, c)
  {
    calls := [CheckCall];
    if c.check.status.Err? {
      return;
    }
    if !c.check.value {
      return;
    }
    calls := calls + [UpdateCall(cfg.srcDirPath)];
    if c.update.Err? {
      return;
    }
    var attempt := BuildAndInstall(cfg, c.pipeline);
    calls := calls + attempt.calls;
  }

  /** Once `done` is found closed, no later cycle invokes anything. */
  lemma {:induction false} CancellationStopsRun(cfg: Config, cycles: seq<Cycle>, k: nat)
    requires k < |cycles| && cycles[k].done
    ensures RunCalls(cfg, cycles) == RunCalls(cfg, cycles[..k])
  {
    if k > 0 && !cycles[0].done {
      assert cycles[..k][1..] == cycles[1..][..k - 1];
      CancellationStopsRun(cfg, cycles[1..], k - 1);
    }
  }

  /** Position of each stage within a poll cycle. */
  function Rank(s: Stage): nat
    requires s != Obtain
  {
    match s
    case Check => 0
    case Update => 1
    case Deduce => 2
    case Build => 3
    case Push => 4
    case Install => 5
  }

  /** How many stages a cycle reaches: up to and including the first that
      fails, or the last. */
  function Reach(c: Poll): nat
  {
    if !Changed(c) then 1
    else if c.update.Err? then 2
    else 2 + PipelineReach(c.pipeline)
  }

  /** Everything one cycle can invoke, in order. */
  function FullCycle(cfg: Config, tag: string): (calls: seq<Call>)
    ensures |calls| == 6
    ensures forall i :: 0 <= i < 6 ==> StageOf(calls[i]) != Obtain && Rank(StageOf(calls[i])) == i
  {
    [CheckCall, UpdateCall(cfg.srcDirPath)] + PipelineCalls(cfg, tag)
  }

  /** In one cycle every stage up to its reach is invoked once, and none after it. */
  lemma CycleCounts(cfg: Config, c: Poll)
    ensures Count(CycleCalls(cfg, c), Obtain) == 0
    ensures forall s :: s != Obtain ==> Count(CycleCalls(cfg, c), s) == if Rank(s) < Reach(c) then 1 else 0
  {
    var calls := CycleCalls(cfg, c);
    var full := FullCycle(cfg, c.pipeline.deduce.value);
    assert calls == full[..Reach(c)];
    forall s
      ensures Count(calls, s) == if s == Obtain then 0 else if Rank(s) < Reach(c) then 1 else 0
    {
      RankedPrefixCount(full, Reach(c), s);
    }
  }

  /** In a prefix of a sequence holding each stage but Obtain at its rank,
      each stage of lower rank than the prefix's length appears once. */
  lemma {:induction false} RankedPrefixCount(calls: seq<Call>, n: nat, s: Stage)
    requires n <= |calls| == 6
    requires forall i :: 0 <= i < 6 ==> StageOf(calls[i]) != Obtain && Rank(StageOf(calls[i])) == i
    ensures Count(calls[..n], s) == if s == Obtain then 0 else if Rank(s) < n then 1 else 0
  {
    if n == 0 {
      assert calls[..0] == [];
    } else {
      assert calls[..n] == calls[..n - 1] + [calls[n - 1]];
      RankedPrefixCount(calls, n - 1, s);
      CountConcat(calls[..n - 1], [calls[n - 1]], s);
      assert [calls[n - 1]][1..] == [];
    }
  }

  /** Over cycles that all reach the same stage, each stage up to it is invoked
      once per cycle and every later stage never. */
  lemma {:induction false} UniformCycleCounts(cfg: Config, cycles: seq<Cycle>, n: nat, s: Stage)
    requires s != Obtain
    requires forall i :: 0 <= i < |cycles| ==> !cycles[i].done && Reach(cycles[i].poll) == n
    ensures Count(RunCalls(cfg, cycles), s) == if Rank(s) < n then |cycles| else 0
  {
    if cycles != [] {
      CycleCounts(cfg, cycles[0].poll);
      CountConcat(CycleCalls(cfg, cycles[0].poll), RunCalls(cfg, cycles[1..]), s);
      UniformCycleCounts(cfg, cycles[1..], n, s);
    }
  }

  /** In cycle `c`, stage `s` is the first to fail. */
  predicate FailsAt(c: Poll, s: Stage)
  {
    match s
    case Obtain => false
    case Check => c.check.status.Err?
    case Update => Changed(c) && c.update.Err?
    case Deduce => Changed(c) && c.update.Nil? && c.pipeline.deduce.status.Err?
    case Build => Changed(c) && c.update.Nil? && c.pipeline.deduce.status.Nil? && c.pipeline.build.Err?
    case Push => Changed(c) && c.update.Nil? && c.pipeline.deduce.status.Nil? && c.pipeline.build.Nil?
                 && c.pipeline.push.Err?
    case Install => Changed(c) && c.update.Nil? && c.pipeline.deduce.status.Nil? && c.pipeline.build.Nil?
                    && c.pipeline.push.Nil? && c.pipeline.install.Err?
  }

  /** Stage `s` fails in every one of n cycles: every stage up to and including
      `s` is invoked exactly n times, every stage after it never, and the loop
      went on to begin all n cycles. */
  lemma RepeatedFailure(cfg: Config, cycles: seq<Cycle>, s: Stage)
    requires s != Obtain
    requires forall i :: 0 <= i < |cycles| ==> !cycles[i].done && FailsAt(cycles[i].poll, s)
    ensures forall t :: t != Obtain ==>
              Count(RunCalls(cfg, cycles), t) == if Rank(t) <= Rank(s) then |cycles| else 0
  {
    forall i | 0 <= i < |cycles|
      ensures Reach(cycles[i].poll) == Rank(s) + 1
    {
      assert FailsAt(cycles[i].poll, s);
    }
    forall t | t != Obtain
      ensures Count(RunCalls(cfg, cycles), t) == if Rank(t) <= Rank(s) then |cycles| else 0
    {
      UniformCycleCounts(cfg, cycles, Rank(s) + 1, t);
    }
  }

  /** Every cycle succeeds: each of the six stages is invoked once per cycle. */
  lemma RepeatedDeployment(cfg: Config, cycles: seq<Cycle>)
    requires forall i :: 0 <= i < |cycles| ==>
               !cycles[i].done && Changed(cycles[i].poll) && cycles[i].poll.update.Nil?
               && PipelineReach(cycles[i].poll.pipeline) == 4 && cycles[i].poll.pipeline.install.Nil?
    ensures forall t :: t != Obtain ==> Count(RunCalls(cfg, cycles), t) == |cycles|
  {
    forall t | t != Obtain
      ensures Count(RunCalls(cfg, cycles), t) == |cycles|
    {
      UniformCycleCounts(cfg, cycles, 6, t);
    }
  }

  /** A cycle whose Check fails or reports no change invokes nothing but Check. */
  lemma QuietCycle(cfg: Config, c: Poll)
    requires !Changed(c)
    ensures CycleCalls(cfg, c) == [CheckCall]
    ensures forall s :: s != Check ==> Count(CycleCalls(cfg, c), s) == 0
  {
  }

  /** A cycle that detects a change and succeeds throughout: Check, Update on the
      source directory, then the four pipeline stages with the deduced tag. */
  lemma DeployingCycle(cfg: Config, c: Poll)
    requires Changed(c) && c.update.Nil?
    requires forall k :: 0 <= k < 4 ==> PipelineStatus(c.pipeline, k).Nil?
    ensures CycleCalls(cfg, c) == [CheckCall, UpdateCall(cfg.srcDirPath)] + PipelineCalls(cfg, c.pipeline.deduce.value)
  {
  }

  // ---------------------------------------------------------------------------
  // main

  /** The cycles `main` runs: it passes a nil `done` channel, which is never ready. */
  function NeverCancelled(polls: seq<Poll>): (cycles: seq<Cycle>)
    ensures |cycles| == |polls|
    ensures forall i :: 0 <= i < |polls| ==> cycles[i] == Cycle(false, polls[i])
  {
    if polls == [] then [] else [Cycle(false, polls[0])] + NeverCancelled(polls[1..])
  }

  /** `main` after configuration: a setup error is fatal (the process exits
      with it); otherwise the loop runs and never stops of its own accord. */
  function Launch(cfg: Config, obtain: Status, initial: Pipeline, polls: seq<Poll>): (r: Attempt)
    ensures r.status == Setup(cfg, obtain, initial).status
    ensures |Setup(cfg, obtain, initial).calls| <= |r.calls|
    ensures r.calls[..|Setup(cfg, obtain, initial).calls|] == Setup(cfg, obtain, initial).calls
    ensures Setup(cfg, obtain, initial).status.Err? ==> r.calls == Setup(cfg, obtain, initial).calls
    ensures Setup(cfg, obtain, initial).status.Nil? ==>
              r.calls[|Setup(cfg, obtain, initial).calls|..] == RunCalls(cfg, NeverCancelled(polls))
  {
    var initialRun := Setup(cfg, obtain, initial);
    if initialRun.status.Err? then initialRun
    else Attempt(initialRun.calls + RunCalls(cfg, NeverCancelled(polls)), Nil)
  }

  /** Whether setup fails decides everything: on failure the loop is never
      entered; on success it polls once per cycle, whatever the stages return. */
  lemma LaunchPollsIffSetupSucceeds(cfg: Config, obtain: Status, initial: Pipeline, polls: seq<Poll>)
    ensures var initialRun := Setup(cfg, obtain, initial);
      Count(Launch(cfg, obtain, initial, polls).calls, Check) == if initialRun.status.Err? then 0 else |polls|
    ensures Launch(cfg, obtain, initial, polls).status == Setup(cfg, obtain, initial).status
  {
    var initialRun := Setup(cfg, obtain, initial);
    assert Count(initialRun.calls, Check) == 0 by {
      if obtain.Nil? {
        assert initialRun.calls == [ObtainCall(cfg.srcDirPath)] + BuildAndInstall(cfg, initial).calls;
        CountConcat([ObtainCall(cfg.srcDirPath)], BuildAndInstall(cfg, initial).calls, Check);
        NoCheckInPipeline(cfg, initial);
      }
    }
    if initialRun.status.Nil? {
      var cycles := NeverCancelled(polls);
      CountConcat(initialRun.calls, RunCalls(cfg, cycles), Check);
      PollsOncePerCycle(cfg, cycles);
    }
  }

  lemma NoCheckInPipeline(cfg: Config, p: Pipeline)
    ensures Count(BuildAndInstall(cfg, p).calls, Check) == 0
  {
    var r := BuildAndInstall(cfg, p);
    var full := PipelineCalls(cfg, p.deduce.value);
    assert forall i :: 0 <= i < |r.calls| ==> r.calls[i] == full[i];
    CountAbsent(r.calls, Check);
  }

  /** Without cancellation, every cycle calls Check exactly once, and the
      loop never calls Obtain. */
  lemma {:induction false} PollsOncePerCycle(cfg: Config, cycles: seq<Cycle>)
    requires forall i :: 0 <= i < |cycles| ==> !cycles[i].done
    ensures Count(RunCalls(cfg, cycles), Check) == |cycles|
    ensures Count(RunCalls(cfg, cycles), Obtain) == 0
  {
    if cycles != [] {
      CycleCounts(cfg, cycles[0].poll);
      CountConcat(CycleCalls(cfg, cycles[0].poll), RunCalls(cfg, cycles[1..]), Check);
      CountConcat(CycleCalls(cfg, cycles[0].poll), RunCalls(cfg, cycles[1..]), Obtain);
      PollsOncePerCycle(cfg, cycles[1..]);
    }
  }
}
