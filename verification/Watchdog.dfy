/** Running a script under a watchdog: ScriptConsumer.Handle (internal/plugin/host.go) and
    Deps.RunJob with its failure report (internal/jobrunner/jobrunner.go), over all interleavings of
    the script, the context's timer and the watchdog goroutine. */
module Watchdog {
  import opened Registry

  // ---------------------------------------------------------------- the protocol

  /** How the program would end if left alone. */
  datatype Program = Completes | Throws | Panics | Diverges

  /** A job also has to be found first, and reports its failures if a publisher is configured. */
  datatype Kind = Plugin | Job(found: bool, publisher: bool)

  /** One invocation. `ready` fails when a plugin has no program, or a job's script does not compile
      or get a working directory; the context can become done while the script runs if it has a
      `timeout` or its caller `cancels`. */
  datatype Call = Call(
    kind: Kind,
    ready: bool,
    injectPanics: bool,
    program: Program,
    timeout: bool,
    cancels: bool)

  datatype Result = Nil | NoScript | NotReady | ScriptError | Interrupted | PanicError | Panicking

  /** Where the calling goroutine is: a job is resolved first; its script runs like a plugin's;
      then a failed job reports before it returns. */
  datatype Pc =
    | Resolving | Starting | Injecting | Executing | Unwinding(raw: Result) | Closed(res: Result)
    | Reporting(err: Result) | Reported(err: Result) | Finished(result: Result)

  datatype Dog = NotStarted | Watching | Exited

  datatype State = State(
    pc: Pc,
    done: bool,          // the context is done
    expired: bool,       // because of its deadline or its caller, not of the call's own cancel
    stop: bool,          // the stop channel is closed
    dog: Dog,
    interrupted: bool,   // the VM's interrupt flag
    reports: seq<bool>)  // the publish attempts so far, each with whether the context was live

  datatype Step =
    | Resolve | Start | Inject | ScriptEnds | ScriptStopped | CloseStop | Return | Report | Leave
    | Expire | DogBarks | DogLeaves

  function Initial(c: Call): State {
    State(if c.kind.Job? then Resolving else Starting, false, false, false, NotStarted, false, [])
  }

  predicate Bounded(c: Call) { c.timeout || c.cancels }

  predicate Found(c: Call) { c.kind.Job? ==> c.kind.found }

  /** The call gets as far as running its script. */
  predicate Runs(c: Call) { Found(c) && c.ready && !c.injectPanics }

  /** The program's own ending. */
  function Natural(p: Program): Result {
    match p
    case Completes => Nil
    case Throws => ScriptError
    case Panics => Panicking
    case Diverges => Nil
  }

  /** What the deferred recover makes of a result; the job runner has none. */
  function Recovered(kind: Kind, raw: Result): Result {
    if raw == Panicking && kind == Plugin then PanicError else raw
  }

  predicate IsError(r: Result) { r != Nil && r != Panicking }

  predicate Enabled(c: Call, s: State, step: Step) {
    match step
    case Resolve => s.pc == Resolving && c.kind.Job?
    case Start => s.pc == Starting
    case Inject => s.pc == Injecting
    case ScriptEnds => s.pc == Executing && c.program != Diverges
    case ScriptStopped => s.pc == Executing && s.interrupted
    case CloseStop => s.pc.Unwinding?
    case Return => s.pc.Closed?
    case Report => s.pc.Reporting? && c.kind.Job?
    case Leave => s.pc.Reported?
    case Expire => !s.done && Bounded(c)
    case DogBarks => s.dog == Watching && s.done
    case DogLeaves => s.dog == Watching && s.stop
  }

  /** One step. Handle's own `cancel` is deferred, so a context with a timeout is done once Handle
      returns; RunJob reports on the context its caller gave it, before returning. */
  function Do(c: Call, s: State, step: Step): State
    requires Enabled(c, s, step)
  {
    match step
    case Resolve => s.(pc := if c.kind.found then Starting else Reporting(NoScript))
    case Start => s.(pc := if c.ready then Injecting else Closed(NotReady))
    case Inject =>
      if c.injectPanics then s.(pc := Closed(Panicking))
      else s.(pc := Executing, dog := Watching)
    case ScriptEnds => s.(pc := Unwinding(Natural(c.program)))
    case ScriptStopped => s.(pc := Unwinding(Interrupted))
    case CloseStop => s.(pc := Closed(Recovered(c.kind, s.pc.raw)), stop := true)
    case Return =>
      var r := s.pc.res;
      if c.kind == Plugin then s.(pc := Finished(r), done := s.done || (c.ready && c.timeout))
      else if IsError(r) then s.(pc := Reporting(r))
      else s.(pc := Finished(r))
    case Report =>
      s.(pc := Reported(s.pc.err), reports := s.reports + if c.kind.publisher then [!s.done] else [])
    case Leave => s.(pc := Finished(s.pc.err))
    case Expire => s.(done := true, expired := true)
    case DogBarks => s.(interrupted := true, dog := Exited)
    case DogLeaves => s.(dog := Exited)
  }

  ghost predicate Run(c: Call, s: State, steps: seq<Step>, t: State)
    decreases |steps|
  {
    if steps == [] then s == t
    else Enabled(c, s, steps[0]) && Run(c, Do(c, s, steps[0]), steps[1..], t)
  }

  // ---------------------------------------------------------------- what every step keeps

  /** The script has ended, or will not be run. */
  predicate Ended(s: State) {
    s.pc.Unwinding? || s.pc.Closed? || s.pc.Reporting? || s.pc.Reported? || s.pc.Finished?
  }

  function Ending(s: State): Result
    requires Ended(s)
  {
    match s.pc
    case Unwinding(r) => r
    case Closed(r) => r
    case Reporting(r) => r
    case Reported(r) => r
    case Finished(r) => r
  }

  /** How a result can have come about. */
  predicate ResultOk(c: Call, s: State, r: Result) {
    match r
    case Nil => Runs(c) && c.program == Completes
    case NoScript => !Found(c)
    case NotReady => Found(c) && !c.ready
    case ScriptError => Runs(c) && c.program == Throws
    case Interrupted => Runs(c) && s.expired
    case PanicError => Runs(c) && c.kind == Plugin && c.program == Panics
    case Panicking => Found(c) && c.ready && (c.injectPanics || c.program == Panics)
  }

  /** Only jobs report, only errors, and at most once: the attempts made so far are none or one,
      according to where the job is. */
  predicate ReportsOk(c: Call, s: State) {
    && (s.pc.Reporting? || s.pc.Reported? ==> IsError(s.pc.err))
    && |s.reports| ==
       (if c.kind.Job? && c.kind.publisher && (s.pc.Reported? || (s.pc.Finished? && IsError(s.pc.result)))
        then 1 else 0)
    && (s.reports != [] ==> if s.reports[0] then Ended(s) && Ending(s) != Interrupted else s.expired)
  }

  predicate CallOk(c: Call, s: State) {
    && (s.pc == Resolving || s.pc.Reporting? || s.pc.Reported? ==> c.kind.Job?)
    && (s.interrupted ==> s.done && s.dog == Exited)
    && (s.dog == Exited && !s.stop ==> s.interrupted)
    && (s.done && !(c.kind == Plugin && s.pc.Finished?) ==> s.expired)
    && (s.expired ==> s.done && Bounded(c))
    && (c.kind == Plugin && s.pc.Finished? && c.ready && c.timeout ==> s.done)
    && (s.dog == NotStarted <==>
          s.pc == Resolving || s.pc == Starting || s.pc == Injecting || (Ended(s) && !Runs(c)))
    && (s.stop <==> s.dog != NotStarted && Ended(s) && !s.pc.Unwinding?)
    && (s.pc == Starting || s.pc == Injecting || s.pc == Executing ==> Found(c))
    && (s.pc == Injecting || s.pc == Executing ==> c.ready)
    && (s.pc == Executing || s.pc.Unwinding? ==> Runs(c))
    && (Ended(s) ==> ResultOk(c, s, Ending(s)))
    && (!s.pc.Unwinding? && Ended(s) && c.kind == Plugin && Ending(s) == Panicking ==> c.injectPanics)
  }

  predicate Inv(c: Call, s: State) { CallOk(c, s) && ReportsOk(c, s) }

  lemma CallStep(c: Call, s: State, step: Step)
    requires CallOk(c, s) && Enabled(c, s, step)
    ensures CallOk(c, Do(c, s, step))
  {
    match step
    case ScriptEnds =>
    case _ =>
  }

  lemma ReportStep(c: Call, s: State, step: Step)
    requires Inv(c, s) && Enabled(c, s, step)
    ensures ReportsOk(c, Do(c, s, step))
  {
    match step
    case Report => assert s.pc.err == Interrupted ==> s.expired;
    case _ =>
  }

  lemma StepKeepsInv(c: Call, s: State, step: Step)
    requires Inv(c, s) && Enabled(c, s, step)
    ensures Inv(c, Do(c, s, step))
  {
    CallStep(c, s, step);
    ReportStep(c, s, step);
  }

  lemma {:induction false} RunKeepsInv(c: Call, s: State, steps: seq<Step>, t: State)
    requires Inv(c, s) && Run(c, s, steps, t)
    ensures Inv(c, t)
    decreases |steps|
  {
    if steps != [] {
      StepKeepsInv(c, s, steps[0]);
      RunKeepsInv(c, Do(c, s, steps[0]), steps[1..], t);
    }
  }

  // ---------------------------------------------------------------- safety over all interleavings

  /** The VM is interrupted only after the context is done, and while the script runs only because
      the context expired. Once the call has returned or panicked, the watchdog either never
      started or can leave, and a context with a timeout is released. A nil result means that the
      program completed without error; an interrupted one that the context had expired; a plugin's
      own panic is always recovered. */
  lemma WatchdogSafety(c: Call, steps: seq<Step>, t: State)
    requires Run(c, Initial(c), steps, t)
    ensures t.interrupted ==> t.done
    ensures t.interrupted && t.pc == Executing ==> t.expired
    ensures t.pc.Finished? && t.dog == Watching ==> t.stop && Enabled(c, t, DogLeaves)
    ensures t.pc.Finished? && c.kind == Plugin && c.ready && c.timeout ==> t.done
    ensures t.pc.Finished? && t.pc.result == Nil ==> Runs(c) && c.program == Completes
    ensures t.pc.Finished? && t.pc.result == Interrupted ==> t.expired
    ensures t.pc.Finished? && c.kind == Plugin && t.pc.result == Panicking ==>
              c.injectPanics && t.dog == NotStarted
  {
    RunKeepsInv(c, Initial(c), steps, t);
  }

  /** What the registry sees of a returned call. */
  function OutcomeOf(r: Result): Outcome {
    match r
    case Nil => Ok
    case Panicking => Panicked
    case _ => Failed
  }

  /** Every way a plugin call can go wrong, a panic before its own recover is installed included,
      is counted as a failure of the dispatch, so that the delivery is not acknowledged. */
  lemma FailuresAreCounted(c: Call, steps: seq<Step>, t: State, earlier: seq<Outcome>)
    requires Run(c, Initial(c), steps, t) && t.pc.Finished? && c.kind == Plugin
    requires !c.ready || c.injectPanics || c.program != Completes || t.pc.result == Interrupted
    ensures Failures(earlier + [OutcomeOf(t.pc.result)]) == Failures(earlier) + 1
    ensures exists o :: o in earlier + [OutcomeOf(t.pc.result)] && o != Ok
  {
    RunKeepsInv(c, Initial(c), steps, t);
    FailuresStep(earlier, OutcomeOf(t.pc.result));
    NoFailuresIff(earlier + [OutcomeOf(t.pc.result)]);
  }

  /** A plugin call counts as a failure of the dispatch iff it did not return nil, and it returns nil
      only if its program ran to its end without an error. */
  lemma OnlySuccessCounts(c: Call, steps: seq<Step>, t: State, earlier: seq<Outcome>)
    requires Run(c, Initial(c), steps, t) && t.pc.Finished? && c.kind == Plugin
    ensures Failures(earlier + [OutcomeOf(t.pc.result)]) == Failures(earlier) + if t.pc.result == Nil then 0 else 1
    ensures t.pc.result == Nil ==> Runs(c) && c.program == Completes
    ensures OutcomeOf(t.pc.result) == Panicked <==> t.pc.result == Panicking
  {
    RunKeepsInv(c, Initial(c), steps, t);
    FailuresStep(earlier, OutcomeOf(t.pc.result));
  }

  /** Unless the context expires, the call's result is exactly the program's own ending. */
  lemma UnexpiredResult(c: Call, steps: seq<Step>, t: State)
    requires Run(c, Initial(c), steps, t) && t.pc.Finished? && !t.expired
    ensures t.pc.result ==
            if c.kind.Job? && !c.kind.found then NoScript
            else if !c.ready then NotReady
            else if c.injectPanics then Panicking
            else match c.program
              case Completes => Nil
              case Throws => ScriptError
              case Panics => if c.kind.Plugin? then PanicError else Panicking
              case Diverges => t.pc.result
    ensures Runs(c) ==> c.program != Diverges
  {
    RunKeepsInv(c, Initial(c), steps, t);
  }

  // ---------------------------------------------------------------- the failure report

  lemma ReportsOnly(c: Call, s: State, step: Step)
    requires Enabled(c, s, step) && c.kind.Job? && s.reports == []
    ensures Do(c, s, step).reports == [] ||
            (step == Report && Do(c, s, step).reports == [!s.done])
    ensures Do(c, s, step).done == (s.done || step == Expire)
  {
  }

  /** An attempt is on record with whether the context was live when it was made. */
  lemma {:induction false} ReportTime(c: Call, s: State, steps: seq<Step>, t: State) returns (i: nat)
    requires Inv(c, s) && Run(c, s, steps, t) && c.kind.Job? && s.reports == [] && t.reports != []
    ensures i < |steps| && steps[i] == Report && t.reports == [!s.done && Expire !in steps[..i]]
    decreases |steps|
  {
    var s1 := Do(c, s, steps[0]);
    StepKeepsInv(c, s, steps[0]);
    ReportsOnly(c, s, steps[0]);
    if s1.reports != [] {
      i := 0;
      ReportsKept(c, s1, steps[1..], t);
    } else {
      i := ReportTime(c, s1, steps[1..], t);
      assert steps[..i + 1] == [steps[0]] + steps[1..][..i];
      i := i + 1;
    }
  }

  lemma {:induction false} ReportsKept(c: Call, s: State, steps: seq<Step>, t: State)
    requires Inv(c, s) && Run(c, s, steps, t) && s.reports != []
    ensures t.reports == s.reports
    decreases |steps|
  {
    if steps == [] {
    } else {
      StepKeepsInv(c, s, steps[0]);
      ReportsKept(c, Do(c, s, steps[0]), steps[1..], t);
    }
  }

  /** The context can expire at any moment, and the watchdog reacts whenever it is there to. */
  lemma TimerIsFree(c: Call, s: State)
    ensures Enabled(c, s, Expire) <==> !s.done && (c.timeout || c.cancels)
    ensures Enabled(c, s, DogBarks) <==> s.dog == Watching && s.done
    ensures Enabled(c, s, DogLeaves) <==> s.dog == Watching && s.stop
  {
  }

  /** A job's failure report, over all interleavings: never more than one publish attempt; exactly
      one when RunJob returns an error, from resolving or from running, and a publisher is
      configured; none when it returns nil or panics. The attempt is made on the job's own context:
      it is live iff that context had not expired before the attempt, so never after a wall-clock
      interrupt. */
  lemma FailureReport(c: Call, steps: seq<Step>, t: State)
    requires Run(c, Initial(c), steps, t) && c.kind.Job?
    ensures |t.reports| <= 1
    ensures t.pc.Finished? ==>
              |t.reports| == if c.kind.publisher && t.pc.result != Nil && t.pc.result != Panicking then 1 else 0
    ensures t.reports != [] ==>
              exists i :: 0 <= i < |steps| && steps[i] == Report && t.reports == [Expire !in steps[..i]]
    ensures t.pc.Finished? && t.pc.result == Interrupted ==> true !in t.reports
  {
    RunKeepsInv(c, Initial(c), steps, t);
    if t.reports != [] {
      var i := ReportTime(c, Initial(c), steps, t);
      assert t.reports == [Expire !in steps[..i]];
    }
  }

  /** The steps of a job whose script throws, its context expiring after the failure or not. */
  function ThrowingSteps(late: bool): seq<Step> {
    [Resolve, Start, Inject, ScriptEnds, CloseStop, Return] + (if late then [Expire] else []) + [Report, Leave]
  }

  function FailedState(c: Call): State {
    Initial(c).(pc := Reporting(ScriptError), stop := true, dog := Watching)
  }

  function ReportedState(c: Call, late: bool): State {
    FailedState(c).(pc := Finished(ScriptError), done := late, expired := late, reports := [!late])
  }

  lemma RunCons(c: Call, s: State, step: Step, steps: seq<Step>, t: State)
    requires Enabled(c, s, step) && Run(c, Do(c, s, step), steps, t)
    ensures Run(c, s, [step] + steps, t)
  {
    assert ([step] + steps)[1..] == steps;
  }

  lemma ReportsNow(c: Call, s: State, late: bool)
    requires c.kind == Job(true, true) && s == FailedState(c).(done := late, expired := late)
    ensures Run(c, s, [Report] + ([Leave] + []), ReportedState(c, late))
  {
    var r := Do(c, s, Report);
    assert r.reports == [!late];
    assert Do(c, r, Leave) == ReportedState(c, late);
    RunCons(c, r, Leave, [], ReportedState(c, late));
    RunCons(c, s, Report, [Leave] + [], ReportedState(c, late));
  }

  lemma ReportsThen(c: Call, late: bool)
    requires c.kind == Job(true, true) && Bounded(c)
    ensures Run(c, FailedState(c), (if late then [Expire] else []) + [Report, Leave], ReportedState(c, late))
  {
    ReportsNow(c, FailedState(c).(done := late, expired := late), late);
    assert [Report] + ([Leave] + []) == [Report, Leave];
    if late {
      RunCons(c, FailedState(c), Expire, [Report, Leave], ReportedState(c, late));
    } else {
      assert [] + [Report, Leave] == [Report, Leave];
    }
  }

  /** A report can be lost although the script did not time out: when the context expires between
      the script's error and the attempt. */
  lemma LateExpiryLosesReport(c: Call, late: bool) returns (t: State)
    requires c.kind == Job(true, true) && Runs(c) && c.program == Throws && Bounded(c)
    ensures Run(c, Initial(c), ThrowingSteps(late), t)
    ensures t.pc == Finished(ScriptError) && t.reports == [!late]
  {
    var before := [Resolve, Start, Inject, ScriptEnds, CloseStop, Return];
    var after := (if late then [Expire] else []) + [Report, Leave];
    t := ReportedState(c, late);
    FailedJob(c);
    ReportsThen(c, late);
    RunConcat(c, Initial(c), before, FailedState(c), after, t);
    assert ThrowingSteps(late) == before + after;
  }

  lemma FailedJob(c: Call)
    requires c.kind == Job(true, true) && Runs(c) && c.program == Throws
    ensures Run(c, Initial(c), [Resolve, Start, Inject, ScriptEnds, CloseStop, Return], FailedState(c))
  {
    var s := Executes(c);
    assert ToExecution(c) == [Resolve, Start, Inject];
    RunCons(c, s.(pc := Closed(ScriptError), stop := true), Return, [], FailedState(c));
    RunCons(c, s.(pc := Unwinding(ScriptError)), CloseStop, [Return] + [], FailedState(c));
    RunCons(c, s, ScriptEnds, [CloseStop] + ([Return] + []), FailedState(c));
    var after := [ScriptEnds] + ([CloseStop] + ([Return] + []));
    RunConcat(c, Initial(c), ToExecution(c), s, after, FailedState(c));
    assert ToExecution(c) + after == [Resolve, Start, Inject, ScriptEnds, CloseStop, Return];
  }

  lemma {:induction false} RunConcat(c: Call, s: State, a: seq<Step>, mid: State, b: seq<Step>, t: State)
    requires Run(c, s, a, mid) && Run(c, mid, b, t)
    ensures Run(c, s, a + b, t)
    decreases |a|
  {
    if a == [] {
      assert a + b == b;
    } else {
      assert (a + b)[1..] == a[1..] + b;
      RunConcat(c, Do(c, s, a[0]), a[1..], mid, b, t);
    }
  }

  // ---------------------------------------------------------------- every call ends

  function Rank(s: State): nat {
    (match s.pc
     case Resolving => 8
     case Starting => 7
     case Injecting => 6
     case Executing => 5
     case Unwinding(_) => 4
     case Closed(_) => 3
     case Reporting(_) => 2
     case Reported(_) => 1
     case Finished(_) => 0) +
    (if s.done then 0 else 1) +
    (if s.dog == Exited then 0 else 1)
  }

  /** No interleaving goes on for ever: every step of every thread uses up some of ten. */
  lemma {:induction false} RunsAreShort(c: Call, s: State, steps: seq<Step>, t: State)
    requires Inv(c, s) && Run(c, s, steps, t)
    ensures |steps| + Rank(t) <= Rank(s) <= 10
    decreases |steps|
  {
    if steps != [] {
      StepKeepsInv(c, s, steps[0]);
      assert Rank(Do(c, s, steps[0])) < Rank(s);
      RunsAreShort(c, Do(c, s, steps[0]), steps[1..], t);
    }
  }

  ghost predicate Stuck(c: Call, s: State) { forall step :: !Enabled(c, s, step) }

  /** Whatever the interleaving, the call comes back and its watchdog is gone. */
  ghost predicate AlwaysEnds(c: Call) {
    forall steps, t | Run(c, Initial(c), steps, t) && Stuck(c, t) ::
      t.pc.Finished? && t.dog != Watching
  }

  lemma StuckMeans(c: Call, t: State)
    requires Inv(c, t) && Stuck(c, t)
    ensures (t.pc.Finished? && t.dog != Watching) ||
            (t.pc == Executing && c.program == Diverges && !Bounded(c))
  {
    assert !Enabled(c, t, Resolve) && !Enabled(c, t, Start) && !Enabled(c, t, Inject);
    assert !Enabled(c, t, ScriptEnds) && !Enabled(c, t, ScriptStopped) && !Enabled(c, t, CloseStop);
    assert !Enabled(c, t, Return) && !Enabled(c, t, Report) && !Enabled(c, t, Leave);
    assert !Enabled(c, t, Expire) && !Enabled(c, t, DogBarks) && !Enabled(c, t, DogLeaves);
  }

  function ToExecution(c: Call): seq<Step> {
    (if c.kind.Job? then [Resolve] else []) + [Start, Inject]
  }

  lemma Executes(c: Call) returns (t: State)
    requires Runs(c)
    ensures Run(c, Initial(c), ToExecution(c), t)
    ensures t == Initial(c).(pc := Executing, dog := Watching)
  {
    t := Initial(c).(pc := Executing, dog := Watching);
    assert [Resolve, Start, Inject][1..] == [Start, Inject] && [Start, Inject][1..] == [Inject];
    assert [Inject][1..] == [];
    assert ToExecution(c) == if c.kind.Job? then [Resolve, Start, Inject] else [Start, Inject];
  }

  /** The only call that can hang is one whose program runs for ever under a context that is never
      done: no timeout configured, and a caller that does not cancel. */
  lemma AlwaysEndsIff(c: Call)
    ensures AlwaysEnds(c) <==> Bounded(c) || !Runs(c) || c.program != Diverges
  {
    forall steps, t | Run(c, Initial(c), steps, t) && Stuck(c, t)
      ensures (t.pc.Finished? && t.dog != Watching) || (!Bounded(c) && Runs(c) && c.program == Diverges)
    {
      RunKeepsInv(c, Initial(c), steps, t);
      StuckMeans(c, t);
    }
    if !Bounded(c) && Runs(c) && c.program == Diverges {
      var t := Executes(c);
      assert Run(c, Initial(c), ToExecution(c), t) && Stuck(c, t);
    }
  }

  // ---------------------------------------------------------------- every result a call can have

  ghost predicate CanReturn(c: Call, s: State, r: Result) {
    exists steps, t :: Run(c, s, steps, t) && t.pc == Finished(r)
  }

  /** How the call ends if nothing interrupts it. */
  predicate OwnEnding(c: Call, r: Result) {
    if c.kind.Job? && !c.kind.found then r == NoScript
    else if !c.ready then r == NotReady
    else if c.injectPanics then r == Panicking
    else match c.program
      case Completes => r == Nil
      case Throws => r == ScriptError
      case Panics => r == if c.kind == Plugin then PanicError else Panicking
      case Diverges => false
  }

  lemma ThenReturns(c: Call, s: State, step: Step, r: Result)
    requires Enabled(c, s, step) && CanReturn(c, Do(c, s, step), r)
    ensures CanReturn(c, s, r)
  {
    var steps, t :| Run(c, Do(c, s, step), steps, t) && t.pc == Finished(r);
    RunCons(c, s, step, steps, t);
  }

  lemma HasReturned(c: Call, s: State, r: Result)
    requires s.pc == Finished(r)
    ensures CanReturn(c, s, r)
  {
    assert Run(c, s, [], s);
  }

  lemma ClosedReturns(c: Call, s: State, r: Result)
    requires s.pc == Closed(r)
    ensures CanReturn(c, s, r)
  {
    var s1 := Do(c, s, Return);
    if s1.pc.Reporting? {
      ReportingReturns(c, s1, r);
    } else {
      HasReturned(c, s1, r);
    }
    ThenReturns(c, s, Return, r);
  }

  lemma ReportingReturns(c: Call, s: State, r: Result)
    requires s.pc == Reporting(r) && c.kind.Job?
    ensures CanReturn(c, s, r)
  {
    var s1 := Do(c, s, Report);
    HasReturned(c, Do(c, s1, Leave), r);
    ThenReturns(c, s1, Leave, r);
    ThenReturns(c, s, Report, r);
  }

  lemma UnwindingReturns(c: Call, s: State, raw: Result)
    requires s.pc == Unwinding(raw)
    ensures CanReturn(c, s, Recovered(c.kind, raw))
  {
    ClosedReturns(c, Do(c, s, CloseStop), Recovered(c.kind, raw));
    ThenReturns(c, s, CloseStop, Recovered(c.kind, raw));
  }

  lemma ExecutingReturns(c: Call, s: State)
    requires s.pc == Executing && c.program != Diverges
    ensures CanReturn(c, s, Recovered(c.kind, Natural(c.program)))
  {
    UnwindingReturns(c, Do(c, s, ScriptEnds), Natural(c.program));
    ThenReturns(c, s, ScriptEnds, Recovered(c.kind, Natural(c.program)));
  }

  lemma ExecutingIsInterrupted(c: Call, s: State)
    requires s.pc == Executing && s.dog == Watching && !s.done && Bounded(c)
    ensures CanReturn(c, s, Interrupted)
  {
    var s1 := Do(c, s, Expire);
    var s2 := Do(c, s1, DogBarks);
    UnwindingReturns(c, Do(c, s2, ScriptStopped), Interrupted);
    ThenReturns(c, s2, ScriptStopped, Interrupted);
    ThenReturns(c, s1, DogBarks, Interrupted);
    ThenReturns(c, s, Expire, Interrupted);
  }

  /** From where the call starts it gets to run its script, or to an early ending. */
  lemma StartReturns(c: Call, s: State, r: Result)
    requires s == State(Starting, false, false, false, NotStarted, false, []) && Found(c)
    requires OwnEnding(c, r) || (r == Interrupted && Runs(c) && Bounded(c))
    ensures CanReturn(c, s, r)
  {
    var s1 := Do(c, s, Start);
    if !c.ready {
      ClosedReturns(c, s1, r);
    } else {
      var s2 := Do(c, s1, Inject);
      if c.injectPanics {
        ClosedReturns(c, s2, r);
      } else if r == Interrupted {
        ExecutingIsInterrupted(c, s2);
      } else {
        ExecutingReturns(c, s2);
      }
      ThenReturns(c, s1, Inject, r);
    }
    ThenReturns(c, s, Start, r);
  }

  /** Over all interleavings a call can have exactly two results: the program's own ending, and an
      interrupt, which no script that runs under a context that can expire is safe from. */
  lemma ResultIff(c: Call, r: Result)
    ensures CanReturn(c, Initial(c), r) <==> OwnEnding(c, r) || (r == Interrupted && Runs(c) && Bounded(c))
  {
    forall steps, t | Run(c, Initial(c), steps, t) && t.pc == Finished(r)
      ensures OwnEnding(c, r) || (r == Interrupted && Runs(c) && Bounded(c))
    {
      RunKeepsInv(c, Initial(c), steps, t);
    }
    if OwnEnding(c, r) || (r == Interrupted && Runs(c) && Bounded(c)) {
      if c.kind.Job? {
        var s := Do(c, Initial(c), Resolve);
        if c.kind.found { StartReturns(c, s, r); } else { ReportingReturns(c, s, r); }
        ThenReturns(c, Initial(c), Resolve, r);
      } else {
        StartReturns(c, Initial(c), r);
      }
    }
  }
}
