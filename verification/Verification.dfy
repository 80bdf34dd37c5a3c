/**
 Verification rounds: how a round is run and recorded, and how its recorded
 artifact is later judged by a different module.
 */
module Verification {
  import opened Wrappers
  import opened Models

  datatype VerificationStatus = Pass | Fail | Error

  datatype ErrorKind = EXECUTABLE_UNAVAILABLE | PROCESS_START_FAILED | TIMEOUT

  datatype Command = Command(name: string, argv: seq<string>)

  /** What the process runner did with one command. */
  datatype ProcessOutcome =
    | Exited(code: int, stdout: string, stderr: string)
    | TimedOut(stdout: string, stderr: string)
    | NotFound
    | StartFailed

  datatype CommandResult = CommandResult(
    name: string,
    argv: seq<string>,
    cwd: string,
    startedAt: int,
    endedAt: int,
    duration: int,
    status: VerificationStatus,
    exitCode: Option<int>,
    stdout: string,
    stderr: string,
    errorKind: Option<ErrorKind>)

  datatype VerificationFailure = VerificationFailure(
    gateName: string,
    command: seq<string>,
    exitCode: Option<int>,
    stdoutExcerpt: string,
    stderrExcerpt: string)

  /** The round artifact; its violations are the names of the recorded workspace changes. */
  datatype Round = Round(
    roundIndex: int,
    startedAt: int,
    endedAt: int,
    duration: int,
    status: VerificationStatus,
    commands: seq<CommandResult>,
    violations: seq<string>,
    failures: seq<VerificationFailure>)

  /** One command's clock readings. */
  datatype Timing = Timing(startedAt: int, endedAt: int)

  // ----- the producer -----

  function RunCommand(command: Command, cwd: string, outcome: ProcessOutcome, t: Timing): CommandResult {
    var duration := t.endedAt - t.startedAt;
    match outcome
    case Exited(code, stdout, stderr) =>
      CommandResult(command.name, command.argv, cwd, t.startedAt, t.endedAt, duration,
        if code == 0 then Pass else Fail, Some(code), stdout, stderr, None)
    case TimedOut(stdout, stderr) =>
      CommandResult(command.name, command.argv, cwd, t.startedAt, t.endedAt, duration, Error, None, stdout, stderr,
        Some(TIMEOUT))
    case NotFound =>
      CommandResult(command.name, command.argv, cwd, t.startedAt, t.endedAt, duration, Error, None, "", "",
        Some(EXECUTABLE_UNAVAILABLE))
    case StartFailed =>
      CommandResult(command.name, command.argv, cwd, t.startedAt, t.endedAt, duration, Error, None, "", "",
        Some(PROCESS_START_FAILED))
  }

  function RunCommands(commands: seq<Command>, cwd: string, outcomes: seq<ProcessOutcome>, times: seq<Timing>)
    : (r: seq<CommandResult>)
    requires |commands| == |outcomes| == |times|
    ensures |r| == |commands|
    ensures forall i :: 0 <= i < |r| ==> r[i] == RunCommand(commands[i], cwd, outcomes[i], times[i])
  {
    if commands == [] then []
    else
      [RunCommand(commands[0], cwd, outcomes[0], times[0])]
      + RunCommands(commands[1..], cwd, outcomes[1..], times[1..])
  }

  predicate AnyWithStatus(commands: seq<CommandResult>, status: VerificationStatus) {
    exists i :: 0 <= i < |commands| && commands[i].status == status
  }

  function RoundStatus(commands: seq<CommandResult>, violations: seq<string>): VerificationStatus {
    if violations != [] || AnyWithStatus(commands, Error) then Error
    else if AnyWithStatus(commands, Fail) then Fail
    else Pass
  }

  function Excerpt(value: string): string {
    if |value| <= 4000 then value else value[..4000] + "\n... <truncated>"
  }

  function FailureOf(c: CommandResult): VerificationFailure {
    VerificationFailure(c.name, c.argv, c.exitCode, Excerpt(c.stdout), Excerpt(c.stderr))
  }

  function Failures(commands: seq<CommandResult>): (r: seq<VerificationFailure>)
    ensures r == [] <==> !AnyWithStatus(commands, Fail)
  {
    if commands == [] then []
    else
      var rest := Failures(commands[1..]);
      assert forall i :: 0 < i < |commands| ==> commands[i] == commands[1..][i - 1];
      (if commands[0].status.Fail? then [FailureOf(commands[0])] else []) + rest
  }

  /** _run_round. */
  function RunRound(commands: seq<Command>, cwd: string, roundIndex: int, outcomes: seq<ProcessOutcome>,
      times: seq<Timing>, violations: seq<string>, includeFailures: bool, t: Timing): Round
    requires |commands| == |outcomes| == |times|
  {
    var results := RunCommands(commands, cwd, outcomes, times);
    Round(roundIndex, t.startedAt, t.endedAt, t.endedAt - t.startedAt, RoundStatus(results, violations), results,
      violations, if includeFailures then Failures(results) else [])
  }

  /** _controller_error_round. */
  function ControllerErrorRound(roundIndex: int, violations: seq<string>, now: int): Round {
    Round(roundIndex, now, now, 0, Error, [], violations, [])
  }

  /** The outcome selected by _finish_stage. */
  function FinishOutcome(r: Round, baseline: bool): StageOutcome {
    if r.violations != [] || AnyWithStatus(r.commands, Error) then StageHumanRequired
    else if baseline && (AnyWithStatus(r.commands, Fail) || !r.status.Pass?) then StageHumanRequired
    else if AnyWithStatus(r.commands, Fail) then CorrectionRequired
    else StageCompleted
  }

  function RoundProcessStarted(commands: seq<CommandResult>): bool {
    exists i :: 0 <= i < |commands| && (!commands[i].status.Error? || commands[i].errorKind == Some(TIMEOUT))
  }

  // ----- the consumer -----

  predicate CommandMatches(result: CommandResult, command: Command) {
    result.name == command.name && result.argv == command.argv
  }

  predicate CommandPasses(result: CommandResult) {
    result.status.Pass? && result.exitCode == Some(0) && result.errorKind.None?
  }

  predicate AllPass(results: seq<CommandResult>) {
    forall i :: 0 <= i < |results| ==> CommandPasses(results[i])
  }

  predicate AllMatch(results: seq<CommandResult>, commands: seq<Command>) {
    |results| == |commands| && forall i :: 0 <= i < |commands| ==> CommandMatches(results[i], commands[i])
  }

  predicate AuthoritativeCommand(result: CommandResult, cwd: string) {
    result.cwd == cwd && result.duration >= 0
  }

  predicate AllAuthoritative(commands: seq<CommandResult>, cwd: string) {
    forall i :: 0 <= i < |commands| ==> AuthoritativeCommand(commands[i], cwd)
  }

  predicate AuthoritativeRound(r: Round, expectedRoundIndex: Option<int>) {
    && r.roundIndex >= 0 && expectedRoundIndex == Some(r.roundIndex)
    && r.duration >= 0 && r.violations == [] && r.failures == []
  }

  /** _validate_verification_result without the authoritative checks. */
  predicate ValidResult(r: Round, statuses: set<VerificationStatus>, commands: seq<Command>, requireAllPass: bool) {
    && r.status in statuses
    && AllMatch(r.commands, commands)
    && (requireAllPass ==> AllPass(r.commands))
  }

  /** The same with require_all_commands_pass and require_authoritative_pass. */
  predicate AuthoritativePass(r: Round, commands: seq<Command>, cwd: string, roundIndex: int) {
    && ValidResult(r, {Pass}, commands, true)
    && AllAuthoritative(r.commands, cwd)
    && AuthoritativeRound(r, Some(roundIndex))
  }

  // ----- agreement -----

  predicate AllExitedZero(outcomes: seq<ProcessOutcome>) {
    forall i :: 0 <= i < |outcomes| ==> outcomes[i].Exited? && outcomes[i].code == 0
  }

  predicate AllNonDecreasing(times: seq<Timing>) {
    forall i :: 0 <= i < |times| ==> times[i].startedAt <= times[i].endedAt
  }

  predicate NonDecreasing(times: seq<Timing>, t: Timing) {
    t.startedAt <= t.endedAt && AllNonDecreasing(times)
  }

  lemma CommandClocks(commands: seq<Command>, cwd: string, outcomes: seq<ProcessOutcome>, times: seq<Timing>)
    requires |commands| == |outcomes| == |times|
    ensures AllAuthoritative(RunCommands(commands, cwd, outcomes, times), cwd) <==> AllNonDecreasing(times)
  {
    var r := RunCommands(commands, cwd, outcomes, times);
    forall i | 0 <= i < |times|
      ensures AuthoritativeCommand(r[i], cwd) <==> times[i].startedAt <= times[i].endedAt
    {
      assert r[i] == RunCommand(commands[i], cwd, outcomes[i], times[i]);
    }
    if !AllNonDecreasing(times) {
      var i :| 0 <= i < |times| && times[i].startedAt > times[i].endedAt;
      assert !AuthoritativeCommand(r[i], cwd);
    }
  }

  lemma CommandStatuses(commands: seq<Command>, cwd: string, outcomes: seq<ProcessOutcome>, times: seq<Timing>)
    requires |commands| == |outcomes| == |times|
    ensures var r := RunCommands(commands, cwd, outcomes, times);
      && (AllExitedZero(outcomes) <==> !AnyWithStatus(r, Fail) && !AnyWithStatus(r, Error))
      && AllMatch(r, commands)
      && (AllExitedZero(outcomes) <==> AllPass(r))
  {
    var r := RunCommands(commands, cwd, outcomes, times);
    forall i | 0 <= i < |r|
      ensures CommandMatches(r[i], commands[i])
      ensures CommandPasses(r[i]) <==> outcomes[i].Exited? && outcomes[i].code == 0
      ensures r[i].status.Pass? <==> outcomes[i].Exited? && outcomes[i].code == 0
    {
      assert r[i] == RunCommand(commands[i], cwd, outcomes[i], times[i]);
    }
    if !AllExitedZero(outcomes) {
      var i :| 0 <= i < |outcomes| && !(outcomes[i].Exited? && outcomes[i].code == 0);
      assert r[i].status.Fail? || r[i].status.Error?;
      assert !CommandPasses(r[i]);
    }
  }

  /**
   A round that was actually run is judged an authoritative pass exactly when every command exited
   with zero, nothing unsafe was seen, and no clock reading went backwards.
   */
  lemma RunRoundJudged(commands: seq<Command>, cwd: string, roundIndex: nat, outcomes: seq<ProcessOutcome>,
      times: seq<Timing>, violations: seq<string>, includeFailures: bool, t: Timing)
    requires |commands| == |outcomes| == |times|
    ensures AuthoritativePass(RunRound(commands, cwd, roundIndex, outcomes, times, violations, includeFailures, t),
        commands, cwd, roundIndex)
      <==> AllExitedZero(outcomes) && violations == [] && NonDecreasing(times, t)
  {
    CommandStatuses(commands, cwd, outcomes, times);
    CommandClocks(commands, cwd, outcomes, times);
  }

  /** A round refused by the controller before any command ran is never accepted, for any expectation. */
  lemma ErrorRoundRejected(roundIndex: int, violations: seq<string>, now: int, commands: seq<Command>, cwd: string,
      expected: int, statuses: set<VerificationStatus>)
    requires Error !in statuses
    ensures !ValidResult(ControllerErrorRound(roundIndex, violations, now), statuses, commands, false)
    ensures !AuthoritativePass(ControllerErrorRound(roundIndex, violations, now), commands, cwd, expected)
  {
  }

  /**
   The stage outcome and the recorded artifact tell the same story: a COMPLETED round has a PASS
   artifact without failures, a CORRECTION_REQUIRED round has a FAIL artifact naming at least one,
   and everything else is ERROR or, for the baseline, FAIL.
   */
  lemma OutcomeMatchesArtifact(commands: seq<Command>, cwd: string, roundIndex: int, outcomes: seq<ProcessOutcome>,
      times: seq<Timing>, violations: seq<string>, baseline: bool, t: Timing)
    requires |commands| == |outcomes| == |times|
    ensures var r := RunRound(commands, cwd, roundIndex, outcomes, times, violations, !baseline, t);
      && (FinishOutcome(r, baseline).StageCompleted? <==> r.status.Pass?)
      && (FinishOutcome(r, baseline).StageCompleted? ==>
            ValidResult(r, {Pass}, commands, true) && r.failures == [])
      && (FinishOutcome(r, baseline).CorrectionRequired? <==> r.status.Fail? && !baseline)
      && (FinishOutcome(r, baseline).CorrectionRequired? ==>
            r.failures != [] && ValidResult(r, {Pass, Fail}, commands, false))
      && !FinishOutcome(r, baseline).StageFailed?
  {
    CommandStatuses(commands, cwd, outcomes, times);
    var r := RunRound(commands, cwd, roundIndex, outcomes, times, violations, !baseline, t);
    if FinishOutcome(r, baseline).StageCompleted? {
      assert !AnyWithStatus(r.commands, Fail);
    }
  }
}
