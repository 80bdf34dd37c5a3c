/** The attempt ledger: the records of one run in sequence order, and the queries the policies ask of it. */
module Attempts {
  import opened Wrappers
  import opened Models
  import opened Snapshots
  import opened TaskResults
  import opened Verification

  /** The typed content of an attempt's result file. */
  datatype Artifact =
    | RoundArtifact(round: Round)
    | ReviewArtifact(review: ReviewResult)
    | ImplementationArtifact(implementation: ImplementationResult)
    | MessageArtifact(outcome: StageOutcome)

  /** The neutral execution evidence of an agent call, written beside the result file. */
  datatype ExecutionEvidence = ExecutionEvidence(success: bool, started: bool, typedResult: Option<Artifact>)

  datatype Attempt = Attempt(
    sequence: nat,
    phase: AttemptPhase,
    status: AttemptStatus,
    before: Option<Fingerprint>,
    after: Option<Fingerprint>,
    processStarted: bool,
    result: Option<Artifact>,
    execution: Option<ExecutionEvidence>)

  /** The record update_attempt prepares: an argument that is not given keeps the old value. */
  function Updated(a: Attempt, status: Option<AttemptStatus>, before: Option<Fingerprint>, after: Option<Fingerprint>,
      processStarted: Option<bool>, execution: Option<ExecutionEvidence>): Attempt
  {
    a.(status := if status.None? then a.status else status.value,
       before := if before.None? then a.before else before,
       after := if after.None? then a.after else after,
       processStarted := if processStarted.None? then a.processStarted else processStarted.value,
       execution := if execution.None? then a.execution else execution)
  }

  const WRITABLE: set<AttemptPhase> := {ImplementingPhase, CorrectingPhase}
  const ANY_STATUS: set<AttemptStatus> := {Started, Completed, NeedsHuman, AttemptStatus.Failed}

  /** Records are kept in the order of their sequence numbers, without duplicates. */
  predicate Ordered(ledger: seq<Attempt>) {
    forall i, j :: 0 <= i < j < |ledger| ==> ledger[i].sequence < ledger[j].sequence
  }

  /** latest_attempt: the last record with one of the phases and one of the statuses. */
  function Latest(ledger: seq<Attempt>, phases: set<AttemptPhase>, statuses: set<AttemptStatus>): Option<Attempt> {
    if ledger == [] then None
    else
      var last := ledger[|ledger| - 1];
      if last.phase in phases && last.status in statuses then Some(last)
      else Latest(ledger[..|ledger| - 1], phases, statuses)
  }

  /** latest_writable_attempt: only completed writes count. */
  function LatestWritable(ledger: seq<Attempt>): Option<Attempt> {
    Latest(ledger, WRITABLE, {Completed})
  }

  function Count(ledger: seq<Attempt>, phase: AttemptPhase): nat {
    if ledger == [] then 0
    else Count(ledger[..|ledger| - 1], phase) + (if ledger[|ledger| - 1].phase == phase then 1 else 0)
  }

  function CountCompleted(ledger: seq<Attempt>, phase: AttemptPhase): nat {
    if ledger == [] then 0
    else
      CountCompleted(ledger[..|ledger| - 1], phase)
      + (if ledger[|ledger| - 1].phase == phase && ledger[|ledger| - 1].status.Completed? then 1 else 0)
  }

  /** Replacing the newest record in place. */
  function Replaced(ledger: seq<Attempt>, a: Attempt): (r: seq<Attempt>)
    requires ledger != []
    ensures |r| == |ledger| && r[|r| - 1] == a && r[..|r| - 1] == ledger[..|ledger| - 1]
  {
    ledger[..|ledger| - 1] + [a]
  }

  function Newest(ledger: seq<Attempt>): Attempt
    requires ledger != []
  {
    ledger[|ledger| - 1]
  }

  function Older(ledger: seq<Attempt>): seq<Attempt>
    requires ledger != []
  {
    ledger[..|ledger| - 1]
  }

  /** Some attempt ended without success. */
  predicate Tainted(ledger: seq<Attempt>) {
    exists i :: 0 <= i < |ledger| && ledger[i].status in {NeedsHuman, AttemptStatus.Failed}
  }

  /** Later is the earlier ledger after any number of starts, updates and completions. */
  predicate Extends(earlier: seq<Attempt>, later: seq<Attempt>) {
    && |earlier| <= |later|
    && forall i :: 0 <= i < |earlier| ==>
         && later[i].sequence == earlier[i].sequence && later[i].phase == earlier[i].phase
         && (!earlier[i].status.Started? ==> later[i] == earlier[i])
  }

  // ----- queries -----

  lemma {:induction false} LatestFound(ledger: seq<Attempt>, phases: set<AttemptPhase>, statuses: set<AttemptStatus>)
    ensures var r := Latest(ledger, phases, statuses);
      && (r.Some? ==> r.value in ledger && r.value.phase in phases && r.value.status in statuses)
      && (Ordered(ledger) ==> forall a :: a in ledger && a.phase in phases && a.status in statuses ==>
            r.Some? && a.sequence <= r.value.sequence)
  {
    if ledger != [] {
      var front := ledger[..|ledger| - 1];
      LatestFound(front, phases, statuses);
      assert ledger == front + [ledger[|ledger| - 1]];
    }
  }

  /** The same for a query that accepts any status. */
  lemma LatestOfAny(ledger: seq<Attempt>, phases: set<AttemptPhase>)
    requires Ordered(ledger)
    ensures var r := Latest(ledger, phases, ANY_STATUS);
      && (r.Some? ==> r.value in ledger && r.value.phase in phases)
      && (forall a :: a in ledger && a.phase in phases ==> r.Some? && a.sequence <= r.value.sequence)
  {
    LatestFound(ledger, phases, ANY_STATUS);
    forall a | a in ledger && a.phase in phases ensures a.status in ANY_STATUS {
      EveryStatus(a.status);
    }
  }

  lemma EveryStatus(s: AttemptStatus)
    ensures s in ANY_STATUS
  {
    match s { case Started => case Completed => case NeedsHuman => case Failed => }
  }

  /** The latest record is the unique one that no later matching record follows. */
  lemma LatestIsUnique(ledger: seq<Attempt>, phases: set<AttemptPhase>, statuses: set<AttemptStatus>, a: Attempt)
    requires Ordered(ledger) && a in ledger && a.phase in phases && a.status in statuses
    requires forall b :: b in ledger && b.phase in phases && b.status in statuses ==> b.sequence <= a.sequence
    ensures Latest(ledger, phases, statuses) == Some(a)
  {
    LatestFound(ledger, phases, statuses);
    var b := Latest(ledger, phases, statuses).value;
    var i :| 0 <= i < |ledger| && ledger[i] == a;
    var j :| 0 <= j < |ledger| && ledger[j] == b;
    assert b.sequence == a.sequence;
  }

  lemma LatestAppended(ledger: seq<Attempt>, a: Attempt, phases: set<AttemptPhase>, statuses: set<AttemptStatus>)
    ensures Latest(ledger + [a], phases, statuses) ==
      if a.phase in phases && a.status in statuses then Some(a) else Latest(ledger, phases, statuses)
  {
    assert (ledger + [a])[..|ledger|] == ledger;
  }

  lemma CountAppended(ledger: seq<Attempt>, a: Attempt, phase: AttemptPhase)
    ensures Count(ledger + [a], phase) == Count(ledger, phase) + (if a.phase == phase then 1 else 0)
    ensures CountCompleted(ledger + [a], phase)
      == CountCompleted(ledger, phase) + (if a.phase == phase && a.status.Completed? then 1 else 0)
  {
    assert (ledger + [a])[..|ledger|] == ledger;
  }

  lemma {:induction false} CountIsBounded(ledger: seq<Attempt>, phase: AttemptPhase)
    ensures CountCompleted(ledger, phase) <= Count(ledger, phase)
    ensures Count(ledger, phase) == 0 <==> forall a :: a in ledger ==> a.phase != phase
  {
    if ledger != [] {
      CountIsBounded(ledger[..|ledger| - 1], phase);
      assert ledger == ledger[..|ledger| - 1] + [ledger[|ledger| - 1]];
    }
  }

  lemma TaintSurvives(earlier: seq<Attempt>, later: seq<Attempt>)
    requires Extends(earlier, later) && Tainted(earlier)
    ensures Tainted(later)
  {
    var i :| 0 <= i < |earlier| && earlier[i].status in {NeedsHuman, AttemptStatus.Failed};
    assert later[i] == earlier[i];
  }
}
