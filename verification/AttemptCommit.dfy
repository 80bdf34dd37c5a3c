/**
 The compare-and-swap commit of one attempt record: threads interleave an
 unfenced early check, a slow payload write, and a fenced check plus replace.
 */
module AttemptCommit {
  import opened Wrappers
  import opened Models
  import opened Snapshots
  import opened Attempts

  /** The persisted record with the fields that fix its identity and its end. */
  datatype AttemptFile = AttemptFile(attempt: Attempt, startedAt: int, endedAt: Option<int>)
  {
    /** _validate_record: an attempt has ended exactly when it is no longer STARTED. */
    predicate Valid() {
      attempt.sequence >= 1 && (endedAt.None? <==> attempt.status.Started?)
    }
  }

  /** _same_attempt_identity; the result path and the directory are functions of phase and sequence. */
  predicate SameIdentity(a: AttemptFile, b: AttemptFile) {
    a.attempt.sequence == b.attempt.sequence && a.attempt.phase == b.attempt.phase && a.startedAt == b.startedAt
  }

  /** The arguments of update_attempt. */
  datatype Change = Change(
    status: Option<AttemptStatus>,
    before: Option<Fingerprint>,
    after: Option<Fingerprint>,
    processStarted: Option<bool>,
    execution: Option<ExecutionEvidence>,
    ended: Option<int>)

  /** The record update_attempt prepares, or None when its constructor refuses it. */
  function Prepare(r: AttemptFile, c: Change): (u: Option<AttemptFile>)
    ensures u.Some? ==> u.value.Valid() && SameIdentity(r, u.value)
    ensures u.Some? && r.Valid() && !r.attempt.status.Started? ==> !u.value.attempt.status.Started?
  {
    var updated := AttemptFile(Updated(r.attempt, c.status, c.before, c.after, c.processStarted, c.execution),
      r.startedAt, if c.ended.Some? then c.ended else r.endedAt);
    if updated.Valid() then Some(updated) else None
  }

  /**
   A given argument becomes the field of its name, every other field is kept, and the update is refused exactly when
   the attempt would end without a time or have one without ending.
   */
  lemma PrepareIsExact(r: AttemptFile, c: Change)
    requires r.Valid()
    ensures Prepare(r, c).None? <==>
      (if c.status.Some? then c.status.value.Started? else r.attempt.status.Started?)
        != (c.ended.None? && r.endedAt.None?)
    ensures Prepare(r, c).Some? ==>
      var u := Prepare(r, c).value;
      && (if c.status.Some? then u.attempt.status == c.status.value else u.attempt.status == r.attempt.status)
      && (if c.before.Some? then u.attempt.before == c.before else u.attempt.before == r.attempt.before)
      && (if c.after.Some? then u.attempt.after == c.after else u.attempt.after == r.attempt.after)
      && (if c.processStarted.Some? then u.attempt.processStarted == c.processStarted.value
          else u.attempt.processStarted == r.attempt.processStarted)
      && (if c.execution.Some? then u.attempt.execution == c.execution else u.attempt.execution == r.attempt.execution)
      && u.attempt.result == r.attempt.result
      && (if c.ended.Some? then u.endedAt == c.ended else u.endedAt == r.endedAt)
      && u.attempt.sequence == r.attempt.sequence && u.attempt.phase == r.attempt.phase && u.startedAt == r.startedAt
  {
  }

  // ----- threads -----

  datatype Writer =
    | Idle
    | Prepared(expected: AttemptFile, updated: AttemptFile)
    | Checked(expected: AttemptFile, updated: AttemptFile)
    | PayloadWritten(expected: AttemptFile, updated: AttemptFile)
    | InFence(expected: AttemptFile, updated: AttemptFile)
    | Confirmed(expected: AttemptFile, updated: AttemptFile)
    | Replaced

  datatype Commit = Commit(expected: AttemptFile, updated: AttemptFile)

  datatype Store = Store(
    initial: AttemptFile,
    stored: AttemptFile,
    fence: Option<nat>,
    writers: seq<Writer>,
    history: seq<Commit>)

  datatype Action =
    | Begin(known: AttemptFile, change: Change)
    | EarlyCheck
    | WritePayload
    | Acquire
    | FencedCheck
    | Replace
    | Release
    | Abort

  predicate HoldsFence(w: Writer) {
    w.InFence? || w.Confirmed? || w.Replaced?
  }

  /** require_expected_persisted_record. */
  predicate Expected(s: Store, w: Writer)
    requires !w.Idle? && !w.Replaced?
  {
    SameIdentity(s.stored, w.updated) && s.stored == w.expected
  }

  predicate Enabled(s: Store, t: nat, a: Action) {
    t < |s.writers| &&
    match a
    case Begin(known, change) => s.writers[t].Idle? && known.Valid() && Prepare(known, change).Some?
    case EarlyCheck => s.writers[t].Prepared?
    case WritePayload => s.writers[t].Checked?
    case Acquire => s.writers[t].PayloadWritten? && s.fence.None?
    case FencedCheck => s.writers[t].InFence?
    case Replace => s.writers[t].Confirmed?
    case Release => s.writers[t].Replaced?
    case Abort => !s.writers[t].Replaced?
  }

  function Released(s: Store, t: nat): Option<nat> {
    if s.fence == Some(t) then None else s.fence
  }

  function Next(s: Store, t: nat, a: Action): Store
    requires Enabled(s, t, a)
  {
    var w := s.writers[t];
    match a
    case Begin(known, change) => s.(writers := s.writers[t := Prepared(known, Prepare(known, change).value)])
    case EarlyCheck =>
      s.(writers := s.writers[t := if Expected(s, w) then Checked(w.expected, w.updated) else Idle])
    case WritePayload => s.(writers := s.writers[t := PayloadWritten(w.expected, w.updated)])
    case Acquire => s.(writers := s.writers[t := InFence(w.expected, w.updated)], fence := Some(t))
    case FencedCheck =>
      if Expected(s, w) then s.(writers := s.writers[t := Confirmed(w.expected, w.updated)])
      else s.(writers := s.writers[t := Idle], fence := Released(s, t))
    case Replace =>
      s.(stored := w.updated, writers := s.writers[t := Writer.Replaced],
         history := s.history + [Commit(w.expected, w.updated)])
    case Release => s.(writers := s.writers[t := Idle], fence := Released(s, t))
    case Abort => s.(writers := s.writers[t := Idle], fence := Released(s, t))
  }

  function Fresh(record: AttemptFile, threads: nat): Store {
    Store(record, record, None, seq(threads, _ => Idle), [])
  }

  /** A schedule: which thread takes which step. */
  predicate Executable(s: Store, schedule: seq<(nat, Action)>)
    decreases |schedule|
  {
    schedule == []
    || (Enabled(s, schedule[0].0, schedule[0].1)
        && Executable(Next(s, schedule[0].0, schedule[0].1), schedule[1..]))
  }

  function After(s: Store, schedule: seq<(nat, Action)>): Store
    requires Executable(s, schedule)
    decreases |schedule|
  {
    if schedule == [] then s else After(Next(s, schedule[0].0, schedule[0].1), schedule[1..])
  }

  // ----- invariant -----

  /** Each commit replaced exactly the value it was computed from. */
  predicate Chain(initial: AttemptFile, history: seq<Commit>, stored: AttemptFile) {
    && (history == [] ==> stored == initial)
    && (history != [] ==> history[0].expected == initial && stored == history[|history| - 1].updated)
    && forall i :: 0 < i < |history| ==> history[i].expected == history[i - 1].updated
  }

  /** A commit keeps the identity, yields a valid record, and never takes an ended attempt back to STARTED. */
  predicate SoundCommit(c: Commit) {
    && SameIdentity(c.expected, c.updated) && c.updated.Valid()
    && (!c.expected.attempt.status.Started? ==> !c.updated.attempt.status.Started?)
  }

  predicate SoundWriter(w: Writer) {
    w.Idle? || w.Replaced? || SoundCommit(Commit(w.expected, w.updated))
  }

  predicate Inv(s: Store) {
    && (forall t :: 0 <= t < |s.writers| ==> SoundWriter(s.writers[t]))
    && (forall t :: 0 <= t < |s.writers| && HoldsFence(s.writers[t]) ==> s.fence == Some(t))
    && (forall t :: 0 <= t < |s.writers| && s.writers[t].Confirmed? ==> s.stored == s.writers[t].expected)
    && Chain(s.initial, s.history, s.stored)
    && forall i :: 0 <= i < |s.history| ==> SoundCommit(s.history[i])
  }

  lemma InvKept(s: Store, t: nat, a: Action)
    requires Inv(s) && Enabled(s, t, a)
    ensures Inv(Next(s, t, a))
  {
    var s' := Next(s, t, a);
    forall u | 0 <= u < |s'.writers| ensures SoundWriter(s'.writers[u]) {
      if u != t {
        assert s'.writers[u] == s.writers[u];
      }
    }
    forall u | 0 <= u < |s'.writers| && HoldsFence(s'.writers[u]) ensures s'.fence == Some(u) {
      if u != t {
        assert s'.writers[u] == s.writers[u];
      }
    }
    forall u | 0 <= u < |s'.writers| && s'.writers[u].Confirmed? ensures s'.stored == s'.writers[u].expected {
      if u != t {
        assert s'.writers[u] == s.writers[u];
      }
    }
  }

  lemma {:induction false} InvOverSchedules(s: Store, schedule: seq<(nat, Action)>)
    requires Inv(s) && Executable(s, schedule)
    ensures Inv(After(s, schedule)) && After(s, schedule).initial == s.initial
    decreases |schedule|
  {
    if schedule != [] {
      InvKept(s, schedule[0].0, schedule[0].1);
      InvOverSchedules(Next(s, schedule[0].0, schedule[0].1), schedule[1..]);
    }
  }

  /**
   Under every interleaving of any number of threads, the committed values form a chain from the initial
   record to the stored one: no update is lost and none is applied to a value it was not computed from.
   */
  lemma CommitsFormChain(record: AttemptFile, threads: nat, schedule: seq<(nat, Action)>)
    requires record.Valid() && Executable(Fresh(record, threads), schedule)
    ensures var s := After(Fresh(record, threads), schedule);
      && Chain(record, s.history, s.stored)
      && forall i :: 0 <= i < |s.history| ==> SoundCommit(s.history[i])
  {
    InvOverSchedules(Fresh(record, threads), schedule);
  }

  /** The record after the first n commits; with all of them it is the stored one. */
  function RecordAfter(initial: AttemptFile, history: seq<Commit>, n: nat): AttemptFile
    requires n <= |history|
  {
    if n == 0 then initial else history[n - 1].updated
  }

  lemma {:induction false} EndedSurvives(history: seq<Commit>, initial: AttemptFile, stored: AttemptFile, i: nat, j: nat)
    requires Chain(initial, history, stored) && forall k :: 0 <= k < |history| ==> SoundCommit(history[k])
    requires i <= j <= |history| && !RecordAfter(initial, history, i).attempt.status.Started?
    ensures !RecordAfter(initial, history, j).attempt.status.Started?
    decreases j - i
  {
    if i < j {
      EndedSurvives(history, initial, stored, i, j - 1);
      assert SoundCommit(history[j - 1]);
    }
  }

  /**
   Once a record has ended, before the schedule began or by one of its commits, no later commit returns it to
   STARTED: a delayed start recorder that prepared its update before the end cannot overwrite the finalised
   record.
   */
  lemma EndedIsFinal(record: AttemptFile, threads: nat, schedule: seq<(nat, Action)>, i: nat, j: nat)
    requires record.Valid() && Executable(Fresh(record, threads), schedule)
    requires i <= j <= |After(Fresh(record, threads), schedule).history|
    ensures var s := After(Fresh(record, threads), schedule);
      && RecordAfter(record, s.history, |s.history|) == s.stored
      && (!RecordAfter(record, s.history, i).attempt.status.Started? ==>
            && !RecordAfter(record, s.history, j).attempt.status.Started?
            && !s.stored.attempt.status.Started?)
  {
    CommitsFormChain(record, threads, schedule);
    var s := After(Fresh(record, threads), schedule);
    if !RecordAfter(record, s.history, i).attempt.status.Started? {
      EndedSurvives(s.history, record, s.stored, i, j);
      EndedSurvives(s.history, record, s.stored, i, |s.history|);
    }
  }

  lemma {:induction false} IdentitySurvives(history: seq<Commit>, initial: AttemptFile, stored: AttemptFile, n: nat)
    requires Chain(initial, history, stored) && forall k :: 0 <= k < |history| ==> SoundCommit(history[k])
    requires n < |history|
    ensures SameIdentity(initial, history[n].updated)
  {
    if n > 0 {
      IdentitySurvives(history, initial, stored, n - 1);
    }
    assert SoundCommit(history[n]);
  }

  /** No schedule of updates changes whose attempt the file is. */
  lemma IdentityIsConstant(record: AttemptFile, threads: nat, schedule: seq<(nat, Action)>)
    requires record.Valid() && Executable(Fresh(record, threads), schedule)
    ensures SameIdentity(record, After(Fresh(record, threads), schedule).stored)
  {
    CommitsFormChain(record, threads, schedule);
    var s := After(Fresh(record, threads), schedule);
    if s.history != [] {
      IdentitySurvives(s.history, record, s.stored, |s.history| - 1);
    }
  }

  // ----- progress -----

  /** The steps of one update by thread t when no other thread moves. */
  function Update(t: nat, known: AttemptFile, change: Change): seq<(nat, Action)> {
    [(t, Begin(known, change)), (t, EarlyCheck), (t, WritePayload), (t, Acquire), (t, FencedCheck), (t, Replace),
     (t, Release)]
  }

  lemma StepFirst(s: Store, schedule: seq<(nat, Action)>)
    requires schedule != [] && Enabled(s, schedule[0].0, schedule[0].1)
    requires Executable(Next(s, schedule[0].0, schedule[0].1), schedule[1..])
    ensures Executable(s, schedule)
    ensures After(s, schedule) == After(Next(s, schedule[0].0, schedule[0].1), schedule[1..])
  {
  }

  lemma UpdateIsExecutable(s: Store, t: nat, known: AttemptFile, change: Change)
    requires known.Valid() && known == s.stored && Prepare(known, change).Some?
    requires t < |s.writers| && s.writers[t].Idle? && s.fence.None?
    ensures Executable(s, Update(t, known, change))
    ensures var updated := Prepare(known, change).value;
      After(s, Update(t, known, change)) == s.(stored := updated, history := s.history + [Commit(known, updated)])
  {
    hide Prepare, Executable, After, SameIdentity;
    var updated := Prepare(known, change).value;
    PrepareKeepsIdentity(known, change);
    var steps := Update(t, known, change);
    var s1 := Next(s, t, steps[0].1);
    var s2 := Next(s1, t, steps[1].1);
    var s3 := Next(s2, t, steps[2].1);
    var s4 := Next(s3, t, steps[3].1);
    var s5 := Next(s4, t, steps[4].1);
    var s6 := Next(s5, t, steps[5].1);
    var s7 := Next(s6, t, steps[6].1);
    NothingToDo(s7);
    assert s7.writers == s.writers;
    assert steps[7..] == [] && steps[6..][1..] == steps[7..] && steps[5..][1..] == steps[6..];
    StepFirst(s6, steps[6..]);
    StepFirst(s5, steps[5..]);
    assert steps[4..][1..] == steps[5..] && steps[3..][1..] == steps[4..];
    StepFirst(s4, steps[4..]);
    StepFirst(s3, steps[3..]);
    assert steps[2..][1..] == steps[3..] && steps[1..][1..] == steps[2..];
    StepFirst(s2, steps[2..]);
    StepFirst(s1, steps[1..]);
    StepFirst(s, steps);
  }

  lemma NothingToDo(s: Store)
    ensures Executable(s, []) && After(s, []) == s
  {
  }

  lemma PrepareKeepsIdentity(r: AttemptFile, c: Change)
    ensures Prepare(r, c).Some? ==> SameIdentity(r, Prepare(r, c).value)
  {
  }

  /**
   A writer that meets no other one in its fence commits exactly when its record is still the stored one: with a
   current record its steps store the update and leave the fence free, with another one its first check ends it
   and nothing is stored.
   */
  lemma LoneWriterCommitsIffCurrent(s: Store, t: nat, known: AttemptFile, change: Change)
    requires known.Valid() && Prepare(known, change).Some?
    requires t < |s.writers| && s.writers[t].Idle? && s.fence.None?
    ensures Executable(s, Update(t, known, change)) <==> known == s.stored
    ensures known == s.stored ==>
      var updated := Prepare(known, change).value;
      After(s, Update(t, known, change)) == s.(stored := updated, history := s.history + [Commit(known, updated)])
    ensures known != s.stored ==>
      Executable(s, Update(t, known, change)[..2]) && After(s, Update(t, known, change)[..2]) == s
  {
    if known == s.stored {
      UpdateIsExecutable(s, t, known, change);
    } else {
      StaleIsRefused(s, t, known, change);
    }
  }

  lemma StaleIsRefused(s: Store, t: nat, known: AttemptFile, change: Change)
    requires known.Valid() && Prepare(known, change).Some?
    requires t < |s.writers| && s.writers[t].Idle? && known != s.stored
    ensures !Executable(s, Update(t, known, change))
    ensures Executable(s, Update(t, known, change)[..2]) && After(s, Update(t, known, change)[..2]) == s
  {
    hide Prepare, SameIdentity;
    var steps := Update(t, known, change);
    var s1 := Next(s, t, steps[0].1);
    var s2 := Next(s1, t, steps[1].1);
    assert s2.writers == s.writers;
    assert steps[..2][1..] == [steps[1]] && steps[1..][1..][0] == steps[2];
    StepFirst(s1, [steps[1]]);
    StepFirst(s, steps[..2]);
    assert !Executable(s2, steps[1..][1..]);
    assert !Executable(s1, steps[1..]);
  }
}
