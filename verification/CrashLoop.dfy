/** Processing that fails or kills the server: how often one file is counted and queued again. */
module CrashLoop {
  import opened Common

  /** MaxProcessAttempts */
  const MAX_ATTEMPTS: nat := 5

  const HOUR: nat := 3600
  const RETRY_PAUSE: nat := 1800

  // ---- the file's row -----------------------------------------------------------------------

  /** The wait after one more failed attempt: it doubles, up to 32 hours. */
  function Delay(attempts: nat): nat {
    Pow2(if attempts < 5 then attempts else 5) * HOUR
  }

  lemma {:induction false} DelaysGrow(a: nat, b: nat)
    requires a <= b
    ensures HOUR <= Delay(a) <= Delay(b) <= 32 * HOUR
    decreases b
  {
    assert Pow2(5) == 32;
    if a < b {
      DelaysGrow(a, b - 1);
    } else if a > 0 {
      DelaysGrow(a - 1, a - 1);
    }
  }

  /** An hour after the first, twice as long after each, and 32 hours from the sixth on. */
  lemma DelaysDouble(attempts: nat)
    ensures Delay(0) == 3600 && Delay(attempts + 1) == if attempts < 5 then 2 * Delay(attempts) else 115_200
  {
    assert Pow2(5) == 32;
  }

  /** What the backlog asks of a file's count, and of the chapter's jobs. */
  predicate Backlogged(attempts: nat, active: bool) { attempts < MAX_ATTEMPTS && !active }

  class File {
    var params: string
    var attempts: nat
    var retryAt: Option<int>
    var failed: bool

    constructor ()
      ensures params == "" && attempts == 0 && retryAt == None && !failed
    {
      params, attempts, retryAt, failed := "", 0, None, false;
    }

    method MarkProcessed(params: string)
      modifies this
      ensures this.params == params && attempts == 0 && retryAt == None && !failed
    {
      this.params, attempts, retryAt, failed := params, 0, None, false;
    }

    /** A temporary failure does not count. */
    method MarkProcessRetry(now: int)
      modifies this`retryAt
      ensures retryAt == Some(now + 1800)
    {
      retryAt := Some(now + RETRY_PAUSE);
    }

    method MarkProcessFailed(now: int)
      modifies this`attempts, this`retryAt, this`failed
      ensures attempts == old(attempts) + 1 && failed
      ensures retryAt == Some(now + Delay(old(attempts)))
    {
      retryAt := Some(now + Delay(attempts));
      attempts := attempts + 1;
      failed := true;
    }

    /** The backlog's WHERE clause, apart from the profile's own conditions. */
    predicate Eligible(params: string, now: int, active: bool)
      reads this
    {
      this.params != params && (retryAt.Some? ==> retryAt.value <= now) && Backlogged(attempts, active)
    }
  }

  // ---- the protocol ---------------------------------------------------------------------------

  /** The row of the file's reprocess job: none unfinished, queued, paused, claimed or importing, processing. */
  datatype Job = NoJob | Waiting | Paused | Busy | Processing

  /**
   Who works on the job, which its row need not show: nobody, a goroutine outside processing, one
   processing, one that has counted a failure and is about to fail the row, recovery about to do so.
   */
  datatype Worker = Nobody | Claimed | Working | Counted | Recovering
  {
    predicate Runs() { Claimed? || Working? || Counted? }
    predicate HasCounted() { Counted? || Recovering? }
  }

  /**
   orphans: goroutines still processing for a job whose row was removed. extra: how many counted
   failures did not fail the job they belong to, and how often the file was queued by hand.
   */
  datatype State = State(
    attempts: nat, job: Job, worker: Worker, cancelled: bool, orphans: nat, up: bool, extra: nat)

  datatype Step =
    | Backlog | Claim | Begin
    | Import       // processing is over, importing begins
    | Imported
    | Unchanged    // nothing to change
    | Postpone     // a temporary or infrastructure failure requeues the job
    | GiveUp       // the job fails outside processing, or without its count being written
    | CountFailure // markProcessFailed
    | FailJob      // the job's row follows
    | PauseRow     // the first half of a pause; Cancel is the second
    | Cancel
    | Leave        // a goroutine ends without its row: it is cancelled, or the write fails
    | Resume
    | Remove | OrphanFails | OrphanSucceeds | OrphanLeaves
    | ByHand       // somebody queues the file again
    | Forced       // or resets its count
    | Release      // a clean stop hands running jobs back; Kill ends the process
    | Kill | Restart

  function Apply(s: State, step: Step): State {
    match step
    case Backlog => if s.up && Backlogged(s.attempts, !s.job.NoJob?) then s.(job := Waiting) else s
    case Claim =>
      if s.up && s.job.Waiting? && s.worker.Nobody? then s.(job := Busy, worker := Claimed) else s
    case Begin => if s.worker.Claimed? && !s.cancelled then Unpaused(s, Processing).(worker := Working) else s
    case Import => if s.worker.Working? && !s.cancelled then Unpaused(s, Busy).(worker := Claimed) else s
    case Imported => if Writes(s) then Ended(s).(attempts := 0, job := NoJob) else s
    case Unchanged => if Writes(s) then Unpaused(Ended(s), NoJob).(attempts := 0) else s
    case Postpone => if s.worker.Claimed? || s.worker.Working? then Unpaused(Ended(s), Waiting) else s
    case GiveUp => if s.worker.Claimed? || s.worker.Working? then Unpaused(Ended(s), NoJob) else s
    case CountFailure => if s.worker.Working? && !s.cancelled then Counting(s, Counted) else s
    case FailJob => FailRow(s)
    case PauseRow => if s.up && (s.job.Waiting? || s.job.Busy? || s.job.Processing?) then s.(job := Paused) else s
    case Cancel => if s.worker.Runs() then s.(cancelled := true) else s
    case Leave => if s.worker.Runs() then Gone(s) else s
    case Resume => if s.up && s.job.Paused? then s.(job := Waiting) else s
    case Remove =>
      if s.up && !s.job.NoJob? then
        Ended(s).(job := NoJob, orphans := s.orphans + if Writes(s) then 1 else 0)
      else s
    case OrphanFails =>
      if s.orphans > 0 then s.(attempts := s.attempts + 1, orphans := s.orphans - 1, extra := s.extra + 1) else s
    case OrphanSucceeds => if s.orphans > 0 then s.(attempts := 0, orphans := s.orphans - 1) else s
    case OrphanLeaves => if s.orphans > 0 then s.(orphans := s.orphans - 1) else s
    case ByHand => if s.up && s.job.NoJob? then s.(job := Waiting, extra := s.extra + 1) else s
    case Forced => if s.up then s.(attempts := 0) else s
    case Release => if s.worker.Runs() && (s.job.Busy? || s.job.Processing?) then s.(job := Waiting) else s
    case Kill => if s.up then Gone(s).(up := false, orphans := 0) else s
    case Restart =>
      if s.up then s
      else if s.job.Processing? then Counting(s.(up := true), Recovering)
      else s.(up := true, job := if s.job.Busy? then Waiting else s.job)
  }

  /** Only a goroutine that is not cancelled can write the file's row. */
  predicate Writes(s: State) { (s.worker.Claimed? || s.worker.Working?) && !s.cancelled }

  /** UPDATE ... WHERE status <> 'paused' */
  function Unpaused(s: State, job: Job): State {
    if s.job.Paused? then s else s.(job := job)
  }

  /** failCrashedProcessing and finish both count the file's failure first and fail the job's row next. */
  function Counting(s: State, worker: Worker): State {
    s.(attempts := s.attempts + 1, worker := worker)
  }

  /** finish leaves a paused row alone, recovery fails the row it read. */
  function FailRow(s: State): State {
    if !s.worker.HasCounted() then s
    else if s.worker.Counted? && s.job.Paused? then Gone(s)
    else Ended(s).(job := NoJob)
  }

  function Ended(s: State): State { s.(worker := Nobody, cancelled := false) }

  /** Whoever worked on the job is gone, and does not fail its row any more. */
  function Gone(s: State): State {
    Ended(s).(extra := if s.worker.HasCounted() then s.extra + 1 else s.extra)
  }

  function Run(s: State, steps: seq<Step>): State {
    if steps == [] then s else Apply(Run(s, steps[..|steps| - 1]), steps[|steps| - 1])
  }

  const FRESH: State := State(0, NoJob, Nobody, false, 0, true, 0)

  // ---- the bound ------------------------------------------------------------------------------

  /** An unfinished job has one attempt of the file ahead of it. */
  predicate Bounded(s: State) {
    && s.attempts + (if s.job.NoJob? || s.worker.HasCounted() then 0 else 1) <= MAX_ATTEMPTS + s.extra
    && (!s.worker.Nobody? || s.orphans > 0 ==> s.up)
    && (s.job.NoJob? ==> s.worker.Nobody?)
  }

  lemma StepBounded(s: State, step: Step)
    requires Bounded(s)
    ensures Bounded(Apply(s, step))
  {
  }

  lemma {:induction false} RunBounded(s: State, steps: seq<Step>)
    requires Bounded(s)
    ensures Bounded(Run(s, steps))
  {
    if steps != [] {
      RunBounded(s, steps[..|steps| - 1]);
      StepBounded(Run(s, steps[..|steps| - 1]), steps[|steps| - 1]);
    }
  }

  /**
   What leaves a job alive though its failure is counted: a failure that finds its row paused, one cut
   short by a cancellation, a failed write or the end of the process, one of a job that was removed; and a job queued
   by hand.
   */
  predicate Adds(s: State, step: Step) {
    match step
    case FailJob => s.worker.Counted? && s.job.Paused?
    case Leave => s.worker.Counted?
    case Kill => s.up && s.worker.HasCounted()
    case OrphanFails => s.orphans > 0
    case ByHand => s.up && s.job.NoJob?
    case _ => false
  }

  /** How often any of this happens in a run. */
  function AddsIn(s: State, steps: seq<Step>): nat {
    if steps == [] then 0 else
      var n := |steps| - 1;
      AddsIn(s, steps[..n]) + if Adds(Run(s, steps[..n]), steps[n]) then 1 else 0
  }

  lemma StepExtra(s: State, step: Step)
    ensures Apply(s, step).extra == s.extra + if Adds(s, step) then 1 else 0
  {
  }

  lemma {:induction false} ExtraIsAdds(s: State, steps: seq<Step>)
    ensures Run(s, steps).extra == s.extra + AddsIn(s, steps)
  {
    if steps != [] {
      ExtraIsAdds(s, steps[..|steps| - 1]);
      StepExtra(Run(s, steps[..|steps| - 1]), steps[|steps| - 1]);
    }
  }

  /** Each of these costs at most one attempt more. */
  lemma AttemptsBounded(steps: seq<Step>)
    ensures Run(FRESH, steps).attempts <= 5 + AddsIn(FRESH, steps)
  {
    RunBounded(FRESH, steps);
    ExtraIsAdds(FRESH, steps);
  }

  /** While every counted failure fails its job, and nobody queues the file by hand, no file is counted more than five. */
  lemma CrashLoopsEnd(steps: seq<Step>)
    requires AddsIn(FRESH, steps) == 0
    ensures Run(FRESH, steps).attempts <= 5
  {
    AttemptsBounded(steps);
  }

  // ---- the bound is exact ------------------------------------------------------------------------

  lemma Then(s: State, steps: seq<Step>, step: Step) returns (more: seq<Step>)
    ensures more == steps + [step] && Run(s, more) == Apply(Run(s, steps), step)
  {
    more := steps + [step];
    assert more[..|steps|] == steps;
  }

  /** A job is queued for a file with so many attempts, after so many split failures. */
  function Queued(attempts: nat, orphans: nat, extra: nat): State {
    State(attempts, Waiting, Nobody, false, orphans, true, extra)
  }

  lemma Processes(steps: seq<Step>, attempts: nat, orphans: nat, extra: nat) returns (more: seq<Step>)
    requires Run(FRESH, steps) == Queued(attempts, orphans, extra)
    ensures Run(FRESH, more) == State(attempts, Processing, Working, false, orphans, true, extra)
    ensures more == steps + [Claim] + [Begin]
  {
    more := Then(FRESH, steps, Claim);
    more := Then(FRESH, more, Begin);
  }

  lemma FailsOnce(steps: seq<Step>, attempts: nat, extra: nat) returns (more: seq<Step>)
    requires Run(FRESH, steps) == Queued(attempts, 0, extra)
    ensures Run(FRESH, more) == State(attempts + 1, NoJob, Nobody, false, 0, true, extra)
    ensures more == steps + [Claim, Begin, CountFailure, FailJob]
  {
    more := Processes(steps, attempts, 0, extra);
    more := Then(FRESH, more, CountFailure);
    more := Then(FRESH, more, FailJob);
  }

  /** And with the next job queued. */
  lemma FailsAndQueues(steps: seq<Step>, n: nat) returns (more: seq<Step>)
    requires Run(FRESH, steps) == Queued(n, 0, 0) && n + 1 < MAX_ATTEMPTS
    ensures Run(FRESH, more) == Queued(n + 1, 0, 0)
    ensures more == steps + [Claim, Begin, CountFailure, FailJob, Backlog]
  {
    var failed := FailsOnce(steps, n, 0);
    more := Then(FRESH, failed, Backlog);
  }

  function Rounds(n: nat): seq<Step> {
    if n == 0 then [Backlog] else Rounds(n - 1) + [Claim, Begin, CountFailure, FailJob, Backlog]
  }

  /** One failure after another, each failing its job. */
  lemma {:induction false} Failures(n: nat) returns (steps: seq<Step>)
    requires n < MAX_ATTEMPTS
    ensures Run(FRESH, steps) == Queued(n, 0, 0) && steps == Rounds(n)
  {
    if n == 0 {
      steps := Then(FRESH, [], Backlog);
    } else {
      var before := Failures(n - 1);
      steps := FailsAndQueues(before, n - 1);
    }
  }

  /** Removing the job while it is processed and queueing another, so many times. */
  lemma {:induction false} Orphans(n: nat) returns (steps: seq<Step>)
    ensures Run(FRESH, steps) == Queued(MAX_ATTEMPTS - 1, n, 0)
  {
    if n == 0 {
      steps := Failures(MAX_ATTEMPTS - 1);
    } else {
      steps := Orphans(n - 1);
      steps := Processes(steps, MAX_ATTEMPTS - 1, n - 1, 0);
      steps := Then(FRESH, steps, Remove);
      steps := Then(FRESH, steps, Backlog);
    }
  }

  lemma {:induction false} OrphansFail(n: nat, left: nat) returns (steps: seq<Step>)
    requires left <= n
    ensures Run(FRESH, steps) == Queued(MAX_ATTEMPTS - 1 + n - left, left, n - left)
    decreases n - left
  {
    if left == n {
      steps := Orphans(n);
    } else {
      steps := OrphansFail(n, left + 1);
      steps := Then(FRESH, steps, OrphanFails);
    }
  }

  /**
   Between a pause's write and its cancellation, a pause or a clean stop between the two writes, the second write lost
   and the row paused later, or a retry by hand.
   */
  datatype Turn = WhilePausing | CutByPause | CutByStop | WriteLost | RetriedByHand

  lemma WhilePausingAdds(steps: seq<Step>, extra: nat) returns (more: seq<Step>)
    requires Run(FRESH, steps) == Queued(MAX_ATTEMPTS - 1 + extra, 0, extra)
    ensures Run(FRESH, more) == Queued(MAX_ATTEMPTS + extra, 0, extra + 1)
    ensures more == steps + [Claim, Begin, PauseRow, CountFailure, FailJob, Resume]
  {
    more := Processes(steps, MAX_ATTEMPTS - 1 + extra, 0, extra);
    more := Then(FRESH, more, PauseRow);
    more := Then(FRESH, more, CountFailure);
    more := Then(FRESH, more, FailJob);
    more := Then(FRESH, more, Resume);
  }

  lemma CutByPauseAdds(steps: seq<Step>, extra: nat) returns (more: seq<Step>)
    requires Run(FRESH, steps) == Queued(MAX_ATTEMPTS - 1 + extra, 0, extra)
    ensures Run(FRESH, more) == Queued(MAX_ATTEMPTS + extra, 0, extra + 1)
  {
    more := Processes(steps, MAX_ATTEMPTS - 1 + extra, 0, extra);
    more := Then(FRESH, more, CountFailure);
    more := Then(FRESH, more, PauseRow);
    more := Then(FRESH, more, Cancel);
    more := Then(FRESH, more, Leave);
    more := Then(FRESH, more, Resume);
  }

  lemma CutByStopAdds(steps: seq<Step>, extra: nat) returns (more: seq<Step>)
    requires Run(FRESH, steps) == Queued(MAX_ATTEMPTS - 1 + extra, 0, extra)
    ensures Run(FRESH, more) == Queued(MAX_ATTEMPTS + extra, 0, extra + 1)
  {
    more := Processes(steps, MAX_ATTEMPTS - 1 + extra, 0, extra);
    more := Then(FRESH, more, CountFailure);
    more := Then(FRESH, more, Release);
    more := Then(FRESH, more, Kill);
    more := Then(FRESH, more, Restart);
  }

  lemma WriteLostAdds(steps: seq<Step>, extra: nat) returns (more: seq<Step>)
    requires Run(FRESH, steps) == Queued(MAX_ATTEMPTS - 1 + extra, 0, extra)
    ensures Run(FRESH, more) == Queued(MAX_ATTEMPTS + extra, 0, extra + 1)
  {
    more := Processes(steps, MAX_ATTEMPTS - 1 + extra, 0, extra);
    more := Then(FRESH, more, CountFailure);
    more := Then(FRESH, more, Leave);
    more := Then(FRESH, more, PauseRow);
    more := Then(FRESH, more, Resume);
  }

  lemma RetriedByHandAdds(steps: seq<Step>, extra: nat) returns (more: seq<Step>)
    requires Run(FRESH, steps) == Queued(MAX_ATTEMPTS - 1 + extra, 0, extra)
    ensures Run(FRESH, more) == Queued(MAX_ATTEMPTS + extra, 0, extra + 1)
  {
    more := FailsOnce(steps, MAX_ATTEMPTS - 1 + extra, extra);
    more := Then(FRESH, more, ByHand);
  }

  lemma {:induction false} TurnsAdd(orphans: nat, turns: seq<Turn>) returns (steps: seq<Step>)
    ensures Run(FRESH, steps) == Queued(MAX_ATTEMPTS - 1 + orphans + |turns|, 0, orphans + |turns|)
  {
    if turns == [] {
      steps := OrphansFail(orphans, 0);
    } else {
      var n := |turns| - 1;
      steps := TurnsAdd(orphans, turns[..n]);
      match turns[n]
      case WhilePausing => steps := WhilePausingAdds(steps, orphans + n);
      case CutByPause => steps := CutByPauseAdds(steps, orphans + n);
      case CutByStop => steps := CutByStopAdds(steps, orphans + n);
      case WriteLost => steps := WriteLostAdds(steps, orphans + n);
      case RetriedByHand => steps := RetriedByHandAdds(steps, orphans + n);
    }
  }

  /** Kills while a failure is counted, in processing and then in recovery. */
  lemma {:induction false} Kills(orphans: nat, turns: seq<Turn>, kills: nat) returns (steps: seq<Step>)
    ensures var extra := orphans + |turns| + kills;
      Run(FRESH, steps) ==
      State(MAX_ATTEMPTS + extra, Processing, if kills == 0 then Counted else Recovering, false, 0, true, extra)
  {
    if kills == 0 {
      steps := TurnsAdd(orphans, turns);
      steps := Processes(steps, MAX_ATTEMPTS - 1 + orphans + |turns|, 0, orphans + |turns|);
      steps := Then(FRESH, steps, CountFailure);
    } else {
      steps := Kills(orphans, turns, kills - 1);
      steps := Then(FRESH, steps, Kill);
      steps := Then(FRESH, steps, Restart);
    }
  }

  /**
   Every removed job that still fails, every pause or stop at the wrong moment, every lost write, every retry by
   hand and every kill between the two writes does add an attempt, in any number.
   */
  lemma BoundIsReached(orphans: nat, turns: seq<Turn>, kills: nat) returns (steps: seq<Step>)
    ensures AddsIn(FRESH, steps) == orphans + |turns| + kills
    ensures Run(FRESH, steps).attempts == 5 + AddsIn(FRESH, steps)
  {
    steps := Kills(orphans, turns, kills);
    ExtraIsAdds(FRESH, steps);
  }

  /** With so many of these a file can be counted more than five exactly when there is one. */
  lemma ExceedsExactly(adds: nat)
    ensures (exists steps :: AddsIn(FRESH, steps) == adds && Run(FRESH, steps).attempts > 5) <==> adds > 0
  {
    if steps :| AddsIn(FRESH, steps) == adds && Run(FRESH, steps).attempts > MAX_ATTEMPTS {
      AttemptsBounded(steps);
    }
    var steps := BoundIsReached(0, [], adds);
  }

  /** No kill, nothing by hand, and nothing between the two writes of a failure. */
  predicate Undisturbed(steps: seq<Step>) {
    && (forall k :: 0 <= k < |steps| ==> !steps[k].Kill? && !steps[k].ByHand?)
    && (forall k :: 0 <= k < |steps| && steps[k].CountFailure? ==> k + 1 < |steps| && steps[k + 1].FailJob?)
  }

  lemma UndisturbedTogether(a: seq<Step>, b: seq<Step>)
    requires Undisturbed(a) && Undisturbed(b)
    ensures Undisturbed(a + b)
  {
  }

  lemma {:induction false} RoundsUndisturbed(n: nat)
    ensures Undisturbed(Rounds(n))
  {
    if n > 0 {
      RoundsUndisturbed(n - 1);
      UndisturbedTogether(Rounds(n - 1), [Claim, Begin, CountFailure, FailJob, Backlog]);
    }
  }

  /** A failure that comes between a pause's write and its cancellation gives a sixth attempt, with nothing else amiss. */
  lemma SixthAttempt() returns (steps: seq<Step>)
    ensures Undisturbed(steps) && Run(FRESH, steps).attempts == 6
  {
    var before := Failures(MAX_ATTEMPTS - 1);
    RoundsUndisturbed(MAX_ATTEMPTS - 1);
    var paused := WhilePausingAdds(before, 0);
    steps := FailsOnce(paused, MAX_ATTEMPTS, 1);
    UndisturbedTogether(before, [Claim, Begin, PauseRow, CountFailure, FailJob, Resume]);
    UndisturbedTogether(paused, [Claim, Begin, CountFailure, FailJob]);
  }
}
