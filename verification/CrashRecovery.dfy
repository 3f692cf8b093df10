/** What becomes of a file whose processing fails: each way an attempt can end, and when the file is left alone. */
module CrashRecovery {
  import opened Common
  import opened CrashLoop

  // ---- one attempt ------------------------------------------------------------------------------

  /** Steps one after another. */
  lemma {:induction false} RunTwo(s: State, a: seq<Step>, b: seq<Step>)
    ensures Run(s, a + b) == Run(Run(s, a), b)
  {
    if b == [] {
      assert a + b == a;
    } else {
      var n := |b| - 1;
      assert (a + b)[..|a + b| - 1] == a + b[..n];
      RunTwo(s, a, b[..n]);
    }
  }

  /** One more step. */
  lemma Onward(s: State, steps: seq<Step>, step: Step, more: seq<Step>, was: State, next: State)
    requires Run(s, steps) == was && next == Apply(was, step) && more == steps + [step]
    ensures Run(s, more) == next
  {
    assert more[..|more| - 1] == steps;
  }

  /** No job, and the file counted so often. */
  function Idle(attempts: nat, extra: nat): State {
    State(attempts, NoJob, Nobody, false, 0, true, extra)
  }

  /** The backlog queues a file without a job exactly while it is counted less than five times. */
  lemma BacklogQueues(attempts: nat, extra: nat)
    ensures Run(Idle(attempts, extra), [Backlog]) == if attempts < 5 then Queued(attempts, 0, extra) else Idle(attempts, extra)
  {
    var s := Idle(attempts, extra);
    Onward(s, [], Backlog, [Backlog], s, Apply(s, Backlog));
  }

  function Busied(n: nat, job: Job, worker: Worker, up: bool, extra: nat): State {
    State(n, job, worker, false, 0, up, extra)
  }

  lemma Starts(n: nat, extra: nat)
    ensures Run(Queued(n, 0, extra), [Claim, Begin]) == Busied(n, Processing, Working, true, extra)
  {
    var s := Queued(n, 0, extra);
    Onward(s, [], Claim, [Claim], s, Busied(n, Busy, Claimed, true, extra));
    Onward(s, [Claim], Begin, [Claim, Begin], Busied(n, Busy, Claimed, true, extra), Busied(n, Processing, Working, true, extra));
  }

  lemma Imports(n: nat, extra: nat)
    ensures Run(Queued(n, 0, extra), [Claim, Begin, Import]) == Busied(n, Busy, Claimed, true, extra)
  {
    Starts(n, extra);
    Onward(Queued(n, 0, extra), [Claim, Begin], Import, [Claim, Begin, Import],
           Busied(n, Processing, Working, true, extra), Busied(n, Busy, Claimed, true, extra));
  }

  /** A file that is processed starts counting anew. */
  lemma SuccessForgets(n: nat, extra: nat)
    ensures Run(Queued(n, 0, extra), [Claim, Begin, Import, Imported]) == Idle(0, extra)
    ensures Run(Queued(n, 0, extra), [Claim, Begin, Unchanged]) == Idle(0, extra)
  {
    var s := Queued(n, 0, extra);
    Starts(n, extra);
    Imports(n, extra);
    Onward(s, [Claim, Begin, Import], Imported, [Claim, Begin, Import, Imported], Busied(n, Busy, Claimed, true, extra), Idle(0, extra));
    Onward(s, [Claim, Begin], Unchanged, [Claim, Begin, Unchanged], Busied(n, Processing, Working, true, extra), Idle(0, extra));
  }

  /** A temporary failure puts the job back uncounted. */
  lemma PostponedNotCounted(n: nat, extra: nat)
    ensures Run(Queued(n, 0, extra), [Claim, Begin, Postpone]) == Queued(n, 0, extra)
  {
    Starts(n, extra);
    Onward(Queued(n, 0, extra), [Claim, Begin], Postpone, [Claim, Begin, Postpone],
           Busied(n, Processing, Working, true, extra), Queued(n, 0, extra));
  }

  /** So does a kill while the file is imported. */
  lemma KilledImporting(n: nat, extra: nat)
    ensures Run(Queued(n, 0, extra), [Claim, Begin, Import, Kill, Restart]) == Queued(n, 0, extra)
  {
    var s, down := Queued(n, 0, extra), Busied(n, Busy, Nobody, false, extra);
    Imports(n, extra);
    Onward(s, [Claim, Begin, Import], Kill, [Claim, Begin, Import, Kill], Busied(n, Busy, Claimed, true, extra), down);
    Onward(s, [Claim, Begin, Import, Kill], Restart, [Claim, Begin, Import, Kill, Restart], down, s);
  }

  lemma Releases(n: nat, extra: nat)
    ensures Run(Queued(n, 0, extra), [Claim, Begin, Release]) == Busied(n, Waiting, Working, true, extra)
  {
    Starts(n, extra);
    Onward(Queued(n, 0, extra), [Claim, Begin], Release, [Claim, Begin, Release],
           Busied(n, Processing, Working, true, extra), Busied(n, Waiting, Working, true, extra));
  }

  /** And a clean stop while it is processed. */
  lemma StoppedNotCounted(n: nat, extra: nat)
    ensures Run(Queued(n, 0, extra), [Claim, Begin, Release, Kill, Restart]) == Queued(n, 0, extra)
  {
    var s, back, down := Queued(n, 0, extra), Busied(n, Waiting, Working, true, extra), Busied(n, Waiting, Nobody, false, extra);
    Releases(n, extra);
    Onward(s, [Claim, Begin, Release], Kill, [Claim, Begin, Release, Kill], back, down);
    Onward(s, [Claim, Begin, Release, Kill], Restart, [Claim, Begin, Release, Kill, Restart], down, s);
  }

  /** A failure is counted once and ends the job. */
  lemma FailureCountedOnce(n: nat, extra: nat)
    ensures Run(Queued(n, 0, extra), [Claim, Begin, CountFailure, FailJob]) == Idle(n + 1, extra)
  {
    var s, counted := Queued(n, 0, extra), Busied(n + 1, Processing, Counted, true, extra);
    Starts(n, extra);
    Onward(s, [Claim, Begin], CountFailure, [Claim, Begin, CountFailure], Busied(n, Processing, Working, true, extra), counted);
    Onward(s, [Claim, Begin, CountFailure], FailJob, [Claim, Begin, CountFailure, FailJob], counted, Idle(n + 1, extra));
  }

  lemma KilledProcessing(n: nat, extra: nat)
    ensures Run(Queued(n, 0, extra), [Claim, Begin, Kill]) == Busied(n, Processing, Nobody, false, extra)
  {
    Starts(n, extra);
    Onward(Queued(n, 0, extra), [Claim, Begin], Kill, [Claim, Begin, Kill],
           Busied(n, Processing, Working, true, extra), Busied(n, Processing, Nobody, false, extra));
  }

  /** So is a kill while the file is processed, at the restart. */
  lemma KillCountedOnce(n: nat, extra: nat)
    ensures Run(Queued(n, 0, extra), [Claim, Begin, Kill, Restart, FailJob]) == Idle(n + 1, extra)
  {
    var s, down := Queued(n, 0, extra), Busied(n, Processing, Nobody, false, extra);
    var counted := Busied(n + 1, Processing, Recovering, true, extra);
    KilledProcessing(n, extra);
    Onward(s, [Claim, Begin, Kill], Restart, [Claim, Begin, Kill, Restart], down, counted);
    Onward(s, [Claim, Begin, Kill, Restart], FailJob, [Claim, Begin, Kill, Restart, FailJob], counted, Idle(n + 1, extra));
  }

  // ---- over time ----------------------------------------------------------------------------------

  /** Nobody queues the file or resets its count. */
  predicate LeftAlone(steps: seq<Step>) {
    forall i :: 0 <= i < |steps| ==> !steps[i].ByHand? && !steps[i].Forced?
  }

  /** The file is given up: counted five times, without a job and nobody processing it. */
  predicate GivenUp(s: State) {
    s.attempts >= 5 && s.job.NoJob? && s.worker.Nobody? && s.orphans == 0
  }

  lemma StaysGivenUp(s: State, step: Step)
    requires GivenUp(s) && !step.ByHand? && !step.Forced?
    ensures GivenUp(Apply(s, step)) && Apply(s, step).attempts == s.attempts
  {
  }

  /** Whatever else happens, restarts too, a file that was given up is not processed again. */
  lemma {:induction false} CrashLoopIsOver(s: State, steps: seq<Step>)
    requires GivenUp(s) && LeftAlone(steps)
    ensures GivenUp(Run(s, steps)) && Run(s, steps).attempts == s.attempts
  {
    if steps != [] {
      CrashLoopIsOver(s, steps[..|steps| - 1]);
      StaysGivenUp(Run(s, steps[..|steps| - 1]), steps[|steps| - 1]);
    }
  }

  /** Postponed so many times. */
  function Postponements(n: nat): seq<Step> {
    if n == 0 then [] else Postponements(n - 1) + [Claim, Begin, Postpone]
  }

  /** However often it is postponed, a queued file is as it was. */
  lemma {:induction false} NeverWorn(attempts: nat, extra: nat, n: nat)
    ensures Run(Queued(attempts, 0, extra), Postponements(n)) == Queued(attempts, 0, extra)
  {
    if n > 0 {
      var s := Queued(attempts, 0, extra);
      NeverWorn(attempts, extra, n - 1);
      PostponedNotCounted(attempts, extra);
      Twice(s, Postponements(n - 1), [Claim, Begin, Postpone], s, s);
    }
  }

  lemma Twice(s: State, a: seq<Step>, b: seq<Step>, middle: State, end: State)
    requires Run(s, a) == middle && Run(middle, b) == end
    ensures Run(s, a + b) == end
  {
    RunTwo(s, a, b);
  }

  /** By hand a file that was given up is queued again, and a reset lets the backlog have it. */
  lemma ByHandAgain(attempts: nat, extra: nat)
    ensures Run(Idle(attempts, extra), [ByHand]) == Queued(attempts, 0, extra + 1)
    ensures Run(Idle(attempts, extra), [Forced, Backlog]) == Queued(0, 0, extra)
  {
    var s := Idle(attempts, extra);
    Onward(s, [], ByHand, [ByHand], s, Queued(attempts, 0, extra + 1));
    Onward(s, [], Forced, [Forced], s, Idle(0, extra));
    Onward(s, [Forced], Backlog, [Forced, Backlog], Idle(0, extra), Queued(0, 0, extra));
  }
}
