/** When a job can run here while a worker still holds its task. */
module DispatchOverlap {
  import R = RankOrder
  import opened Dispatch
  import opened DispatchSafety

  /** The job of p runs here while its download task is open. */
  predicate Overlaps(s: State, p: Pid) {
    In(s, p, Local) && s.procs[p].job in s.open
  }

  lemma {:induction false} RunAppend(limits: Limits, s: State, a: seq<Step>, b: seq<Step>)
    ensures Run(limits, s, a + b) == Run(limits, Run(limits, s, a), b)
    decreases |b|
  {
    if b == [] {
      assert a + b == a;
    } else {
      var n := |b| - 1;
      assert (a + b)[..|a + b| - 1] == a + b[..n];
      RunAppend(limits, s, a, b[..n]);
    }
  }

  lemma {:induction false} RunKeeps(limits: Limits, s: State, steps: seq<Step>)
    requires Inv(limits, s)
    ensures Inv(limits, Run(limits, s, steps))
  {
    if steps != [] {
      RunKeeps(limits, s, steps[..|steps| - 1]);
      StepKeeps(limits, Run(limits, s, steps[..|steps| - 1]), steps[|steps| - 1]);
    }
  }

  // ---- a task stays another's ------------------------------------------------------------------

  /** p is the same goroutine in both states, has not written a task, and has gained no open one. */
  ghost predicate StillWithout(limits: Limits, s: State, t: State, p: Pid) {
    && p in s.procs && p in t.procs && s.procs[p].phase.NoTask()
    && t.procs[p].job == s.procs[p].job && t.procs[p].kind == s.procs[p].kind
    && (t.procs[p].job in t.open ==> s.procs[p].job in s.open)
    && (t.procs[p].phase.HasSlot() ==> s.procs[p].phase.HasSlot() || !(limits.localOff && s.procs[p].kind.Download?))
  }

  lemma {:induction false} SpawnAllProcs(s: State, started: seq<Entry>)
    ensures s.next <= SpawnAll(s, started).next
    ensures forall p :: p < s.next ==> (p in SpawnAll(s, started).procs <==> p in s.procs)
    ensures forall p :: p < s.next && p in s.procs ==> SpawnAll(s, started).procs[p] == s.procs[p]
    decreases |started|
  {
    if started != [] {
      SpawnAllProcs(Spawn(s, started[0]), started[1..]);
    }
  }

  lemma PassWithout(limits: Limits, s: State, reading: Reading, p: Pid)
    requires p < s.next
    requires var t := Apply(limits, s, Pass(reading)); p in t.procs && t.procs[p].phase.NoTask()
    ensures StillWithout(limits, s, Apply(limits, s, Pass(reading)), p)
  {
    SpawnAllProcs(s, PassStarts(s.m, limits, reading));
    SpawnAllRows(s, PassStarts(s.m, limits, reading));
  }

  /** Only adding a task opens one. */
  lemma StepOpens(limits: Limits, s: State, step: Step, j: JobId)
    requires !step.Pass? && j in Apply(limits, s, step).open && j !in s.open
    ensures step.AddTask? && In(s, step.p, Claimed) && j == s.procs[step.p].job
  {
  }

  ghost predicate DistinctJobs(procs: map<Pid, Proc>) {
    forall p, q :: p in procs && q in procs && p != q ==> procs[p].job != procs[q].job
  }

  lemma RowStepWithout(limits: Limits, s: State, step: Step, p: Pid)
    requires DistinctJobs(s.procs) && RowStep(step)
    requires var t := Apply(limits, s, step); p in t.procs && t.procs[p].phase.NoTask()
    ensures StillWithout(limits, s, Apply(limits, s, step), p)
  {
    var t := Apply(limits, s, step);
    RowStepMoves(limits, s, step);
    if !s.procs[p].phase.NoTask() {
      RowStepForward(limits, s, step, p);
    }
    if t.procs[p].job in t.open && t.procs[p].job !in s.open {
      StepOpens(limits, s, step, t.procs[p].job);
    }
  }

  /** A goroutine past its own task does not come back before it. */
  lemma RowStepForward(limits: Limits, s: State, step: Step, p: Pid)
    requires RowStep(step) && p in s.procs && !s.procs[p].phase.NoTask()
    ensures var t := Apply(limits, s, step); p in t.procs && !t.procs[p].phase.NoTask()
  {
  }

  lemma ManagerStepWithout(limits: Limits, s: State, step: Step, p: Pid)
    requires !step.Pass? && !RowStep(step)
    requires var t := Apply(limits, s, step); p in t.procs && t.procs[p].phase.NoTask()
    ensures StillWithout(limits, s, Apply(limits, s, step), p)
  {
  }

  /** Goroutines are numbered as they start, and no two carry one job. */
  ghost predicate Numbered(s: State) {
    DistinctJobs(s.procs) && forall p :: p in s.procs ==> p < s.next
  }

  lemma InvNumbered(limits: Limits, s: State)
    requires Inv(limits, s)
    ensures Numbered(s)
  {
  }

  lemma StepWithout(limits: Limits, s: State, step: Step, p: Pid)
    requires Numbered(s) && p < s.next
    requires var t := Apply(limits, s, step); p in t.procs && t.procs[p].phase.NoTask()
    ensures StillWithout(limits, s, Apply(limits, s, step), p)
  {
    if step.Pass? {
      PassWithout(limits, s, step.reading, p);
    } else if RowStep(step) {
      RowStepWithout(limits, s, step, p);
    } else {
      ManagerStepWithout(limits, s, step, p);
    }
  }

  lemma StepNext(limits: Limits, s: State, step: Step)
    ensures s.next <= Apply(limits, s, step).next
  {
    if step.Pass? {
      SpawnAllProcs(s, PassStarts(s.m, limits, step.reading));
    }
  }

  lemma {:induction false} RunNext(limits: Limits, s: State, steps: seq<Step>)
    ensures s.next <= Run(limits, s, steps).next
  {
    if steps != [] {
      RunNext(limits, s, steps[..|steps| - 1]);
      StepNext(limits, Run(limits, s, steps[..|steps| - 1]), steps[|steps| - 1]);
    }
  }

  /** A goroutine that has written no task gains no open one, however the run goes on. */
  lemma {:induction false} RunWithout(limits: Limits, s: State, steps: seq<Step>, p: Pid)
    requires Inv(limits, s) && p < s.next
    requires var t := Run(limits, s, steps); p in t.procs && t.procs[p].phase.NoTask()
    ensures StillWithout(limits, s, Run(limits, s, steps), p)
  {
    if steps != [] {
      var n := |steps| - 1;
      RunKeeps(limits, s, steps[..n]);
      InvNumbered(limits, Run(limits, s, steps[..n]));
      RunNext(limits, s, steps[..n]);
      StepWithout(limits, Run(limits, s, steps[..n]), steps[n], p);
      RunWithout(limits, s, steps[..n], p);
    }
  }

  // ---- writes under their conditions -----------------------------------------------------------------

  /**
   What the statements of the other writers of a job's status ask of the row. A pause asks for a job queued or on its
   way, a failed attempt and an attempt's progress for one not paused, a resume for a paused and a retry for a failed
   one; a job put back after a failed hand-over and a finished import ask for nothing. So a completed job can be queued again.
   */
  predicate MayWrite(from: Status, to: Status) {
    match to
    case Queued => true
    case Paused => from.Queued? || from.Downloading? || from.Processing?
    case Completed => true
    case _ => !from.Paused?
  }

  predicate Lawful(s: State, step: Step) {
    step.Write? ==> step.job in s.status && MayWrite(s.status[step.job], step.to)
  }

  ghost predicate AllLawful(limits: Limits, s: State, steps: seq<Step>) {
    forall i :: 0 <= i < |steps| ==> Lawful(Run(limits, s, steps[..i]), steps[i])
  }

  lemma LawfulAppend(limits: Limits, s: State, a: seq<Step>, b: seq<Step>)
    requires AllLawful(limits, s, a) && AllLawful(limits, Run(limits, s, a), b)
    ensures AllLawful(limits, s, a + b)
  {
    forall i | 0 <= i < |a + b| ensures Lawful(Run(limits, s, (a + b)[..i]), (a + b)[i]) {
      if i < |a| {
        assert (a + b)[..i] == a[..i];
      } else {
        assert (a + b)[..i] == a + b[..i - |a|];
        RunAppend(limits, s, a, b[..i - |a|]);
      }
    }
  }

  lemma NoWrites(limits: Limits, s: State, steps: seq<Step>)
    requires forall i :: 0 <= i < |steps| ==> !steps[i].Write?
    ensures AllLawful(limits, s, steps)
  {
  }

  lemma OneWrite(limits: Limits, s: State, step: Step)
    requires Lawful(s, step)
    ensures AllLawful(limits, s, [step]) && Run(limits, s, [step]) == Apply(limits, s, step)
  {
    assert [step][..0] == [] && Run(limits, s, []) == s;
  }

  lemma ThreeLawful(limits: Limits, s: State, a: Step, b: Step, c: Step)
    requires Lawful(s, a) && Lawful(Apply(limits, s, a), b) && Lawful(Apply(limits, Apply(limits, s, a), b), c)
    ensures AllLawful(limits, s, [a, b, c])
  {
    assert [a, b, c][..2] == [a, b] && [a, b, c][..1] == [a] && [a, b, c][..0] == [] && [a, b][..1] == [a] && [a][..0] == [];
    assert Run(limits, s, []) == s;
    assert Run(limits, s, [a]) == Apply(limits, s, a);
    assert Run(limits, s, [a, b]) == Apply(limits, Apply(limits, s, a), b);
  }

  /** Waiting to claim a job that has no row, or past that. */
  ghost predicate Stuck(s: State, p: Pid, j: JobId) {
    p in s.procs ==>
      && s.procs[p].job == j && j !in s.status
      && !s.procs[p].phase.Claimed? && !s.procs[p].phase.Local? && !s.procs[p].phase.Added?
  }

  lemma PassStuck(limits: Limits, s: State, reading: Reading, p: Pid, j: JobId)
    requires p < s.next && Stuck(s, p, j)
    ensures Stuck(Apply(limits, s, Pass(reading)), p, j)
  {
    SpawnAllProcs(s, PassStarts(s.m, limits, reading));
    SpawnAllRows(s, PassStarts(s.m, limits, reading));
  }

  lemma RowStepStuck(limits: Limits, s: State, step: Step, p: Pid, j: JobId)
    requires DistinctJobs(s.procs) && RowStep(step) && Stuck(s, p, j) && Lawful(s, step)
    ensures Stuck(Apply(limits, s, step), p, j)
  {
  }

  lemma ManagerStepStuck(limits: Limits, s: State, step: Step, p: Pid, j: JobId)
    requires !step.Pass? && !RowStep(step) && Stuck(s, p, j) && Lawful(s, step)
    ensures Stuck(Apply(limits, s, step), p, j)
  {
  }

  lemma StepStuck(limits: Limits, s: State, step: Step, p: Pid, j: JobId)
    requires Numbered(s) && p < s.next && Stuck(s, p, j) && Lawful(s, step)
    ensures Stuck(Apply(limits, s, step), p, j)
  {
    if step.Pass? {
      PassStuck(limits, s, step.reading, p, j);
    } else if RowStep(step) {
      RowStepStuck(limits, s, step, p, j);
    } else {
      ManagerStepStuck(limits, s, step, p, j);
    }
  }

  lemma LawfulFront(limits: Limits, s: State, steps: seq<Step>, front: seq<Step>, last: Step)
    requires AllLawful(limits, s, steps) && steps == front + [last]
    ensures AllLawful(limits, s, front) && Lawful(Run(limits, s, front), last)
  {
    forall i | 0 <= i < |front| ensures Lawful(Run(limits, s, front[..i]), front[i]) {
      assert front[..i] == steps[..i];
    }
    assert steps[..|front|] == front;
  }

  lemma RunNumbered(limits: Limits, s: State, steps: seq<Step>, p: Pid)
    requires Inv(limits, s) && p < s.next
    ensures Numbered(Run(limits, s, steps)) && p < Run(limits, s, steps).next
  {
    RunKeeps(limits, s, steps);
    InvNumbered(limits, Run(limits, s, steps));
    RunNext(limits, s, steps);
  }

  lemma {:induction false} RunStuck(limits: Limits, s: State, steps: seq<Step>, p: Pid, j: JobId)
    requires Inv(limits, s) && p < s.next && Stuck(s, p, j) && AllLawful(limits, s, steps)
    ensures Stuck(Run(limits, s, steps), p, j)
  {
    if steps != [] {
      var front, last := steps[..|steps| - 1], steps[|steps| - 1];
      LawfulFront(limits, s, steps, front, last);
      RunStuck(limits, s, front, p, j);
      RunNumbered(limits, s, front, p);
      StepStuck(limits, Run(limits, s, front), last, p, j);
    }
  }

  // ---- freeing a slot --------------------------------------------------------------------------

  /** p, its row and its task are as they were. */
  ghost predicate Keeps(s: State, t: State, p: Pid) {
    && p in s.procs && p in t.procs && t.procs[p] == s.procs[p] && t.open == s.open
    && (s.procs[p].job in t.status <==> s.procs[p].job in s.status)
    && (s.procs[p].job in s.status ==> t.status[s.procs[p].job] == s.status[s.procs[p].job])
  }

  /** Some run leaves p and its task as they are and a local slot free. */
  lemma SlotCanFree(limits: Limits, s: State, p: Pid) returns (steps: seq<Step>)
    requires Inv(limits, s) && In(s, p, Offloading)
    ensures AllLawful(limits, s, steps) && Keeps(s, Run(limits, s, steps), p)
    ensures var t := Run(limits, s, steps); !(limits.maxLocal > 0 && t.m.local >= limits.maxLocal)
  {
    if limits.maxLocal > 0 && s.m.local >= limits.maxLocal {
      assert WithSlot(s.procs) != {};
      var q :| q in WithSlot(s.procs);
      steps := [RunClaim(q), RunEnds(q), Release(q)];
      Unfold3(limits, s, RunClaim(q), RunEnds(q), Release(q));
      InvNumbered(limits, s);
      Finishes(limits, s, q, p);
    } else {
      steps := [];
    }
    NoWrites(limits, s, steps);
  }

  lemma Unfold3(limits: Limits, s: State, a: Step, b: Step, c: Step)
    ensures Run(limits, s, [a, b, c]) == Apply(limits, Apply(limits, Apply(limits, s, a), b), c)
  {
    assert [a, b, c][..2] == [a, b] && [a, b][..1] == [a] && [a][..0] == [];
    assert Run(limits, s, []) == s;
    assert Run(limits, s, [a]) == Apply(limits, s, a);
    assert Run(limits, s, [a, b]) == Apply(limits, Apply(limits, s, a), b);
  }

  lemma Finishes(limits: Limits, s: State, q: Pid, p: Pid)
    requires q in s.procs && s.procs[q].phase.HasSlot() && In(s, p, Offloading) && DistinctJobs(s.procs)
    ensures var t := Apply(limits, Apply(limits, Apply(limits, s, RunClaim(q)), RunEnds(q)), Release(q));
      Keeps(s, t, p) && t.m.local == s.m.local - 1
  {
    var a := Apply(limits, s, RunClaim(q));
    ClaimsOrNot(limits, s, q, p);
    var b := Apply(limits, a, RunEnds(q));
    assert In(b, q, AfterRun) && b.procs[p] == a.procs[p] && b.open == s.open && b.m == s.m && b.status == a.status;
  }

  lemma ClaimsOrNot(limits: Limits, s: State, q: Pid, p: Pid)
    requires q in s.procs && s.procs[q].phase.HasSlot() && In(s, p, Offloading) && DistinctJobs(s.procs)
    ensures var a := Apply(limits, s, RunClaim(q));
      (In(a, q, Local) || In(a, q, AfterRun)) && Keeps(s, a, p) && a.m == s.m
  {
    assert s.procs[q].job != s.procs[p].job;
  }

  // ---- exactly when ------------------------------------------------------------------------------

  /** The same but for the row of j, which is queued. */
  ghost predicate Requeued(s: State, t: State, j: JobId) {
    t.procs == s.procs && t.open == s.open && t.m == s.m && IsQueued(t, j)
  }

  /** A pause and a resume, a resume, a retry, or the failure of another attempt or task of the job queues it. */
  lemma QueueAgain(limits: Limits, s: State, j: JobId) returns (steps: seq<Step>)
    requires j in s.status
    ensures AllLawful(limits, s, steps) && Requeued(s, Run(limits, s, steps), j)
  {
    var queue := Write(j, R.Queued);
    if s.status[j].Queued? {
      steps := [];
    } else if s.status[j].Downloading? || s.status[j].Processing? {
      var pause := Write(j, R.Paused);
      var t := Apply(limits, s, pause);
      OneWrite(limits, s, pause);
      OneWrite(limits, t, queue);
      LawfulAppend(limits, s, [pause], [queue]);
      RunAppend(limits, s, [pause], [queue]);
      steps := [pause] + [queue];
    } else {
      OneWrite(limits, s, queue);
      steps := [queue];
    }
  }

  lemma OverlapReached(limits: Limits, s: State, p: Pid) returns (steps: seq<Step>)
    requires Inv(limits, s) && In(s, p, Offloading) && s.procs[p].job in s.status
    requires s.procs[p].job in s.open && !(limits.localOff && s.procs[p].kind.Download?)
    ensures AllLawful(limits, s, steps) && Overlaps(Run(limits, s, steps), p)
  {
    var free := SlotCanFree(limits, s, p);
    var t := Run(limits, s, free);
    var queue := QueueAgain(limits, t, s.procs[p].job);
    var u := Run(limits, t, queue);
    var last := [NotOffered(p), TakeLocal(p), RunClaim(p)];
    Unfold3(limits, u, NotOffered(p), TakeLocal(p), RunClaim(p));
    TakesAndRuns(limits, u, p);
    NoWrites(limits, u, last);
    RunAppend(limits, s, free, queue);
    LawfulAppend(limits, s, free, queue);
    RunAppend(limits, s, free + queue, last);
    LawfulAppend(limits, s, free + queue, last);
    steps := free + queue + last;
  }

  lemma TakesAndRuns(limits: Limits, a: State, p: Pid)
    requires In(a, p, Offloading) && IsQueued(a, a.procs[p].job) && a.procs[p].job in a.open
    requires MayTakeLocal(a.m, limits, a.procs[p].kind)
    ensures Overlaps(Apply(limits, Apply(limits, Apply(limits, a, NotOffered(p)), TakeLocal(p)), RunClaim(p)), p)
  {
    var b := Apply(limits, a, NotOffered(p));
    assert In(b, p, Waiting) && b.m == a.m && b.status == a.status && b.open == a.open;
    var c := Apply(limits, b, TakeLocal(p));
    assert In(c, p, Slot) && c.status == a.status && c.open == a.open;
  }

  ghost predicate CanOverlap(limits: Limits, s: State, p: Pid) {
    exists steps :: AllLawful(limits, s, steps) && Overlaps(Run(limits, s, steps), p)
  }

  /**
   A goroutine just started can come to run its job beside an open task, by steps under their own conditions,
   exactly when the task was open when it was started, the job has a row, and downloads may run here at all.
   */
  lemma OverlapExactly(limits: Limits, s: State, p: Pid)
    requires Inv(limits, s) && In(s, p, Offloading)
    ensures CanOverlap(limits, s, p) <==>
      s.procs[p].job in s.open && s.procs[p].job in s.status && !(limits.localOff && s.procs[p].kind.Download?)
  {
    if CanOverlap(limits, s, p) {
      var steps :| AllLawful(limits, s, steps) && Overlaps(Run(limits, s, steps), p);
      RunWithout(limits, s, steps, p);
      if s.procs[p].job !in s.status {
        RunStuck(limits, s, steps, p, s.procs[p].job);
      }
    }
    if s.procs[p].job in s.open && s.procs[p].job in s.status && !(limits.localOff && s.procs[p].kind.Download?) {
      var steps := OverlapReached(limits, s, p);
    }
  }

  // ---- fresh reads ---------------------------------------------------------------------------------

  /** What a pass read about the workers still covers every open task when it takes the lock. */
  ghost predicate UpToDate(s: State, step: Step) {
    step.Pass? ==> forall i :: 0 <= i < |step.reading.jobs| && step.reading.jobs[i].job in s.open ==>
      step.reading.jobs[i].job in step.reading.onWorkers
  }

  ghost predicate AllUpToDate(limits: Limits, s: State, steps: seq<Step>) {
    forall i :: 0 <= i < |steps| ==> UpToDate(Run(limits, s, steps[..i]), steps[i])
  }

  /** No goroutine that has not written its own task has an open one. */
  ghost predicate NoneStale(s: State) {
    forall p :: p in s.procs && s.procs[p].phase.NoTask() ==> s.procs[p].job !in s.open
  }

  lemma {:induction false} StartsAvoidOpen(m: Fields, limits: Limits, reading: Reading, jobs: seq<Entry>, open: set<JobId>)
    requires forall i :: 0 <= i < |jobs| && jobs[i].job in open ==> jobs[i].job in reading.onWorkers
    ensures forall i :: 0 <= i < |Starts(m, limits, reading, jobs)| ==> Starts(m, limits, reading, jobs)[i].job !in open
    decreases |jobs|
  {
    if jobs != [] {
      StartsAvoidOpen(if Admits(m, limits, reading, jobs[0]) then Started(m, jobs[0]) else m, limits, reading, jobs[1..], open);
    }
  }

  lemma {:induction false} SpawnAllNoneStale(s: State, started: seq<Entry>)
    requires NoneStale(s) && forall i :: 0 <= i < |started| ==> started[i].job !in s.open
    ensures NoneStale(SpawnAll(s, started))
    decreases |started|
  {
    if started != [] {
      SpawnAllNoneStale(Spawn(s, started[0]), started[1..]);
    }
  }

  lemma StepKnows(limits: Limits, s: State, step: Step, p: Pid)
    requires !step.Pass? && p in Apply(limits, s, step).procs
    ensures p in s.procs
  {
  }

  lemma StepNoneStale(limits: Limits, s: State, step: Step)
    requires Numbered(s) && NoneStale(s) && UpToDate(s, step)
    ensures NoneStale(Apply(limits, s, step))
  {
    var t := Apply(limits, s, step);
    if step.Pass? {
      StartsAvoidOpen(s.m, limits, step.reading, step.reading.jobs, s.open);
      SpawnAllNoneStale(s, PassStarts(s.m, limits, step.reading));
    } else {
      forall p | p in t.procs && t.procs[p].phase.NoTask() ensures t.procs[p].job !in t.open {
        StepKnows(limits, s, step, p);
        StepWithout(limits, s, step, p);
      }
    }
  }

  /** While every pass reads the workers' tasks up to date, no job ever runs here beside its open task. */
  lemma {:induction false} UpToDateNeverOverlaps(limits: Limits, s: State, steps: seq<Step>)
    requires Fresh(s) && AllUpToDate(limits, s, steps)
    ensures NoneStale(Run(limits, s, steps))
    ensures forall p :: !Overlaps(Run(limits, s, steps), p)
  {
    if steps != [] {
      var n := |steps| - 1;
      forall i | 0 <= i < n ensures UpToDate(Run(limits, s, steps[..n][..i]), steps[..n][i]) {
        assert steps[..n][..i] == steps[..i];
      }
      UpToDateNeverOverlaps(limits, s, steps[..n]);
      Reachable(limits, s, steps[..n]);
      InvNumbered(limits, Run(limits, s, steps[..n]));
      assert UpToDate(Run(limits, s, steps[..n]), steps[n]);
      StepNoneStale(limits, Run(limits, s, steps[..n]), steps[n]);
    }
  }

  // ---- a stale read --------------------------------------------------------------------------------

  const ONE: Entry := Entry(1, R.Download, "", false)
  const READ: Reading := Reading([ONE], {}, Quiet(false, false))
  const LIMITS: Limits := Limits(1, 1, 1, 0, false)

  /** One queued download and no task. */
  const BEFORE: State :=
    State(Fields({}, map[], map[], 0, false), map[], 0, map[1 := R.Queued], {}, map[], map[1 := 1])

  /**
   The first pass starts job 1. While its goroutine hands it over, the second pass reads the queue and
   the tasks; a pause writes the row but has not cancelled anything yet, the task is written, and a
   resume makes the row queued again.
   */
  function Interleaving(): seq<Step> {
    [Pass(READ), OffloadClaim(0), Write(1, R.Paused)]
      + [AddTask(0), MarkDownloading(0), Exit(0)] + [Write(1, R.Queued), HoldOn(false), Pass(READ)]
  }

  lemma PassStartsOne(m: Fields)
    requires m.running == {} && m.runningKind == map[] && !m.held
    ensures PassStarts(m, LIMITS, READ) == [ONE]
  {
    assert m.JobsOfKind(R.Download) == {};
    assert Admits(m, LIMITS, READ, ONE);
    assert READ.jobs == [ONE] && READ.jobs[1..] == [];
    assert Starts(Started(m, ONE), LIMITS, READ, []) == [];
  }

  lemma SpawnOne(s: State)
    ensures SpawnAll(s, [ONE]) == Spawn(s, ONE)
  {
    assert [ONE][1..] == [];
  }

  lemma FirstThree() returns (s: State)
    ensures s == Run(LIMITS, BEFORE, [Pass(READ), OffloadClaim(0), Write(1, R.Paused)])
    ensures In(s, 0, Claimed) && s.procs == map[0 := Proc(1, R.Download, "", Claimed)] && s.open == {} && s.next == 1
    ensures s.status == map[1 := R.Paused]
    ensures s.m == Fields({1}, map[1 := R.Download], map["" := 1], 0, false)
    ensures AllLawful(LIMITS, BEFORE, [Pass(READ), OffloadClaim(0), Write(1, R.Paused)])
  {
    Unfold3(LIMITS, BEFORE, Pass(READ), OffloadClaim(0), Write(1, R.Paused));
    PassStartsOne(BEFORE.m);
    SpawnOne(BEFORE);
    ThreeLawful(LIMITS, BEFORE, Pass(READ), OffloadClaim(0), Write(1, R.Paused));
    s := Run(LIMITS, BEFORE, [Pass(READ), OffloadClaim(0), Write(1, R.Paused)]);
  }

  lemma NextThree(s: State) returns (t: State)
    requires s.procs == map[0 := Proc(1, R.Download, "", Claimed)] && s.open == {} && s.next == 1
    requires s.status == map[1 := R.Paused] && s.m == Fields({1}, map[1 := R.Download], map["" := 1], 0, false)
    ensures t == Run(LIMITS, s, [AddTask(0), MarkDownloading(0), Exit(0)])
    ensures t.procs == map[] && t.open == {1} && t.next == 1 && t.status == map[1 := R.Paused]
    ensures t.m == Fields({}, map[], map["" := 0], 0, false)
    ensures AllLawful(LIMITS, s, [AddTask(0), MarkDownloading(0), Exit(0)])
  {
    NoWrites(LIMITS, s, [AddTask(0), MarkDownloading(0), Exit(0)]);
    Unfold3(LIMITS, s, AddTask(0), MarkDownloading(0), Exit(0));
    Adds(s);
    MarksNothing(Apply(LIMITS, s, AddTask(0)));
    ExitsLast(Apply(LIMITS, Apply(LIMITS, s, AddTask(0)), MarkDownloading(0)));
    t := Run(LIMITS, s, [AddTask(0), MarkDownloading(0), Exit(0)]);
  }

  lemma Adds(s: State)
    requires s.procs == map[0 := Proc(1, R.Download, "", Claimed)] && s.open == {}
    ensures Apply(LIMITS, s, AddTask(0)) == s.(procs := map[0 := Proc(1, R.Download, "", Added)], open := {1})
  {
  }

  /** A paused row keeps its status. */
  lemma MarksNothing(s: State)
    requires s.procs == map[0 := Proc(1, R.Download, "", Added)] && s.status == map[1 := R.Paused]
    ensures Apply(LIMITS, s, MarkDownloading(0)) == s.(procs := map[0 := Proc(1, R.Download, "", Leaving)])
  {
  }

  lemma ExitsLast(b: State)
    requires b.procs == map[0 := Proc(1, R.Download, "", Leaving)]
    requires b.m == Fields({1}, map[1 := R.Download], map["" := 1], 0, false)
    ensures Apply(LIMITS, b, Exit(0)) == b.(procs := map[], m := Fields({}, map[], map["" := 0], 0, false))
  {
    assert b.procs - {0} == map[];
    assert Exited(b.m, 1, "") == Fields({}, map[], map["" := 0], 0, false);
  }

  lemma LastThree(s: State) returns (t: State)
    requires s.procs == map[] && s.open == {1} && s.next == 1 && s.status == map[1 := R.Paused]
    requires s.m == Fields({}, map[], map["" := 0], 0, false)
    ensures t == Run(LIMITS, s, [Write(1, R.Queued), HoldOn(false), Pass(READ)])
    ensures In(t, 1, Offloading) && t.procs[1] == Proc(1, R.Download, "", Offloading) && t.open == {1}
    ensures 1 in t.status && AllLawful(LIMITS, s, [Write(1, R.Queued), HoldOn(false), Pass(READ)])
  {
    ThreeLawful(LIMITS, s, Write(1, R.Queued), HoldOn(false), Pass(READ));
    Unfold3(LIMITS, s, Write(1, R.Queued), HoldOn(false), Pass(READ));
    var a := Apply(LIMITS, Apply(LIMITS, s, Write(1, R.Queued)), HoldOn(false));
    PassStartsOne(a.m);
    SpawnOne(a);
    t := Run(LIMITS, s, [Write(1, R.Queued), HoldOn(false), Pass(READ)]);
  }

  const FIRST: seq<Step> := [Pass(READ), OffloadClaim(0), Write(1, R.Paused)]
  const NEXT: seq<Step> := [AddTask(0), MarkDownloading(0), Exit(0)]
  const LAST: seq<Step> := [Write(1, R.Queued), HoldOn(false), Pass(READ)]

  lemma Interleaved() returns (s: State)
    ensures s == Run(LIMITS, BEFORE, Interleaving()) && AllLawful(LIMITS, BEFORE, Interleaving())
    ensures In(s, 1, Offloading) && s.procs[1] == Proc(1, R.Download, "", Offloading) && s.open == {1} && 1 in s.status
  {
    var a := FirstThree();
    var b := NextThree(a);
    s := LastThree(b);
    RunAppend(LIMITS, BEFORE, FIRST, NEXT);
    LawfulAppend(LIMITS, BEFORE, FIRST, NEXT);
    RunAppend(LIMITS, BEFORE, FIRST + NEXT, LAST);
    LawfulAppend(LIMITS, BEFORE, FIRST + NEXT, LAST);
    assert Interleaving() == FIRST + NEXT + LAST;
  }

  /** The claim that no local run overlaps an open task is false: a pass may act on what it read before. */
  lemma StaleReadOverlaps() returns (steps: seq<Step>)
    ensures Fresh(BEFORE) && AllLawful(LIMITS, BEFORE, steps) && Overlaps(Run(LIMITS, BEFORE, steps), 1)
  {
    var s := Interleaved();
    FreshInv(LIMITS, BEFORE);
    RunKeeps(LIMITS, BEFORE, Interleaving());
    var rest := OverlapReached(LIMITS, s, 1);
    RunAppend(LIMITS, BEFORE, Interleaving(), rest);
    LawfulAppend(LIMITS, BEFORE, Interleaving(), rest);
    steps := Interleaving() + rest;
  }
}
