/** What holds in every reachable state of the scheduler, whatever the passes read. */
module DispatchSafety {
  import R = RankOrder
  import opened Dispatch

  /** The state every step keeps. */
  ghost predicate Inv(limits: Limits, s: State) {
    OneEach(s.m, s.procs, s.next) && Counted(s.m, s.procs) && Limited(limits, s.procs)
  }

  // ---- one more goroutine ---------------------------------------------------------------------

  lemma KindAdded(procs: map<Pid, Proc>, n: Pid, x: Proc, kind: Kind)
    requires n !in procs
    ensures |OfKind(procs[n := x], kind)| == |OfKind(procs, kind)| + if x.kind == kind then 1 else 0
  {
    assert OfKind(procs[n := x], kind) == OfKind(procs, kind) + if x.kind == kind then {n} else {};
  }

  lemma SrcAdded(procs: map<Pid, Proc>, n: Pid, x: Proc, src: string)
    requires n !in procs
    ensures |OfSrc(procs[n := x], src)| == |OfSrc(procs, src)| + if x.src == src then 1 else 0
  {
    assert OfSrc(procs[n := x], src) == OfSrc(procs, src) + if x.src == src then {n} else {};
  }

  lemma SlotAdded(procs: map<Pid, Proc>, n: Pid, x: Proc)
    requires n !in procs && !x.phase.HasSlot()
    ensures WithSlot(procs[n := x]) == WithSlot(procs)
  {
  }

  lemma KindStarted(m: Fields, e: Entry, kind: Kind)
    requires e.job !in m.runningKind
    ensures |Started(m, e).JobsOfKind(kind)| == |m.JobsOfKind(kind)| + if kind == e.kind then 1 else 0
  {
    assert Started(m, e).JobsOfKind(kind) == m.JobsOfKind(kind) + if kind == e.kind then {e.job} else {};
  }

  lemma SpawnOneEach(m: Fields, procs: map<Pid, Proc>, next: Pid, e: Entry)
    requires OneEach(m, procs, next) && e.job !in m.running
    ensures OneEach(Started(m, e), procs[next := Proc(e.job, e.kind, e.Src(), Offloading)], next + 1)
  {
  }

  lemma SpawnCounted(m: Fields, procs: map<Pid, Proc>, next: Pid, e: Entry)
    requires OneEach(m, procs, next) && Counted(m, procs) && e.job !in m.running
    ensures Counted(Started(m, e), procs[next := Proc(e.job, e.kind, e.Src(), Offloading)])
  {
    var x := Proc(e.job, e.kind, e.Src(), Offloading);
    assert next !in procs;
    forall kind ensures |Started(m, e).JobsOfKind(kind)| == |OfKind(procs[next := x], kind)| {
      KindAdded(procs, next, x, kind);
      KindStarted(m, e, kind);
    }
    forall src ensures Started(m, e).RunningSrc(src) == |OfSrc(procs[next := x], src)| {
      SrcAdded(procs, next, x, src);
    }
    SlotAdded(procs, next, x);
    OneMore(procs, next, x);
  }

  lemma OneMore(procs: map<Pid, Proc>, n: Pid, x: Proc)
    requires n !in procs
    ensures |procs[n := x]| == |procs| + 1
  {
    assert procs[n := x].Keys == procs.Keys + {n};
    assert |procs| == |procs.Keys| && |procs[n := x]| == |procs[n := x].Keys|;
  }

  lemma SpawnLimited(limits: Limits, reading: Reading, m: Fields, procs: map<Pid, Proc>, next: Pid, e: Entry)
    requires OneEach(m, procs, next) && Counted(m, procs) && Limited(limits, procs)
    requires Admits(m, limits, reading, e)
    ensures Limited(limits, procs[next := Proc(e.job, e.kind, e.Src(), Offloading)])
  {
    var x := Proc(e.job, e.kind, e.Src(), Offloading);
    assert next !in procs;
    forall kind ensures |OfKind(procs[next := x], kind)| <= CapOf(limits, kind) {
      KindAdded(procs, next, x, kind);
      assert |m.JobsOfKind(kind)| == |OfKind(procs, kind)| <= CapOf(limits, kind);
    }
    var after := procs[next := x];
    forall src | src != "" ensures |OfSrc(after, src)| <= Cap(limits.maxPerSource) {
      SrcAdded(procs, next, x, src);
      assert m.RunningSrc(src) == |OfSrc(procs, src)| <= Cap(limits.maxPerSource);
    }
    SlotAdded(procs, next, x);
  }

  lemma SpawnKeeps(limits: Limits, s: State, reading: Reading, e: Entry)
    requires Inv(limits, s) && Admits(s.m, limits, reading, e)
    ensures Inv(limits, Spawn(s, e))
  {
    SpawnOneEach(s.m, s.procs, s.next, e);
    SpawnCounted(s.m, s.procs, s.next, e);
    SpawnLimited(limits, reading, s.m, s.procs, s.next, e);
  }

  lemma {:induction false} PassKeeps(limits: Limits, s: State, reading: Reading, jobs: seq<Entry>)
    requires Inv(limits, s)
    ensures Inv(limits, SpawnAll(s, Starts(s.m, limits, reading, jobs)))
    decreases |jobs|
  {
    if jobs != [] {
      if Admits(s.m, limits, reading, jobs[0]) {
        SpawnKeeps(limits, s, reading, jobs[0]);
        var t := Spawn(s, jobs[0]);
        PassKeeps(limits, t, reading, jobs[1..]);
        var starts := Starts(s.m, limits, reading, jobs);
        assert starts[1..] == Starts(t.m, limits, reading, jobs[1..]);
      } else {
        PassKeeps(limits, s, reading, jobs[1..]);
      }
    }
  }

  // ---- a change of phase -------------------------------------------------------------------------

  function Moved(procs: map<Pid, Proc>, p: Pid, phase: Phase): map<Pid, Proc>
    requires p in procs
  {
    procs[p := procs[p].(phase := phase)]
  }

  lemma MovedSets(procs: map<Pid, Proc>, p: Pid, phase: Phase, kind: Kind, src: string)
    requires p in procs
    ensures OfKind(Moved(procs, p, phase), kind) == OfKind(procs, kind)
    ensures OfSrc(Moved(procs, p, phase), src) == OfSrc(procs, src)
  {
  }

  lemma MovedSlot(procs: map<Pid, Proc>, p: Pid, phase: Phase)
    requires p in procs
    ensures |WithSlot(Moved(procs, p, phase))| ==
      |WithSlot(procs)| + (if phase.HasSlot() then 1 else 0) - (if procs[p].phase.HasSlot() then 1 else 0)
  {
    SlotApart(procs, p);
    SlotApart(Moved(procs, p, phase), p);
    assert WithSlot(Moved(procs, p, phase)) - {p} == WithSlot(procs) - {p};
  }

  lemma SlotApart(procs: map<Pid, Proc>, p: Pid)
    requires p in procs
    ensures |WithSlot(procs)| == |WithSlot(procs) - {p}| + if procs[p].phase.HasSlot() then 1 else 0
  {
    assert p in WithSlot(procs) <==> procs[p].phase.HasSlot();
    assert p !in WithSlot(procs) ==> WithSlot(procs) - {p} == WithSlot(procs);
  }

  lemma MovedOneEach(m: Fields, procs: map<Pid, Proc>, next: Pid, p: Pid, phase: Phase)
    requires OneEach(m, procs, next) && p in procs
    ensures OneEach(m, Moved(procs, p, phase), next)
  {
  }

  /** A change of phase with the matching change of the local counter. */
  lemma MoveKeeps(limits: Limits, m: Fields, procs: map<Pid, Proc>, next: Pid, p: Pid, phase: Phase, after: Fields)
    requires OneEach(m, procs, next) && Counted(m, procs) && Limited(limits, procs) && p in procs
    requires after == m.(local := m.local + (if phase.HasSlot() then 1 else 0) - (if procs[p].phase.HasSlot() then 1 else 0))
    requires limits.maxLocal > 0 && !procs[p].phase.HasSlot() && phase.HasSlot() ==> m.local < limits.maxLocal
    ensures OneEach(after, Moved(procs, p, phase), next) && Counted(after, Moved(procs, p, phase))
    ensures Limited(limits, Moved(procs, p, phase))
  {
    MovedOneEach(m, procs, next, p, phase);
    MovedSlot(procs, p, phase);
    MovedSame(m, procs, p, phase, after);
    MovedCounted(m, procs, after, Moved(procs, p, phase));
    MovedLimited(limits, procs, Moved(procs, p, phase));
  }

  lemma MovedSame(m: Fields, procs: map<Pid, Proc>, p: Pid, phase: Phase, after: Fields)
    requires p in procs && after.runningKind == m.runningKind && after.runningSrc == m.runningSrc
    ensures |Moved(procs, p, phase)| == |procs|
    ensures forall kind :: OfKind(Moved(procs, p, phase), kind) == OfKind(procs, kind) && after.JobsOfKind(kind) == m.JobsOfKind(kind)
    ensures forall src :: OfSrc(Moved(procs, p, phase), src) == OfSrc(procs, src) && after.RunningSrc(src) == m.RunningSrc(src)
  {
    assert Moved(procs, p, phase).Keys == procs.Keys;
    assert |procs| == |procs.Keys| && |Moved(procs, p, phase)| == |Moved(procs, p, phase).Keys|;
    forall kind, src ensures OfKind(Moved(procs, p, phase), kind) == OfKind(procs, kind) && OfSrc(Moved(procs, p, phase), src) == OfSrc(procs, src) {
      MovedSets(procs, p, phase, kind, src);
    }
  }

  lemma MovedCounted(m: Fields, procs: map<Pid, Proc>, after: Fields, moved: map<Pid, Proc>)
    requires Counted(m, procs) && |moved| == |procs| && after.running == m.running && after.local == |WithSlot(moved)|
    requires forall kind :: OfKind(moved, kind) == OfKind(procs, kind) && after.JobsOfKind(kind) == m.JobsOfKind(kind)
    requires forall src :: OfSrc(moved, src) == OfSrc(procs, src) && after.RunningSrc(src) == m.RunningSrc(src)
    ensures Counted(after, moved)
  {
  }

  lemma MovedLimited(limits: Limits, procs: map<Pid, Proc>, moved: map<Pid, Proc>)
    requires Limited(limits, procs)
    requires forall kind :: OfKind(moved, kind) == OfKind(procs, kind)
    requires forall src :: OfSrc(moved, src) == OfSrc(procs, src)
    requires limits.maxLocal > 0 ==> |WithSlot(moved)| <= limits.maxLocal
    ensures Limited(limits, moved)
  {
  }

  lemma PhaseKeeps(limits: Limits, s: State, p: Pid, phase: Phase)
    requires Inv(limits, s) && p in s.procs && s.procs[p].phase.HasSlot() == phase.HasSlot()
    ensures Inv(limits, At(s, p, phase))
  {
    assert s.m == s.m.(local := s.m.local);
    MoveKeeps(limits, s.m, s.procs, s.next, p, phase, s.m);
  }

  // ---- one goroutine less --------------------------------------------------------------------------

  lemma ExitOneEach(m: Fields, procs: map<Pid, Proc>, next: Pid, p: Pid)
    requires OneEach(m, procs, next) && p in procs
    ensures OneEach(Exited(m, procs[p].job, procs[p].src), procs - {p}, next)
  {
  }

  lemma ExitKind(m: Fields, procs: map<Pid, Proc>, p: Pid, kind: Kind)
    requires p in procs && procs[p].job in m.runningKind && m.runningKind[procs[p].job] == procs[p].kind
    requires |m.JobsOfKind(kind)| == |OfKind(procs, kind)|
    ensures |Exited(m, procs[p].job, procs[p].src).JobsOfKind(kind)| == |OfKind(procs - {p}, kind)| <= |OfKind(procs, kind)|
  {
    assert OfKind(procs - {p}, kind) == OfKind(procs, kind) - {p};
    assert Exited(m, procs[p].job, procs[p].src).JobsOfKind(kind) == m.JobsOfKind(kind) - {procs[p].job};
    assert p in OfKind(procs, kind) <==> procs[p].kind == kind;
    assert procs[p].job in m.JobsOfKind(kind) <==> procs[p].kind == kind;
  }

  lemma ExitSrc(m: Fields, procs: map<Pid, Proc>, p: Pid, src: string)
    requires p in procs && m.RunningSrc(src) == |OfSrc(procs, src)|
    ensures Exited(m, procs[p].job, procs[p].src).RunningSrc(src) == |OfSrc(procs - {p}, src)| <= |OfSrc(procs, src)|
  {
    assert OfSrc(procs - {p}, src) == OfSrc(procs, src) - {p};
    assert p in OfSrc(procs, src) <==> procs[p].src == src;
  }

  lemma ExitCounted(limits: Limits, m: Fields, procs: map<Pid, Proc>, next: Pid, p: Pid)
    requires OneEach(m, procs, next) && Counted(m, procs) && Limited(limits, procs)
    requires p in procs && !procs[p].phase.HasSlot()
    ensures Counted(Exited(m, procs[p].job, procs[p].src), procs - {p}) && Limited(limits, procs - {p})
  {
    var after := Exited(m, procs[p].job, procs[p].src);
    forall kind
      ensures |after.JobsOfKind(kind)| == |OfKind(procs - {p}, kind)| <= |OfKind(procs, kind)|
    {
      ExitKind(m, procs, p, kind);
    }
    forall src ensures after.RunningSrc(src) == |OfSrc(procs - {p}, src)| <= |OfSrc(procs, src)| {
      ExitSrc(m, procs, p, src);
    }
    assert WithSlot(procs - {p}) == WithSlot(procs);
    OneLess(procs, p);
  }

  lemma OneLess(procs: map<Pid, Proc>, p: Pid)
    requires p in procs
    ensures |procs - {p}| == |procs| - 1
  {
    assert (procs - {p}).Keys == procs.Keys - {p};
    assert |procs| == |procs.Keys| && |procs - {p}| == |(procs - {p}).Keys|;
  }

  lemma ExitKeeps(limits: Limits, s: State, p: Pid)
    requires Inv(limits, s) && In(s, p, Leaving)
    ensures Inv(limits, s.(m := Exited(s.m, s.procs[p].job, s.procs[p].src), procs := s.procs - {p}))
  {
    ExitOneEach(s.m, s.procs, s.next, p);
    ExitCounted(limits, s.m, s.procs, s.next, p);
  }

  // ---- every step ------------------------------------------------------------------------------------

  /** Every step keeps one goroutine for each job, every counter right and every limit. */
  lemma StepKeeps(limits: Limits, s: State, step: Step)
    requires Inv(limits, s)
    ensures Inv(limits, Apply(limits, s, step))
  {
    match step
    case Pass(reading) =>
      if !s.m.held {
        PassKeeps(limits, s, reading, reading.jobs);
      }
    case HoldOn(on) => HoldKeeps(limits, s, on);
    case TakeLocal(p) =>
      if In(s, p, Waiting) {
        if MayTakeLocal(s.m, limits, s.procs[p].kind) {
          MoveKeeps(limits, s.m, s.procs, s.next, p, Slot, s.m.(local := s.m.local + 1));
        } else {
          PhaseKeeps(limits, s, p, Offloading);
        }
      }
    case Release(p) =>
      if In(s, p, AfterRun) {
        MoveKeeps(limits, s.m, s.procs, s.next, p, Leaving, s.m.(local := s.m.local - 1));
      }
    case Exit(p) =>
      if In(s, p, Leaving) {
        ExitKeeps(limits, s, p);
      }
    case _ => RowStepKeeps(limits, s, step);
  }

  lemma HoldKeeps(limits: Limits, s: State, on: bool)
    requires Inv(limits, s)
    ensures Inv(limits, s.(m := s.m.(held := on)))
  {
    var m := s.m.(held := on);
    assert forall kind :: m.JobsOfKind(kind) == s.m.JobsOfKind(kind);
    assert forall src :: m.RunningSrc(src) == s.m.RunningSrc(src);
  }

  /** The steps that move a goroutine between phases of equal footing, and write rows and tasks. */
  predicate RowStep(step: Step) {
    !step.Pass? && !step.HoldOn? && !step.TakeLocal? && !step.Release? && !step.Exit?
  }

  /** The goroutine a step moves, and where to. */
  function Target(s: State, step: Step): (Pid, Phase)
    requires RowStep(step)
  {
    match step
    case NotOffered(p) => (p, Waiting)
    case OffloadClaim(p) => (p, if p in s.procs && IsQueued(s, s.procs[p].job) then Claimed else Leaving)
    case AddTask(p) => (p, Added)
    case Requeue(p) => (p, Waiting)
    case OffloadFails(p) => (p, Leaving)
    case MarkDownloading(p) => (p, Leaving)
    case Cancelled(p) => (p, Leaving)
    case RunClaim(p) => (p, if p in s.procs && IsQueued(s, s.procs[p].job) then Local else AfterRun)
    case RunEnds(p) => (p, AfterRun)
    case Write(_, _) => (s.next, Leaving)
    case CloseTask(_) => (s.next, Leaving)
  }

  ghost predicate Moves(s: State, t: State, p: Pid, phase: Phase) {
    p in s.procs && s.procs[p].phase.HasSlot() == phase.HasSlot() && t.procs == Moved(s.procs, p, phase)
  }

  lemma OffloadStepMoves(limits: Limits, s: State, step: Step)
    requires RowStep(step) && (step.NotOffered? || step.OffloadClaim? || step.AddTask? || step.Requeue? || step.OffloadFails?)
    ensures MovesOrNot(s, Apply(limits, s, step), Target(s, step).0, Target(s, step).1)
  {
  }

  ghost predicate MovesOrNot(s: State, t: State, p: Pid, phase: Phase) {
    t.m == s.m && t.next == s.next && (t.procs == s.procs || Moves(s, t, p, phase))
  }

  lemma RowStepMoves(limits: Limits, s: State, step: Step)
    requires RowStep(step)
    ensures MovesOrNot(s, Apply(limits, s, step), Target(s, step).0, Target(s, step).1)
  {
    if step.NotOffered? || step.OffloadClaim? || step.AddTask? || step.Requeue? || step.OffloadFails? {
      OffloadStepMoves(limits, s, step);
    }
  }

  lemma RowStepKeeps(limits: Limits, s: State, step: Step)
    requires Inv(limits, s) && RowStep(step)
    ensures Inv(limits, Apply(limits, s, step))
  {
    var t := Apply(limits, s, step);
    RowStepMoves(limits, s, step);
    if t.procs != s.procs {
      PhaseKeeps(limits, s, Target(s, step).0, Target(s, step).1);
    }
  }

  lemma FreshInv(limits: Limits, s: State)
    requires Fresh(s)
    ensures Inv(limits, s)
  {
    assert forall kind :: OfKind(s.procs, kind) == {} && s.m.JobsOfKind(kind) == {};
    assert forall src :: OfSrc(s.procs, src) == {};
    assert WithSlot(s.procs) == {};
  }

  /** In every reachable state, whatever the passes read and the others wrote. */
  lemma {:induction false} Reachable(limits: Limits, s: State, steps: seq<Step>)
    requires Fresh(s)
    ensures Inv(limits, Run(limits, s, steps))
  {
    if steps == [] {
      FreshInv(limits, s);
    } else {
      Reachable(limits, s, steps[..|steps| - 1]);
      StepKeeps(limits, Run(limits, s, steps[..|steps| - 1]), steps[|steps| - 1]);
    }
  }

  /** No job is in two local runs at once, and the limits on what runs are kept. */
  lemma RunsAreSafe(limits: Limits, s0: State, steps: seq<Step>)
    requires Fresh(s0)
    ensures var s := Run(limits, s0, steps);
      && (forall p, q :: In(s, p, Local) && In(s, q, Local) && s.procs[p].job == s.procs[q].job ==> p == q)
      && (forall kind :: |OfKind(s.procs, kind)| <= CapOf(limits, kind))
      && (forall src :: src != "" ==> |OfSrc(s.procs, src)| <= Cap(limits.maxPerSource))
      && s.m.local == |WithSlot(s.procs)|
      && (limits.maxLocal > 0 ==> s.m.local <= limits.maxLocal)
  {
    Reachable(limits, s0, steps);
  }

  // ---- claims ---------------------------------------------------------------------------------

  lemma WroteBacked(s: State, j: JobId, to: Status)
    requires ClaimsBacked(s)
    ensures ClaimsBacked(Wrote(s, j, to))
  {
    var t := Wrote(s, j, to);
    forall k ensures Count(t.claims, k) + (if IsQueued(t, k) then 1 else 0) <= Count(t.queued, k) {
      assert Count(s.claims, k) + (if IsQueued(s, k) then 1 else 0) <= Count(s.queued, k);
    }
  }

  lemma ClaimsBackedOne(s: State, j: JobId)
    requires ClaimsBacked(s) && IsQueued(s, j)
    ensures ClaimsBacked(Claims(s, j))
  {
    var t := Claims(s, j);
    forall k ensures Count(t.claims, k) + (if IsQueued(t, k) then 1 else 0) <= Count(t.queued, k) {
      assert Count(s.claims, k) + (if IsQueued(s, k) then 1 else 0) <= Count(s.queued, k);
    }
  }

  ghost predicate SameRows(s: State, t: State) {
    s.claims == t.claims && s.queued == t.queued && s.status == t.status
  }

  lemma BackedAside(s: State, t: State)
    requires ClaimsBacked(s) && SameRows(s, t)
    ensures ClaimsBacked(t)
  {
    forall k ensures Count(t.claims, k) + (if IsQueued(t, k) then 1 else 0) <= Count(t.queued, k) {
      assert Count(s.claims, k) + (if IsQueued(s, k) then 1 else 0) <= Count(s.queued, k);
    }
  }

  lemma {:induction false} SpawnAllRows(s: State, started: seq<Entry>)
    ensures SameRows(s, SpawnAll(s, started)) && SpawnAll(s, started).open == s.open
    decreases |started|
  {
    if started != [] {
      SpawnAllRows(Spawn(s, started[0]), started[1..]);
    }
  }

  lemma ClaimStepBacked(limits: Limits, s: State, step: Step)
    requires ClaimsBacked(s) && (step.OffloadClaim? || step.RunClaim?)
    ensures ClaimsBacked(Apply(limits, s, step))
  {
    var t := Apply(limits, s, step);
    if In(s, step.p, if step.RunClaim? then Slot else Offloading) && IsQueued(s, s.procs[step.p].job) {
      ClaimsBackedOne(s, s.procs[step.p].job);
      BackedAside(Claims(s, s.procs[step.p].job), t);
    } else {
      BackedAside(s, t);
    }
  }

  lemma WriteStepBacked(limits: Limits, s: State, step: Step)
    requires ClaimsBacked(s) && (step.Requeue? || step.MarkDownloading?)
    ensures ClaimsBacked(Apply(limits, s, step))
  {
    var t := Apply(limits, s, step);
    if SameRows(s, t) {
      BackedAside(s, t);
    } else {
      var to: Status := if step.Requeue? then R.Queued else R.Downloading;
      WroteBacked(s, s.procs[step.p].job, to);
      BackedAside(Wrote(s, s.procs[step.p].job, to), t);
    }
  }

  lemma StepBacked(limits: Limits, s: State, step: Step)
    requires ClaimsBacked(s)
    ensures ClaimsBacked(Apply(limits, s, step))
  {
    match step
    case Pass(reading) =>
      SpawnAllRows(s, PassStarts(s.m, limits, reading));
      BackedAside(s, Apply(limits, s, step));
    case OffloadClaim(_) => ClaimStepBacked(limits, s, step);
    case RunClaim(_) => ClaimStepBacked(limits, s, step);
    case Requeue(_) => WriteStepBacked(limits, s, step);
    case MarkDownloading(_) => WriteStepBacked(limits, s, step);
    case Write(j, to) => WroteBacked(s, j, to);
    case _ => BackedAside(s, Apply(limits, s, step));
  }

  /** Over any run a job is claimed, here or for the workers, no more often than it was queued. */
  lemma {:induction false} ClaimsNeverOutnumberQueues(limits: Limits, s: State, steps: seq<Step>)
    requires Fresh(s)
    ensures ClaimsBacked(Run(limits, s, steps))
  {
    if steps != [] {
      ClaimsNeverOutnumberQueues(limits, s, steps[..|steps| - 1]);
      StepBacked(limits, Run(limits, s, steps[..|steps| - 1]), steps[|steps| - 1]);
    }
  }
}
