/**
 The scheduler: what one pass starts, the counters it keeps, and the life of the goroutine that
 carries a job, over every interleaving with users, workers and stale reads.
 */
module Dispatch {
  import R = RankOrder

  type JobId = R.JobId
  type Kind = R.Kind
  type Status = R.Status

  /** The download settings, taken as fixed. */
  datatype Limits = Limits(maxConcurrent: int, maxProcessing: int, maxPerSource: int, maxLocal: int, localOff: bool)

  /** A limit that is not positive counts as 1. */
  function Cap(n: int): (r: nat)
    ensures r >= 1
  {
    if n <= 0 then 1 else n
  }

  function CapOf(limits: Limits, kind: Kind): nat {
    if kind.Download? then Cap(limits.maxConcurrent) else Cap(limits.maxProcessing)
  }

  /** A queued job as a pass read it: its catalog ("" for none) and whether that is cooling down. */
  datatype Entry = Entry(job: JobId, kind: Kind, source: string, cooling: bool)
  {
    /** Reprocessing never talks to the source. */
    function Src(): string { if kind.Reprocess? then "" else source }
  }

  datatype Quiet = Quiet(downloads: bool, processing: bool)
  {
    predicate Pauses(kind: Kind) { if kind.Download? then downloads else processing }
  }

  /** What a pass reads before it takes the lock: none of it need still be true. */
  datatype Reading = Reading(jobs: seq<Entry>, onWorkers: set<JobId>, quiet: Quiet)

  /** The manager's fields behind its lock. */
  datatype Fields = Fields(
    running: set<JobId>, runningKind: map<JobId, Kind>, runningSrc: map<string, int>, local: int, held: bool)
  {
    /** runningOfKind counts these. */
    function JobsOfKind(kind: Kind): set<JobId> {
      set j | j in runningKind && runningKind[j] == kind
    }

    function RunningSrc(src: string): int {
      if src in runningSrc then runningSrc[src] else 0
    }
  }

  /** The checks a pass makes before it starts a job. */
  predicate Admits(m: Fields, limits: Limits, reading: Reading, e: Entry) {
    && e.job !in m.running && e.job !in reading.onWorkers
    && !reading.quiet.Pauses(e.kind)
    && |m.JobsOfKind(e.kind)| < CapOf(limits, e.kind)
    && (e.Src() != "" ==> m.RunningSrc(e.Src()) < Cap(limits.maxPerSource) && !e.cooling)
  }

  function Started(m: Fields, e: Entry): Fields {
    m.(running := m.running + {e.job}, runningKind := m.runningKind[e.job := e.kind],
       runningSrc := m.runningSrc[e.Src() := m.RunningSrc(e.Src()) + 1])
  }

  /** The entries a pass starts, in order. */
  function Starts(m: Fields, limits: Limits, reading: Reading, jobs: seq<Entry>): seq<Entry>
    decreases |jobs|
  {
    if jobs == [] then []
    else if Admits(m, limits, reading, jobs[0]) then
      [jobs[0]] + Starts(Started(m, jobs[0]), limits, reading, jobs[1..])
    else Starts(m, limits, reading, jobs[1..])
  }

  function AllStarted(m: Fields, started: seq<Entry>): Fields
    decreases |started|
  {
    if started == [] then m else AllStarted(Started(m, started[0]), started[1..])
  }

  /** dispatch under the lock: nothing while held. */
  function PassStarts(m: Fields, limits: Limits, reading: Reading): seq<Entry> {
    if m.held then [] else Starts(m, limits, reading, reading.jobs)
  }

  predicate MayTakeLocal(m: Fields, limits: Limits, kind: Kind) {
    && !(limits.localOff && kind.Download?)
    && !(limits.maxLocal > 0 && m.local >= limits.maxLocal)
  }

  /** What the goroutine's exit undoes. */
  function Exited(m: Fields, job: JobId, src: string): Fields {
    m.(running := m.running - {job}, runningKind := m.runningKind - {job},
       runningSrc := m.runningSrc[src := m.RunningSrc(src) - 1])
  }

  class Manager {
    var running: set<JobId>
    var runningKind: map<JobId, Kind>
    var runningSrc: map<string, int>
    var local: int
    var held: bool

    function Now(): Fields reads this { Fields(running, runningKind, runningSrc, local, held) }

    constructor ()
      ensures Now() == Fields({}, map[], map[], 0, false)
    {
      running, runningKind, runningSrc, local, held := {}, map[], map[], 0, false;
    }

    /** One pass: the jobs it gives a goroutine each. */
    method Dispatch(limits: Limits, reading: Reading) returns (started: seq<Entry>)
      modifies this
      ensures started == PassStarts(old(Now()), limits, reading)
      ensures Now() == AllStarted(old(Now()), started)
    {
      started := [];
      if held {
        return;
      }
      var i := 0;
      ghost var m := Now();
      assert reading.jobs[0..] == reading.jobs;
      while i < |reading.jobs|
        invariant 0 <= i <= |reading.jobs|
        invariant StartedSoFar(m, limits, reading, i, started, Now())
      {
        var e := reading.jobs[i];
        StartedNext(m, limits, reading, i, started, Now());
        if Admits(Now(), limits, reading, e) {
          var src := e.Src();
          running, runningKind := running + {e.job}, runningKind[e.job := e.kind];
          runningSrc := runningSrc[src := (if src in runningSrc then runningSrc[src] else 0) + 1];
          started := started + [e];
        }
        i := i + 1;
      }
    }

    method TakeLocal(limits: Limits, kind: Kind) returns (ok: bool)
      modifies this
      ensures ok == MayTakeLocal(old(Now()), limits, kind)
      ensures Now() == old(Now()).(local := old(local) + if ok then 1 else 0)
    {
      if limits.localOff && kind.Download? {
        return false;
      }
      if limits.maxLocal > 0 && local >= limits.maxLocal {
        return false;
      }
      local := local + 1;
      ok := true;
    }

    method ReleaseLocal()
      modifies this
      ensures Now() == old(Now()).(local := old(local) - 1)
    {
      local := local - 1;
    }

    /** The goroutine's deferred cleanup. */
    method Exit(job: JobId, src: string)
      modifies this
      ensures Now() == Exited(old(Now()), job, src)
    {
      running, runningKind := running - {job}, runningKind - {job};
      runningSrc := runningSrc[src := (if src in runningSrc then runningSrc[src] else 0) - 1];
    }

    method Hold(on: bool)
      modifies this
      ensures Now() == old(Now()).(held := on)
    {
      held := on;
    }
  }

  /** The entries before the i-th are dealt with. */
  ghost predicate StartedSoFar(m: Fields, limits: Limits, reading: Reading, i: nat, started: seq<Entry>, now: Fields) {
    && i <= |reading.jobs|
    && started + Starts(now, limits, reading, reading.jobs[i..]) == Starts(m, limits, reading, reading.jobs)
    && now == AllStarted(m, started)
  }

  lemma StartedNext(m: Fields, limits: Limits, reading: Reading, i: nat, started: seq<Entry>, now: Fields)
    requires StartedSoFar(m, limits, reading, i, started, now) && i < |reading.jobs|
    ensures var e := reading.jobs[i];
      if Admits(now, limits, reading, e) then StartedSoFar(m, limits, reading, i + 1, started + [e], Started(now, e))
      else StartedSoFar(m, limits, reading, i + 1, started, now)
  {
    var e, rest := reading.jobs[i], reading.jobs[i + 1..];
    assert reading.jobs[i..][1..] == rest;
    if Admits(now, limits, reading, e) {
      StartedLast(m, started, e);
      assert started + ([e] + Starts(Started(now, e), limits, reading, rest))
        == started + [e] + Starts(Started(now, e), limits, reading, rest);
    }
  }

  lemma {:induction false} StartedLast(m: Fields, started: seq<Entry>, e: Entry)
    ensures AllStarted(m, started + [e]) == Started(AllStarted(m, started), e)
    decreases |started|
  {
    if started == [] {
      assert AllStarted(Started(m, e), [e][1..]) == Started(m, e);
    } else {
      assert (started + [e])[0] == started[0] && (started + [e])[1..] == started[1..] + [e];
      StartedLast(Started(m, started[0]), started[1..], e);
    }
  }

  // ---- the protocol ------------------------------------------------------------------------

  /**
   Where a job's goroutine is: deciding about the workers, holding the job's claim for them, having
   written the task, waiting for a local slot, with a slot, running the job here, done running, leaving.
   */
  datatype Phase = Offloading | Claimed | Added | Waiting | Slot | Local | AfterRun | Leaving
  {
    predicate HasSlot() { Slot? || Local? || AfterRun? }
    /** Before its own task is written, if ever. */
    predicate NoTask() { !Added? && !Leaving? }
  }

  type Pid = nat

  datatype Proc = Proc(job: JobId, kind: Kind, src: string, phase: Phase)

  /**
   Rows and tasks are shared with other writers. claims counts the compare-and-sets a job won, queued
   the times its row became queued.
   */
  datatype State = State(
    m: Fields, procs: map<Pid, Proc>, next: Pid,
    status: map<JobId, Status>, open: set<JobId>,
    claims: map<JobId, nat>, queued: map<JobId, nat>)

  datatype Step =
    | Pass(reading: Reading)
    | HoldOn(on: bool)
    | NotOffered(p: Pid)   // offload answers no before claiming
    | OffloadClaim(p: Pid) // offload's compare-and-set
    | AddTask(p: Pid)
    | Requeue(p: Pid)      // offload puts a claimed job back
    | OffloadFails(p: Pid)
    | MarkDownloading(p: Pid)
    | TakeLocal(p: Pid)    // or look again
    | Cancelled(p: Pid)    // cancelled while waiting
    | RunClaim(p: Pid)     // run's compare-and-set
    | RunEnds(p: Pid)
    | Release(p: Pid)
    | Exit(p: Pid)
    | Write(job: JobId, to: Status) // any other write of a job's status
    | CloseTask(job: JobId)

  function Count(m: map<JobId, nat>, j: JobId): nat {
    if j in m then m[j] else 0
  }

  predicate IsQueued(s: State, j: JobId) {
    j in s.status && s.status[j].Queued?
  }

  function At(s: State, p: Pid, phase: Phase): State
    requires p in s.procs
  {
    s.(procs := s.procs[p := s.procs[p].(phase := phase)])
  }

  /** A status write; becoming queued is counted. */
  function Wrote(s: State, j: JobId, to: Status): State {
    var t := s.(status := s.status[j := to]);
    if to.Queued? && !IsQueued(s, j) then t.(queued := s.queued[j := Count(s.queued, j) + 1]) else t
  }

  /** claim: only a queued job, at most once for each time it was queued. */
  function Claims(s: State, j: JobId): State {
    s.(status := s.status[j := R.Downloading], claims := s.claims[j := Count(s.claims, j) + 1])
  }

  function Spawn(s: State, e: Entry): State {
    s.(m := Started(s.m, e), procs := s.procs[s.next := Proc(e.job, e.kind, e.Src(), Offloading)], next := s.next + 1)
  }

  function SpawnAll(s: State, started: seq<Entry>): State
    decreases |started|
  {
    if started == [] then s else SpawnAll(Spawn(s, started[0]), started[1..])
  }

  predicate In(s: State, p: Pid, phase: Phase) {
    p in s.procs && s.procs[p].phase == phase
  }

  /** A step that is not enabled changes nothing. */
  function Apply(limits: Limits, s: State, step: Step): State {
    match step
    case Pass(reading) => SpawnAll(s, PassStarts(s.m, limits, reading))
    case HoldOn(on) => s.(m := s.m.(held := on))
    case NotOffered(p) => if In(s, p, Offloading) then At(s, p, Waiting) else s
    case OffloadClaim(p) =>
      if !In(s, p, Offloading) then s
      else if IsQueued(s, s.procs[p].job) then At(Claims(s, s.procs[p].job), p, Claimed)
      else At(s, p, Leaving)
    case AddTask(p) => if In(s, p, Claimed) then At(s.(open := s.open + {s.procs[p].job}), p, Added) else s
    case Requeue(p) => if In(s, p, Claimed) then At(Wrote(s, s.procs[p].job, R.Queued), p, Waiting) else s
    case OffloadFails(p) => if In(s, p, Claimed) then At(s, p, Leaving) else s
    case MarkDownloading(p) =>
      if !In(s, p, Added) then s
      else
        var j := s.procs[p].job;
        At(if j in s.status && s.status[j].Paused? then s else Wrote(s, j, R.Downloading), p, Leaving)
    case TakeLocal(p) =>
      if !In(s, p, Waiting) then s
      else if MayTakeLocal(s.m, limits, s.procs[p].kind) then At(s.(m := s.m.(local := s.m.local + 1)), p, Slot)
      else At(s, p, Offloading)
    case Cancelled(p) => if In(s, p, Waiting) then At(s, p, Leaving) else s
    case RunClaim(p) =>
      if !In(s, p, Slot) then s
      else if IsQueued(s, s.procs[p].job) then At(Claims(s, s.procs[p].job), p, Local)
      else At(s, p, AfterRun)
    case RunEnds(p) => if In(s, p, Local) then At(s, p, AfterRun) else s
    case Release(p) => if In(s, p, AfterRun) then At(s.(m := s.m.(local := s.m.local - 1)), p, Leaving) else s
    case Exit(p) =>
      if In(s, p, Leaving) then s.(m := Exited(s.m, s.procs[p].job, s.procs[p].src), procs := s.procs - {p}) else s
    case Write(j, to) => Wrote(s, j, to)
    case CloseTask(j) => s.(open := s.open - {j})
  }

  function Run(limits: Limits, s: State, steps: seq<Step>): State {
    if steps == [] then s else Apply(limits, Run(limits, s, steps[..|steps| - 1]), steps[|steps| - 1])
  }

  /** A manager that has just started, over any rows and tasks. */
  ghost predicate Fresh(s: State) {
    && s.m == Fields({}, map[], map[], 0, false) && s.procs == map[] && s.claims == map[]
    && forall j :: IsQueued(s, j) ==> Count(s.queued, j) == 1
  }

  // ---- what every step keeps ---------------------------------------------------------------

  function OfKind(procs: map<Pid, Proc>, kind: Kind): set<Pid> {
    set p | p in procs && procs[p].kind == kind
  }

  function OfSrc(procs: map<Pid, Proc>, src: string): set<Pid> {
    set p | p in procs && procs[p].src == src
  }

  function WithSlot(procs: map<Pid, Proc>): set<Pid> {
    set p | p in procs && procs[p].phase.HasSlot()
  }

  /** No two goroutines carry one job, and each carries a running one under its kind. */
  ghost predicate OneEach(m: Fields, procs: map<Pid, Proc>, next: Pid) {
    && (forall p :: p in procs ==> p < next)
    && (forall p, q :: p in procs && q in procs && p != q ==> procs[p].job != procs[q].job)
    && (forall p :: p in procs ==> procs[p].job in m.running && procs[p].job in m.runningKind)
    && (forall p :: p in procs ==> m.runningKind[procs[p].job] == procs[p].kind)
    && (forall p :: p in procs && procs[p].kind.Reprocess? ==> procs[p].src == "")
    && m.runningKind.Keys == m.running
  }

  /** Every counter is the number of goroutines it stands for. */
  ghost predicate Counted(m: Fields, procs: map<Pid, Proc>) {
    && |m.running| == |procs|
    && (forall kind :: |m.JobsOfKind(kind)| == |OfKind(procs, kind)|)
    && (forall src :: m.RunningSrc(src) == |OfSrc(procs, src)|)
    && m.local == |WithSlot(procs)|
  }

  /** Every limit is kept. */
  ghost predicate Limited(limits: Limits, procs: map<Pid, Proc>) {
    && (forall kind :: |OfKind(procs, kind)| <= CapOf(limits, kind))
    && (forall src :: src != "" ==> |OfSrc(procs, src)| <= Cap(limits.maxPerSource))
    && (limits.maxLocal > 0 ==> |WithSlot(procs)| <= limits.maxLocal)
  }

  /** A job is claimed at most as often as it was queued, and once less while it still is. */
  ghost predicate ClaimsBacked(s: State) {
    forall j :: Count(s.claims, j) + (if IsQueued(s, j) then 1 else 0) <= Count(s.queued, j)
  }
}
