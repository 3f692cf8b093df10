/** What a pass starts, told by the settings and what it read: whatever may start does, first come first served. */
module DispatchProgress {
  import R = RankOrder
  import opened Dispatch
  import opened DispatchSafety

  // ---- what holds a job back -----------------------------------------------------------------

  /** A download waits for quiet hours, for its own limit, and for its catalog. */
  ghost predicate DownloadWaits(m: Fields, limits: Limits, reading: Reading, e: Entry) {
    || reading.quiet.downloads
    || |set j | j in m.runningKind && m.runningKind[j] == R.Download| >= (if limits.maxConcurrent > 0 then limits.maxConcurrent else 1)
    || (e.source != "" && e.cooling)
    || (e.source != "" && e.source in m.runningSrc && m.runningSrc[e.source] >= (if limits.maxPerSource > 0 then limits.maxPerSource else 1))
  }

  /** A file to process again waits for quiet hours and its own limit only. */
  ghost predicate ProcessingWaits(m: Fields, limits: Limits, reading: Reading) {
    || reading.quiet.processing
    || |set j | j in m.runningKind && m.runningKind[j] == R.Reprocess| >= (if limits.maxProcessing > 0 then limits.maxProcessing else 1)
  }

  /** Every reason there is to leave a queued job for a later pass. */
  ghost predicate Waits(m: Fields, limits: Limits, reading: Reading, e: Entry) {
    || e.job in m.running
    || e.job in reading.onWorkers
    || (e.kind == R.Download && DownloadWaits(m, limits, reading, e))
    || (e.kind == R.Reprocess && ProcessingWaits(m, limits, reading))
  }

  lemma AdmitsOrWaits(m: Fields, limits: Limits, reading: Reading, e: Entry)
    ensures Admits(m, limits, reading, e) <==> !Waits(m, limits, reading, e)
  {
    assert m.JobsOfKind(R.Download) == set j | j in m.runningKind && m.runningKind[j] == R.Download;
    assert m.JobsOfKind(R.Reprocess) == set j | j in m.runningKind && m.runningKind[j] == R.Reprocess;
  }

  lemma KindGrows(m: Fields, e: Entry, kind: R.Kind)
    requires e.job !in m.runningKind
    ensures |m.JobsOfKind(kind)| <= |Started(m, e).JobsOfKind(kind)|
  {
    var after := Started(m, e);
    assert after.JobsOfKind(kind) == m.JobsOfKind(kind) + if e.kind == kind then {e.job} else {};
  }

  /** What holds a job back still does once another has started. */
  lemma StillWaits(m: Fields, limits: Limits, reading: Reading, e: Entry, other: Entry)
    requires Waits(m, limits, reading, e) && other.job !in m.runningKind
    ensures Waits(Started(m, other), limits, reading, e)
  {
    KindGrows(m, other, e.kind);
    AdmitsOrWaits(m, limits, reading, e);
    AdmitsOrWaits(Started(m, other), limits, reading, e);
  }

  // ---- one pass --------------------------------------------------------------------------------

  /** The i-th entry read stands after the k-th start and before the next. */
  predicate Between(at: seq<nat>, k: nat, i: nat) {
    k <= |at| && (k > 0 ==> at[k - 1] < i) && (k < |at| ==> i < at[k])
  }

  ghost predicate AtPlaces(jobs: seq<Entry>, started: seq<Entry>, at: seq<nat>) {
    && |at| == |started| && (forall i, k :: 0 <= i < k < |at| ==> at[i] < at[k])
    && (forall k :: 0 <= k < |at| ==> at[k] < |jobs| && started[k] == jobs[at[k]])
  }

  /** What is started stood at these places, each with nothing to wait for at its turn. */
  ghost predicate TakenInTurn(m: Fields, limits: Limits, reading: Reading, jobs: seq<Entry>, started: seq<Entry>, at: seq<nat>) {
    && AtPlaces(jobs, started, at)
    && forall k :: 0 <= k < |at| ==> !Waits(AllStarted(m, started[..k]), limits, reading, started[k])
  }

  /** What is passed over had something to wait for at its turn. */
  ghost predicate PassedOver(m: Fields, limits: Limits, reading: Reading, jobs: seq<Entry>, started: seq<Entry>, at: seq<nat>) {
    |at| == |started| && forall i: nat, k: nat :: Between(at, k, i) && i < |jobs| ==> Waits(AllStarted(m, started[..k]), limits, reading, jobs[i])
  }

  function Shifted(at: seq<nat>): seq<nat> {
    seq(|at|, k requires 0 <= k < |at| => at[k] + 1)
  }

  lemma StartedFirst(m: Fields, e: Entry, rest: seq<Entry>, k: nat)
    requires k <= |rest|
    ensures AllStarted(m, ([e] + rest)[..k + 1]) == AllStarted(Started(m, e), rest[..k])
  {
    var all := ([e] + rest)[..k + 1];
    assert all[0] == e && all[1..] == rest[..k];
  }

  lemma PlacesFirst(e: Entry, jobs: seq<Entry>, started: seq<Entry>, at: seq<nat>)
    requires AtPlaces(jobs, started, at)
    ensures AtPlaces([e] + jobs, [e] + started, [0] + Shifted(at))
  {
    var places := [0] + Shifted(at);
    assert forall k :: 0 < k < |places| ==> places[k] == at[k - 1] + 1;
  }

  lemma TakenFirst(m: Fields, limits: Limits, reading: Reading, e: Entry, jobs: seq<Entry>, started: seq<Entry>, at: seq<nat>)
    requires !Waits(m, limits, reading, e) && TakenInTurn(Started(m, e), limits, reading, jobs, started, at)
    ensures TakenInTurn(m, limits, reading, [e] + jobs, [e] + started, [0] + Shifted(at))
  {
    var now, places := [e] + started, [0] + Shifted(at);
    PlacesFirst(e, jobs, started, at);
    forall k | 0 <= k < |places| ensures !Waits(AllStarted(m, now[..k]), limits, reading, now[k]) {
      if k == 0 {
        assert now[..0] == [];
      } else {
        StartedFirst(m, e, started, k - 1);
      }
    }
  }

  lemma OverFirst(m: Fields, limits: Limits, reading: Reading, e: Entry, jobs: seq<Entry>, started: seq<Entry>, at: seq<nat>)
    requires PassedOver(Started(m, e), limits, reading, jobs, started, at)
    ensures PassedOver(m, limits, reading, [e] + jobs, [e] + started, [0] + Shifted(at))
  {
    var now, places := [e] + started, [0] + Shifted(at);
    forall i: nat, k: nat | Between(places, k, i) && i < |jobs| + 1
      ensures Waits(AllStarted(m, now[..k]), limits, reading, ([e] + jobs)[i])
    {
      assert k > 0 && i > 0;
      assert Between(at, k - 1, i - 1) by {
        assert k > 1 ==> places[k - 1] == at[k - 2] + 1;
        assert k < |places| ==> places[k] == at[k - 1] + 1;
      }
      StartedFirst(m, e, started, k - 1);
    }
  }

  lemma TakenLater(m: Fields, limits: Limits, reading: Reading, e: Entry, jobs: seq<Entry>, started: seq<Entry>, at: seq<nat>)
    requires TakenInTurn(m, limits, reading, jobs, started, at)
    ensures TakenInTurn(m, limits, reading, [e] + jobs, started, Shifted(at))
  {
  }

  lemma OverLater(m: Fields, limits: Limits, reading: Reading, e: Entry, jobs: seq<Entry>, started: seq<Entry>, at: seq<nat>)
    requires Waits(m, limits, reading, e) && PassedOver(m, limits, reading, jobs, started, at)
    ensures PassedOver(m, limits, reading, [e] + jobs, started, Shifted(at))
  {
    var places := Shifted(at);
    forall i: nat, k: nat | Between(places, k, i) && i < |jobs| + 1
      ensures Waits(AllStarted(m, started[..k]), limits, reading, ([e] + jobs)[i])
    {
      if i == 0 {
        assert k == 0 && started[..0] == [];
      } else {
        assert Between(at, k, i - 1);
      }
    }
  }

  lemma {:induction false} InTurn(m: Fields, limits: Limits, reading: Reading, jobs: seq<Entry>) returns (at: seq<nat>)
    ensures TakenInTurn(m, limits, reading, jobs, Starts(m, limits, reading, jobs), at)
    ensures PassedOver(m, limits, reading, jobs, Starts(m, limits, reading, jobs), at)
    decreases |jobs|
  {
    at := [];
    if jobs != [] {
      var e, rest := jobs[0], jobs[1..];
      assert jobs == [e] + rest;
      AdmitsOrWaits(m, limits, reading, e);
      if Admits(m, limits, reading, e) {
        at := InTurn(Started(m, e), limits, reading, rest);
        var started := Starts(Started(m, e), limits, reading, rest);
        TakenFirst(m, limits, reading, e, rest, started, at);
        OverFirst(m, limits, reading, e, rest, started, at);
        at := [0] + Shifted(at);
      } else {
        at := InTurn(m, limits, reading, rest);
        var started := Starts(m, limits, reading, rest);
        TakenLater(m, limits, reading, e, rest, started, at);
        OverLater(m, limits, reading, e, rest, started, at);
        at := Shifted(at);
      }
    }
  }

  // ---- to the end of the pass ---------------------------------------------------------------------

  lemma {:induction false} KeysStay(m: Fields, started: seq<Entry>)
    requires m.runningKind.Keys == m.running
    ensures AllStarted(m, started).runningKind.Keys == AllStarted(m, started).running
    decreases |started|
  {
    if started != [] {
      KeysStay(Started(m, started[0]), started[1..]);
    }
  }

  lemma OneMore(m: Fields, started: seq<Entry>, k: nat)
    requires k < |started|
    ensures AllStarted(m, started[..k + 1]) == Started(AllStarted(m, started[..k]), started[k])
  {
    assert started[..k + 1] == started[..k] + [started[k]];
    StartedLast(m, started[..k], started[k]);
  }

  lemma {:induction false} WaitsToTheEnd(m: Fields, limits: Limits, reading: Reading, jobs: seq<Entry>, started: seq<Entry>, at: seq<nat>, k: nat, e: Entry)
    requires TakenInTurn(m, limits, reading, jobs, started, at) && m.runningKind.Keys == m.running
    requires k <= |started| && Waits(AllStarted(m, started[..k]), limits, reading, e)
    ensures Waits(AllStarted(m, started), limits, reading, e)
    decreases |started| - k
  {
    if k == |started| {
      assert started[..k] == started;
    } else {
      OneMore(m, started, k);
      KeysStay(m, started[..k]);
      StillWaits(AllStarted(m, started[..k]), limits, reading, e, started[k]);
      WaitsToTheEnd(m, limits, reading, jobs, started, at, k + 1, e);
    }
  }

  /** How many starts stood before a place. */
  lemma {:induction false} PlaceAmong(at: seq<nat>, i: nat) returns (k: nat)
    requires forall a, b :: 0 <= a < b < |at| ==> at[a] < at[b]
    ensures i in at || Between(at, k, i)
  {
    k := 0;
    if at != [] {
      var n := |at| - 1;
      if at[n] < i {
        k := |at|;
      } else if at[n] > i {
        k := PlaceAmong(at[..n], i);
        assert at == at[..n] + [at[n]];
      }
    }
  }

  /** How many of the entries are downloads from a catalog. */
  function FromSource(started: seq<Entry>, src: string): nat {
    if started == [] then 0 else
      var n := |started| - 1;
      FromSource(started[..n], src) + if started[n].kind == R.Download && started[n].source == src then 1 else 0
  }

  lemma {:induction false} SourcesCounted(m: Fields, started: seq<Entry>, src: string)
    requires src != ""
    ensures AllStarted(m, started).RunningSrc(src) == m.RunningSrc(src) + FromSource(started, src)
  {
    if started != [] {
      var n := |started| - 1;
      SourcesCounted(m, started[..n], src);
      OneMore(m, started, n);
      assert started[..n + 1] == started;
    }
  }

  /**
   Unless the queue is held, a pass in any reachable state starts entries in the order it read them, each with nothing
   to wait for at its turn, and every other entry has something to wait for when the pass ends.
   */
  lemma PassIsWorkConserving(limits: Limits, s0: State, steps: seq<Step>, reading: Reading) returns (at: seq<nat>)
    requires Fresh(s0) && !Run(limits, s0, steps).m.held
    ensures var m := Run(limits, s0, steps).m; var started := PassStarts(m, limits, reading);
      && TakenInTurn(m, limits, reading, reading.jobs, started, at)
      && (forall e :: e in reading.jobs && e !in started ==> Waits(AllStarted(m, started), limits, reading, e))
      && (forall src :: src != "" ==> AllStarted(m, started).RunningSrc(src) == m.RunningSrc(src) + FromSource(started, src))
  {
    Reachable(limits, s0, steps);
    var m := Run(limits, s0, steps).m;
    var started := PassStarts(m, limits, reading);
    at := InTurn(m, limits, reading, reading.jobs);
    forall e | e in reading.jobs && e !in started ensures Waits(AllStarted(m, started), limits, reading, e) {
      var i :| 0 <= i < |reading.jobs| && reading.jobs[i] == e;
      var k := PlaceAmong(at, i);
      assert forall a :: 0 <= a < |at| ==> started[a] in started;
      WaitsToTheEnd(m, limits, reading, reading.jobs, started, at, k, e);
    }
    forall src | src != "" ensures AllStarted(m, started).RunningSrc(src) == m.RunningSrc(src) + FromSource(started, src) {
      SourcesCounted(m, started, src);
    }
  }

  /** A held queue starts nothing. */
  lemma HeldStartsNothing(m: Fields, limits: Limits, reading: Reading)
    requires m.held
    ensures PassStarts(m, limits, reading) == [] && AllStarted(m, PassStarts(m, limits, reading)) == m
  {
  }

  /**
   In a reachable state a goroutine that waits gets a slot exactly when its kind may run here and fewer goroutines than
   maxLocal have one; it is then counted. Otherwise it asks the workers again.
   */
  lemma SlotGivenExactly(limits: Limits, s0: State, steps: seq<Step>, p: Pid)
    requires Fresh(s0) && In(Run(limits, s0, steps), p, Waiting)
    ensures var s := Run(limits, s0, steps); var t := Apply(limits, s, TakeLocal(p));
      var slots := set q | q in s.procs && s.procs[q].phase in {Slot, Local, AfterRun};
      var free := !(limits.localOff && s.procs[p].kind == R.Download) && (limits.maxLocal <= 0 || |slots| < limits.maxLocal);
      && t == s.(m := t.m, procs := s.procs[p := s.procs[p].(phase := if free then Slot else Offloading)])
      && t.m == s.m.(local := |slots| + if free then 1 else 0)
  {
    Reachable(limits, s0, steps);
    var s := Run(limits, s0, steps);
    assert WithSlot(s.procs) == set q | q in s.procs && s.procs[q].phase in {Slot, Local, AfterRun};
  }
}
