/** The queue as callers see it: its transactions, what each leaves, and what a run of them keeps. */
module DownloadQueue {
  import opened Common
  import opened RankOrder
  import opened RankAlloc
  import opened RankPriority
  import opened RankSort
  import opened RankQueue
  import opened RankBatches
  import opened RankChapters

  /** The tables a transaction reads and writes: job rows, the order revision, the next row id. */
  datatype Snap = Snap(jobs: Jobs, revision: int, nextId: JobId)

  /** The unique index: no two unfinished jobs hold one chapter. */
  ghost predicate OneActive(jobs: Jobs) {
    forall a, b :: a in jobs && b in jobs && a != b && jobs[a].status.Active() && jobs[b].status.Active() ==>
      jobs[a].chapter != jobs[b].chapter
  }

  ghost predicate Sound(s: Snap) {
    && Distinct(s.jobs) && OneActive(s.jobs)
    && s.nextId > 0 && forall id :: id in s.jobs ==> 0 < id < s.nextId
  }

  // ---- what each transaction leaves -------------------------------------------

  ghost predicate Moved(s: Snap, t: Snap, ids: seq<JobId>, action: Action, anchorId: int, r: Result<nat>) {
    var refused, chosen := Refused(s.jobs, ids, action, anchorId), Selected(s.jobs, ids);
    match r
    case Err(e) =>
      t == s && (refused == Some(e) || (refused.None? && e.RanksExhausted? && !InBounds(|s.jobs|, |chosen|)))
    case Ok(n) =>
      && refused.None? && n == |chosen|
      && (chosen == {} ==> t == s)
      && (chosen != {} ==>
            && MovedBlock(s.jobs, t.jobs, chosen, action, anchorId)
            && OnlyMoved(s.jobs, t.jobs, chosen) && Distinct(t.jobs)
            && LimitKept(s.jobs, t.jobs)
            && t.revision == s.revision + 1 && t.nextId == s.nextId)
  }

  /** A queued job of the chapter that stands below the priority. */
  predicate Raisable(jobs: Jobs, id: JobId, chapter: nat, priority: int) {
    id in jobs && jobs[id].chapter == chapter && jobs[id].status.Queued? && jobs[id].priority < priority
  }

  ghost predicate Raised(s: Snap, t: Snap, chapter: nat, priority: int, r: Result<bool>) {
    match r
    case Err(e) => t == s && e.RanksExhausted? && !InBounds(|s.jobs|, 1)
    case Ok(false) => t == s && (priority <= 0 || forall id :: !Raisable(s.jobs, id, chapter, priority))
    case Ok(true) => priority > 0 && exists id :: RaisedRow(s, t, id, chapter, priority)
  }

  ghost predicate RaisedRow(s: Snap, t: Snap, id: JobId, chapter: nat, priority: int) {
    && Raisable(s.jobs, id, chapter, priority)
    && OthersKept(s.jobs, t.jobs, id) && t.jobs[id] == s.jobs[id].(rank := t.jobs[id].rank, priority := priority)
    && RaisedInOrder(s.jobs, t.jobs, id, priority) && Distinct(t.jobs) && LimitKept(s.jobs, t.jobs)
    && t.revision == s.revision + 1 && t.nextId == s.nextId
  }

  /** The row of a new job. */
  datatype Request = Request(kind: Kind, series: nat, chapter: nat, priority: int)
  {
    function Row(rank: int): Job { Job(rank, Queued, priority, kind, series, chapter) }
  }

  ghost predicate InsertedRow(s: Snap, t: Snap, req: Request) {
    && AddedRows(s.jobs, t.jobs, [s.nextId]) && s.nextId in t.jobs
    && t.jobs[s.nextId] == req.Row(t.jobs[s.nextId].rank) && Distinct(t.jobs)
    && AddedInOrder(s.jobs, t.jobs, [s.nextId], req.priority) && LimitKept(s.jobs, t.jobs)
    && t.revision == s.revision + 1 && t.nextId == s.nextId + 1
  }

  /** EnqueuePriority answers the job that holds the chapter, and whether it made it. */
  ghost predicate Enqueued(s: Snap, t: Snap, req: Request, r: Result<(JobId, bool)>) {
    match r
    case Err(e) => t == s && e.RanksExhausted? && !InBounds(|s.jobs|, 1)
    case Ok((id, true)) => !Busy(s.jobs, req.chapter) && id == s.nextId && InsertedRow(s, t, req)
    case Ok((id, false)) =>
      && id in s.jobs && s.jobs[id].chapter == req.chapter && s.jobs[id].status.Active()
      && exists raised :: Raised(s, t, req.chapter, req.priority, Ok(raised))
  }

  /** The files the first k batches cover. */
  function Covered(files: seq<ReprocessFile>, k: nat): (n: nat)
    ensures n <= |files|
  {
    if BATCH_SIZE * k < |files| then BATCH_SIZE * k else |files|
  }

  /** EnqueueReprocessFiles after k batches: what one insert of the files they cover would leave. */
  ghost predicate FilesEnqueued(s: Snap, t: Snap, files: seq<ReprocessFile>, k: nat, priority: int) {
    && (k == 0 ==> t == s)
    && FilesAdded(s.jobs, t.jobs, s.nextId, t.nextId, files[..Covered(files, k)], priority)
    && Distinct(t.jobs) && LimitKept(s.jobs, t.jobs) && t.revision == s.revision + k
  }

  ghost predicate Sorted(s: Snap, t: Snap, numbers: Numbers, ids: seq<JobId>, affected: nat) {
    var chosen := Selected(s.jobs, ids);
    && ChaptersSorted(s.jobs, t.jobs, numbers, chosen) && Distinct(t.jobs)
    && OthersUntouched(s.jobs, t.jobs, chosen) && LimitKept(s.jobs, t.jobs) && t.nextId == s.nextId
    && RanksReused(s.jobs, t.jobs, chosen) && affected == |Changed(s.jobs, t.jobs)|
    && (affected == 0 <==> ByChapter(s.jobs, numbers, Listing(s.jobs, chosen)) == Listing(s.jobs, chosen))
    && (if affected == 0 then t == s else t.revision == s.revision + 1)
  }

  /** Any other writer: rows change or go, but no rank does and no row is made. */
  ghost predicate Elsewhere(s: Snap, t: Snap) {
    && t.jobs.Keys <= s.jobs.Keys && OneActive(t.jobs)
    && (forall id {:trigger t.jobs[id]} :: id in t.jobs ==> t.jobs[id].rank == s.jobs[id].rank)
    && t.revision == s.revision && t.nextId == s.nextId
  }

  /** One atomic change of the tables, with what it answered. */
  datatype Act =
    | MoveAct(ids: seq<JobId>, action: Action, anchorId: int, moved: Result<nat>)
    | RaiseAct(chapter: nat, raiseTo: int, raised: Result<bool>)
    | EnqueueAct(req: Request, enqueued: Result<(JobId, bool)>)
    | FilesAct(files: seq<ReprocessFile>, batches: nat, filesAt: int)
    | SortAct(numbers: Numbers, chosen: seq<JobId>, affected: nat)
    | OtherAct

  ghost predicate Did(s: Snap, act: Act, t: Snap) {
    match act
    case MoveAct(ids, action, anchorId, r) => Moved(s, t, ids, action, anchorId, r)
    case RaiseAct(chapter, priority, r) => Raised(s, t, chapter, priority, r)
    case EnqueueAct(req, r) => Enqueued(s, t, req, r)
    case FilesAct(files, k, priority) => FilesEnqueued(s, t, files, k, priority)
    case SortAct(numbers, ids, affected) => Sorted(s, t, numbers, ids, affected)
    case OtherAct => Elsewhere(s, t)
  }

  // ---- the one active job -----------------------------------------------------

  /** Nothing a chapter's claim depends on changed. */
  ghost predicate SameClaims(before: Jobs, after: Jobs) {
    && before.Keys == after.Keys
    && forall id {:trigger after[id]} :: id in before ==>
         after[id].chapter == before[id].chapter && after[id].status == before[id].status
  }

  lemma ClaimsKept(before: Jobs, after: Jobs)
    requires OneActive(before) && SameClaims(before, after)
    ensures OneActive(after)
  {
  }

  lemma RerankKeepsClaims(before: Jobs, after: Jobs)
    requires SameButRanks(before, after)
    ensures SameClaims(before, after)
  {
  }

  lemma RaiseKeepsClaims(before: Jobs, after: Jobs, id: JobId, priority: int)
    requires OthersKept(before, after, id) && id in before
    requires after[id] == before[id].(rank := after[id].rank, priority := priority)
    ensures SameClaims(before, after)
  {
    forall x {:trigger after[x]} | x in before
      ensures after[x].chapter == before[x].chapter && after[x].status == before[x].status
    {
      assert x != id ==> after[x] == before[x].(rank := after[x].rank);
    }
  }

  lemma InsertKeepsOneActive(before: Jobs, after: Jobs, id: JobId)
    requires OneActive(before) && id !in before && AddedRows(before, after, [id])
    requires !Busy(before, after[id].chapter)
    ensures OneActive(after)
  {
    forall x | x in after && x != id
      ensures x in before && after[x].chapter == before[x].chapter && after[x].status == before[x].status
    {
      assert x in before;
      assert after[x] == before[x].(rank := after[x].rank);
    }
  }

  lemma BatchKeepsOneActive(before: Jobs, after: Jobs, first: JobId, next: JobId, files: seq<ReprocessFile>, accepted: seq<ReprocessFile>, priority: int)
    requires OneActive(before) && forall id :: id in before ==> id < first
    requires accepted == Accepted(BusyChapters(before), files)
    requires BatchRows(before, after, first, next, accepted, priority)
    ensures OneActive(after)
  {
    AcceptedAreFree(BusyChapters(before), files);
    forall a, b | a in after && b in after && a < b && after[a].status.Active() && after[b].status.Active()
      ensures after[a].chapter != after[b].chapter
    {
      OldOrNew(before, after, first, next, accepted, priority, a);
      OldOrNew(before, after, first, next, accepted, priority, b);
      if a in before && b !in before {
        assert after[a].chapter in BusyChapters(before);
      }
    }
  }

  lemma OldOrNew(before: Jobs, after: Jobs, first: JobId, next: JobId, accepted: seq<ReprocessFile>, priority: int, x: JobId)
    requires BatchRows(before, after, first, next, accepted, priority) && x in after
    ensures x in before ==> after[x].chapter == before[x].chapter && after[x].status == before[x].status
    ensures x !in before ==> first <= x < next && after[x].chapter == accepted[x - first].chapter
  {
    assert x in before ==> after[x] == before[x].(rank := after[x].rank);
    assert first <= x < next ==> after[x] == Row(accepted[x - first], after[x].rank, priority);
  }

  // ---- every transaction keeps the tables sound --------------------------------

  lemma MovedKeepsSound(s: Snap, t: Snap, ids: seq<JobId>, action: Action, anchorId: int, r: Result<nat>)
    requires Sound(s) && Moved(s, t, ids, action, anchorId, r)
    ensures Sound(t) && (t == s || t.revision == s.revision + 1) && t.jobs.Keys == s.jobs.Keys && t.nextId == s.nextId
  {
    if r.Ok? && Selected(s.jobs, ids) != {} {
      RerankKeepsClaims(s.jobs, t.jobs);
      ClaimsKept(s.jobs, t.jobs);
    }
  }

  lemma RaisedKeepsSound(s: Snap, t: Snap, chapter: nat, priority: int, r: Result<bool>)
    requires Sound(s) && Raised(s, t, chapter, priority, r)
    ensures Sound(t) && (t == s || t.revision == s.revision + 1) && t.jobs.Keys == s.jobs.Keys && t.nextId == s.nextId
  {
    if r == Ok(true) {
      var id :| RaisedRow(s, t, id, chapter, priority);
      RaiseKeepsClaims(s.jobs, t.jobs, id, priority);
      ClaimsKept(s.jobs, t.jobs);
    }
  }

  lemma InsertedKeepsSound(s: Snap, t: Snap, req: Request)
    requires Sound(s) && InsertedRow(s, t, req) && !Busy(s.jobs, req.chapter)
    ensures Sound(t) && forall id :: id in t.jobs && id < s.nextId ==> id in s.jobs
  {
    InsertKeepsOneActive(s.jobs, t.jobs, s.nextId);
  }

  lemma EnqueuedKeepsSound(s: Snap, t: Snap, req: Request, r: Result<(JobId, bool)>)
    requires Sound(s) && Enqueued(s, t, req, r)
    ensures Sound(t) && (t == s || t.revision == s.revision + 1)
    ensures s.nextId <= t.nextId && forall id :: id in t.jobs && id < s.nextId ==> id in s.jobs
  {
    match r
    case Err(_) =>
    case Ok((id, true)) =>
      InsertedKeepsSound(s, t, req);
    case Ok((id, false)) =>
      var raised :| Raised(s, t, req.chapter, req.priority, Ok(raised));
      RaisedKeepsSound(s, t, req.chapter, req.priority, Ok(raised));
  }

  lemma BatchKeepsIds(before: Jobs, after: Jobs, first: JobId, next: JobId, accepted: seq<ReprocessFile>, priority: int)
    requires first > 0 && forall id :: id in before ==> 0 < id < first
    requires BatchRows(before, after, first, next, accepted, priority)
    ensures first <= next && forall id :: id in after ==> 0 < id < next && (id < first ==> id in before)
  {
  }

  lemma FilesKeepSound(s: Snap, t: Snap, files: seq<ReprocessFile>, k: nat, priority: int)
    requires Sound(s) && FilesEnqueued(s, t, files, k, priority)
    ensures Sound(t) && s.nextId <= t.nextId
    ensures forall id :: id in t.jobs && id < s.nextId ==> id in s.jobs
  {
    var accepted := Accepted(BusyChapters(s.jobs), files[..Covered(files, k)]);
    BatchKeepsIds(s.jobs, t.jobs, s.nextId, t.nextId, accepted, priority);
    BatchKeepsOneActive(s.jobs, t.jobs, s.nextId, t.nextId, files[..Covered(files, k)], accepted, priority);
  }

  lemma SortedKeepsSound(s: Snap, t: Snap, numbers: Numbers, ids: seq<JobId>, affected: nat)
    requires Sound(s) && Sorted(s, t, numbers, ids, affected)
    ensures Sound(t) && (t == s || t.revision == s.revision + 1) && t.jobs.Keys == s.jobs.Keys && t.nextId == s.nextId
  {
    RerankKeepsClaims(s.jobs, t.jobs);
    ClaimsKept(s.jobs, t.jobs);
  }

  // ---- runs -------------------------------------------------------------------

  ghost predicate SameRanks(a: Jobs, b: Jobs) {
    forall id :: id in a && id in b ==> RankOf(a, id) == RankOf(b, id)
  }

  /** From s to t the revision never falls, ids are never reused, and while it stands still no rank changes. */
  ghost predicate Advances(s: Snap, t: Snap) {
    && s.revision <= t.revision && s.nextId <= t.nextId
    && (forall id :: id in t.jobs && id < s.nextId ==> id in s.jobs)
    && (s.revision == t.revision ==> SameRanks(s.jobs, t.jobs))
  }

  /** Every act keeps the tables sound and advances them. */
  lemma StepAdvances(s: Snap, act: Act, t: Snap)
    requires Sound(s) && Did(s, act, t)
    ensures Sound(t) && Advances(s, t)
  {
    match act
    case MoveAct(ids, action, anchorId, r) => MovedKeepsSound(s, t, ids, action, anchorId, r);
    case RaiseAct(chapter, priority, r) => RaisedKeepsSound(s, t, chapter, priority, r);
    case EnqueueAct(req, r) => EnqueuedKeepsSound(s, t, req, r);
    case FilesAct(files, k, priority) => FilesAdvance(s, t, files, k, priority);
    case SortAct(numbers, ids, affected) => SortedKeepsSound(s, t, numbers, ids, affected);
    case OtherAct => OtherAdvances(s, t);
  }

  lemma FilesAdvance(s: Snap, t: Snap, files: seq<ReprocessFile>, k: nat, priority: int)
    requires Sound(s) && FilesEnqueued(s, t, files, k, priority)
    ensures Sound(t) && Advances(s, t)
  {
    FilesKeepSound(s, t, files, k, priority);
  }

  lemma OtherAdvances(s: Snap, t: Snap)
    requires Sound(s) && Elsewhere(s, t)
    ensures Sound(t) && Advances(s, t)
  {
    forall id | id in t.jobs ensures id in s.jobs && RankOf(s.jobs, id) == RankOf(t.jobs, id) {
    }
  }

  lemma AdvancesOn(s: Snap, t: Snap, u: Snap)
    requires Sound(s) && Advances(s, t) && Advances(t, u)
    ensures Advances(s, u)
  {
    forall id | id in u.jobs && id < s.nextId ensures id in s.jobs {
      assert id in t.jobs;
    }
    if s.revision == u.revision {
      forall id | id in s.jobs && id in u.jobs ensures RankOf(s.jobs, id) == RankOf(u.jobs, id) {
        assert id in t.jobs;
      }
    }
  }

  /** A run of transactions and other writes, from any sound state. */
  ghost predicate IsRun(run: seq<Snap>, acts: seq<Act>) {
    && |run| == |acts| + 1 && Sound(run[0])
    && forall i :: 0 <= i < |acts| ==> Did(run[i], acts[i], run[i + 1])
  }

  lemma {:induction false} RunSound(run: seq<Snap>, acts: seq<Act>, j: nat)
    requires IsRun(run, acts) && j < |run|
    ensures Sound(run[j])
  {
    if j > 0 {
      RunSound(run, acts, j - 1);
      StepAt(run, acts, j - 1);
    }
  }

  lemma {:induction false} RunAdvances(run: seq<Snap>, acts: seq<Act>, i: nat, j: nat)
    requires IsRun(run, acts) && i <= j < |run|
    ensures Advances(run[i], run[j])
    decreases j
  {
    if i < j {
      RunAdvances(run, acts, i, j - 1);
      AdvancesNext(run, acts, i, j - 1);
    } else {
      AdvancesSelf(run[i]);
    }
  }

  lemma AdvancesSelf(s: Snap)
    ensures Advances(s, s)
  {
  }

  lemma AdvancesNext(run: seq<Snap>, acts: seq<Act>, i: nat, j: nat)
    requires IsRun(run, acts) && i <= j < |acts| && Advances(run[i], run[j])
    ensures Advances(run[i], run[j + 1])
  {
    RunSound(run, acts, i);
    RunSound(run, acts, j);
    StepAt(run, acts, j);
    AdvancesOn(run[i], run[j], run[j + 1]);
  }

  lemma StepAt(run: seq<Snap>, acts: seq<Act>, i: nat)
    requires IsRun(run, acts) && i < |acts| && Sound(run[i])
    ensures Sound(run[i + 1]) && Advances(run[i], run[i + 1])
  {
    assert Did(run[i], acts[i], run[i + 1]);
    StepAdvances(run[i], acts[i], run[i + 1]);
  }

  /** Two reads of a run that see the same revision see the same rank for every job in both. */
  lemma RevisionFixesRanks(run: seq<Snap>, acts: seq<Act>, i: nat, j: nat)
    requires IsRun(run, acts) && i <= j < |run| && run[i].revision == run[j].revision
    ensures SameRanks(run[i].jobs, run[j].jobs)
  {
    RunAdvances(run, acts, i, j);
  }

  lemma StepKeepsLimit(s: Snap, act: Act, t: Snap)
    requires Did(s, act, t) && InLimit(s.jobs) && |t.jobs| < 0x1_0000_0000
    ensures InLimit(t.jobs)
  {
    match act
    case RaiseAct(chapter, priority, r) => RaiseKeepsLimit(s, t, chapter, priority, r);
    case EnqueueAct(req, r) =>
      if r.Ok? && !r.value.1 {
        var raised :| Raised(s, t, req.chapter, req.priority, Ok(raised));
        RaiseKeepsLimit(s, t, req.chapter, req.priority, Ok(raised));
      }
    case _ =>
  }

  lemma RaiseKeepsLimit(s: Snap, t: Snap, chapter: nat, priority: int, r: Result<bool>)
    requires Raised(s, t, chapter, priority, r) && InLimit(s.jobs) && |t.jobs| < 0x1_0000_0000
    ensures InLimit(t.jobs)
  {
  }

  lemma NextKeepsLimit(run: seq<Snap>, acts: seq<Act>, i: nat)
    requires IsRun(run, acts) && i + 1 < |run| && InLimit(run[i].jobs) && |run[i + 1].jobs| < 0x1_0000_0000
    ensures InLimit(run[i + 1].jobs)
  {
    assert Did(run[i], acts[i], run[i + 1]);
    StepKeepsLimit(run[i], acts[i], run[i + 1]);
  }

  /** While the queue has fewer than 2^32 jobs every stored rank stays strictly within 2^52. */
  lemma {:induction false} RanksStayInLimit(run: seq<Snap>, acts: seq<Act>, j: nat)
    requires IsRun(run, acts) && j < |run| && InLimit(run[0].jobs)
    requires forall i :: 0 <= i < |run| ==> |run[i].jobs| < 0x1_0000_0000
    ensures InLimit(run[j].jobs)
  {
    if j > 0 {
      RanksStayInLimit(run, acts, j - 1);
      NextKeepsLimit(run, acts, j - 1);
    }
  }

  /** So they list the jobs in both in the same order. */
  lemma RevisionFixesOrder(run: seq<Snap>, acts: seq<Act>, i: nat, j: nat, ids: set<JobId>)
    requires IsRun(run, acts) && i <= j < |run| && run[i].revision == run[j].revision
    requires ids <= run[i].jobs.Keys && ids <= run[j].jobs.Keys
    ensures Listing(run[i].jobs, ids) == Listing(run[j].jobs, ids)
  {
    RunSound(run, acts, i);
    RunAdvances(run, acts, i, j);
    SameRanksSameListing(run[i].jobs, run[j].jobs, ids);
  }

  lemma SameRanksSameListing(a: Jobs, b: Jobs, ids: set<JobId>)
    requires Distinct(a) && SameRanks(a, b) && ids <= a.Keys && ids <= b.Keys
    ensures Listing(a, ids) == Listing(b, ids)
  {
    ListingRises(a, ids);
    ListingMembers(a, ids);
    var s := Listing(a, ids);
    forall x | x in s ensures x in b && RankOf(b, x) == RankOf(a, x) {
      assert x in ids;
    }
    StillRisingElsewhere(a, b, s);
    RisingIsListing(b, ids, s);
  }

  lemma StillRisingElsewhere(before: Jobs, after: Jobs, s: seq<JobId>)
    requires Rising(before, s)
    requires forall x :: x in s ==> x in after && RankOf(after, x) == RankOf(before, x)
    ensures Rising(after, s)
  {
  }

  /** The chosen jobs of o stand as one block at p in the rest: at an end, or right beside the anchor. */
  ghost predicate MovedTo(o: seq<JobId>, after: seq<JobId>, chosen: set<JobId>, action: Action, anchorId: int, p: nat) {
    var rest := Drop(o, chosen);
    && p <= |rest| && after == rest[..p] + Keep(o, chosen) + rest[p..]
    && (action.Top? ==> p == 0)
    && (action.Bottom? ==> p == |rest|)
    && (action.Before? ==> p < |rest| && rest[p] == anchorId)
    && (action.After? ==> p > 0 && rest[p - 1] == anchorId)
  }

  /** After a move the list is the unselected rest, in order, with the selected jobs as one block, in order. */
  lemma MoveIsOneBlock(s: Snap, t: Snap, ids: seq<JobId>, action: Action, anchorId: int, n: nat)
    requires Sound(s) && Moved(s, t, ids, action, anchorId, Ok(n)) && n > 0
    ensures var chosen := Selected(s.jobs, ids); var o := Order(s.jobs);
      exists p: nat :: MovedTo(o, Order(t.jobs), chosen, action, anchorId, p)
  {
    var chosen, o := Selected(s.jobs, ids), Order(s.jobs);
    SplicedIsOneBlock(o, chosen, action, anchorId);
    assert MovedTo(o, Order(t.jobs), chosen, action, anchorId, Place(o, chosen, action, anchorId));
  }

  /** A new job keeps the queue in priority order, behind all pending work of its priority or more. */
  lemma EnqueueKeepsPriority(s: Snap, t: Snap, req: Request)
    requires Sound(s) && InsertedRow(s, t, req)
    ensures PriorityKept(s.jobs, t.jobs, req.priority)
  {
    AddedKeepsPriority(s.jobs, t.jobs, [s.nextId], req.priority);
  }

  /** So do the batches of EnqueueReprocessFiles. */
  lemma FilesKeepPriority(s: Snap, t: Snap, files: seq<ReprocessFile>, k: nat, priority: int)
    requires Sound(s) && FilesEnqueued(s, t, files, k, priority)
    ensures PriorityKept(s.jobs, t.jobs, priority)
  {
    BatchKeepsPriority(s.jobs, t.jobs, s.nextId, t.nextId,
                       Accepted(BusyChapters(s.jobs), files[..Covered(files, k)]), priority);
  }

  /** So does a raise. */
  lemma RaiseKeepsOrder(s: Snap, t: Snap, chapter: nat, priority: int, r: Result<bool>)
    requires Sound(s) && Raised(s, t, chapter, priority, r) && PrioritySorted(s.jobs, Order(s.jobs))
    ensures PrioritySorted(t.jobs, Order(t.jobs))
  {
    if r == Ok(true) {
      var id :| RaisedRow(s, t, id, chapter, priority);
      RaiseKeepsPriority(s.jobs, t.jobs, id, priority);
    }
  }

  /** A second SortByChapter of the same jobs changes nothing and leaves the revision. */
  lemma SecondSortChangesNothing(s: Snap, t: Snap, u: Snap, numbers: Numbers, ids: seq<JobId>, first: nat, second: nat)
    requires Sound(s) && Sorted(s, t, numbers, ids, first) && Sorted(t, u, numbers, ids, second)
    ensures second == 0 && u == t
  {
    SameSelection(s.jobs, t.jobs, ids);
    SecondSortIdle(s.jobs, t.jobs, numbers, Selected(s.jobs, ids));
  }

  lemma SameSelection(before: Jobs, after: Jobs, ids: seq<JobId>)
    requires SameButRanks(before, after)
    ensures Selected(before, ids) == Selected(after, ids)
  {
    forall id | id in before ensures after[id].status == before[id].status {
      assert after[id] == before[id].(rank := after[id].rank);
    }
  }

  // ---- the queue ----------------------------------------------------------------

  method MoveTx(s: Snap, ids: seq<JobId>, action: Action, anchorId: int) returns (t: Snap, r: Result<nat>)
    requires Sound(s)
    ensures Did(s, MoveAct(ids, action, anchorId, r), t)
  {
    var refused := Refused(s.jobs, ids, action, anchorId);
    if refused.Some? {
      return s, Err(refused.value);
    }
    var chosen := Selected(s.jobs, ids);
    if chosen == {} {
      return s, Ok(0);
    }
    var table, ok := MoveChosen(s.jobs, chosen, action, anchorId);
    if !ok {
      return s, Err(RanksExhausted);
    }
    return Snap(table, s.revision + 1, s.nextId), Ok(|chosen|);
  }

  method RaiseTx(s: Snap, chapter: nat, priority: int) returns (t: Snap, r: Result<bool>)
    requires Sound(s)
    ensures Did(s, RaiseAct(chapter, priority, r), t)
  {
    if priority <= 0 || !(exists id :: id in s.jobs && Raisable(s.jobs, id, chapter, priority)) {
      return s, Ok(false);
    }
    var id :| id in s.jobs && Raisable(s.jobs, id, chapter, priority);
    var table, ok := RaiseJob(s.jobs, id, priority);
    if !ok {
      return s, Err(RanksExhausted);
    }
    t, r := Snap(table, s.revision + 1, s.nextId), Ok(true);
    assert RaisedRow(s, t, id, chapter, priority);
  }

  method EnqueueTx(s: Snap, req: Request) returns (t: Snap, r: Result<(JobId, bool)>)
    requires Sound(s)
    ensures Did(s, EnqueueAct(req, r), t)
  {
    if Busy(s.jobs, req.chapter) {
      var id :| id in s.jobs && s.jobs[id].chapter == req.chapter && s.jobs[id].status.Active();
      var raised;
      t, raised := RaiseTx(s, req.chapter, req.priority);
      return t, if raised.Err? then Err(raised.error) else Ok((id, false));
    }
    assert s.nextId !in s.jobs;
    var table, ok := InsertJob(s.jobs, s.nextId, req.Row(0));
    if !ok {
      return s, Err(RanksExhausted);
    }
    return Snap(table, s.revision + 1, s.nextId + 1), Ok((s.nextId, true));
  }

  /** One transaction of EnqueueReprocessFiles: the files of batch k. */
  method FilesTx(ghost was: Snap, s: Snap, files: seq<ReprocessFile>, k: nat, priority: int) returns (t: Snap, ok: bool)
    requires Sound(was) && FilesEnqueued(was, s, files, k, priority) && BATCH_SIZE * k < |files|
    ensures !ok ==> t == s && !InBounds(|s.jobs|, Covered(files, k + 1) - Covered(files, k))
    ensures ok ==> FilesEnqueued(was, t, files, k + 1, priority) && s.nextId <= t.nextId
  {
    FilesKeepSound(was, s, files, k, priority);
    var start, end := Covered(files, k), Covered(files, k + 1);
    var table, next;
    table, next, ok := InsertBatch(s.jobs, s.nextId, files[start..end], priority);
    if !ok {
      return s, false;
    }
    t := Snap(table, s.revision + 1, next);
    NextFiles(was, s, t, files, k, start, end, priority);
  }

  /** EnqueueReprocessFiles stops early only at a batch the rank space has no room for. */
  predicate FilesAnswer(t: Snap, files: seq<ReprocessFile>, k: nat, error: Option<QueueError>) {
    match error
    case None => Covered(files, k) == |files|
    case Some(e) => e.RanksExhausted? && !InBounds(|t.jobs|, Covered(files, k + 1) - Covered(files, k))
  }

  lemma StopsEarly(t: Snap, files: seq<ReprocessFile>, k: nat)
    requires !InBounds(|t.jobs|, Covered(files, k + 1) - Covered(files, k))
    ensures FilesAnswer(t, files, k, Some(RanksExhausted))
  {
  }

  lemma AllCovered(t: Snap, files: seq<ReprocessFile>, k: nat)
    requires BATCH_SIZE * k >= |files|
    ensures FilesAnswer(t, files, k, None)
  {
  }

  method FilesTxs(s: Snap, files: seq<ReprocessFile>, priority: int)
    returns (t: Snap, created: nat, error: Option<QueueError>, batches: nat)
    requires Sound(s)
    ensures FilesEnqueued(s, t, files, batches, priority) && created == t.nextId - s.nextId
    ensures FilesAnswer(t, files, batches, error)
  {
    t, created, error, batches := s, 0, None, 0;
    NoFiles(s, files, priority);
    while BATCH_SIZE * batches < |files|
      invariant FilesEnqueued(s, t, files, batches, priority) && created == t.nextId - s.nextId
      decreases |files| - BATCH_SIZE * batches
    {
      var next, ok := FilesTx(s, t, files, batches, priority);
      if !ok {
        StopsEarly(t, files, batches);
        return t, created, Some(RanksExhausted), batches;
      }
      created := created + (next.nextId - t.nextId);
      t, batches := next, batches + 1;
    }
    AllCovered(t, files, batches);
  }

  method SortTx(s: Snap, numbers: Numbers, ids: seq<JobId>) returns (t: Snap, affected: nat)
    requires Sound(s)
    ensures Did(s, SortAct(numbers, ids, affected), t)
  {
    var table;
    table, affected := SortChapters(s.jobs, numbers, Selected(s.jobs, ids));
    t := Snap(table, if affected > 0 then s.revision + 1 else s.revision, s.nextId);
  }

  class Queue {
    var jobs: Jobs
    var revision: int
    var nextId: JobId

    function Now(): Snap reads this { Snap(jobs, revision, nextId) }

    ghost predicate Valid() reads this { Sound(Now()) }

    constructor ()
      ensures Valid() && Now() == Snap(map[], 0, 1)
    {
      jobs, revision, nextId := map[], 0, 1;
    }

    method Move(ids: seq<JobId>, action: Action, anchorId: int) returns (r: Result<nat>)
      requires Valid()
      modifies this
      ensures Valid() && Did(old(Now()), MoveAct(ids, action, anchorId, r), Now())
    {
      var s, t := Now(), Now();
      t, r := MoveTx(s, ids, action, anchorId);
      StepAdvances(s, MoveAct(ids, action, anchorId, r), t);
      jobs, revision, nextId := t.jobs, t.revision, t.nextId;
    }

    method Raise(chapter: nat, priority: int) returns (r: Result<bool>)
      requires Valid()
      modifies this
      ensures Valid() && Did(old(Now()), RaiseAct(chapter, priority, r), Now())
    {
      var s, t := Now(), Now();
      t, r := RaiseTx(s, chapter, priority);
      StepAdvances(s, RaiseAct(chapter, priority, r), t);
      jobs, revision, nextId := t.jobs, t.revision, t.nextId;
    }

    method EnqueuePriority(req: Request) returns (r: Result<(JobId, bool)>)
      requires Valid()
      modifies this
      ensures Valid() && Did(old(Now()), EnqueueAct(req, r), Now())
    {
      var s, t := Now(), Now();
      t, r := EnqueueTx(s, req);
      StepAdvances(s, EnqueueAct(req, r), t);
      jobs, revision, nextId := t.jobs, t.revision, t.nextId;
    }

    method EnqueueReprocessFiles(files: seq<ReprocessFile>, priority: int)
      returns (created: nat, error: Option<QueueError>, ghost batches: nat)
      requires Valid()
      modifies this
      ensures Valid() && Did(old(Now()), FilesAct(files, batches, priority), Now())
      ensures created == nextId - old(nextId)
      ensures FilesAnswer(Now(), files, batches, error)
    {
      var s, t := Now(), Now();
      t, created, error, batches := FilesTxs(s, files, priority);
      StepAdvances(s, FilesAct(files, batches, priority), t);
      jobs, revision, nextId := t.jobs, t.revision, t.nextId;
    }

    method SortByChapter(numbers: Numbers, ids: seq<JobId>) returns (affected: nat)
      requires Valid()
      modifies this
      ensures Valid() && Did(old(Now()), SortAct(numbers, ids, affected), Now())
    {
      var s, t := Now(), Now();
      t, affected := SortTx(s, numbers, ids);
      StepAdvances(s, SortAct(numbers, ids, affected), t);
      jobs, revision, nextId := t.jobs, t.revision, t.nextId;
    }
  }

  lemma NoFiles(s: Snap, files: seq<ReprocessFile>, priority: int)
    requires Sound(s)
    ensures FilesEnqueued(s, s, files, 0, priority)
  {
    NoBatch(s.jobs, s.nextId, priority);
    assert files[..0] == [];
  }

  lemma NextFiles(s: Snap, m: Snap, t: Snap, files: seq<ReprocessFile>, k: nat, start: nat, end: nat, priority: int)
    requires Sound(s) && FilesEnqueued(s, m, files, k, priority) && Distinct(t.jobs)
    requires start == Covered(files, k) && end == Covered(files, k + 1) && start < |files|
    requires FilesAdded(m.jobs, t.jobs, m.nextId, t.nextId, files[start..end], priority) && LimitKept(m.jobs, t.jobs)
    requires t.revision == m.revision + 1
    ensures FilesEnqueued(s, t, files, k + 1, priority) && m.nextId <= t.nextId
  {
    SlicesJoin(files, start, end);
    assert FilesAdded(s.jobs, t.jobs, s.nextId, t.nextId, files[..end], priority) && m.nextId <= t.nextId by {
      NextBatch(s.jobs, m.jobs, t.jobs, s.nextId, m.nextId, t.nextId, files[..start], files[start..end], files[..end], priority);
    }
    assert LimitKept(s.jobs, t.jobs) by {
      BatchGrows(m.jobs, t.jobs, m.nextId, t.nextId, files[start..end], priority);
      LimitKeptTwice(s.jobs, m.jobs, t.jobs);
    }
    FilesDone(s, t, files, k + 1, end, priority);
  }

  lemma FilesDone(s: Snap, t: Snap, files: seq<ReprocessFile>, k: nat, end: nat, priority: int)
    requires k > 0 && end == Covered(files, k)
    requires FilesAdded(s.jobs, t.jobs, s.nextId, t.nextId, files[..end], priority)
    requires Distinct(t.jobs) && LimitKept(s.jobs, t.jobs) && t.revision == s.revision + k
    ensures FilesEnqueued(s, t, files, k, priority)
  {
  }

  lemma BatchGrows(before: Jobs, after: Jobs, first: JobId, next: JobId, files: seq<ReprocessFile>, priority: int)
    requires FilesAdded(before, after, first, next, files, priority)
    ensures before.Keys <= after.Keys
  {
  }

  lemma LimitKeptTwice(a: Jobs, b: Jobs, c: Jobs)
    requires LimitKept(a, b) && LimitKept(b, c) && b.Keys <= c.Keys
    ensures LimitKept(a, c)
  {
    PartIsSmaller(b.Keys, c.Keys);
    assert |b| == |b.Keys| && |c| == |c.Keys|;
  }

  lemma SlicesJoin<T>(s: seq<T>, i: nat, j: nat)
    requires i <= j <= |s|
    ensures s[..i] + s[i..j] == s[..j]
  {
  }
}
