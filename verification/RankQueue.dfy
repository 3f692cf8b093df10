/**
 The queue table and its transactions. A transaction works on its own view of the table and
 commits it at the end, so a method that returns an error has changed nothing.
 */
module RankQueue {
  import opened Common
  import opened RankOrder
  import opened RankAlloc
  import opened RankPriority
  import opened RankSort
  import opened Sorting

  datatype QueueError =
    | AnchorNotAccepted | AnchorRequired | AnchorSelected | UnknownMove
    | AnchorNotPending | RanksExhausted

  datatype Result<T> = Ok(value: T) | Err(error: QueueError)

  const BATCH_SIZE: nat := 250

  /** ranks: reserve n ranks in the gap an action names, renumbering once if it is exhausted. */
  method AllocateRanks(jobs: Jobs, action: Action, anchor: JobId, n: nat) returns (table: Jobs, r: Result<seq<int>>)
    requires Distinct(jobs) && !action.Unknown?
    requires (action.Before? || action.After?) ==> anchor in jobs
    ensures r.Ok? ==> Allocated(jobs, table, action, anchor, n, r.value)
    ensures r.Err? ==> r.error == RanksExhausted && !InBounds(|jobs|, n)
  {
    table := jobs;
    var attempt := 0;
    while attempt < 2
      invariant 0 <= attempt <= 2
      invariant Tried(jobs, table, attempt, n)
    {
      var gap := Gap(table, action, anchor, n);
      if Usable(gap, n) {
        TriedSucceeds(jobs, table, attempt, action, anchor, n);
        return table, Ok(Spread(gap, n));
      }
      TriedAgain(jobs, table, attempt, action, anchor, n);
      table := Renumbered(table);
      attempt := attempt + 1;
    }
    r := Err(RanksExhausted);
  }

  /** UPDATE ... SET rank, row by row. */
  method WriteRanks(jobs: Jobs, sel: seq<JobId>, out: seq<int>) returns (table: Jobs)
    requires |sel| == |out| && (forall k :: 0 <= k < |sel| ==> sel[k] in jobs)
    requires forall i, j :: 0 <= i < j < |sel| ==> sel[i] != sel[j]
    ensures Reranked(jobs, table, sel, out) && SameButRanks(jobs, table)
  {
    table := jobs;
    var i := 0;
    while i < |sel|
      invariant 0 <= i <= |sel|
      invariant SameButRanks(jobs, table)
      invariant forall k :: 0 <= k < i ==> table[sel[k]].rank == out[k]
      invariant forall id {:trigger table[id]} :: id in jobs && id !in sel[..i] ==> table[id] == jobs[id]
    {
      assert sel[i] !in sel[..i];
      table := table[sel[i] := table[sel[i]].(rank := out[i])];
      i := i + 1;
    }
    assert sel[..|sel|] == sel;
  }

  /** The jobs a bulk action touches: requested, present and still pending. */
  function Selected(jobs: Jobs, ids: seq<JobId>): set<JobId> {
    set id | id in ids && id in jobs && jobs[id].status.Pending()
  }

  /** Why Move turns a request down before touching the queue. */
  function Refused(jobs: Jobs, ids: seq<JobId>, action: Action, anchorId: int): Option<QueueError> {
    if action.Unknown? then Some(UnknownMove)
    else if (action.Top? || action.Bottom?) && anchorId != 0 then Some(AnchorNotAccepted)
    else if action.Top? || action.Bottom? then None
    else if anchorId <= 0 then Some(AnchorRequired)
    else if anchorId in ids then Some(AnchorSelected)
    else if !(anchorId in jobs && jobs[anchorId].status.Pending()) then Some(AnchorNotPending)
    else None
  }

  /** Nothing but ranks changed, and unselected ranks only by a renumbering. */
  ghost predicate OnlyMoved(before: Jobs, after: Jobs, chosen: set<JobId>) {
    && SameButRanks(before, after)
    && ((forall id {:trigger after[id]} :: id in before && id !in chosen ==> after[id] == before[id])
        || (forall id {:trigger after[id]} :: id in before && id !in chosen ==> after[id] == Renumbered(before)[id]))
  }

  /** The list after the block of chosen jobs was moved. */
  ghost predicate MovedBlock(before: Jobs, after: Jobs, chosen: set<JobId>, action: Action, anchorId: int) {
    && anchorId >= 0
    && ((action.Before? || action.After?) ==> anchorId in Order(before))
    && Order(after) == Spliced(Order(before), chosen, action, anchorId)
  }

  lemma BlockMoved(before: Jobs, middle: Jobs, after: Jobs, chosen: set<JobId>, action: Action, anchor: JobId, out: seq<int>)
    requires Distinct(before) && chosen <= before.Keys && !action.Unknown?
    requires (action.Before? || action.After?) ==> anchor in before
    requires Allocated(before, middle, action, anchor, |chosen|, out)
    requires Reranked(middle, after, Listing(middle, chosen), out) && SameButRanks(middle, after)
    ensures MovedBlock(before, after, chosen, action, anchor) && Distinct(after)
    ensures OnlyMoved(before, after, chosen)
    ensures LimitKept(before, after)
  {
    RerankingSplices(middle, after, action, anchor, chosen, out);
    ListingMembers(middle, chosen);
    OthersStay(before, middle, after, chosen, Listing(middle, chosen), out);
    KeptInLimit(before, middle, after, action, anchor, |chosen|, out, Listing(middle, chosen), out);
  }

  /** Stored ranks stay in limit while the queue has fewer than 2^32 jobs. */
  ghost predicate LimitKept(before: Jobs, after: Jobs) {
    InLimit(before) && |after| < 0x1_0000_0000 ==> InLimit(after)
  }

  lemma KeptInLimit(before: Jobs, middle: Jobs, after: Jobs, action: Action, anchor: JobId, n: nat, values: seq<int>, sel: seq<JobId>, out: seq<int>)
    requires Distinct(before) && !action.Unknown? && ((action.Before? || action.After?) ==> anchor in before)
    requires Allocated(before, middle, action, anchor, n, values)
    requires Reranked(middle, after, sel, out) && Limited(out)
    ensures LimitKept(before, after)
  {
    if InLimit(before) && |after| < 0x1_0000_0000 {
      assert before.Keys <= after.Keys;
      Common.PartIsSmaller(before.Keys, after.Keys);
      RenumberedInLimit(before);
      StaysInLimit(middle, after, sel, out);
    }
  }

  lemma OthersStay(before: Jobs, middle: Jobs, after: Jobs, chosen: set<JobId>, sel: seq<JobId>, out: seq<int>)
    requires middle == before || middle == Renumbered(before)
    requires forall x :: x in sel <==> x in chosen
    requires Reranked(middle, after, sel, out) && SameButRanks(middle, after)
    ensures OnlyMoved(before, after, chosen)
  {
  }

  lemma StaysInLimit(before: Jobs, after: Jobs, sel: seq<JobId>, out: seq<int>)
    requires InLimit(before) && Reranked(before, after, sel, out)
    requires Limited(out)
    ensures InLimit(after)
  {
    forall id | id in after ensures -RANK_LIMIT < after[id].rank < RANK_LIMIT {
      if id in sel {
        var k :| 0 <= k < |sel| && sel[k] == id;
      }
    }
  }

  /** The writing half of Move. */
  method MoveChosen(jobs: Jobs, chosen: set<JobId>, action: Action, anchor: JobId) returns (table: Jobs, ok: bool)
    requires Distinct(jobs) && chosen <= jobs.Keys && !action.Unknown?
    requires (action.Before? || action.After?) ==> anchor in jobs
    ensures ok ==> MovedBlock(jobs, table, chosen, action, anchor) && OnlyMoved(jobs, table, chosen) && Distinct(table)
    ensures ok ==> LimitKept(jobs, table)
    ensures !ok ==> !InBounds(|jobs|, |chosen|)
  {
    var values;
    table, values := AllocateRanks(jobs, action, anchor, |chosen|);
    if values.Err? {
      return table, false;
    }
    ghost var middle := table;
    var sel := Listing(table, chosen);
    ListingRises(table, chosen);
    ListingMembers(table, chosen);
    table := WriteRanks(table, sel, values.value);
    BlockMoved(jobs, middle, table, chosen, action, anchor, values.value);
    ok := true;
  }

  // ---- inserting --------------------------------------------------------------

  /** Some unfinished job holds the chapter. */
  predicate Busy(jobs: Jobs, chapter: nat) {
    exists id :: id in jobs && jobs[id].chapter == chapter && jobs[id].status.Active()
  }

  /** The rows after an insert: the old ones up to ranks, and the new ones. */
  ghost predicate AddedRows(before: Jobs, after: Jobs, news: seq<JobId>) {
    && (forall id :: id in after <==> id in before || id in news)
    && (forall id {:trigger after[id]} :: id in before ==> after[id] == before[id].(rank := after[id].rank))
  }

  /** The list after an insert: the new jobs stand where their priority puts them. */
  ghost predicate AddedInOrder(before: Jobs, after: Jobs, news: seq<JobId>, priority: int) {
    InsertedAt(Order(before), Order(after), InsertionIndex(before, priority), news)
  }

  /** A queue in priority order stays so, and the place found is behind all work of this priority or more. */
  ghost predicate PriorityKept(before: Jobs, after: Jobs, priority: int) {
    PrioritySorted(before, Order(before)) ==>
      && RightPlace(before, Order(before), InsertionIndex(before, priority), priority)
      && PrioritySorted(after, Order(after))
  }

  lemma JobsAdded(before: Jobs, middle: Jobs, after: Jobs, news: seq<JobId>, priority: int, n: nat, values: seq<int>, out: seq<int>)
    requires Distinct(before)
    requires var point := InsertionPoint(before, priority);
      Allocated(before, middle, point.0, point.1, n, values) && FillsGap(middle, point.0, point.1, out)
    requires forall id :: id in news ==> id !in before
    requires Reranked(middle, after, news, out) && Limited(out)
    ensures Distinct(after) && AddedRows(before, after, news) && AddedInOrder(before, after, news, priority)
    ensures LimitKept(before, after)
  {
    var point := InsertionPoint(before, priority);
    KeptInLimit(before, middle, after, point.0, point.1, n, values, news, out);
    InsertionSplices(middle, after, point.0, point.1, news, out);
    RowsAdded(before, middle, after, news, out);
  }

  /** Jobs inserted where their priority puts them keep the queue in priority order. */
  lemma AddedKeepsPriority(before: Jobs, after: Jobs, news: seq<JobId>, priority: int)
    requires Distinct(before) && AddedRows(before, after, news) && AddedInOrder(before, after, news, priority)
    requires forall k :: 0 <= k < |news| ==> news[k] in after && after[news[k]].priority == priority
    ensures PriorityKept(before, after, priority)
  {
    if PrioritySorted(before, Order(before)) {
      OldStanding(before, after, news);
      NewJobsKeepPriority(before, after, news, priority);
    }
  }

  lemma RowsAdded(before: Jobs, middle: Jobs, after: Jobs, news: seq<JobId>, out: seq<int>)
    requires SameButRanks(before, middle) && Reranked(middle, after, news, out)
    requires forall id :: id in news ==> id !in before
    ensures AddedRows(before, after, news)
  {
  }

  lemma OldStanding(before: Jobs, after: Jobs, news: seq<JobId>)
    requires AddedRows(before, after, news)
    ensures SameStanding(before, after, Order(before))
  {
    ListingMembers(before, before.Keys);
  }

  /** insertionRanks */
  method AllocateInsertion(jobs: Jobs, priority: int, n: nat) returns (table: Jobs, r: Result<seq<int>>)
    requires Distinct(jobs)
    ensures var point := InsertionPoint(jobs, priority);
      r.Ok? ==> Allocated(jobs, table, point.0, point.1, n, r.value)
    ensures r.Err? ==> r.error == RanksExhausted && !InBounds(|jobs|, n)
  {
    var point := InsertionPoint(jobs, priority);
    table, r := AllocateRanks(jobs, point.0, point.1, n);
  }

  /** The insert transaction of EnqueuePriority. */
  method InsertJob(jobs: Jobs, id: JobId, job: Job) returns (table: Jobs, ok: bool)
    requires Distinct(jobs) && id !in jobs
    ensures ok ==> Distinct(table) && AddedRows(jobs, table, [id]) && table[id] == job.(rank := table[id].rank)
    ensures ok ==> AddedInOrder(jobs, table, [id], job.priority) && LimitKept(jobs, table)
    ensures !ok ==> !InBounds(|jobs|, 1)
  {
    var values;
    table, values := AllocateInsertion(jobs, job.priority, 1);
    if values.Err? {
      return table, false;
    }
    ghost var middle := table;
    table := table[id := job.(rank := values.value[0])];
    JobsAdded(jobs, middle, table, [id], job.priority, 1, values.value, values.value);
    ok := true;
  }

  // ---- raising ----------------------------------------------------------------

  /** The list after a raise: the job alone spliced to where its new priority puts it. */
  ghost predicate RaisedInOrder(before: Jobs, after: Jobs, id: JobId, priority: int) {
    var point := InsertionPoint(before, priority);
    && ((point.0.Before? || point.0.After?) ==> point.1 in Order(before))
    && Order(after) == Spliced(Order(before), {id}, point.0, point.1)
  }

  ghost predicate OthersKept(before: Jobs, after: Jobs, id: JobId) {
    && after.Keys == before.Keys
    && (forall x {:trigger after[x]} :: x in before && x != id ==> after[x] == before[x].(rank := after[x].rank))
  }

  /** The update transaction of Raise. */
  method RaiseJob(jobs: Jobs, id: JobId, priority: int) returns (table: Jobs, ok: bool)
    requires Distinct(jobs) && id in jobs
    ensures ok ==> Distinct(table) && OthersKept(jobs, table, id) && RaisedInOrder(jobs, table, id, priority)
    ensures ok ==> table[id] == jobs[id].(rank := table[id].rank, priority := priority) && LimitKept(jobs, table)
    ensures !ok ==> !InBounds(|jobs|, 1)
  {
    var values;
    table, values := AllocateInsertion(jobs, priority, 1);
    if values.Err? {
      return table, false;
    }
    ghost var middle := table;
    table := table[id := table[id].(rank := values.value[0], priority := priority)];
    JobRaised(jobs, middle, table, id, priority, values.value);
    RaiseInLimit(jobs, middle, table, id, priority, values.value);
    ok := true;
  }

  lemma JobRaised(before: Jobs, middle: Jobs, after: Jobs, id: JobId, priority: int, out: seq<int>)
    requires Distinct(before) && id in before
    requires var point := InsertionPoint(before, priority); Allocated(before, middle, point.0, point.1, 1, out)
    requires after == middle[id := middle[id].(rank := out[0], priority := priority)]
    ensures Distinct(after) && OthersKept(before, after, id) && RaisedInOrder(before, after, id, priority)
  {
    var point := InsertionPoint(before, priority);
    OneReranked(middle, after, id, out);
    OneSplices(middle, after, point.0, point.1, id, out);
  }

  lemma RaiseInLimit(before: Jobs, middle: Jobs, after: Jobs, id: JobId, priority: int, out: seq<int>)
    requires Distinct(before) && id in before
    requires var point := InsertionPoint(before, priority); Allocated(before, middle, point.0, point.1, 1, out)
    requires after == middle[id := middle[id].(rank := out[0], priority := priority)]
    ensures LimitKept(before, after)
  {
    var point := InsertionPoint(before, priority);
    OneReranked(middle, after, id, out);
    KeptInLimit(before, middle, after, point.0, point.1, 1, out, [id], out);
  }

  lemma RaiseKeepsPriority(before: Jobs, after: Jobs, id: JobId, priority: int)
    requires Distinct(before) && id in before && OthersKept(before, after, id)
    requires RaisedInOrder(before, after, id, priority) && after[id].priority == priority
    ensures PrioritySorted(before, Order(before)) ==> PrioritySorted(after, Order(after))
  {
    if PrioritySorted(before, Order(before)) {
      RaisedStanding(before, after, id);
      RaisedJobKeepsPriority(before, after, id, priority);
    }
  }

  lemma OneSplices(before: Jobs, after: Jobs, action: Action, anchor: JobId, id: JobId, out: seq<int>)
    requires Distinct(before) && id in before && !action.Unknown?
    requires (action.Before? || action.After?) ==> anchor in before
    requires FillsGap(before, action, anchor, out) && Reranked(before, after, [id], out)
    ensures (action.Before? || action.After?) ==> anchor in Order(before)
    ensures Order(after) == Spliced(Order(before), {id}, action, anchor)
    ensures Distinct(after)
  {
    RisingIsListing(before, {id}, [id]);
    RerankingSplices(before, after, action, anchor, {id}, out);
  }

  lemma OneReranked(middle: Jobs, after: Jobs, id: JobId, out: seq<int>)
    requires id in middle && id in after && |out| == 1
    requires after == middle[id := after[id]] && after[id].rank == out[0]
    ensures Reranked(middle, after, [id], out)
  {
  }

  lemma RaisedStanding(before: Jobs, after: Jobs, id: JobId)
    requires OthersKept(before, after, id)
    ensures SameStanding(before, after, Drop(Order(before), {id}))
  {
    ListingMembers(before, before.Keys);
    KeepMembers(Order(before), {id});
  }

  // ---- batches ----------------------------------------------------------------

  datatype ReprocessFile = ReprocessFile(series: nat, chapter: nat)

  function Row(file: ReprocessFile, rank: int, priority: int): Job {
    Job(rank, Queued, priority, Reprocess, file.series, file.chapter)
  }

  function BusyChapters(jobs: Jobs): set<nat> {
    set id | id in jobs && jobs[id].status.Active() :: jobs[id].chapter
  }

  /** ON CONFLICT DO NOTHING: the files whose chapter no active or earlier inserted job holds. */
  function Accepted(busy: set<nat>, files: seq<ReprocessFile>): seq<ReprocessFile>
    decreases |files|
  {
    if files == [] then []
    else if files[0].chapter in busy then Accepted(busy, files[1..])
    else [files[0]] + Accepted(busy + {files[0].chapter}, files[1..])
  }

  /** INSERT ... ON CONFLICT DO NOTHING, ids counting up from id. */
  function InsertFiles(jobs: Jobs, id: JobId, files: seq<ReprocessFile>, values: seq<int>, priority: int): Jobs
    requires |files| == |values|
    decreases |files|
  {
    if files == [] then jobs
    else if Busy(jobs, files[0].chapter) then InsertFiles(jobs, id, files[1..], values[1..], priority)
    else InsertFiles(jobs[id := Row(files[0], values[0], priority)], id + 1, files[1..], values[1..], priority)
  }

  /** after is jobs with one row per accepted file, at the ranks out. */
  ghost predicate RowsIn(jobs: Jobs, after: Jobs, id: JobId, accepted: seq<ReprocessFile>, out: seq<int>, priority: int) {
    && |accepted| == |out|
    && (forall x :: x in after <==> x in jobs || id <= x < id + |accepted|)
    && (forall x {:trigger after[x]} :: x in jobs ==> after[x] == jobs[x])
    && (forall x {:trigger after[x]} :: id <= x < id + |accepted| ==> after[x] == Row(accepted[x - id], out[x - id], priority))
  }

  lemma RowsInCons(jobs: Jobs, after: Jobs, id: JobId, file: ReprocessFile, rank: int, accepted: seq<ReprocessFile>, out: seq<int>, priority: int)
    requires forall x :: x in jobs ==> x < id
    requires RowsIn(jobs[id := Row(file, rank, priority)], after, id + 1, accepted, out, priority)
    ensures RowsIn(jobs, after, id, [file] + accepted, [rank] + out, priority)
  {
    forall x {:trigger after[x]} | id <= x < id + 1 + |accepted|
      ensures after[x] == Row(([file] + accepted)[x - id], ([rank] + out)[x - id], priority)
    {
      if x == id {
        assert jobs[id := Row(file, rank, priority)][id] == Row(file, rank, priority);
      }
    }
  }

  /** The ranks out are among the rising values. */
  ghost predicate Within(out: seq<int>, low: int) {
    && (forall k :: 0 <= k < |out| ==> low < out[k])
    && (forall j, k :: 0 <= j < k < |out| ==> out[j] < out[k])
  }

  lemma {:induction false} InsertFilesRows(base: Jobs, point: (Action, JobId), jobs: Jobs, id: JobId, files: seq<ReprocessFile>, values: seq<int>, priority: int, low: int)
    returns (out: seq<int>)
    requires |files| == |values| && forall x :: x in jobs ==> x < id
    requires FillsGap(base, point.0, point.1, values) && Within(values, low) && Limited(values)
    ensures RowsIn(jobs, InsertFiles(jobs, id, files, values, priority), id, Accepted(BusyChapters(jobs), files), out, priority)
    ensures FillsGap(base, point.0, point.1, out) && Within(out, low) && Limited(out)
    decreases |files|
  {
    if files == [] {
      out := [];
    } else {
      FillsGapTail(base, point, values, low);
      BusyIsMember(jobs, files[0].chapter);
      if Busy(jobs, files[0].chapter) {
        out := InsertFilesRows(base, point, jobs, id, files[1..], values[1..], priority, values[0]);
      } else {
        var next := jobs[id := Row(files[0], values[0], priority)];
        var rest := InsertFilesRows(base, point, next, id + 1, files[1..], values[1..], priority, values[0]);
        BusyGrows(jobs, id, files[0], values[0], priority);
        RowsInCons(jobs, InsertFiles(next, id + 1, files[1..], values[1..], priority), id, files[0], values[0],
                   Accepted(BusyChapters(next), files[1..]), rest, priority);
        FillsGapCons(base, point, values, rest, low);
        out := [values[0]] + rest;
      }
    }
  }

  lemma BusyIsMember(jobs: Jobs, chapter: nat)
    ensures Busy(jobs, chapter) <==> chapter in BusyChapters(jobs)
  {
  }

  lemma BusyGrows(jobs: Jobs, id: JobId, file: ReprocessFile, rank: int, priority: int)
    requires id !in jobs
    ensures BusyChapters(jobs[id := Row(file, rank, priority)]) == BusyChapters(jobs) + {file.chapter}
  {
    var next := jobs[id := Row(file, rank, priority)];
    forall c | c in BusyChapters(jobs) + {file.chapter} ensures c in BusyChapters(next) {
      if c in BusyChapters(jobs) {
        var x :| x in jobs && jobs[x].status.Active() && jobs[x].chapter == c;
        assert next[x] == jobs[x];
      } else {
        assert next[id].status.Active();
      }
    }
  }

  lemma FillsGapTail(base: Jobs, point: (Action, JobId), values: seq<int>, low: int)
    requires FillsGap(base, point.0, point.1, values) && Within(values, low) && values != []
    ensures FillsGap(base, point.0, point.1, values[1..]) && Within(values[1..], values[0])
  {
  }

  lemma FillsGapCons(base: Jobs, point: (Action, JobId), values: seq<int>, rest: seq<int>, low: int)
    requires FillsGap(base, point.0, point.1, values) && values != [] && low < values[0]
    requires FillsGap(base, point.0, point.1, rest) && Within(rest, values[0])
    ensures FillsGap(base, point.0, point.1, [values[0]] + rest) && Within([values[0]] + rest, low)
  {
  }

  /** The ids from first up to, not including, next. */
  function Ids(first: JobId, next: JobId): (r: seq<JobId>)
    requires first <= next
    ensures |r| == next - first && forall k :: 0 <= k < |r| ==> r[k] == first + k
  {
    seq(next - first, k requires k >= 0 => first + k)
  }

  lemma IdsMembers(first: JobId, next: JobId)
    requires first <= next
    ensures forall x :: x in Ids(first, next) <==> first <= x < next
  {
    forall x | first <= x < next ensures x in Ids(first, next) {
      assert Ids(first, next)[x - first] == x;
    }
  }

  /** The rows a batch creates: the accepted files, with the ids from first to next. */
  ghost predicate BatchRows(before: Jobs, after: Jobs, first: JobId, next: JobId, accepted: seq<ReprocessFile>, priority: int) {
    && next == first + |accepted|
    && (forall x :: x in after <==> x in before || first <= x < next)
    && (forall x {:trigger after[x]} :: x in before ==> after[x] == before[x].(rank := after[x].rank))
    && (forall x {:trigger after[x]} :: first <= x < next ==>
          after[x] == Row(accepted[x - first], after[x].rank, priority))
  }

  /** The jobs a batch creates, in order, at the place their priority picks. */
  ghost predicate BatchAdded(before: Jobs, after: Jobs, first: JobId, next: JobId, accepted: seq<ReprocessFile>, priority: int) {
    && BatchRows(before, after, first, next, accepted, priority)
    && AddedInOrder(before, after, Ids(first, next), priority)
  }

  /** The jobs files turn into: one for each that no earlier or active job keeps out. */
  ghost predicate FilesAdded(before: Jobs, after: Jobs, first: JobId, next: JobId, files: seq<ReprocessFile>, priority: int) {
    BatchAdded(before, after, first, next, Accepted(BusyChapters(before), files), priority)
  }

  /** One transaction of EnqueueReprocessFiles. */
  method InsertBatch(jobs: Jobs, first: JobId, files: seq<ReprocessFile>, priority: int)
    returns (table: Jobs, next: JobId, ok: bool)
    requires Distinct(jobs) && forall id :: id in jobs ==> id < first
    ensures ok ==> Distinct(table) && FilesAdded(jobs, table, first, next, files, priority) && LimitKept(jobs, table)
    ensures !ok ==> !InBounds(|jobs|, |files|)
  {
    var values;
    table, values := AllocateInsertion(jobs, priority, |files|);
    next := first;
    if values.Err? {
      return table, next, false;
    }
    ghost var middle := table;
    table, next := InsertRows(table, first, files, values.value, priority);
    SameBusy(jobs, middle);
    BatchIsAdded(jobs, middle, table, first, next, files, Accepted(BusyChapters(jobs), files), priority, values.value);
    ok := true;
  }

  /** INSERT ... ON CONFLICT DO NOTHING over a whole batch. */
  method InsertRows(jobs: Jobs, first: JobId, files: seq<ReprocessFile>, values: seq<int>, priority: int)
    returns (table: Jobs, next: JobId)
    requires |files| == |values| && forall id :: id in jobs ==> id < first
    ensures table == InsertFiles(jobs, first, files, values, priority)
    ensures next == first + |Accepted(BusyChapters(jobs), files)|
  {
    table, next := jobs, first;
    var i := 0;
    while i < |files|
      invariant 0 <= i <= |files| && forall id :: id in table ==> id < next
      invariant InsertFiles(jobs, first, files, values, priority) ==
        InsertFiles(table, next, files[i..], values[i..], priority)
      invariant |Accepted(BusyChapters(jobs), files)| + first ==
        |Accepted(BusyChapters(table), files[i..])| + next
    {
      BusyIsMember(table, files[i].chapter);
      assert files[i..][1..] == files[i + 1..] && values[i..][1..] == values[i + 1..];
      if !Busy(table, files[i].chapter) {
        BusyGrows(table, next, files[i], values[i], priority);
        table, next := table[next := Row(files[i], values[i], priority)], next + 1;
      }
      i := i + 1;
    }
  }

  lemma BatchIsAdded(before: Jobs, middle: Jobs, after: Jobs, first: JobId, next: JobId, files: seq<ReprocessFile>, accepted: seq<ReprocessFile>, priority: int, values: seq<int>)
    requires Distinct(before) && forall id :: id in before ==> id < first
    requires var point := InsertionPoint(before, priority); Allocated(before, middle, point.0, point.1, |files|, values)
    requires after == InsertFiles(middle, first, files, values, priority)
    requires accepted == Accepted(BusyChapters(middle), files) && next == first + |accepted|
    ensures Distinct(after) && BatchAdded(before, after, first, next, accepted, priority) && LimitKept(before, after)
  {
    var out := FilesRows(middle, InsertionPoint(before, priority), first, files, values, priority);
    RowsAreBatch(before, middle, after, first, next, accepted, priority, |files|, values, out);
  }

  lemma FilesRows(jobs: Jobs, point: (Action, JobId), first: JobId, files: seq<ReprocessFile>, values: seq<int>, priority: int)
    returns (out: seq<int>)
    requires |files| == |values| && forall x :: x in jobs ==> x < first
    requires FillsGap(jobs, point.0, point.1, values) && Limited(values)
    ensures RowsIn(jobs, InsertFiles(jobs, first, files, values, priority), first, Accepted(BusyChapters(jobs), files), out, priority)
    ensures FillsGap(jobs, point.0, point.1, out) && Limited(out)
  {
    var low := if values == [] then 0 else values[0] - 1;
    out := InsertFilesRows(jobs, point, jobs, first, files, values, priority, low);
  }

  lemma RowsAreBatch(before: Jobs, middle: Jobs, after: Jobs, first: JobId, next: JobId, accepted: seq<ReprocessFile>, priority: int, n: nat, values: seq<int>, out: seq<int>)
    requires Distinct(before) && forall id :: id in before ==> id < first
    requires var point := InsertionPoint(before, priority);
      Allocated(before, middle, point.0, point.1, n, values) && FillsGap(middle, point.0, point.1, out)
    requires next == first + |accepted| && RowsIn(middle, after, first, accepted, out, priority) && Limited(out)
    ensures Distinct(after) && BatchAdded(before, after, first, next, accepted, priority) && LimitKept(before, after)
  {
    RowsReranked(middle, after, first, next, accepted, out, priority);
    JobsAdded(before, middle, after, Ids(first, next), priority, n, values, out);
    RowsAreNew(before, middle, after, first, next, accepted, out, priority);
  }

  lemma RowsAreNew(before: Jobs, jobs: Jobs, after: Jobs, first: JobId, next: JobId, accepted: seq<ReprocessFile>, out: seq<int>, priority: int)
    requires next == first + |accepted| && forall x :: x in before ==> x < first
    requires SameButRanks(before, jobs) && RowsIn(jobs, after, first, accepted, out, priority)
    ensures BatchRows(before, after, first, next, accepted, priority)
  {
  }

  lemma SameBusy(before: Jobs, middle: Jobs)
    requires SameButRanks(before, middle)
    ensures BusyChapters(before) == BusyChapters(middle)
  {
    forall id | id in before ensures middle[id].chapter == before[id].chapter && middle[id].status == before[id].status {
    }
  }

  lemma RowsReranked(jobs: Jobs, after: Jobs, first: JobId, next: JobId, accepted: seq<ReprocessFile>, out: seq<int>, priority: int)
    requires next == first + |accepted| && forall x :: x in jobs ==> x < first
    requires RowsIn(jobs, after, first, accepted, out, priority)
    ensures Reranked(jobs, after, Ids(first, next), out)
    ensures forall x :: x in Ids(first, next) ==> x !in jobs
  {
    IdsMembers(first, next);
    RowsAt(jobs, after, first, accepted, out, priority, Ids(first, next));
  }

  lemma RowsAt(jobs: Jobs, after: Jobs, first: JobId, accepted: seq<ReprocessFile>, out: seq<int>, priority: int, news: seq<JobId>)
    requires RowsIn(jobs, after, first, accepted, out, priority)
    requires |news| == |accepted| && forall k :: 0 <= k < |news| ==> news[k] == first + k
    ensures forall k :: 0 <= k < |news| ==> news[k] in after && after[news[k]].rank == out[k]
  {
    forall k | 0 <= k < |news| ensures news[k] in after && after[news[k]].rank == out[k] {
      assert after[first + k] == Row(accepted[k], out[k], priority);
    }
  }
}
