/** Which files EnqueueReprocessFiles queues, told by the rows alone. */
module QueueFiles {
  import opened Common
  import opened RankOrder
  import opened RankPriority
  import opened RankQueue
  import opened RankBatches
  import opened DownloadQueue
  import opened QueueRanks

  // ---- which files are taken ---------------------------------------------------------------

  /** The k-th file's chapter is free, and no earlier file names it. */
  ghost predicate Free(busy: set<nat>, files: seq<ReprocessFile>, k: nat) {
    k < |files| && files[k].chapter !in busy && forall i :: 0 <= i < k ==> files[i].chapter != files[k].chapter
  }

  /** taken stands at the given places of files: from a place on the free ones, all of them, in order. */
  ghost predicate TakenAt(taken: seq<ReprocessFile>, places: seq<nat>, busy: set<nat>, files: seq<ReprocessFile>, from: nat) {
    && |places| == |taken|
    && (forall i :: 0 <= i < |taken| ==> from <= places[i] && Free(busy, files, places[i]) && taken[i] == files[places[i]])
    && (forall i, j :: 0 <= i < j < |taken| ==> places[i] < places[j])
    && (forall k: nat :: from <= k && Free(busy, files, k) ==> k in places)
  }

  /** The chapters that are busy once the files before a place are dealt with. */
  function BusyBy(busy: set<nat>, files: seq<ReprocessFile>, from: nat): set<nat>
    requires from <= |files|
  {
    if from == 0 then busy else BusyBy(busy, files, from - 1) + {files[from - 1].chapter}
  }

  lemma {:induction false} BusyByHas(busy: set<nat>, files: seq<ReprocessFile>, from: nat, chapter: nat)
    requires from <= |files|
    ensures chapter in BusyBy(busy, files, from) <==>
      chapter in busy || exists i :: 0 <= i < from && files[i].chapter == chapter
  {
    if from > 0 {
      BusyByHas(busy, files, from - 1, chapter);
      assert files[from - 1].chapter == chapter ==> exists i :: 0 <= i < from && files[i].chapter == chapter;
    }
  }

  lemma AcceptedStep(busy: set<nat>, files: seq<ReprocessFile>, file: ReprocessFile, rest: seq<ReprocessFile>)
    requires files == [file] + rest
    ensures Accepted(busy, files) ==
      if file.chapter in busy then Accepted(busy, rest) else [file] + Accepted(busy + {file.chapter}, rest)
  {
    assert files[1..] == rest;
  }

  lemma TakenSkip(taken: seq<ReprocessFile>, places: seq<nat>, busy: set<nat>, files: seq<ReprocessFile>, from: nat)
    requires !Free(busy, files, from) && TakenAt(taken, places, busy, files, from + 1)
    ensures TakenAt(taken, places, busy, files, from)
  {
  }

  lemma TakenCons(taken: seq<ReprocessFile>, places: seq<nat>, busy: set<nat>, files: seq<ReprocessFile>, from: nat)
    requires Free(busy, files, from) && TakenAt(taken, places, busy, files, from + 1)
    ensures TakenAt([files[from]] + taken, [from] + places, busy, files, from)
  {
    var more, all := [files[from]] + taken, [from] + places;
    forall i | 0 <= i < |more| ensures from <= all[i] && Free(busy, files, all[i]) && more[i] == files[all[i]] {
    }
    forall k: nat | from <= k && Free(busy, files, k) ensures k in all {
      if k == from {
        assert all[0] == from;
      }
    }
  }

  lemma {:induction false} TakenFrom(busy: set<nat>, files: seq<ReprocessFile>, from: nat) returns (places: seq<nat>)
    requires from <= |files|
    ensures TakenAt(Accepted(BusyBy(busy, files, from), files[from..]), places, busy, files, from)
    decreases |files| - from
  {
    if from == |files| {
      places := [];
    } else {
      places := TakenFrom(busy, files, from + 1);
      var now, rest := BusyBy(busy, files, from), files[from + 1..];
      BusyByHas(busy, files, from, files[from].chapter);
      AcceptedStep(now, files[from..], files[from], rest);
      if Free(busy, files, from) {
        TakenCons(Accepted(now + {files[from].chapter}, rest), places, busy, files, from);
        places := [from] + places;
      } else {
        assert now + {files[from].chapter} == now;
        TakenSkip(Accepted(now, rest), places, busy, files, from);
      }
    }
  }

  // ---- what the rows say ---------------------------------------------------------------------

  /** Some unfinished job holds the chapter. */
  ghost predicate Held(jobs: Jobs, chapter: nat) {
    exists id :: id in jobs && jobs[id].chapter == chapter && Unfinished(jobs[id].status)
  }

  lemma BusyIsHeld(jobs: Jobs, chapter: nat)
    ensures chapter in BusyChapters(jobs) <==> Held(jobs, chapter)
  {
    if Held(jobs, chapter) {
      var id :| id in jobs && jobs[id].chapter == chapter && Unfinished(jobs[id].status);
      assert jobs[id].status.Active();
    }
    if chapter in BusyChapters(jobs) {
      var id :| id in jobs && jobs[id].status.Active() && jobs[id].chapter == chapter;
      assert Unfinished(jobs[id].status);
    }
  }

  /** A file is queued: no unfinished job held its chapter before, and no earlier file names that chapter. */
  ghost predicate Queues(jobs: Jobs, files: seq<ReprocessFile>, k: nat) {
    k < |files| && !Held(jobs, files[k].chapter) && forall i :: 0 <= i < k ==> files[i].chapter != files[k].chapter
  }

  /** The new row of a file, at whatever rank. */
  predicate RowOf(job: Job, file: ReprocessFile, priority: int) {
    && job.status == Queued && job.kind == Reprocess && job.priority == priority
    && job.series == file.series && job.chapter == file.chapter
  }

  /** The rows from first to next are those of the files at the given places, in order. */
  ghost predicate RowsAt(jobs: Jobs, first: JobId, next: JobId, files: seq<ReprocessFile>, places: seq<nat>, priority: int) {
    && next == first + |places|
    && (forall i :: 0 <= i < |places| ==> places[i] < |files| && first + i in jobs && RowOf(jobs[first + i], files[places[i]], priority))
    && (forall i, j :: 0 <= i < j < |places| ==> places[i] < places[j])
  }

  /** They stand in strictly rising rank. */
  ghost predicate RanksRise(jobs: Jobs, first: JobId, next: JobId) {
    forall a, b :: first <= a < b < next && a in jobs && b in jobs ==> jobs[a].rank < jobs[b].rank
  }

  /** Old rows stay but for ranks, and there are no others than these and the new ones. */
  ghost predicate OldStay(before: Jobs, after: Jobs, first: JobId, next: JobId) {
    && (forall id :: id in after <==> id in before || first <= id < next)
    && (forall id {:trigger after[id]} :: id in before ==> after[id] == before[id].(rank := after[id].rank))
  }

  lemma InsertedRanks(before: Jobs, after: Jobs, first: JobId, next: JobId, priority: int)
    requires first <= next && AddedInOrder(before, after, Ids(first, next), priority) && Distinct(after)
    ensures RanksRise(after, first, next)
  {
    var c, news := InsertionIndex(before, priority), Ids(first, next);
    ListingRises(after, after.Keys);
    forall a, b | first <= a < b < next && a in after && b in after ensures after[a].rank < after[b].rank {
      assert Order(after)[c + (a - first)] == news[a - first] == a;
      assert Order(after)[c + (b - first)] == news[b - first] == b;
    }
  }

  /** Each stands at its priority's place among the old ones. */
  ghost predicate AllPlaced(before: Jobs, after: Jobs, first: JobId, next: JobId, priority: int) {
    forall id :: first <= id < next ==> Placed(before, after, id, priority) && OldOrder(before, after, id)
  }

  lemma RowsPlaced(before: Jobs, after: Jobs, first: JobId, next: JobId, priority: int)
    requires Distinct(before) && Distinct(after) && first <= next && forall id :: id in before ==> id < first
    requires AddedInOrder(before, after, Ids(first, next), priority)
    ensures AllPlaced(before, after, first, next, priority)
  {
    IdsMembers(first, next);
    forall id | first <= id < next ensures Placed(before, after, id, priority) && OldOrder(before, after, id) {
      InsertedPlaced(before, after, Ids(first, next), id, priority);
    }
  }

  lemma TakenRows(before: Jobs, after: Jobs, first: JobId, next: JobId, taken: seq<ReprocessFile>, busy: set<nat>, files: seq<ReprocessFile>, places: seq<nat>, priority: int)
    requires BatchRows(before, after, first, next, taken, priority) && TakenAt(taken, places, busy, files, 0)
    ensures RowsAt(after, first, next, files, places, priority) && OldStay(before, after, first, next)
  {
    forall i | 0 <= i < |places| ensures first + i in after && RowOf(after[first + i], files[places[i]], priority) {
      assert after[first + i] == Row(taken[i], after[first + i].rank, priority);
    }
  }

  lemma FreeIsQueued(jobs: Jobs, files: seq<ReprocessFile>, k: nat)
    ensures Free(BusyChapters(jobs), files, k) <==> Queues(jobs, files, k)
  {
    if k < |files| {
      BusyIsHeld(jobs, files[k].chapter);
    }
  }

  /** For one insert of all the files. */
  lemma InsertedRows(before: Jobs, after: Jobs, first: JobId, next: JobId, files: seq<ReprocessFile>, priority: int)
    returns (places: seq<nat>)
    requires Distinct(before) && Distinct(after) && FilesAdded(before, after, first, next, files, priority)
    requires forall id :: id in before ==> id < first
    ensures forall k: nat :: k in places <==> Queues(before, files, k)
    ensures RowsAt(after, first, next, files, places, priority) && OldStay(before, after, first, next)
    ensures RanksRise(after, first, next) && AllPlaced(before, after, first, next, priority)
  {
    var busy := BusyChapters(before);
    places := TakenFrom(busy, files, 0);
    assert files[0..] == files;
    TakenRows(before, after, first, next, Accepted(busy, files), busy, files, places, priority);
    InsertedRanks(before, after, first, next, priority);
    RowsPlaced(before, after, first, next, priority);
    forall k: nat ensures k in places <==> Queues(before, files, k) {
      FreeIsQueued(before, files, k);
    }
  }

  lemma {:induction false} FirstNaming(files: seq<ReprocessFile>, k: nat) returns (first: nat)
    requires k < |files|
    ensures first <= k && files[first].chapter == files[k].chapter
    ensures forall i :: 0 <= i < first ==> files[i].chapter != files[k].chapter
  {
    if i: nat :| i < k && files[i].chapter == files[k].chapter {
      first := FirstNaming(files, i);
    } else {
      first := k;
    }
  }

  /** After the rows are made every file's chapter is held. */
  lemma AllHeld(before: Jobs, after: Jobs, first: JobId, next: JobId, files: seq<ReprocessFile>, places: seq<nat>, priority: int, k: nat)
    requires RowsAt(after, first, next, files, places, priority) && OldStay(before, after, first, next)
    requires forall i: nat :: Queues(before, files, i) ==> i in places
    requires k < |files|
    ensures Held(after, files[k].chapter)
  {
    var chapter := files[k].chapter;
    if Held(before, chapter) {
      var id :| id in before && before[id].chapter == chapter && Unfinished(before[id].status);
      assert after[id] == before[id].(rank := after[id].rank);
    } else {
      var i := FirstNaming(files, k);
      assert Queues(before, files, i);
      var m :| 0 <= m < |places| && places[m] == i;
      assert RowOf(after[first + m], files[places[m]], priority);
    }
  }

  /** How many files the batches of an answer cover: all of them unless the rank space was exhausted before. */
  function Reached(files: seq<ReprocessFile>, batches: nat): nat {
    if 250 * batches < |files| then 250 * batches else |files|
  }

  lemma ReachedIsCovered(files: seq<ReprocessFile>, batches: nat)
    ensures Reached(files, batches) == Covered(files, batches)
  {
  }

  /**
   EnqueueReprocessFiles: of the files it reached exactly those become rows whose chapter no unfinished job held
   and no earlier file names, in their order, in strictly rising rank and at the place of their priority; nothing else changes but ranks, and then
   an unfinished job holds every chapter reached. Without an error it reached every file.
   */
  lemma FilesGetRows(s: Snap, t: Snap, files: seq<ReprocessFile>, batches: nat, priority: int, error: Option<QueueError>)
    returns (places: seq<nat>)
    requires Sound(s) && Did(s, FilesAct(files, batches, priority), t) && FilesAnswer(t, files, batches, error)
    ensures error.None? ==> Reached(files, batches) == |files|
    ensures forall k: nat :: k in places <==> Queues(s.jobs, files[..Reached(files, batches)], k)
    ensures RowsAt(t.jobs, s.nextId, t.nextId, files[..Reached(files, batches)], places, priority)
    ensures AllPlaced(s.jobs, t.jobs, s.nextId, t.nextId, priority)
    ensures RanksRise(t.jobs, s.nextId, t.nextId) && OldStay(s.jobs, t.jobs, s.nextId, t.nextId)
    ensures forall k :: 0 <= k < Reached(files, batches) ==> Held(t.jobs, files[k].chapter)
    ensures t.revision == s.revision + batches
  {
    ReachedIsCovered(files, batches);
    var part := files[..Reached(files, batches)];
    places := InsertedRows(s.jobs, t.jobs, s.nextId, t.nextId, part, priority);
    forall k | 0 <= k < |part| ensures Held(t.jobs, files[k].chapter) {
      AllHeld(s.jobs, t.jobs, s.nextId, t.nextId, part, places, priority, k);
      assert part[k] == files[k];
    }
  }
}
