/** Consecutive batch inserts add up to one insert. */
module RankBatches {
  import opened RankOrder
  import opened RankPriority
  import opened RankQueue

  // ---- which files are accepted -----------------------------------------------

  function ChaptersOf(files: seq<ReprocessFile>): set<nat> {
    set k | 0 <= k < |files| :: files[k].chapter
  }

  lemma ChaptersCons(file: ReprocessFile, files: seq<ReprocessFile>)
    ensures ChaptersOf([file] + files) == {file.chapter} + ChaptersOf(files)
  {
    var both := [file] + files;
    forall c | c in ChaptersOf(files) ensures c in ChaptersOf(both) {
      var k :| 0 <= k < |files| && files[k].chapter == c;
      assert both[k + 1].chapter == c;
    }
    assert both[0].chapter == file.chapter;
  }

  /** Accepting a list in two parts, the second against what the first made busy, accepts the same files. */
  lemma {:induction false} AcceptedSplits(busy: set<nat>, a: seq<ReprocessFile>, b: seq<ReprocessFile>)
    ensures Accepted(busy, a + b) == Accepted(busy, a) + Accepted(busy + ChaptersOf(Accepted(busy, a)), b)
    decreases |a|
  {
    if a == [] {
      assert a + b == b;
      assert busy + ChaptersOf([]) == busy;
    } else {
      assert (a + b)[0] == a[0] && (a + b)[1..] == a[1..] + b;
      var c := a[0].chapter;
      if c in busy {
        AcceptedSplits(busy, a[1..], b);
      } else {
        AcceptedSplits(busy + {c}, a[1..], b);
        ChaptersCons(a[0], Accepted(busy + {c}, a[1..]));
        assert busy + {c} + ChaptersOf(Accepted(busy + {c}, a[1..])) == busy + ChaptersOf(Accepted(busy, a));
      }
    }
  }

  /** No two accepted files share a chapter, and none is busy. */
  lemma {:induction false} AcceptedAreFree(busy: set<nat>, files: seq<ReprocessFile>)
    ensures forall k :: 0 <= k < |Accepted(busy, files)| ==> Accepted(busy, files)[k].chapter !in busy
    ensures forall j, k :: 0 <= j < k < |Accepted(busy, files)| ==>
      Accepted(busy, files)[j].chapter != Accepted(busy, files)[k].chapter
    decreases |files|
  {
    if files != [] {
      var c := files[0].chapter;
      AcceptedAreFree(if c in busy then busy else busy + {c}, files[1..]);
    }
  }

  // ---- the insertion point moves with the rows --------------------------------

  /** Rows of the same priority leave the insertion point behind them. */
  lemma InsertionIndexMoves(before: Jobs, after: Jobs, first: JobId, next: JobId, accepted: seq<ReprocessFile>, priority: int)
    requires Distinct(before) && Distinct(after) && forall x :: x in before ==> x < first
    requires BatchRows(before, after, first, next, accepted, priority)
    requires AddedInOrder(before, after, Ids(first, next), priority)
    ensures InsertionIndex(after, priority) == InsertionIndex(before, priority) + (next - first)
  {
    var news := Ids(first, next);
    SameLower(before, after, first, next, accepted, priority);
    ListingRises(before, before.Keys);
    IndexMoves(before, after, news, priority);
  }

  lemma IndexMoves(before: Jobs, after: Jobs, news: seq<JobId>, priority: int)
    requires Distinct(before) && Distinct(after) && before.Keys <= after.Keys
    requires forall x :: x in news ==> x !in before
    requires Lower(after, priority) == Lower(before, priority)
    requires AddedInOrder(before, after, news, priority)
    ensures InsertionIndex(after, priority) == InsertionIndex(before, priority) + |news|
  {
    if Lower(before, priority) != {} {
      var c := InsertionIndex(before, priority);
      FirstStays(before, after, Lower(before, priority), c, news);
      ListingRises(before, before.Keys);
      InsertedIndex(before, Order(before), c, news);
    }
  }

  lemma SameLower(before: Jobs, after: Jobs, first: JobId, next: JobId, accepted: seq<ReprocessFile>, priority: int)
    requires forall x :: x in before ==> x < first
    requires BatchRows(before, after, first, next, accepted, priority)
    ensures Lower(after, priority) == Lower(before, priority) && before.Keys <= after.Keys
    ensures forall x :: x in Ids(first, next) ==> x !in before
  {
    IdsMembers(first, next);
    forall x | x in after ensures x in Lower(after, priority) <==> x in Lower(before, priority) {
      assert x in before ==> after[x] == before[x].(rank := after[x].rank);
    }
  }

  lemma FirstStays(before: Jobs, after: Jobs, ids: set<JobId>, c: nat, news: seq<JobId>)
    requires Distinct(before) && Distinct(after) && ids != {} && ids <= before.Keys && ids <= after.Keys
    requires c <= |Order(before)| && Order(after) == Inserted(Order(before), c, news)
    requires forall x :: x in news ==> x !in ids
    ensures First(after, ids) == First(before, ids)
  {
    ListingIsKeep(before, ids);
    ListingIsKeep(after, ids);
    KeepInserted(Order(before), c, news, ids);
    assert Listing(before, ids)[0] == First(before, ids);
    assert Listing(after, ids)[0] == First(after, ids);
  }

  lemma KeepHead(x: JobId, s: seq<JobId>, ids: set<JobId>)
    ensures Keep([x] + s, ids) == (if x in ids then [x] else []) + Keep(s, ids)
  {
    assert ([x] + s)[1..] == s;
  }

  lemma {:induction false} KeepConcat(a: seq<JobId>, b: seq<JobId>, ids: set<JobId>)
    ensures Keep(a + b, ids) == Keep(a, ids) + Keep(b, ids)
  {
    if a == [] {
      assert a + b == b;
    } else {
      var x, t := a[0], a[1..];
      assert a == [x] + t && a + b == [x] + (t + b);
      KeepHead(x, t + b, ids);
      KeepHead(x, t, ids);
      KeepConcat(t, b, ids);
    }
  }

  lemma {:induction false} KeepNone(s: seq<JobId>, ids: set<JobId>)
    requires forall x :: x in s ==> x !in ids
    ensures Keep(s, ids) == []
  {
    if s != [] {
      KeepNone(s[1..], ids);
    }
  }

  lemma KeepInserted(o: seq<JobId>, c: nat, news: seq<JobId>, ids: set<JobId>)
    requires c <= |o| && forall x :: x in news ==> x !in ids
    ensures Keep(Inserted(o, c, news), ids) == Keep(o, ids)
  {
    InsertedIsBetween(o, c, news);
    KeepConcat(o[..c] + news, o[c..], ids);
    KeepConcat(o[..c], news, ids);
    KeepConcat(o[..c], o[c..], ids);
    KeepNone(news, ids);
    assert o[..c] + o[c..] == o;
  }

  lemma InsertedIndex(jobs: Jobs, o: seq<JobId>, c: nat, news: seq<JobId>)
    requires Rising(jobs, o) && c < |o| && o[c] !in news
    ensures o[c] in Inserted(o, c, news) && IndexOf(Inserted(o, c, news), o[c]) == c + |news|
  {
    var r := Inserted(o, c, news);
    var i := c + |news|;
    assert r[i] == o[c];
    forall j | 0 <= j < i ensures r[j] != o[c] {
      assert j < c ==> r[j] == o[j] && RankOf(jobs, o[j]) < RankOf(jobs, o[c]);
      assert c <= j ==> r[j] == news[j - c];
    }
    RankAlloc.IndexOfAt(r, i);
  }

  // ---- two batches are one -----------------------------------------------------

  lemma InsertedTwice(o: seq<JobId>, p: seq<JobId>, q: seq<JobId>, c: nat, a: seq<JobId>, b: seq<JobId>)
    requires InsertedAt(o, p, c, a) && InsertedAt(p, q, c + |a|, b)
    ensures InsertedAt(o, q, c, a + b)
  {
  }

  lemma IdsConcat(first: JobId, mid: JobId, next: JobId)
    requires first <= mid <= next
    ensures Ids(first, mid) + Ids(mid, next) == Ids(first, next)
  {
  }

  lemma TwoBatches(a: Jobs, b: Jobs, c: Jobs, first: JobId, mid: JobId, next: JobId, one: seq<ReprocessFile>, two: seq<ReprocessFile>, both: seq<ReprocessFile>, priority: int)
    requires Distinct(a) && Distinct(b) && forall x :: x in a ==> x < first
    requires BatchAdded(a, b, first, mid, one, priority) && BatchAdded(b, c, mid, next, two, priority)
    requires both == one + two
    ensures BatchAdded(a, c, first, next, both, priority)
  {
    TwoRows(a, b, c, first, mid, next, one, two, both, priority);
    TwoPlaces(a, b, c, first, mid, next, one, priority);
  }

  lemma TwoPlaces(a: Jobs, b: Jobs, c: Jobs, first: JobId, mid: JobId, next: JobId, one: seq<ReprocessFile>, priority: int)
    requires Distinct(a) && Distinct(b) && forall x :: x in a ==> x < first
    requires mid <= next && BatchRows(a, b, first, mid, one, priority)
    requires AddedInOrder(a, b, Ids(first, mid), priority) && AddedInOrder(b, c, Ids(mid, next), priority)
    ensures AddedInOrder(a, c, Ids(first, next), priority)
  {
    assert InsertionIndex(b, priority) == InsertionIndex(a, priority) + (mid - first) by {
      InsertionIndexMoves(a, b, first, mid, one, priority);
    }
    TwoOrders(a, b, c, first, mid, next, priority);
  }

  lemma TwoOrders(a: Jobs, b: Jobs, c: Jobs, first: JobId, mid: JobId, next: JobId, priority: int)
    requires first <= mid <= next
    requires AddedInOrder(a, b, Ids(first, mid), priority) && AddedInOrder(b, c, Ids(mid, next), priority)
    requires InsertionIndex(b, priority) == InsertionIndex(a, priority) + (mid - first)
    ensures AddedInOrder(a, c, Ids(first, next), priority)
  {
    IdsConcat(first, mid, next);
    InsertedTwice(Order(a), Order(b), Order(c), InsertionIndex(a, priority), Ids(first, mid), Ids(mid, next));
  }

  lemma TwoRows(a: Jobs, b: Jobs, c: Jobs, first: JobId, mid: JobId, next: JobId, one: seq<ReprocessFile>, two: seq<ReprocessFile>, both: seq<ReprocessFile>, priority: int)
    requires BatchRows(a, b, first, mid, one, priority) && BatchRows(b, c, mid, next, two, priority)
    requires both == one + two
    ensures BatchRows(a, c, first, next, both, priority)
  {
    forall x {:trigger c[x]} | x in a ensures c[x] == a[x].(rank := c[x].rank) {
      assert b[x] == a[x].(rank := b[x].rank);
    }
    forall x {:trigger c[x]} | first <= x < next ensures c[x] == Row(both[x - first], c[x].rank, priority) {
      if x < mid {
        assert b[x] == Row(one[x - first], b[x].rank, priority);
        assert c[x] == b[x].(rank := c[x].rank);
      }
    }
  }

  /** What a batch makes busy. */
  lemma BusyAfterBatch(before: Jobs, after: Jobs, first: JobId, next: JobId, accepted: seq<ReprocessFile>, priority: int)
    requires forall x :: x in before ==> x < first
    requires BatchRows(before, after, first, next, accepted, priority)
    ensures BusyChapters(after) == BusyChapters(before) + ChaptersOf(accepted)
  {
    forall c | c in BusyChapters(after) ensures c in BusyChapters(before) + ChaptersOf(accepted) {
      var x :| x in after && after[x].status.Active() && after[x].chapter == c;
      if x in before {
        assert after[x] == before[x].(rank := after[x].rank);
      } else {
        assert accepted[x - first].chapter == c;
      }
    }
    forall c | c in BusyChapters(before) + ChaptersOf(accepted) ensures c in BusyChapters(after) {
      if c in BusyChapters(before) {
        var x :| x in before && before[x].status.Active() && before[x].chapter == c;
        assert after[x] == before[x].(rank := after[x].rank);
      } else {
        var k :| 0 <= k < |accepted| && accepted[k].chapter == c;
        assert after[first + k] == Row(accepted[k], after[first + k].rank, priority);
      }
    }
  }

  /** No transaction at all is the batch of no files. */
  lemma NoBatch(jobs: Jobs, first: JobId, priority: int)
    requires Distinct(jobs)
    ensures BatchAdded(jobs, jobs, first, first, [], priority)
  {
    ListingRises(jobs, jobs.Keys);
    PointInList(jobs, Order(jobs), priority);
    NothingInserted(Order(jobs), InsertionIndex(jobs, priority));
    assert Ids(first, first) == [];
  }

  lemma PointInList(jobs: Jobs, o: seq<JobId>, priority: int)
    requires o == Order(jobs)
    ensures InsertionIndex(jobs, priority) <= |o|
  {
  }

  lemma NothingInserted(o: seq<JobId>, c: nat)
    requires c <= |o|
    ensures Inserted(o, c, []) == o
  {
  }

  /** The batches so far, and the next. */
  lemma NextBatch(a: Jobs, b: Jobs, c: Jobs, first: JobId, mid: JobId, next: JobId, done: seq<ReprocessFile>, batch: seq<ReprocessFile>, all: seq<ReprocessFile>, priority: int)
    requires Distinct(a) && Distinct(b) && forall x :: x in a ==> x < first
    requires FilesAdded(a, b, first, mid, done, priority) && FilesAdded(b, c, mid, next, batch, priority)
    requires all == done + batch
    ensures FilesAdded(a, c, first, next, all, priority) && mid <= next
  {
    var one, two := Accepted(BusyChapters(a), done), Accepted(BusyChapters(b), batch);
    var both := Accepted(BusyChapters(a), done + batch);
    assert both == one + two by {
      BusyAfterBatch(a, b, first, mid, one, priority);
      AcceptedSplits(BusyChapters(a), done, batch);
    }
    TwoBatches(a, b, c, first, mid, next, one, two, both, priority);
  }

  /** A batch keeps the queue in priority order. */
  lemma BatchKeepsPriority(before: Jobs, after: Jobs, first: JobId, next: JobId, accepted: seq<ReprocessFile>, priority: int)
    requires Distinct(before) && BatchAdded(before, after, first, next, accepted, priority)
    ensures PriorityKept(before, after, priority)
  {
    IdsMembers(first, next);
    BatchPriorities(before, after, first, next, accepted, priority, Ids(first, next));
    AddedKeepsPriority(before, after, Ids(first, next), priority);
  }

  lemma BatchPriorities(before: Jobs, after: Jobs, first: JobId, next: JobId, accepted: seq<ReprocessFile>, priority: int, news: seq<JobId>)
    requires BatchRows(before, after, first, next, accepted, priority)
    requires forall x :: x in news <==> first <= x < next
    ensures AddedRows(before, after, news)
    ensures forall k :: 0 <= k < |news| ==> news[k] in after && after[news[k]].priority == priority
  {
    forall k | 0 <= k < |news| ensures news[k] in after && after[news[k]].priority == priority {
      assert news[k] in news;
      assert after[news[k]] == Row(accepted[news[k] - first], after[news[k]].rank, priority);
    }
  }
}
