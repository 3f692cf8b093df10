/** The transaction of SortByChapter. */
module RankChapters {
  import opened Sorting
  import opened RankOrder
  import opened RankAlloc
  import opened RankQueue
  import opened RankSort

  /** The chosen jobs stand, in the places they held, in the order ByChapter gives. */
  ghost predicate ChaptersSorted(before: Jobs, after: Jobs, numbers: Numbers, chosen: set<JobId>) {
    && (forall x :: x in Listing(before, chosen) ==> x in before)
    && Order(after) == Refilled(Order(before), chosen, ByChapter(before, numbers, Listing(before, chosen)))
  }

  /** Only ranks of chosen jobs changed. */
  ghost predicate OthersUntouched(before: Jobs, after: Jobs, chosen: set<JobId>) {
    && SameButRanks(before, after)
    && (forall id {:trigger after[id]} :: id in before && id !in chosen ==> after[id] == before[id])
  }

  /** The chosen jobs share out the ranks they held. */
  ghost predicate RanksReused(before: Jobs, after: Jobs, chosen: set<JobId>) {
    forall x {:trigger RankHeld(before, chosen, after[x].rank)} :: x in chosen && x in after ==> RankHeld(before, chosen, after[x].rank)
  }

  ghost predicate RankHeld(before: Jobs, chosen: set<JobId>, rank: int) {
    exists y :: y in chosen && y in before && before[y].rank == rank
  }

  /** The jobs whose row is another afterwards. */
  function Changed(before: Jobs, after: Jobs): set<JobId> {
    set id | id in before && id in after && after[id] != before[id]
  }

  lemma ChangedOne(before: Jobs, now: Jobs, x: JobId, row: Job)
    requires x in before && x in now && now[x] == before[x] && row != before[x]
    ensures |Changed(before, now[x := row])| == |Changed(before, now)| + 1
  {
    assert Changed(before, now[x := row]) == Changed(before, now) + {x};
  }

  /** seriesOrder and slots: series numbered as they come, and the ranks the chosen jobs hold. */
  method Survey(jobs: Jobs, sel: seq<JobId>) returns (slots: seq<int>, order: map<nat, nat>)
    requires forall x :: x in sel ==> x in jobs
    ensures |slots| == |sel| && forall k :: 0 <= k < |sel| ==> slots[k] == RankOf(jobs, sel[k])
    ensures order == SeriesOrder(jobs, sel)
  {
    slots, order := [], map[];
    var i := 0;
    while i < |sel|
      invariant 0 <= i <= |sel| && |slots| == i
      invariant forall k :: 0 <= k < i ==> slots[k] == RankOf(jobs, sel[k])
      invariant (forall x :: x in sel[..i] ==> x in jobs) && order == SeriesOrder(jobs, sel[..i])
    {
      var job := jobs[sel[i]];
      slots := slots + [job.rank];
      assert sel[..i + 1][..i] == sel[..i];
      assert forall x :: x in sel[..i + 1] ==> x in sel;
      if job.series !in order {
        order := order[job.series := |order|];
      }
      i := i + 1;
    }
    assert sel[..|sel|] == sel;
  }

  /** What the writing loop has done to the first i places. */
  ghost predicate Written(before: Jobs, now: Jobs, r: seq<JobId>, slots: seq<int>, i: nat) {
    && i <= |r| == |slots|
    && SameButRanks(before, now)
    && (forall k :: 0 <= k < i ==> r[k] in now && now[r[k]].rank == slots[k])
    && (forall id {:trigger now[id]} :: id in before && id !in r[..i] ==> now[id] == before[id])
  }

  lemma WrittenNext(before: Jobs, now: Jobs, r: seq<JobId>, slots: seq<int>, i: nat)
    requires Written(before, now, r, slots, i) && i < |r| && r[i] in before
    requires forall j, k :: 0 <= j < k < |r| ==> r[j] != r[k]
    ensures Written(before, now[r[i] := before[r[i]].(rank := slots[i])], r, slots, i + 1)
    ensures before[r[i]].rank == slots[i] ==> now[r[i] := before[r[i]].(rank := slots[i])] == now
  {
    assert r[i] !in r[..i];
    assert now[r[i]] == before[r[i]];
  }

  /** UPDATE ... SET rank = slots[i], skipping jobs that already hold their rank. */
  method WriteSlots(jobs: Jobs, r: seq<JobId>, slots: seq<int>) returns (table: Jobs, affected: nat)
    requires |r| == |slots| && (forall k :: 0 <= k < |r| ==> r[k] in jobs)
    requires forall j, k :: 0 <= j < k < |r| ==> r[j] != r[k]
    ensures Written(jobs, table, r, slots, |r|)
    ensures affected == 0 <==> forall k :: 0 <= k < |r| ==> jobs[r[k]].rank == slots[k]
    ensures affected == 0 ==> table == jobs
    ensures affected == |Changed(jobs, table)|
  {
    table, affected := jobs, 0;
    assert Changed(jobs, table) == {};
    var i := 0;
    while i < |r|
      invariant 0 <= i <= |r| && Written(jobs, table, r, slots, i)
      invariant affected == 0 <==> forall k :: 0 <= k < i ==> jobs[r[k]].rank == slots[k]
      invariant affected == 0 ==> table == jobs
      invariant affected == |Changed(jobs, table)|
    {
      WrittenNext(jobs, table, r, slots, i);
      if jobs[r[i]].rank != slots[i] {
        assert r[i] !in r[..i];
        ChangedOne(jobs, table, r[i], jobs[r[i]].(rank := slots[i]));
        table := table[r[i] := jobs[r[i]].(rank := slots[i])];
        affected := affected + 1;
      }
      i := i + 1;
    }
  }

  method SortChapters(jobs: Jobs, numbers: Numbers, chosen: set<JobId>) returns (table: Jobs, affected: nat)
    requires Distinct(jobs) && chosen <= jobs.Keys
    ensures ChaptersSorted(jobs, table, numbers, chosen) && Distinct(table)
    ensures OthersUntouched(jobs, table, chosen) && LimitKept(jobs, table)
    ensures RanksReused(jobs, table, chosen)
    ensures affected == 0 ==> table == jobs
    ensures affected == |Changed(jobs, table)|
    ensures affected == 0 <==> ByChapter(jobs, numbers, Listing(jobs, chosen)) == Listing(jobs, chosen)
  {
    var sel := Listing(jobs, chosen);
    ListingRises(jobs, chosen);
    if |sel| < 2 {
      FewAreSorted(jobs, numbers, chosen);
      assert Changed(jobs, jobs) == {};
      return jobs, 0;
    }
    var slots, order := Survey(jobs, sel);
    var sorted := StableSort(sel, ChapterLess(jobs, numbers, order));
    SortedIsDistinct(jobs, numbers, sel);
    table, affected := WriteSlots(jobs, sorted, slots);
    RefilledIsWritten(jobs, table, numbers, chosen, slots);
    SlotsReused(jobs, table, numbers, chosen, slots);
    SlotsInLimit(jobs, table, sorted, sel, slots);
    SameRanksSame(jobs, sel, sorted, slots);
  }

  lemma FewAreSorted(jobs: Jobs, numbers: Numbers, chosen: set<JobId>)
    requires Distinct(jobs) && chosen <= jobs.Keys && |Listing(jobs, chosen)| < 2
    ensures forall x :: x in Listing(jobs, chosen) ==> x in jobs
    ensures ByChapter(jobs, numbers, Listing(jobs, chosen)) == Listing(jobs, chosen)
    ensures ChaptersSorted(jobs, jobs, numbers, chosen) && RanksReused(jobs, jobs, chosen)
  {
    forall x | x in chosen ensures RankHeld(jobs, chosen, jobs[x].rank) {
    }
    var sel := Listing(jobs, chosen);
    ListingIsKeep(jobs, chosen);
    RefilledSame(Order(jobs), chosen);
    StableSortFixed(sel, ChapterLess(jobs, numbers, SeriesOrder(jobs, sel)));
  }

  lemma SortedIsDistinct(jobs: Jobs, numbers: Numbers, sel: seq<JobId>)
    requires Rising(jobs, sel)
    ensures var r := ByChapter(jobs, numbers, sel);
      && |r| == |sel| && multiset(r) == multiset(sel)
      && (forall x :: x in r ==> x in jobs)
      && (forall j, k :: 0 <= j < k < |r| ==> r[j] != r[k])
  {
    ByChapterOrders(jobs, numbers, sel);
    SameMembers(ByChapter(jobs, numbers, sel), sel);
    SoonerIsDistinct(jobs, numbers, sel, ByChapter(jobs, numbers, sel));
  }

  lemma SoonerIsDistinct(jobs: Jobs, numbers: Numbers, sel: seq<JobId>, r: seq<JobId>)
    requires ChapterOrdered(jobs, numbers, sel, r)
    ensures forall j, k :: 0 <= j < k < |r| ==> r[j] != r[k]
  {
    forall j, k | 0 <= j < k < |r| ensures r[j] != r[k] {
      assert Sooner(jobs, numbers, sel, r[j], r[k]);
    }
  }

  lemma RefilledIsWritten(before: Jobs, after: Jobs, numbers: Numbers, chosen: set<JobId>, slots: seq<int>)
    requires Distinct(before) && chosen <= before.Keys
    requires Rising(before, Listing(before, chosen))
    requires var sel := Listing(before, chosen);
      && |slots| == |sel| && (forall k :: 0 <= k < |sel| ==> slots[k] == RankOf(before, sel[k]))
      && Written(before, after, ByChapter(before, numbers, sel), slots, |sel|)
    ensures ChaptersSorted(before, after, numbers, chosen) && Distinct(after)
    ensures OthersUntouched(before, after, chosen)
  {
    var sel := Listing(before, chosen);
    var r := ByChapter(before, numbers, sel);
    SortedIsDistinct(before, numbers, sel);
    ListingMembers(before, chosen);
    SameMembers(r, sel);
    WrittenIsReranked(before, after, r, slots);
    SortRefills(before, after, chosen, sel, r, slots);
  }

  lemma SlotsReused(before: Jobs, after: Jobs, numbers: Numbers, chosen: set<JobId>, slots: seq<int>)
    requires Distinct(before) && chosen <= before.Keys && Rising(before, Listing(before, chosen))
    requires var sel := Listing(before, chosen);
      && |slots| == |sel| && (forall k :: 0 <= k < |sel| ==> slots[k] == RankOf(before, sel[k]))
      && Written(before, after, ByChapter(before, numbers, sel), slots, |sel|)
    ensures RanksReused(before, after, chosen)
  {
    var sel := Listing(before, chosen);
    var r := ByChapter(before, numbers, sel);
    SortedIsDistinct(before, numbers, sel);
    ListingMembers(before, chosen);
    SameMembers(r, sel);
    forall x | x in chosen && x in after ensures RankHeld(before, chosen, after[x].rank) {
      var k :| 0 <= k < |r| && r[k] == x;
      assert sel[k] in chosen && before[sel[k]].rank == slots[k];
    }
  }

  lemma SlotsInLimit(before: Jobs, after: Jobs, r: seq<JobId>, sel: seq<JobId>, slots: seq<int>)
    requires |sel| == |slots| && forall k :: 0 <= k < |sel| ==> sel[k] in before && slots[k] == RankOf(before, sel[k])
    requires Written(before, after, r, slots, |r|) && forall x :: x in r ==> x in before
    ensures LimitKept(before, after)
  {
    WrittenIsReranked(before, after, r, slots);
    if InLimit(before) {
      StaysInLimit(before, after, r, slots);
    }
  }

  lemma WrittenIsReranked(before: Jobs, after: Jobs, r: seq<JobId>, slots: seq<int>)
    requires Written(before, after, r, slots, |r|) && forall x :: x in r ==> x in before
    ensures Reranked(before, after, r, slots)
    ensures forall id {:trigger after[id]} :: id in before && id !in r ==> after[id] == before[id]
  {
    assert r[..|r|] == r;
  }

  lemma SameRanksSame(jobs: Jobs, sel: seq<JobId>, r: seq<JobId>, slots: seq<int>)
    requires Rising(jobs, sel) && |r| == |sel| == |slots| && multiset(r) == multiset(sel)
    requires forall k :: 0 <= k < |sel| ==> slots[k] == RankOf(jobs, sel[k])
    ensures (forall k :: 0 <= k < |r| ==> RankOf(jobs, r[k]) == slots[k]) <==> r == sel
  {
    SameMembers(r, sel);
    if forall k :: 0 <= k < |r| ==> RankOf(jobs, r[k]) == slots[k] {
      forall k | 0 <= k < |r| ensures r[k] == sel[k] {
        assert r[k] in sel;
        var m :| 0 <= m < |sel| && sel[m] == r[k];
      }
    }
  }
}
