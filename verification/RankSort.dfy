/** SortByChapter: the order it puts the selected jobs in, and the places it puts them in. */
module RankSort {
  import opened Sorting
  import opened RankOrder

  /** Chapter numbers, by chapter. */
  type Numbers = nat -> real

  /** seriesOrder: series numbered by first appearance. */
  function SeriesOrder(jobs: Jobs, sel: seq<JobId>): (m: map<nat, nat>)
    requires forall x :: x in sel ==> x in jobs
    ensures forall x :: x in sel ==> jobs[x].series in m
  {
    if sel == [] then map[] else
      var m := SeriesOrder(jobs, sel[..|sel| - 1]);
      var series := jobs[sel[|sel| - 1]].series;
      if series in m then m else m[series := |m|]
  }

  function OrderOf(order: map<nat, nat>, series: nat): nat {
    if series in order then order[series] else 0
  }

  function SeriesOf(jobs: Jobs, id: JobId): nat {
    if id in jobs then jobs[id].series else 0
  }

  function NumberOf(jobs: Jobs, numbers: Numbers, id: JobId): real {
    if id in jobs then numbers(jobs[id].chapter) else 0.0
  }

  /** The comparison: series order, then chapter number. */
  function ChapterLess(jobs: Jobs, numbers: Numbers, order: map<nat, nat>): (JobId, JobId) -> bool {
    (a: JobId, b: JobId) =>
      var x, y := OrderOf(order, SeriesOf(jobs, a)), OrderOf(order, SeriesOf(jobs, b));
      x < y || (x == y && NumberOf(jobs, numbers, a) < NumberOf(jobs, numbers, b))
  }

  function RankLess(jobs: Jobs): (JobId, JobId) -> bool {
    (a: JobId, b: JobId) => RankOf(jobs, a) < RankOf(jobs, b)
  }

  /** The selected jobs in the order SortByChapter wants them. */
  function ByChapter(jobs: Jobs, numbers: Numbers, sel: seq<JobId>): seq<JobId>
    requires forall x :: x in sel ==> x in jobs
  {
    StableSort(sel, ChapterLess(jobs, numbers, SeriesOrder(jobs, sel)))
  }

  /** s first appears in sel at i. */
  ghost predicate AppearsAt(jobs: Jobs, sel: seq<JobId>, series: nat, i: nat) {
    i < |sel| && SeriesOf(jobs, sel[i]) == series && forall k :: 0 <= k < i ==> SeriesOf(jobs, sel[k]) != series
  }

  lemma SeriesOrderLast(jobs: Jobs, front: seq<JobId>, last: JobId)
    requires last in jobs && forall x :: x in front ==> x in jobs
    ensures forall x :: x in front + [last] ==> x in jobs
    ensures var m, series := SeriesOrder(jobs, front), SeriesOf(jobs, last);
      SeriesOrder(jobs, front + [last]) == if series in m then m else m[series := |m|]
  {
    assert (front + [last])[..|front|] == front;
  }

  /** A series that appears, numbered below the count of those that do. */
  lemma AppearsNumbered(jobs: Jobs, sel: seq<JobId>, s: nat, i: nat)
    requires (forall x :: x in sel ==> x in jobs) && AppearsAt(jobs, sel, s, i)
    ensures s in SeriesOrder(jobs, sel) && SeriesOrder(jobs, sel)[s] < |SeriesOrder(jobs, sel)|
  {
    SeriesSeen(jobs, sel, s);
    SeriesOrderDense(jobs, sel);
  }

  lemma AppearsInFront(jobs: Jobs, front: seq<JobId>, last: JobId, s: nat, i: nat)
    requires AppearsAt(jobs, front + [last], s, i)
    ensures i < |front| ==> AppearsAt(jobs, front, s, i)
    ensures i == |front| ==> SeriesOf(jobs, last) == s && forall k :: 0 <= k < |front| ==> SeriesOf(jobs, front[k]) != s
    ensures i <= |front|
  {
    forall k | 0 <= k < |front| ensures (front + [last])[k] == front[k] {
    }
  }

  /** A series numbered lower appeared first. */
  lemma {:induction false} SeriesOrderIsFirstAppearance(jobs: Jobs, sel: seq<JobId>, s: nat, i: nat, t: nat, j: nat)
    requires forall x :: x in sel ==> x in jobs
    requires AppearsAt(jobs, sel, s, i) && AppearsAt(jobs, sel, t, j)
    ensures s in SeriesOrder(jobs, sel) && t in SeriesOrder(jobs, sel)
    ensures SeriesOrder(jobs, sel)[s] < SeriesOrder(jobs, sel)[t] <==> i < j
  {
    var front, last := sel[..|sel| - 1], sel[|sel| - 1];
    assert sel == front + [last] && last in sel;
    assert forall x :: x in front ==> x in sel;
    AppearsInFront(jobs, front, last, s, i);
    AppearsInFront(jobs, front, last, t, j);
    SeriesOrderLast(jobs, front, last);
    SeriesSeen(jobs, front, SeriesOf(jobs, last));
    if i < |front| {
      AppearsNumbered(jobs, front, s, i);
    }
    if j < |front| {
      AppearsNumbered(jobs, front, t, j);
    }
    if i < |front| && j < |front| {
      SeriesOrderIsFirstAppearance(jobs, front, s, i, t, j);
    }
  }

  lemma {:induction false} SeriesOrderDense(jobs: Jobs, sel: seq<JobId>)
    requires forall x :: x in sel ==> x in jobs
    ensures forall s :: s in SeriesOrder(jobs, sel) ==> SeriesOrder(jobs, sel)[s] < |SeriesOrder(jobs, sel)|
  {
    if sel != [] {
      var p := sel[..|sel| - 1];
      assert forall x :: x in p ==> x in sel;
      SeriesOrderDense(jobs, p);
    }
  }

  lemma {:induction false} SeriesSeen(jobs: Jobs, sel: seq<JobId>, s: nat)
    requires forall x :: x in sel ==> x in jobs
    ensures s in SeriesOrder(jobs, sel) <==> exists i :: 0 <= i < |sel| && SeriesOf(jobs, sel[i]) == s
  {
    if sel != [] {
      var n := |sel| - 1;
      var p := sel[..n];
      assert forall x :: x in p ==> x in sel;
      SeriesSeen(jobs, p, s);
      assert sel[n] in sel;
      assert forall i :: 0 <= i < n ==> p[i] == sel[i];
    }
  }

  /** Where a series first appears. */
  function FirstAt(jobs: Jobs, sel: seq<JobId>, series: nat): (i: nat)
    ensures i <= |sel| && forall k :: 0 <= k < i ==> SeriesOf(jobs, sel[k]) != series
    ensures i < |sel| ==> SeriesOf(jobs, sel[i]) == series
  {
    if sel == [] || SeriesOf(jobs, sel[0]) == series then 0 else 1 + FirstAt(jobs, sel[1..], series)
  }

  /** a goes before b: its series appeared earlier in sel, or it has a lower number, or it tied and stood first. */
  predicate Sooner(jobs: Jobs, numbers: Numbers, sel: seq<JobId>, a: JobId, b: JobId) {
    var s, t := SeriesOf(jobs, a), SeriesOf(jobs, b);
    if s != t then FirstAt(jobs, sel, s) < FirstAt(jobs, sel, t)
    else
      var x, y := NumberOf(jobs, numbers, a), NumberOf(jobs, numbers, b);
      x < y || (x == y && RankOf(jobs, a) < RankOf(jobs, b))
  }

  ghost predicate ChapterOrdered(jobs: Jobs, numbers: Numbers, sel: seq<JobId>, r: seq<JobId>) {
    && multiset(r) == multiset(sel)
    && forall i, j :: 0 <= i < j < |r| ==> Sooner(jobs, numbers, sel, r[i], r[j])
  }

  lemma ComparesSeries(jobs: Jobs, sel: seq<JobId>, a: JobId, b: JobId)
    requires forall x :: x in sel ==> x in jobs
    requires a in sel && b in sel
    ensures var order := SeriesOrder(jobs, sel); var s, t := SeriesOf(jobs, a), SeriesOf(jobs, b);
      OrderOf(order, s) < OrderOf(order, t) <==> FirstAt(jobs, sel, s) < FirstAt(jobs, sel, t)
  {
    var s, t := SeriesOf(jobs, a), SeriesOf(jobs, b);
    var i, j := FirstAt(jobs, sel, s), FirstAt(jobs, sel, t);
    assert i < |sel| && j < |sel|;
    SeriesOrderIsFirstAppearance(jobs, sel, s, i, t, j);
  }

  lemma ChapterLessWeak(jobs: Jobs, numbers: Numbers, order: map<nat, nat>)
    ensures StrictWeak(ChapterLess(jobs, numbers, order))
  {
  }

  /** SortByChapter's order: series by first appearance, chapters ascending, ties stable. */
  lemma ByChapterOrders(jobs: Jobs, numbers: Numbers, sel: seq<JobId>)
    requires Rising(jobs, sel)
    ensures ChapterOrdered(jobs, numbers, sel, ByChapter(jobs, numbers, sel))
    ensures |ByChapter(jobs, numbers, sel)| == |sel|
  {
    var order := SeriesOrder(jobs, sel);
    var lt := ChapterLess(jobs, numbers, order);
    ChapterLessWeak(jobs, numbers, order);
    StableSortMembers(sel, lt);
    StableSortSorts(sel, lt, RankLess(jobs));
    AscendingIsSooner(jobs, numbers, sel, ByChapter(jobs, numbers, sel));
  }

  lemma AscendingIsSooner(jobs: Jobs, numbers: Numbers, sel: seq<JobId>, r: seq<JobId>)
    requires forall x :: x in sel ==> x in jobs
    requires forall x :: x in r ==> x in sel
    requires Ascending(r, Then(ChapterLess(jobs, numbers, SeriesOrder(jobs, sel)), RankLess(jobs)))
    ensures forall i, j :: 0 <= i < j < |r| ==> Sooner(jobs, numbers, sel, r[i], r[j])
  {
    forall i, j | 0 <= i < j < |r| ensures Sooner(jobs, numbers, sel, r[i], r[j]) {
      OneSooner(jobs, numbers, sel, r[i], r[j]);
    }
  }

  lemma OneSooner(jobs: Jobs, numbers: Numbers, sel: seq<JobId>, a: JobId, b: JobId)
    requires forall x :: x in sel ==> x in jobs
    requires a in sel && b in sel
    requires Then(ChapterLess(jobs, numbers, SeriesOrder(jobs, sel)), RankLess(jobs))(a, b)
    ensures Sooner(jobs, numbers, sel, a, b)
  {
    ComparesSeries(jobs, sel, a, b);
    ComparesSeries(jobs, sel, b, a);
    if FirstAt(jobs, sel, SeriesOf(jobs, a)) == FirstAt(jobs, sel, SeriesOf(jobs, b)) {
      SameFirst(jobs, sel, a, b);
    }
  }

  /** Two series that first appear together are one. */
  lemma SameFirst(jobs: Jobs, sel: seq<JobId>, a: JobId, b: JobId)
    requires a in sel && b in sel
    requires FirstAt(jobs, sel, SeriesOf(jobs, a)) == FirstAt(jobs, sel, SeriesOf(jobs, b))
    ensures SeriesOf(jobs, a) == SeriesOf(jobs, b)
  {
  }

  // ---- a second sort --------------------------------------------------------

  /** Two tables that agree on what SortByChapter compares, ranks aside. */
  ghost predicate SameChapters(before: Jobs, after: Jobs) {
    forall x :: SeriesOf(before, x) == SeriesOf(after, x)
      && (x in before <==> x in after) && (x in before ==> before[x].chapter == after[x].chapter)
  }

  /** Sorting what was sorted changes nothing. */
  lemma ByChapterIdempotent(jobs: Jobs, after: Jobs, numbers: Numbers, sel: seq<JobId>, r: seq<JobId>)
    requires forall x :: x in sel ==> x in jobs
    requires SameChapters(jobs, after) && ChapterOrdered(jobs, numbers, sel, r)
    ensures forall x :: x in r ==> x in after
    ensures ByChapter(after, numbers, r) == r
  {
    SameMembers(r, sel);
    var order := SeriesOrder(after, r);
    var lt := ChapterLess(after, numbers, order);
    forall i, j | 0 <= i < j < |r| ensures !lt(r[j], r[i]) {
      assert Sooner(jobs, numbers, sel, r[i], r[j]);
      if SeriesOf(after, r[i]) != SeriesOf(after, r[j]) {
        SeriesStaySorted(jobs, after, numbers, sel, r, i, j);
        ComparesSeries(after, r, r[i], r[j]);
      }
    }
    StableSortFixed(r, lt);
  }

  lemma SeriesStaySorted(jobs: Jobs, after: Jobs, numbers: Numbers, sel: seq<JobId>, r: seq<JobId>, i: nat, j: nat)
    requires SameChapters(jobs, after)
    requires forall i, j :: 0 <= i < j < |r| ==> Sooner(jobs, numbers, sel, r[i], r[j])
    requires i < j < |r| && SeriesOf(after, r[i]) != SeriesOf(after, r[j])
    ensures FirstAt(after, r, SeriesOf(after, r[i])) < FirstAt(after, r, SeriesOf(after, r[j]))
  {
    assert Sooner(jobs, numbers, sel, r[i], r[j]);
    forall m | 0 <= m < i ensures SeriesOf(after, r[m]) != SeriesOf(after, r[j]) {
      assert Sooner(jobs, numbers, sel, r[m], r[i]);
    }
  }

  // ---- refilling the places -------------------------------------------------

  /** The list o with its selected places filled, in order, from s. */
  function Refilled(o: seq<JobId>, ids: set<JobId>, s: seq<JobId>): seq<JobId> {
    if o == [] then []
    else if o[0] in ids && s != [] then [s[0]] + Refilled(o[1..], ids, s[1..])
    else [o[0]] + Refilled(o[1..], ids, s)
  }

  /** Place by place, b holds in after the rank that a holds in before. */
  ghost predicate SamePlaces(before: Jobs, after: Jobs, a: seq<JobId>, b: seq<JobId>) {
    |a| == |b| && forall k :: 0 <= k < |a| ==> RankOf(after, b[k]) == RankOf(before, a[k])
  }

  lemma SamePlacesCons(before: Jobs, after: Jobs, x: JobId, y: JobId, a: seq<JobId>, b: seq<JobId>)
    requires SamePlaces(before, after, a, b) && RankOf(after, y) == RankOf(before, x)
    ensures SamePlaces(before, after, [x] + a, [y] + b)
  {
  }

  lemma SamePlacesTail(before: Jobs, after: Jobs, a: seq<JobId>, b: seq<JobId>)
    requires SamePlaces(before, after, a, b) && a != []
    ensures SamePlaces(before, after, a[1..], b[1..]) && RankOf(after, b[0]) == RankOf(before, a[0])
  {
  }

  /** Giving the sorted jobs the old ranks keeps the rank of every place in the list. */
  lemma {:induction false} RefilledRanks(before: Jobs, after: Jobs, o: seq<JobId>, ids: set<JobId>, s: seq<JobId>)
    requires SamePlaces(before, after, Keep(o, ids), s)
    requires forall x :: x in o && x !in ids ==> RankOf(after, x) == RankOf(before, x)
    ensures SamePlaces(before, after, o, Refilled(o, ids, s))
  {
    if o != [] {
      assert o == [o[0]] + o[1..];
      if o[0] in ids {
        SamePlacesTail(before, after, Keep(o, ids), s);
        assert Keep(o, ids)[1..] == Keep(o[1..], ids);
        RefilledRanks(before, after, o[1..], ids, s[1..]);
        SamePlacesCons(before, after, o[0], s[0], o[1..], Refilled(o[1..], ids, s[1..]));
      } else {
        RefilledRanks(before, after, o[1..], ids, s);
        SamePlacesCons(before, after, o[0], o[0], o[1..], Refilled(o[1..], ids, s));
      }
    }
  }

  lemma {:induction false} RefilledMembers(o: seq<JobId>, ids: set<JobId>, s: seq<JobId>)
    requires |s| == |Keep(o, ids)|
    ensures forall x :: x in Refilled(o, ids, s) <==> (x in o && x !in ids) || x in s
  {
    if o != [] {
      assert forall x :: x in o <==> x == o[0] || x in o[1..];
      if o[0] in ids {
        RefilledMembers(o[1..], ids, s[1..]);
        assert forall x :: x in s <==> x == s[0] || x in s[1..];
      } else {
        RefilledMembers(o[1..], ids, s);
      }
    }
  }

  lemma SameMembers<T>(r: seq<T>, s: seq<T>)
    requires multiset(r) == multiset(s)
    ensures |r| == |s| && forall x :: x in r <==> x in s
  {
    assert forall x :: x in r <==> x in multiset(r);
    assert forall x :: x in s <==> x in multiset(s);
    assert |r| == |multiset(r)| && |s| == |multiset(s)|;
  }

  /** The queue after a sort: the same list with the selected places refilled. */
  lemma SortRefills(before: Jobs, after: Jobs, ids: set<JobId>, sel: seq<JobId>, r: seq<JobId>, slots: seq<int>)
    requires Distinct(before) && ids <= before.Keys && sel == Listing(before, ids)
    requires |slots| == |sel| && multiset(r) == multiset(sel)
    requires forall k :: 0 <= k < |sel| ==> slots[k] == RankOf(before, sel[k])
    requires Reranked(before, after, r, slots) && SameButRanks(before, after)
    ensures Order(after) == Refilled(Order(before), ids, r)
    ensures Distinct(after)
  {
    ListingRises(before, before.Keys);
    ListingIsKeep(before, ids);
    ListingMembers(before, ids);
    ListingMembers(before, before.Keys);
    SameMembers(r, sel);
    RefilledRanks(before, after, Order(before), ids, r);
    RefilledMembers(Order(before), ids, r);
    RefilledRises(before, after, Order(before), Refilled(Order(before), ids, r));
    RisingIsListing(after, after.Keys, Refilled(Order(before), ids, r));
    RisingIsDistinct(after, Refilled(Order(before), ids, r));
  }

  lemma RefilledRises(before: Jobs, after: Jobs, o: seq<JobId>, q: seq<JobId>)
    requires Rising(before, o) && SamePlaces(before, after, o, q)
    requires forall x :: x in q ==> x in after
    ensures Rising(after, q)
  {
  }

  lemma RisingIsDistinct(jobs: Jobs, o: seq<JobId>)
    requires Rising(jobs, o) && forall x :: x in jobs ==> x in o
    ensures Distinct(jobs)
  {
    forall a, b | a in jobs && b in jobs && a != b ensures RankOf(jobs, a) != RankOf(jobs, b) {
      var i :| 0 <= i < |o| && o[i] == a;
      var j :| 0 <= j < |o| && o[j] == b;
    }
  }

  lemma {:induction false} RefilledSame(o: seq<JobId>, ids: set<JobId>)
    ensures Refilled(o, ids, Keep(o, ids)) == o
  {
    if o != [] {
      RefilledSame(o[1..], ids);
      if o[0] in ids {
        assert Keep(o, ids) == [o[0]] + Keep(o[1..], ids);
        assert Keep(o, ids)[1..] == Keep(o[1..], ids);
      } else {
        assert Keep(o, ids) == Keep(o[1..], ids);
      }
      assert o == [o[0]] + o[1..];
    }
  }

  /** The list of chosen jobs after a sort is the sorted list, and sorting it again finds it in order. */
  lemma SecondSortIdle(before: Jobs, after: Jobs, numbers: Numbers, ids: set<JobId>)
    requires Distinct(before) && Distinct(after) && ids <= before.Keys && SameButRanks(before, after)
    requires forall x :: x in Listing(before, ids) ==> x in before
    requires Order(after) == Refilled(Order(before), ids, ByChapter(before, numbers, Listing(before, ids)))
    ensures Listing(after, ids) == ByChapter(before, numbers, Listing(before, ids))
    ensures forall x :: x in Listing(after, ids) ==> x in after
    ensures ByChapter(after, numbers, Listing(after, ids)) == Listing(after, ids)
  {
    var sel := Listing(before, ids);
    var r := ByChapter(before, numbers, sel);
    ListingRises(before, ids);
    ListingMembers(before, ids);
    ListingIsKeep(before, ids);
    ListingIsKeep(after, ids);
    ByChapterOrders(before, numbers, sel);
    SameMembers(r, sel);
    KeepRefilled(Order(before), ids, r);
    ByChapterIdempotent(before, after, numbers, sel, r);
  }

  lemma {:induction false} KeepRefilled(o: seq<JobId>, ids: set<JobId>, s: seq<JobId>)
    requires |s| == |Keep(o, ids)| && forall x :: x in s ==> x in ids
    ensures Keep(Refilled(o, ids, s), ids) == s
  {
    if o == [] {
    } else if o[0] in ids {
      KeepRefilled(o[1..], ids, s[1..]);
      assert Refilled(o, ids, s)[1..] == Refilled(o[1..], ids, s[1..]);
      assert s == [s[0]] + s[1..];
    } else {
      KeepRefilled(o[1..], ids, s);
      assert Refilled(o, ids, s)[1..] == Refilled(o[1..], ids, s);
    }
  }
}
