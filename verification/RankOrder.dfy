/** The download queue as a table of sparse ranks, and as the list it stands for. */
module RankOrder {

  const RANK_STEP: int := 0x10_0000             // 1 << 20
  const RANK_LIMIT: int := 0x10_0000_0000_0000  // 1 << 52

  datatype Status = Queued | Paused | Downloading | Processing | Importing | Completed | Failed
  {
    predicate Pending() { Queued? || Paused? }
    predicate Active() { Queued? || Paused? || Downloading? || Processing? || Importing? }
  }

  /** A row id. */
  type JobId = nat

  datatype Kind = Download | Reprocess

  datatype Job = Job(rank: int, status: Status, priority: int, kind: Kind, series: nat, chapter: nat)

  type Jobs = map<JobId, Job>

  datatype Action = Top | Bottom | Before | After | Unknown(name: string)

  function RankOf(jobs: Jobs, id: JobId): int {
    if id in jobs then jobs[id].rank else 0
  }

  /** ORDER BY rank, id */
  predicate Precedes(jobs: Jobs, a: JobId, b: JobId) {
    RankOf(jobs, a) < RankOf(jobs, b) || (RankOf(jobs, a) == RankOf(jobs, b) && a < b)
  }

  predicate IsFirst(jobs: Jobs, ids: set<JobId>, x: JobId) {
    x in ids && forall y :: y in ids && y != x ==> Precedes(jobs, x, y)
  }

  lemma {:induction false} FirstExists(jobs: Jobs, ids: set<JobId>)
    requires ids != {}
    ensures exists x :: IsFirst(jobs, ids, x)
  {
    var a :| a in ids;
    assert forall y :: y in ids ==> y == a || y in ids - {a};
    if ids - {a} == {} {
      assert IsFirst(jobs, ids, a);
    } else {
      FirstExists(jobs, ids - {a});
      var x :| IsFirst(jobs, ids - {a}, x);
      assert IsFirst(jobs, ids, if Precedes(jobs, a, x) then a else x);
    }
  }

  function First(jobs: Jobs, ids: set<JobId>): (x: JobId)
    requires ids != {}
    ensures IsFirst(jobs, ids, x)
  {
    FirstExists(jobs, ids);
    var x :| IsFirst(jobs, ids, x);
    x
  }

  /** The given jobs in queue order. */
  function Listing(jobs: Jobs, ids: set<JobId>): seq<JobId> {
    if ids == {} then [] else
      var x := First(jobs, ids);
      [x] + Listing(jobs, ids - {x})
  }

  /** The list the table stands for. */
  function Order(jobs: Jobs): seq<JobId> {
    Listing(jobs, jobs.Keys)
  }

  ghost predicate Distinct(jobs: Jobs) {
    forall a, b :: a in jobs && b in jobs && a != b ==> RankOf(jobs, a) != RankOf(jobs, b)
  }

  ghost predicate InLimit(jobs: Jobs) {
    forall id :: id in jobs ==> -RANK_LIMIT < jobs[id].rank < RANK_LIMIT
  }

  /** Everything about the jobs but their ranks. */
  ghost predicate SameButRanks(a: Jobs, b: Jobs) {
    a.Keys == b.Keys && forall id {:trigger b[id]} :: id in a ==> b[id] == a[id].(rank := b[id].rank)
  }

  // ---- list splicing --------------------------------------------------------

  function Keep(s: seq<JobId>, ids: set<JobId>): seq<JobId> {
    if s == [] then [] else (if s[0] in ids then [s[0]] else []) + Keep(s[1..], ids)
  }

  function Drop(s: seq<JobId>, ids: set<JobId>): seq<JobId> {
    if s == [] then [] else (if s[0] in ids then [] else [s[0]]) + Drop(s[1..], ids)
  }

  /** Where in the list an action puts its block. */
  function Cut(order: seq<JobId>, action: Action, anchor: JobId): nat
    requires (action.Before? || action.After?) ==> anchor in order
  {
    match action
    case Top => 0
    case Bottom => |order|
    case Before => IndexOf(order, anchor)
    case After => IndexOf(order, anchor) + 1
    case Unknown(_) => 0
  }

  predicate IsIndexOf(s: seq<JobId>, x: JobId, i: nat) {
    i < |s| && s[i] == x && forall j :: 0 <= j < i ==> s[j] != x
  }

  lemma {:induction false} IndexExists(s: seq<JobId>, x: JobId)
    requires x in s
    ensures exists i: nat :: IsIndexOf(s, x, i)
  {
    if s[0] == x {
      assert IsIndexOf(s, x, 0);
    } else {
      assert x in s[1..];
      IndexExists(s[1..], x);
      var i: nat :| IsIndexOf(s[1..], x, i);
      forall j | 0 <= j < i + 1 ensures s[j] != x {
        assert j > 0 ==> s[1..][j - 1] == s[j];
      }
      assert IsIndexOf(s, x, i + 1);
    }
  }

  /** Where x first stands in s. */
  function IndexOf(s: seq<JobId>, x: JobId): (i: nat)
    requires x in s
    ensures IsIndexOf(s, x, i)
  {
    IndexExists(s, x);
    var i: nat :| i < |s| && IsIndexOf(s, x, i);
    i
  }

  /** The list with the selected jobs taken out and put back as one block, in their old relative order. */
  function Spliced(order: seq<JobId>, ids: set<JobId>, action: Action, anchor: JobId): seq<JobId>
    requires (action.Before? || action.After?) ==> anchor in order
  {
    var c := Cut(order, action, anchor);
    Drop(order[..c], ids) + Keep(order, ids) + Drop(order[c..], ids)
  }

  // ---- lemmas about listings ------------------------------------------------

  /** The jobs of s in strictly rising rank. */
  ghost predicate Rising(jobs: Jobs, s: seq<JobId>) {
    && (forall i :: 0 <= i < |s| ==> s[i] in jobs)
    && (forall i, j :: 0 <= i < j < |s| ==> RankOf(jobs, s[i]) < RankOf(jobs, s[j]))
  }

  lemma RisingCons(jobs: Jobs, x: JobId, rest: seq<JobId>)
    requires Rising(jobs, rest) && x in jobs
    requires forall y :: y in rest ==> RankOf(jobs, x) < RankOf(jobs, y)
    ensures Rising(jobs, [x] + rest)
  {
    RisingConcat(jobs, [x], rest);
  }

  lemma RisingSplit(jobs: Jobs, s: seq<JobId>)
    requires Rising(jobs, s) && s != []
    ensures Rising(jobs, s[1..]) && s[0] in jobs
    ensures forall y :: y in s[1..] ==> RankOf(jobs, s[0]) < RankOf(jobs, y)
  {
  }

  lemma RisingConcat(jobs: Jobs, a: seq<JobId>, b: seq<JobId>)
    requires Rising(jobs, a) && Rising(jobs, b)
    requires forall x, y :: x in a && y in b ==> RankOf(jobs, x) < RankOf(jobs, y)
    ensures Rising(jobs, a + b)
  {
    var s := a + b;
    forall i, j | 0 <= i < j < |s| ensures RankOf(jobs, s[i]) < RankOf(jobs, s[j]) {
      if i < |a| <= j {
        assert s[i] in a && s[j] in b;
      }
    }
  }

  lemma {:induction false} ListingMembers(jobs: Jobs, ids: set<JobId>)
    ensures |Listing(jobs, ids)| == |ids|
    ensures forall x :: x in Listing(jobs, ids) <==> x in ids
  {
    if ids != {} {
      ListingMembers(jobs, ids - {First(jobs, ids)});
    }
  }

  lemma {:induction false} ListingRises(jobs: Jobs, ids: set<JobId>)
    requires Distinct(jobs) && ids <= jobs.Keys
    ensures Rising(jobs, Listing(jobs, ids))
  {
    if ids != {} {
      var x := First(jobs, ids);
      ListingRises(jobs, ids - {x});
      ListingMembers(jobs, ids - {x});
      RisingCons(jobs, x, Listing(jobs, ids - {x}));
    }
  }

  /** A rising arrangement of the given jobs is their listing. */
  lemma {:induction false} RisingIsListing(jobs: Jobs, ids: set<JobId>, s: seq<JobId>)
    requires Rising(jobs, s) && (forall x :: x in s <==> x in ids)
    ensures Listing(jobs, ids) == s
  {
    if s == [] {
      assert ids == {};
    } else {
      assert s[0] in ids;
      assert s == [s[0]] + s[1..];
      assert IsFirst(jobs, ids, s[0]);
      assert First(jobs, ids) == s[0];
      RisingIsListing(jobs, ids - {s[0]}, s[1..]);
    }
  }

  lemma {:induction false} KeepMembers(s: seq<JobId>, ids: set<JobId>)
    ensures forall x :: x in Keep(s, ids) <==> x in s && x in ids
    ensures forall x :: x in Drop(s, ids) <==> x in s && x !in ids
  {
    if s != [] {
      KeepMembers(s[1..], ids);
      assert forall x :: x in s <==> x == s[0] || x in s[1..];
    }
  }

  lemma {:induction false} KeepRises(jobs: Jobs, s: seq<JobId>, ids: set<JobId>)
    requires Rising(jobs, s)
    ensures Rising(jobs, Keep(s, ids)) && Rising(jobs, Drop(s, ids))
  {
    if s != [] {
      RisingSplit(jobs, s);
      KeepRises(jobs, s[1..], ids);
      KeepMembers(s[1..], ids);
      if s[0] in ids {
        RisingCons(jobs, s[0], Keep(s[1..], ids));
      } else {
        RisingCons(jobs, s[0], Drop(s[1..], ids));
      }
    }
  }

  /** A listing is the queue order with the other jobs left out. */
  lemma ListingIsKeep(jobs: Jobs, ids: set<JobId>)
    requires Distinct(jobs) && ids <= jobs.Keys
    ensures Listing(jobs, ids) == Keep(Order(jobs), ids)
  {
    ListingRises(jobs, jobs.Keys);
    ListingMembers(jobs, jobs.Keys);
    KeepRises(jobs, Order(jobs), ids);
    KeepMembers(Order(jobs), ids);
    RisingIsListing(jobs, ids, Keep(Order(jobs), ids));
  }

  // ---- gaps -----------------------------------------------------------------

  /** Which jobs stay below a block that action places. */
  predicate Below(jobs: Jobs, action: Action, anchor: JobId, id: JobId) {
    match action
    case Top => false
    case Bottom => true
    case Before => RankOf(jobs, id) < RankOf(jobs, anchor)
    case After => RankOf(jobs, id) <= RankOf(jobs, anchor)
    case Unknown(_) => false
  }

  /** out lies strictly inside the gap that action names. */
  ghost predicate FillsGap(jobs: Jobs, action: Action, anchor: JobId, out: seq<int>) {
    && (forall i, j :: 0 <= i < j < |out| ==> out[i] < out[j])
    && (forall id, k :: id in jobs && 0 <= k < |out| ==>
          if Below(jobs, action, anchor, id) then jobs[id].rank < out[k] else out[k] < jobs[id].rank)
  }

  /** after is the table before with the ranks out given to the jobs sel, old or new. */
  ghost predicate Reranked(before: Jobs, after: Jobs, sel: seq<JobId>, out: seq<int>) {
    && |sel| == |out|
    && (forall id :: id in after <==> id in before || id in sel)
    && (forall k :: 0 <= k < |sel| ==> after[sel[k]].rank == out[k])
    && (forall id {:trigger after[id]} :: id in before && id !in sel ==> after[id] == before[id])
  }

  lemma CutSplits(jobs: Jobs, o: seq<JobId>, action: Action, anchor: JobId)
    requires Rising(jobs, o) && !action.Unknown?
    requires (action.Before? || action.After?) ==> anchor in o
    ensures Cut(o, action, anchor) <= |o|
    ensures forall i :: 0 <= i < |o| ==> (Below(jobs, action, anchor, o[i]) <==> i < Cut(o, action, anchor))
  {
  }

  /** Filling a gap with the selected jobs is splicing the list. */
  lemma RerankingSplices(before: Jobs, after: Jobs, action: Action, anchor: JobId, ids: set<JobId>, out: seq<int>)
    requires Distinct(before) && !action.Unknown? && ids <= before.Keys
    requires (action.Before? || action.After?) ==> anchor in before
    requires FillsGap(before, action, anchor, out)
    requires Reranked(before, after, Listing(before, ids), out)
    ensures (action.Before? || action.After?) ==> anchor in Order(before)
    ensures Order(after) == Spliced(Order(before), ids, action, anchor)
    ensures Distinct(after)
  {
    ListingRises(before, before.Keys);
    ListingMembers(before, before.Keys);
    ListingIsKeep(before, ids);
    ListingMembers(before, ids);
    CutSplits(before, Order(before), action, anchor);
    SplicedRises(before, after, Order(before), action, anchor, ids, out);
    SplicedMembers(Order(before), ids, action, anchor);
    RisingIsListing(after, after.Keys, Spliced(Order(before), ids, action, anchor));
    DistinctAfter(before, after, action, anchor, Listing(before, ids), out);
  }

  lemma SplicedRises(before: Jobs, after: Jobs, o: seq<JobId>, action: Action, anchor: JobId, ids: set<JobId>, out: seq<int>)
    requires Rising(before, o) && !action.Unknown?
    requires (action.Before? || action.After?) ==> anchor in o
    requires FillsGap(before, action, anchor, out) && Reranked(before, after, Keep(o, ids), out)
    ensures Rising(after, Spliced(o, ids, action, anchor))
  {
    CutSplits(before, o, action, anchor);
    var c := Cut(o, action, anchor);
    KeepMembers(o, ids);
    PartsRise(before, o, c, action, anchor, ids);
    BlockRises(before, after, Keep(o, ids), action, anchor, out, Drop(o[..c], ids), Drop(o[c..], ids));
  }

  lemma PartsRise(jobs: Jobs, o: seq<JobId>, c: nat, action: Action, anchor: JobId, ids: set<JobId>)
    requires Rising(jobs, o) && c <= |o|
    requires forall i :: 0 <= i < |o| ==> (Below(jobs, action, anchor, o[i]) <==> i < c)
    ensures Rising(jobs, Drop(o[..c], ids)) && Rising(jobs, Drop(o[c..], ids))
    ensures forall x :: x in Drop(o[..c], ids) ==> x !in ids && Below(jobs, action, anchor, x)
    ensures forall x :: x in Drop(o[c..], ids) ==> x !in ids && !Below(jobs, action, anchor, x)
  {
    KeepRises(jobs, o[..c], ids);
    KeepMembers(o[..c], ids);
    KeepRises(jobs, o[c..], ids);
    KeepMembers(o[c..], ids);
  }

  /** Splicing loses and invents no job. */
  lemma SplicedMembers(o: seq<JobId>, ids: set<JobId>, action: Action, anchor: JobId)
    requires (action.Before? || action.After?) ==> anchor in o
    requires Cut(o, action, anchor) <= |o|
    ensures forall x :: x in Spliced(o, ids, action, anchor) <==> x in o
  {
    var c := Cut(o, action, anchor);
    SplitMembers(o, c);
    KeepMembers(o[..c], ids);
    KeepMembers(o[c..], ids);
    KeepMembers(o, ids);
  }

  lemma SplitMembers<T>(s: seq<T>, c: nat)
    requires c <= |s|
    ensures forall x :: x in s <==> x in s[..c] || x in s[c..]
  {
    assert s == s[..c] + s[c..];
  }

  lemma BlockRises(before: Jobs, after: Jobs, sel: seq<JobId>, action: Action, anchor: JobId, out: seq<int>, a: seq<JobId>, d: seq<JobId>)
    requires FillsGap(before, action, anchor, out) && Reranked(before, after, sel, out)
    requires Rising(before, a) && Rising(before, d)
    requires forall x :: x in a ==> x !in sel && Below(before, action, anchor, x)
    requires forall x :: x in d ==> x !in sel && !Below(before, action, anchor, x)
    requires !action.Unknown?
    ensures Rising(after, a + sel + d)
  {
    assert forall x, y :: x in a && y in d ==> RankOf(before, x) < RankOf(before, y);
    StillRising(before, after, sel, out, a);
    StillRising(before, after, sel, out, d);
    forall y | y in sel
      ensures y in after
      ensures forall x :: x in a ==> RankOf(after, x) < RankOf(after, y)
      ensures forall x :: x in d ==> RankOf(after, y) < RankOf(after, x)
    {
      var k :| 0 <= k < |sel| && sel[k] == y;
    }
    assert Rising(after, sel);
    RisingConcat(after, a, sel);
    RisingConcat(after, a + sel, d);
  }

  lemma StillRising(before: Jobs, after: Jobs, sel: seq<JobId>, out: seq<int>, a: seq<JobId>)
    requires Reranked(before, after, sel, out) && Rising(before, a)
    requires forall x :: x in a ==> x !in sel
    ensures Rising(after, a)
    ensures forall x :: x in a ==> RankOf(after, x) == RankOf(before, x)
  {
    forall i | 0 <= i < |a| ensures RankOf(after, a[i]) == RankOf(before, a[i]) {
      assert a[i] in a;
    }
  }

  lemma DistinctAfter(before: Jobs, after: Jobs, action: Action, anchor: JobId, sel: seq<JobId>, out: seq<int>)
    requires Distinct(before)
    requires FillsGap(before, action, anchor, out) && Reranked(before, after, sel, out)
    ensures Distinct(after)
  {
    forall x, y | x in after && y in after && x != y ensures RankOf(after, x) != RankOf(after, y) {
      if x in sel {
        var i :| 0 <= i < |sel| && sel[i] == x;
        if y in sel {
          var j :| 0 <= j < |sel| && sel[j] == y;
        }
      } else if y in sel {
        var j :| 0 <= j < |sel| && sel[j] == y;
      }
    }
  }

  /** Filling a gap with new jobs is inserting them into the list. */
  lemma InsertionSplices(before: Jobs, after: Jobs, action: Action, anchor: JobId, news: seq<JobId>, out: seq<int>)
    requires Distinct(before) && !action.Unknown?
    requires (action.Before? || action.After?) ==> anchor in before
    requires forall id :: id in news ==> id !in before
    requires FillsGap(before, action, anchor, out) && Reranked(before, after, news, out)
    ensures (action.Before? || action.After?) ==> anchor in Order(before)
    ensures Cut(Order(before), action, anchor) <= |Order(before)|
    ensures Order(after) == Inserted(Order(before), Cut(Order(before), action, anchor), news)
    ensures Distinct(after)
  {
    ListingRises(before, before.Keys);
    ListingMembers(before, before.Keys);
    CutSplits(before, Order(before), action, anchor);
    InsertedRises(before, after, Order(before), action, anchor, news, out);
    InsertedMembers(Order(before), Cut(Order(before), action, anchor), news);
    DistinctAfter(before, after, action, anchor, news, out);
    RisingIsListing(after, after.Keys, Inserted(Order(before), Cut(Order(before), action, anchor), news));
  }

  /** The list with new jobs put in at c. */
  function Inserted(o: seq<JobId>, c: nat, news: seq<JobId>): seq<JobId>
    requires c <= |o|
  {
    seq(|o| + |news|, i requires 0 <= i < |o| + |news| =>
      if i < c then o[i] else if i < c + |news| then news[i - c] else o[i - |news|])
  }

  lemma InsertedIsBetween(o: seq<JobId>, c: nat, news: seq<JobId>)
    requires c <= |o|
    ensures Inserted(o, c, news) == o[..c] + news + o[c..]
  {
  }

  ghost predicate InsertedAt(o: seq<JobId>, after: seq<JobId>, c: nat, news: seq<JobId>) {
    c <= |o| && after == Inserted(o, c, news)
  }

  lemma InsertedRises(before: Jobs, after: Jobs, o: seq<JobId>, action: Action, anchor: JobId, news: seq<JobId>, out: seq<int>)
    requires Rising(before, o) && !action.Unknown? && (forall x :: x in o <==> x in before)
    requires (action.Before? || action.After?) ==> anchor in o
    requires forall id :: id in news ==> id !in before
    requires FillsGap(before, action, anchor, out) && Reranked(before, after, news, out)
    requires Cut(o, action, anchor) <= |o|
    ensures Rising(after, Inserted(o, Cut(o, action, anchor), news))
  {
    CutSplits(before, o, action, anchor);
    var c := Cut(o, action, anchor);
    InsertedIsBetween(o, c, news);
    PartRises(before, o, 0, c);
    PartRises(before, o, c, |o|);
    BlockRises(before, after, news, action, anchor, out, o[..c], o[c..]);
  }

  lemma PartRises(jobs: Jobs, o: seq<JobId>, lo: nat, hi: nat)
    requires Rising(jobs, o) && lo <= hi <= |o|
    ensures Rising(jobs, o[lo..hi])
    ensures forall x :: x in o[lo..hi] ==> x in o
  {
  }

  lemma InsertedMembers(o: seq<JobId>, c: nat, news: seq<JobId>)
    requires c <= |o|
    ensures forall x :: x in Inserted(o, c, news) <==> x in o || x in news
  {
    InsertedIsBetween(o, c, news);
    SplitMembers(o, c);
  }

  // ---- what splicing means --------------------------------------------------

  lemma {:induction false} DropConcat(a: seq<JobId>, b: seq<JobId>, ids: set<JobId>)
    ensures Drop(a + b, ids) == Drop(a, ids) + Drop(b, ids)
  {
    if a == [] {
      assert a + b == b;
    } else {
      assert (a + b)[0] == a[0] && (a + b)[1..] == a[1..] + b;
      DropConcat(a[1..], b, ids);
    }
  }

  /** Where in the unselected rest the block goes. */
  function Place(o: seq<JobId>, ids: set<JobId>, action: Action, anchor: JobId): nat
    requires (action.Before? || action.After?) ==> anchor in o
  {
    |Drop(o[..Cut(o, action, anchor)], ids)|
  }

  /** What is left of a list in two parts, with a block between them. */
  lemma DroppedAround(a: seq<JobId>, b: seq<JobId>, ids: set<JobId>, o: seq<JobId>, rest: seq<JobId>, p: nat)
    requires o == a + b && rest == Drop(o, ids) && p == |Drop(a, ids)|
    ensures p <= |rest| && Drop(a, ids) == rest[..p] && Drop(b, ids) == rest[p..]
    ensures a == [] ==> p == 0
    ensures b == [] ==> p == |rest|
    ensures b != [] && b[0] !in ids ==> p < |rest| && rest[p] == b[0]
    ensures a != [] && a[|a| - 1] !in ids ==> p > 0 && rest[p - 1] == a[|a| - 1]
  {
    DropConcat(a, b, ids);
    if b != [] && b[0] !in ids {
      DropFirst(b, ids);
    }
    if a != [] && a[|a| - 1] !in ids {
      DropLast(a, ids);
    }
  }

  /** The spliced list is the unselected rest, in order, with one block beside the anchor or at an end. */
  lemma SplicedIsOneBlock(o: seq<JobId>, ids: set<JobId>, action: Action, anchor: JobId)
    requires !action.Unknown?
    requires (action.Before? || action.After?) ==> anchor in o && anchor !in ids
    ensures var rest, p := Drop(o, ids), Place(o, ids, action, anchor);
      && p <= |rest|
      && Spliced(o, ids, action, anchor) == rest[..p] + Keep(o, ids) + rest[p..]
      && (action.Top? ==> p == 0)
      && (action.Bottom? ==> p == |rest|)
      && (action.Before? ==> p < |rest| && rest[p] == anchor)
      && (action.After? ==> p > 0 && rest[p - 1] == anchor)
  {
    CutEnds(o, action, anchor, Cut(o, action, anchor));
    DroppedAt(o, ids, Cut(o, action, anchor), Drop(o, ids), Place(o, ids, action, anchor));
  }

  lemma CutEnds(o: seq<JobId>, action: Action, anchor: JobId, c: nat)
    requires !action.Unknown? && ((action.Before? || action.After?) ==> anchor in o) && c == Cut(o, action, anchor)
    ensures c <= |o| && (action.Top? ==> c == 0) && (action.Bottom? ==> c == |o|)
    ensures action.Before? ==> c < |o| && o[c] == anchor
    ensures action.After? ==> c > 0 && o[c - 1] == anchor
  {
  }

  lemma DroppedAt(o: seq<JobId>, ids: set<JobId>, c: nat, rest: seq<JobId>, p: nat)
    requires c <= |o| && rest == Drop(o, ids) && p == |Drop(o[..c], ids)|
    ensures p <= |rest| && Drop(o[..c], ids) == rest[..p] && Drop(o[c..], ids) == rest[p..]
    ensures (c == 0 ==> p == 0) && (c == |o| ==> p == |rest|)
    ensures c < |o| && o[c] !in ids ==> p < |rest| && rest[p] == o[c]
    ensures c > 0 && o[c - 1] !in ids ==> p > 0 && rest[p - 1] == o[c - 1]
  {
    assert o == o[..c] + o[c..];
    DroppedAround(o[..c], o[c..], ids, o, rest, p);
  }

  lemma DropFirst(s: seq<JobId>, ids: set<JobId>)
    requires s != [] && s[0] !in ids
    ensures Drop(s, ids) != [] && Drop(s, ids)[0] == s[0]
  {
  }

  lemma DropLast(s: seq<JobId>, ids: set<JobId>)
    requires s != [] && s[|s| - 1] !in ids
    ensures Drop(s, ids) != [] && Drop(s, ids)[|Drop(s, ids)| - 1] == s[|s| - 1]
  {
    assert s == s[..|s| - 1] + [s[|s| - 1]];
    DropConcat(s[..|s| - 1], [s[|s| - 1]], ids);
  }
}
