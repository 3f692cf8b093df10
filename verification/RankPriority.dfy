/** How a queue priority picks a place in the list, and what that keeps. */
module RankPriority {
  import opened RankOrder

  /** Pending jobs a new job of this priority goes in front of. */
  function Lower(jobs: Jobs, priority: int): set<JobId> {
    set id | id in jobs && Waiting(jobs, id) && jobs[id].priority < priority
  }

  /** insertionRanks: before the first pending job of lower priority, else at the bottom. */
  function InsertionPoint(jobs: Jobs, priority: int): (p: (Action, JobId))
    ensures p.0 == Bottom || (p.0 == Before && p.1 in jobs)
  {
    if Lower(jobs, priority) == {} then (Bottom, 0) else (Before, First(jobs, Lower(jobs, priority)))
  }

  function InsertionIndex(jobs: Jobs, priority: int): nat {
    var point := InsertionPoint(jobs, priority);
    ListingMembers(jobs, jobs.Keys);
    Cut(Order(jobs), point.0, point.1)
  }

  predicate Waiting(jobs: Jobs, id: JobId) {
    id in jobs && jobs[id].status.Pending()
  }

  /** The pending jobs of a list are in non-increasing priority. */
  ghost predicate PrioritySorted(jobs: Jobs, o: seq<JobId>) {
    forall i, j :: 0 <= i < j < |o| && Waiting(jobs, o[i]) && Waiting(jobs, o[j]) ==>
      jobs[o[i]].priority >= jobs[o[j]].priority
  }

  /** Work placed at c comes after all pending work of equal or higher priority and before all lower. */
  ghost predicate RightPlace(jobs: Jobs, o: seq<JobId>, c: nat, priority: int) {
    && c <= |o|
    && (forall i :: 0 <= i < c && Waiting(jobs, o[i]) ==> jobs[o[i]].priority >= priority)
    && (forall i :: c <= i < |o| && Waiting(jobs, o[i]) ==> jobs[o[i]].priority < priority)
  }

  /** The insertion point of a sorted queue is the right place. */
  lemma InsertionPointIsRight(jobs: Jobs, priority: int)
    requires Distinct(jobs) && PrioritySorted(jobs, Order(jobs))
    ensures RightPlace(jobs, Order(jobs), InsertionIndex(jobs, priority), priority)
  {
    ListingRises(jobs, jobs.Keys);
    ListingMembers(jobs, jobs.Keys);
    if Lower(jobs, priority) == {} {
      BottomIsRight(jobs, Order(jobs), priority);
    } else {
      FirstLowerIsRight(jobs, Order(jobs), priority);
    }
  }

  lemma BottomIsRight(jobs: Jobs, o: seq<JobId>, priority: int)
    requires Lower(jobs, priority) == {}
    ensures RightPlace(jobs, o, |o|, priority)
  {
    forall i | 0 <= i < |o| && Waiting(jobs, o[i]) ensures jobs[o[i]].priority >= priority {
      assert o[i] !in Lower(jobs, priority);
    }
  }

  lemma FirstLowerIsRight(jobs: Jobs, o: seq<JobId>, priority: int)
    requires Rising(jobs, o) && PrioritySorted(jobs, o)
    requires Lower(jobs, priority) != {} && First(jobs, Lower(jobs, priority)) in o
    ensures RightPlace(jobs, o, IndexOf(o, First(jobs, Lower(jobs, priority))), priority)
  {
    var a := First(jobs, Lower(jobs, priority));
    var c := IndexOf(o, a);
    forall i | 0 <= i < c && Waiting(jobs, o[i]) ensures o[i] !in Lower(jobs, priority) {
      assert RankOf(jobs, o[i]) < RankOf(jobs, a);
    }
  }

  predicate SameWork(a: Job, b: Job) {
    a.priority == b.priority && a.status == b.status
  }

  /** after is before with some jobs added or raised to the given priority. */
  ghost predicate SameStanding(before: Jobs, after: Jobs, o: seq<JobId>) {
    forall x :: x in o ==> x in before && x in after && SameWork(before[x], after[x])
  }

  lemma InsertionKeepsPriority(before: Jobs, after: Jobs, o: seq<JobId>, c: nat, news: seq<JobId>, priority: int)
    requires PrioritySorted(before, o) && RightPlace(before, o, c, priority)
    requires SameStanding(before, after, o)
    requires forall k :: 0 <= k < |news| ==> news[k] in after && after[news[k]].priority == priority
    ensures PrioritySorted(after, Inserted(o, c, news))
  {
    var r := Inserted(o, c, news);
    forall i, j | 0 <= i < j < |r| && Waiting(after, r[i]) && Waiting(after, r[j])
      ensures after[r[i]].priority >= after[r[j]].priority
    {
      assert i < c ==> r[i] == o[i];
      assert c <= i < c + |news| ==> r[i] == news[i - c];
      assert c + |news| <= i ==> r[i] == o[i - |news|];
      assert j < c ==> r[j] == o[j];
      assert c <= j < c + |news| ==> r[j] == news[j - c];
      assert c + |news| <= j ==> r[j] == o[j - |news|];
    }
  }

  // ---- leaving one job out ----------------------------------------------------

  lemma DropKeepsPriority(jobs: Jobs, o: seq<JobId>, ids: set<JobId>)
    requires Rising(jobs, o) && PrioritySorted(jobs, o)
    ensures PrioritySorted(jobs, Drop(o, ids))
  {
    KeepRises(jobs, o, ids);
    KeepMembers(o, ids);
    SubsequenceKeepsPriority(jobs, o, Drop(o, ids));
  }

  lemma SubsequenceKeepsPriority(jobs: Jobs, o: seq<JobId>, d: seq<JobId>)
    requires Rising(jobs, o) && PrioritySorted(jobs, o) && Rising(jobs, d)
    requires forall x :: x in d ==> x in o
    ensures PrioritySorted(jobs, d)
  {
    forall i, j | 0 <= i < j < |d| && Waiting(jobs, d[i]) && Waiting(jobs, d[j])
      ensures jobs[d[i]].priority >= jobs[d[j]].priority
    {
      assert d[i] in d && d[j] in d;
      var k :| 0 <= k < |o| && o[k] == d[i];
      var m :| 0 <= m < |o| && o[m] == d[j];
      assert k < m;
    }
  }

  lemma DropKeepsPlace(jobs: Jobs, o: seq<JobId>, c: nat, ids: set<JobId>, priority: int)
    requires RightPlace(jobs, o, c, priority)
    ensures |Drop(o[..c], ids)| <= |Drop(o, ids)|
    ensures RightPlace(jobs, Drop(o, ids), |Drop(o[..c], ids)|, priority)
    ensures Drop(o, ids) == Drop(o[..c], ids) + Drop(o[c..], ids)
  {
    var l, h := o[..c], o[c..];
    assert o == l + h;
    DropConcat(l, h, ids);
    KeepMembers(l, ids);
    KeepMembers(h, ids);
    var d, p := Drop(o, ids), |Drop(l, ids)|;
    forall i | 0 <= i < |d| && Waiting(jobs, d[i])
      ensures i < p ==> jobs[d[i]].priority >= priority
      ensures p <= i ==> jobs[d[i]].priority < priority
    {
      if i < p {
        assert d[i] in Drop(l, ids);
        assert d[i] in l;
      } else {
        assert d[i] in Drop(h, ids);
        assert d[i] in h;
      }
    }
  }

  // ---- the two operations on the table ----------------------------------------

  /** New jobs inserted at the insertion point of their priority keep the queue sorted. */
  lemma NewJobsKeepPriority(before: Jobs, after: Jobs, news: seq<JobId>, priority: int)
    requires Distinct(before) && PrioritySorted(before, Order(before))
    requires InsertionIndex(before, priority) <= |Order(before)|
    requires Order(after) == Inserted(Order(before), InsertionIndex(before, priority), news)
    requires SameStanding(before, after, Order(before))
    requires forall k :: 0 <= k < |news| ==> news[k] in after && after[news[k]].priority == priority
    ensures RightPlace(before, Order(before), InsertionIndex(before, priority), priority)
    ensures PrioritySorted(after, Order(after))
  {
    InsertionPointIsRight(before, priority);
    InsertionKeepsPriority(before, after, Order(before), InsertionIndex(before, priority), news, priority);
  }

  /** A raised job spliced to the insertion point of its new priority keeps the queue sorted. */
  lemma RaisedJobKeepsPriority(before: Jobs, after: Jobs, id: JobId, priority: int)
    requires Distinct(before) && PrioritySorted(before, Order(before)) && id in before
    requires var point := InsertionPoint(before, priority);
      && (point.0.Before? ==> point.1 in Order(before))
      && Order(after) == Spliced(Order(before), {id}, point.0, point.1)
    requires SameStanding(before, after, Drop(Order(before), {id}))
    requires id in after && after[id].priority == priority
    ensures PrioritySorted(after, Order(after))
  {
    InsertionPointIsRight(before, priority);
    ListingRises(before, before.Keys);
    ListingMembers(before, before.Keys);
    KeepOne(before, Order(before), id);
    SplicedOneKeepsPriority(before, after, Order(before), InsertionIndex(before, priority), id, priority);
  }

  lemma SplicedOneKeepsPriority(before: Jobs, after: Jobs, o: seq<JobId>, c: nat, id: JobId, priority: int)
    requires Rising(before, o) && PrioritySorted(before, o) && RightPlace(before, o, c, priority)
    requires SameStanding(before, after, Drop(o, {id}))
    requires id in after && after[id].priority == priority
    ensures PrioritySorted(after, Drop(o[..c], {id}) + [id] + Drop(o[c..], {id}))
  {
    DropKeepsPriority(before, o, {id});
    DropKeepsPlace(before, o, c, {id}, priority);
    var d, p := Drop(o, {id}), |Drop(o[..c], {id})|;
    InsertionKeepsPriority(before, after, d, p, [id], priority);
    BetweenParts(Drop(o[..c], {id}), Drop(o[c..], {id}), [id]);
  }

  lemma BetweenParts(a: seq<JobId>, b: seq<JobId>, news: seq<JobId>)
    ensures Inserted(a + b, |a|, news) == a + news + b
  {
  }

  lemma {:induction false} KeepOne(jobs: Jobs, o: seq<JobId>, id: JobId)
    requires Rising(jobs, o)
    ensures Keep(o, {id}) == if id in o then [id] else []
  {
    if o != [] {
      RisingSplit(jobs, o);
      KeepOne(jobs, o[1..], id);
      assert o == [o[0]] + o[1..];
      assert o[0] !in o[1..];
    }
  }
}
