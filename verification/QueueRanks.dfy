/** What moving, sorting and queueing do to the queue, told by rows and ranks alone. */
module QueueRanks {
  import opened Common
  import opened RankOrder
  import opened RankPriority
  import opened RankSort
  import opened RankQueue
  import opened RankChapters
  import opened DownloadQueue

  predicate Awaits(status: Status) { status == Queued || status == Paused }

  /** In two tables a list rises: then it compares in the one as in the other. */
  lemma SameOrder(before: Jobs, after: Jobs, s: seq<JobId>, x: JobId, y: JobId)
    requires Rising(before, s) && Rising(after, s) && x in s && y in s
    ensures before[x].rank < before[y].rank <==> after[x].rank < after[y].rank
  {
    var i :| 0 <= i < |s| && s[i] == x;
    var j :| 0 <= j < |s| && s[j] == y;
    assert i < j ==> RankOf(before, x) < RankOf(before, y) && RankOf(after, x) < RankOf(after, y);
    assert j < i ==> RankOf(before, y) < RankOf(before, x) && RankOf(after, y) < RankOf(after, x);
  }

  /** One before the other in a list that rises. */
  lemma StandsBefore(jobs: Jobs, a: seq<JobId>, b: seq<JobId>, x: JobId, y: JobId)
    requires Rising(jobs, a + b) && x in a && y in b
    ensures x in jobs && y in jobs && jobs[x].rank < jobs[y].rank
  {
    var i :| 0 <= i < |a| && a[i] == x;
    var j :| 0 <= j < |b| && b[j] == y;
    assert (a + b)[i] == x && (a + b)[|a| + j] == y;
    assert RankOf(jobs, x) < RankOf(jobs, y);
  }

  lemma OuterRises(jobs: Jobs, a: seq<JobId>, b: seq<JobId>, d: seq<JobId>)
    requires Rising(jobs, a + b + d)
    ensures Rising(jobs, a + d)
  {
    var all, r := a + b + d, a + d;
    forall i | 0 <= i < |r| ensures r[i] == all[if i < |a| then i else i + |b|] {
    }
  }

  lemma InnerRises(jobs: Jobs, a: seq<JobId>, b: seq<JobId>, d: seq<JobId>)
    requires Rising(jobs, a + b + d)
    ensures Rising(jobs, b) && Rising(jobs, a + b) && Rising(jobs, b + d)
  {
    assert (a + b + d)[..|a| + |b|] == a + b;
    assert (a + b + d)[|a|..] == b + d;
    PartRises(jobs, a + b + d, 0, |a| + |b|);
    PartRises(jobs, a + b + d, |a|, |a| + |b| + |d|);
    PartRises(jobs, a + b, |a|, |a| + |b|);
    assert (a + b)[|a|..] == b;
  }

  // ---- moves ------------------------------------------------------------------------------------

  /** The place an action names lies before the job. */
  predicate PlaceBefore(jobs: Jobs, action: Action, anchorId: int, x: JobId)
    requires x in jobs && ((action.Before? || action.After?) ==> anchorId in jobs)
  {
    match action
    case Top => true
    case Before => jobs[anchorId].rank <= jobs[x].rank
    case After => jobs[anchorId].rank < jobs[x].rank
    case _ => false
  }

  /** The ids that name waiting jobs. */
  function WaitingOf(jobs: Jobs, ids: seq<JobId>): set<JobId> {
    set id | id in ids && id in jobs && Awaits(jobs[id].status)
  }

  /** The parts of a spliced list: what stays before the block, the block, what stays behind. */
  ghost predicate Parts(before: Jobs, after: Jobs, chosen: set<JobId>, c: nat, a: seq<JobId>, b: seq<JobId>, d: seq<JobId>) {
    var o := Order(before);
    && c <= |o| && a == Drop(o[..c], chosen) && b == Keep(o, chosen) && d == Drop(o[c..], chosen)
    && Rising(after, a + b + d) && Rising(before, b) && Rising(before, a + d)
    && (forall x :: x in b <==> x in before && x in chosen) && (forall x :: x in a + d <==> x in before && x !in chosen)
  }

  lemma DropSplits(o: seq<JobId>, c: nat, chosen: set<JobId>)
    requires c <= |o|
    ensures Drop(o[..c], chosen) + Drop(o[c..], chosen) == Drop(o, chosen)
  {
    assert o == o[..c] + o[c..];
    DropConcat(o[..c], o[c..], chosen);
  }

  lemma PartsOf(before: Jobs, after: Jobs, chosen: set<JobId>, o: seq<JobId>, c: nat, a: seq<JobId>, b: seq<JobId>, d: seq<JobId>)
    requires o == Order(before) && c <= |o| && Rising(before, o) && forall x :: x in o <==> x in before
    requires a == Drop(o[..c], chosen) && b == Keep(o, chosen) && d == Drop(o[c..], chosen)
    requires a + d == Drop(o, chosen) && Rising(after, a + b + d)
    ensures Parts(before, after, chosen, c, a, b, d)
  {
    KeepRises(before, o, chosen);
    KeepMembers(o, chosen);
  }

  lemma SplicedParts(before: Jobs, after: Jobs, chosen: set<JobId>, action: Action, anchor: JobId, o: seq<JobId>, c: nat)
    requires Distinct(before) && Distinct(after) && chosen <= before.Keys && o == Order(before)
    requires !action.Unknown? && ((action.Before? || action.After?) ==> anchor in o) && c == Cut(o, action, anchor)
    requires Order(after) == Spliced(o, chosen, action, anchor)
    ensures c <= |o| && Parts(before, after, chosen, c, Drop(o[..c], chosen), Keep(o, chosen), Drop(o[c..], chosen))
  {
    ListingRises(before, before.Keys);
    ListingMembers(before, before.Keys);
    ListingRises(after, after.Keys);
    CutSplits(before, o, action, anchor);
    DropSplits(o, c, chosen);
    PartsOf(before, after, chosen, o, c, Drop(o[..c], chosen), Keep(o, chosen), Drop(o[c..], chosen));
  }

  lemma SameSide(before: Jobs, after: Jobs, chosen: set<JobId>, c: nat, a: seq<JobId>, b: seq<JobId>, d: seq<JobId>, x: JobId, y: JobId)
    requires Parts(before, after, chosen, c, a, b, d) && x in before && y in before && (x in chosen <==> y in chosen)
    ensures x in after && y in after && (after[x].rank < after[y].rank <==> before[x].rank < before[y].rank)
  {
    if x in chosen {
      InnerRises(after, a, b, d);
      SameOrder(before, after, b, x, y);
    } else {
      OuterRises(after, a, b, d);
      SameOrder(before, after, a + d, x, y);
    }
  }

  lemma OtherSide(before: Jobs, after: Jobs, chosen: set<JobId>, action: Action, anchor: JobId, c: nat, a: seq<JobId>, b: seq<JobId>, d: seq<JobId>, x: JobId, y: JobId)
    requires Parts(before, after, chosen, c, a, b, d) && x in before && y in before && x in chosen && y !in chosen
    requires y in Order(before) && !action.Unknown? && ((action.Before? || action.After?) ==> anchor in before)
    requires forall i :: 0 <= i < |Order(before)| ==> (Below(before, action, anchor, Order(before)[i]) <==> i < c)
    ensures x in after && y in after && (after[x].rank < after[y].rank <==> PlaceBefore(before, action, anchor, y))
  {
    SideOf(before, Order(before), c, chosen, action, anchor, y);
    InnerRises(after, a, b, d);
    if PlaceBefore(before, action, anchor, y) {
      StandsBefore(after, b, d, x, y);
    } else {
      StandsBefore(after, a, b, y, x);
    }
  }

  lemma SplicedPairs(before: Jobs, after: Jobs, chosen: set<JobId>, action: Action, anchor: JobId, x: JobId, y: JobId)
    requires Distinct(before) && Distinct(after) && chosen <= before.Keys
    requires !action.Unknown? && ((action.Before? || action.After?) ==> anchor in Order(before) && anchor in before)
    requires Order(after) == Spliced(Order(before), chosen, action, anchor)
    requires x in before && y in before
    ensures x in after && y in after
    ensures (x in chosen <==> y in chosen) ==> (after[x].rank < after[y].rank <==> before[x].rank < before[y].rank)
    ensures x in chosen && y !in chosen ==> (after[x].rank < after[y].rank <==> PlaceBefore(before, action, anchor, y))
  {
    var o := Order(before);
    var c := Cut(o, action, anchor);
    SplicedParts(before, after, chosen, action, anchor, o, c);
    if x in chosen <==> y in chosen {
      SameSide(before, after, chosen, c, Drop(o[..c], chosen), Keep(o, chosen), Drop(o[c..], chosen), x, y);
    } else if x in chosen {
      ListingRises(before, before.Keys);
      ListingMembers(before, before.Keys);
      CutSplits(before, o, action, anchor);
      OtherSide(before, after, chosen, action, anchor, c, Drop(o[..c], chosen), Keep(o, chosen), Drop(o[c..], chosen), x, y);
    } else {
      SameSide(before, after, chosen, c, Drop(o[..c], chosen), Keep(o, chosen), Drop(o[c..], chosen), x, x);
      SameSide(before, after, chosen, c, Drop(o[..c], chosen), Keep(o, chosen), Drop(o[c..], chosen), y, y);
    }
  }

  lemma SideOf(jobs: Jobs, o: seq<JobId>, c: nat, chosen: set<JobId>, action: Action, anchor: JobId, y: JobId)
    requires c <= |o| && y in o && y !in chosen && y in jobs && !action.Unknown?
    requires (action.Before? || action.After?) ==> anchor in jobs
    requires forall i :: 0 <= i < |o| ==> (Below(jobs, action, anchor, o[i]) <==> i < c)
    ensures if PlaceBefore(jobs, action, anchor, y) then y in Drop(o[c..], chosen) else y in Drop(o[..c], chosen)
  {
    var i :| 0 <= i < |o| && o[i] == y;
    KeepMembers(o[..c], chosen);
    KeepMembers(o[c..], chosen);
    if i < c {
      assert o[..c][i] == y;
    } else {
      assert o[c..][i - c] == y;
    }
  }

  /** Two jobs of one side keep their order; a chosen one comes before another exactly when the place named does. */
  ghost predicate PairMoved(s: Jobs, t: Jobs, chosen: set<JobId>, action: Action, anchorId: int, x: JobId, y: JobId) {
    && x in s && y in s && x in t && y in t && ((action.Before? || action.After?) ==> anchorId in s)
    && if (x in chosen) == (y in chosen) then t[x].rank < t[y].rank <==> s[x].rank < s[y].rank
       else x in chosen ==> (t[x].rank < t[y].rank <==> PlaceBefore(s, action, anchorId, y))
  }

  lemma WaitingIsSelected(jobs: Jobs, ids: seq<JobId>)
    ensures WaitingOf(jobs, ids) == Selected(jobs, ids)
  {
  }

  lemma BlockPairs(before: Jobs, after: Jobs, chosen: set<JobId>, action: Action, anchorId: int, x: JobId, y: JobId)
    requires Distinct(before) && Distinct(after) && chosen <= before.Keys && !action.Unknown?
    requires MovedBlock(before, after, chosen, action, anchorId) && x in before && y in before
    ensures PairMoved(before, after, chosen, action, anchorId, x, y)
  {
    ListingMembers(before, before.Keys);
    SplicedPairs(before, after, chosen, action, anchorId, x, y);
  }

  /** Move: the answer is how many waiting jobs the ids name, these are moved, and nothing but ranks changes. */
  lemma MoveByRanks(s: Snap, t: Snap, ids: seq<JobId>, action: Action, anchorId: int, n: nat)
    requires Sound(s) && Did(s, MoveAct(ids, action, anchorId, Ok(n)), t)
    ensures n == |WaitingOf(s.jobs, ids)| && SameButRanks(s.jobs, t.jobs)
    ensures n == 0 ==> t == s
    ensures n > 0 ==> t.revision == s.revision + 1
    ensures n > 0 ==> forall x, y :: x in s.jobs && y in s.jobs ==>
      PairMoved(s.jobs, t.jobs, WaitingOf(s.jobs, ids), action, anchorId, x, y)
  {
    var chosen := WaitingOf(s.jobs, ids);
    WaitingIsSelected(s.jobs, ids);
    if n > 0 {
      assert chosen != {};
      forall x, y | x in s.jobs && y in s.jobs ensures PairMoved(s.jobs, t.jobs, chosen, action, anchorId, x, y) {
        BlockPairs(s.jobs, t.jobs, chosen, action, anchorId, x, y);
      }
    }
  }

  /** A move is turned down, and why: otherwise only a full rank space stops it. */
  lemma MoveIsRefused(s: Snap, t: Snap, ids: seq<JobId>, action: Action, anchorId: int, e: QueueError)
    requires Did(s, MoveAct(ids, action, anchorId, Err(e)), t)
    ensures t == s
    ensures action.Unknown? ==> e == UnknownMove
    ensures action == Top || action == Bottom ==> if anchorId != 0 then e == AnchorNotAccepted else e == RanksExhausted
    ensures action == Before || action == After ==>
      if anchorId <= 0 then e == AnchorRequired
      else if anchorId in ids then e == AnchorSelected
      else if !(anchorId in s.jobs && Awaits(s.jobs[anchorId].status)) then e == AnchorNotPending
      else e == RanksExhausted
  {
  }

  /** And a move that goes through had no such reason. */
  lemma MoveIsSound(s: Snap, t: Snap, ids: seq<JobId>, action: Action, anchorId: int, n: nat)
    requires Did(s, MoveAct(ids, action, anchorId, Ok(n)), t)
    ensures !action.Unknown?
    ensures action == Top || action == Bottom ==> anchorId == 0
    ensures action == Before || action == After ==>
      anchorId > 0 && anchorId !in ids && anchorId in s.jobs && Awaits(s.jobs[anchorId].status)
  {
  }

  // ---- new and raised jobs ------------------------------------------------------------------------

  /** Some waiting job of lower priority stands where x does or before it. */
  ghost predicate LowerUpTo(jobs: Jobs, priority: int, x: JobId)
    requires x in jobs
  {
    exists y :: y in jobs && Awaits(jobs[y].status) && jobs[y].priority < priority && jobs[y].rank <= jobs[x].rank
  }

  lemma LowerIsMember(jobs: Jobs, priority: int, x: JobId)
    requires x in jobs
    ensures LowerUpTo(jobs, priority, x) <==> exists y :: y in Lower(jobs, priority) && RankOf(jobs, y) <= RankOf(jobs, x)
  {
    if LowerUpTo(jobs, priority, x) {
      var y :| y in jobs && Awaits(jobs[y].status) && jobs[y].priority < priority && jobs[y].rank <= jobs[x].rank;
      assert y in Lower(jobs, priority);
    }
    if y :| y in Lower(jobs, priority) && RankOf(jobs, y) <= RankOf(jobs, x) {
      assert Awaits(jobs[y].status) && jobs[y].priority < priority && jobs[y].rank <= jobs[x].rank;
    }
  }

  /** In a list that rises, the first of some jobs stands no later than a place exactly when one of them ranks no higher. */
  lemma FirstUpTo(jobs: Jobs, o: seq<JobId>, lower: set<JobId>, a: JobId, i: nat)
    requires Rising(jobs, o) && i < |o| && IsFirst(jobs, lower, a) && a in o
    ensures IndexOf(o, a) <= i <==> exists y :: y in lower && RankOf(jobs, y) <= RankOf(jobs, o[i])
  {
    var c := IndexOf(o, a);
    assert c < i ==> RankOf(jobs, o[c]) < RankOf(jobs, o[i]);
    assert i < c ==> RankOf(jobs, o[i]) < RankOf(jobs, o[c]);
    assert forall y :: y in lower ==> RankOf(jobs, a) <= RankOf(jobs, y);
  }

  lemma IndexIsLower(jobs: Jobs, priority: int, o: seq<JobId>, i: nat)
    requires Distinct(jobs) && o == Order(jobs) && i < |o| && o[i] in jobs
    ensures InsertionIndex(jobs, priority) <= i <==> LowerUpTo(jobs, priority, o[i])
  {
    var lower := Lower(jobs, priority);
    ListingRises(jobs, jobs.Keys);
    ListingMembers(jobs, jobs.Keys);
    LowerIsMember(jobs, priority, o[i]);
    if lower != {} {
      FirstUpTo(jobs, o, lower, First(jobs, lower), i);
    }
  }

  /** A job at its priority's place: before another exactly when some waiting job of lower priority stands up to that one. */
  ghost predicate Placed(before: Jobs, after: Jobs, id: JobId, priority: int) {
    && id in after
    && forall x :: x in before && x in after && x != id ==> (after[id].rank < after[x].rank <==> LowerUpTo(before, priority, x))
  }

  /** Two old jobs compare as before. */
  ghost predicate OldOrder(before: Jobs, after: Jobs, id: JobId) {
    forall x, y :: x in before && y in before && x != id && y != id && x in after && y in after ==>
      (after[x].rank < after[y].rank <==> before[x].rank < before[y].rank)
  }

  lemma InsertedParts(before: Jobs, after: Jobs, o: seq<JobId>, c: nat, news: seq<JobId>)
    requires Distinct(before) && Distinct(after) && o == Order(before) && InsertedAt(o, Order(after), c, news)
    ensures c <= |o| && Rising(before, o) && Rising(after, o[..c] + news + o[c..]) && Rising(after, o)
    ensures forall x :: x in o <==> x in before
  {
    ListingRises(before, before.Keys);
    ListingMembers(before, before.Keys);
    ListingRises(after, after.Keys);
    InsertedIsBetween(o, c, news);
    OuterRises(after, o[..c], news, o[c..]);
    assert o[..c] + o[c..] == o;
  }

  lemma InsertedSide(after: Jobs, o: seq<JobId>, c: nat, news: seq<JobId>, id: JobId, i: nat)
    requires c <= |o| && i < |o| && id in news && Rising(after, o[..c] + news + o[c..])
    ensures id in after && o[i] in after && (after[id].rank < after[o[i]].rank <==> c <= i)
  {
    InnerRises(after, o[..c], news, o[c..]);
    if c <= i {
      assert o[c..][i - c] == o[i];
      StandsBefore(after, news, o[c..], id, o[i]);
    } else {
      assert o[..c][i] == o[i];
      StandsBefore(after, o[..c], news, o[i], id);
    }
  }

  /** New jobs stand at their priority's place, and the others as before. */
  lemma InsertedPlaced(before: Jobs, after: Jobs, news: seq<JobId>, id: JobId, priority: int)
    requires Distinct(before) && Distinct(after) && id in news && id !in before
    requires AddedInOrder(before, after, news, priority)
    ensures Placed(before, after, id, priority) && OldOrder(before, after, id)
  {
    var o, c := Order(before), InsertionIndex(before, priority);
    InsertedParts(before, after, o, c, news);
    InsertedPlace(before, after, o, c, news, id, priority);
    InsertedOld(before, after, o, id);
  }

  lemma InsertedPlace(before: Jobs, after: Jobs, o: seq<JobId>, c: nat, news: seq<JobId>, id: JobId, priority: int)
    requires Distinct(before) && o == Order(before) && c == InsertionIndex(before, priority) && c <= |o|
    requires id in news && (forall x :: x in o <==> x in before)
    requires Rising(after, o[..c] + news + o[c..])
    ensures Placed(before, after, id, priority)
  {
    var k :| 0 <= k < |news| && news[k] == id;
    assert (o[..c] + news + o[c..])[c + k] == id;
    forall x | x in before && x in after && x != id ensures after[id].rank < after[x].rank <==> LowerUpTo(before, priority, x) {
      var i :| 0 <= i < |o| && o[i] == x;
      IndexIsLower(before, priority, o, i);
      InsertedSide(after, o, c, news, id, i);
    }
  }

  lemma InsertedOld(before: Jobs, after: Jobs, o: seq<JobId>, id: JobId)
    requires Rising(before, o) && Rising(after, o) && (forall x :: x in o <==> x in before)
    ensures OldOrder(before, after, id)
  {
    forall x, y | x in before && y in before && x != id && y != id && x in after && y in after
      ensures after[x].rank < after[y].rank <==> before[x].rank < before[y].rank
    {
      SameOrder(before, after, o, x, y);
    }
  }

  lemma OneSpliced(before: Jobs, after: Jobs, id: JobId, priority: int)
    requires Distinct(before) && Distinct(after) && id in before && after.Keys == before.Keys
    requires RaisedInOrder(before, after, id, priority)
    ensures Placed(before, after, id, priority) && OldOrder(before, after, id)
  {
    var point := InsertionPoint(before, priority);
    ListingMembers(before, before.Keys);
    forall x | x in before && x in after && x != id ensures after[id].rank < after[x].rank <==> LowerUpTo(before, priority, x) {
      SplicedPairs(before, after, {id}, point.0, point.1, id, x);
      PointIsLower(before, priority, x);
    }
    forall x, y | x in before && y in before && x != id && y != id && x in after && y in after
      ensures after[x].rank < after[y].rank <==> before[x].rank < before[y].rank
    {
      SplicedPairs(before, after, {id}, point.0, point.1, x, y);
    }
  }

  lemma PointIsLower(jobs: Jobs, priority: int, x: JobId)
    requires Distinct(jobs) && x in jobs
    ensures var point := InsertionPoint(jobs, priority); PlaceBefore(jobs, point.0, point.1, x) <==> LowerUpTo(jobs, priority, x)
  {
    LowerIsMember(jobs, priority, x);
  }

  // ---- callers' views -------------------------------------------------------------------------------

  predicate Unfinished(status: Status) {
    status == Queued || status == Paused || status == Downloading || status == Processing || status == Importing
  }

  /** A queued job of the chapter below the priority. */
  predicate Liftable(jobs: Jobs, id: JobId, chapter: nat, priority: int) {
    id in jobs && jobs[id].chapter == chapter && jobs[id].status == Queued && jobs[id].priority < priority
  }

  /** A raise lifts exactly one job, to the place of its new priority, when a queued lower one of the chapter is there. */
  lemma RaiseLifts(s: Snap, t: Snap, chapter: nat, priority: int, raised: bool) returns (id: JobId)
    requires Sound(s) && Did(s, RaiseAct(chapter, priority, Ok(raised)), t)
    ensures raised <==> priority > 0 && exists x :: Liftable(s.jobs, x, chapter, priority)
    ensures !raised ==> t == s
    ensures raised ==> Liftable(s.jobs, id, chapter, priority) && t.jobs.Keys == s.jobs.Keys
    ensures raised ==> t.jobs[id] == s.jobs[id].(rank := t.jobs[id].rank, priority := priority)
    ensures raised ==> forall x :: x in s.jobs && x != id ==> t.jobs[x] == s.jobs[x].(rank := t.jobs[x].rank)
    ensures raised ==> Placed(s.jobs, t.jobs, id, priority) && OldOrder(s.jobs, t.jobs, id) && t.revision == s.revision + 1
  {
    id := 0;
    if raised {
      id :| RaisedRow(s, t, id, chapter, priority);
      assert Liftable(s.jobs, id, chapter, priority);
      OneSpliced(s.jobs, t.jobs, id, priority);
    } else {
      forall x ensures !(priority > 0 && Liftable(s.jobs, x, chapter, priority)) {
        assert priority <= 0 || !Raisable(s.jobs, x, chapter, priority);
      }
    }
  }

  /** An enqueue makes a row exactly when no unfinished job holds the chapter, at the place of its priority. */
  lemma EnqueueMakes(s: Snap, t: Snap, req: Request, id: JobId, made: bool)
    requires Sound(s) && Did(s, EnqueueAct(req, Ok((id, made))), t)
    ensures made <==> forall x :: x in s.jobs && s.jobs[x].chapter == req.chapter ==> !Unfinished(s.jobs[x].status)
    ensures made ==> id !in s.jobs && t.jobs.Keys == s.jobs.Keys + {id}
    ensures made ==> t.jobs[id] == Job(t.jobs[id].rank, Queued, req.priority, req.kind, req.series, req.chapter)
    ensures made ==> forall x :: x in s.jobs ==> t.jobs[x] == s.jobs[x].(rank := t.jobs[x].rank)
    ensures made ==> Placed(s.jobs, t.jobs, id, req.priority) && OldOrder(s.jobs, t.jobs, id) && t.revision == s.revision + 1
    ensures !made ==> id in s.jobs && s.jobs[id].chapter == req.chapter && Unfinished(s.jobs[id].status)
    ensures !made ==> exists raised :: Did(s, RaiseAct(req.chapter, req.priority, Ok(raised)), t)
  {
    if made {
      assert id in [s.nextId];
      InsertedPlaced(s.jobs, t.jobs, [s.nextId], id, req.priority);
      forall x | x in s.jobs && s.jobs[x].chapter == req.chapter ensures !Unfinished(s.jobs[x].status) {
      }
    } else {
      var raised :| Raised(s, t, req.chapter, req.priority, Ok(raised));
      assert Did(s, RaiseAct(req.chapter, req.priority, Ok(raised)), t);
    }
  }

  // ---- sorting ----------------------------------------------------------------------------------------

  /** Some chosen job of the one series stands before all chosen jobs of the other. */
  ghost predicate SeriesFirst(jobs: Jobs, chosen: set<JobId>, a: nat, b: nat) {
    exists x :: x in chosen && x in jobs && jobs[x].series == a && BeforeAll(jobs, chosen, x, b)
  }

  ghost predicate BeforeAll(jobs: Jobs, chosen: set<JobId>, x: JobId, series: nat)
    requires x in jobs
  {
    forall y :: y in chosen && y in jobs && jobs[y].series == series ==> jobs[x].rank < jobs[y].rank
  }

  /** What the sort compares: series by their first chosen job, then the chapters' numbers, then the old order. */
  ghost predicate ComesFirst(jobs: Jobs, numbers: Numbers, chosen: set<JobId>, a: JobId, b: JobId)
    requires a in jobs && b in jobs
  {
    if jobs[a].series != jobs[b].series then SeriesFirst(jobs, chosen, jobs[a].series, jobs[b].series)
    else
      || numbers(jobs[a].chapter) < numbers(jobs[b].chapter)
      || (numbers(jobs[a].chapter) == numbers(jobs[b].chapter) && jobs[a].rank < jobs[b].rank)
  }

  lemma SoonerComesFirst(jobs: Jobs, numbers: Numbers, chosen: set<JobId>, sel: seq<JobId>, a: JobId, b: JobId)
    requires Rising(jobs, sel) && (forall x :: x in sel <==> x in chosen) && a in chosen && b in chosen && a in jobs && b in jobs
    requires Sooner(jobs, numbers, sel, a, b)
    ensures ComesFirst(jobs, numbers, chosen, a, b)
  {
    if jobs[a].series != jobs[b].series {
      var i := FirstAt(jobs, sel, jobs[a].series);
      assert i < |sel|;
      var x := sel[i];
      assert x in chosen && jobs[x].series == jobs[a].series;
      forall y | y in chosen && y in jobs && jobs[y].series == jobs[b].series ensures jobs[x].rank < jobs[y].rank {
        var j :| 0 <= j < |sel| && sel[j] == y;
        assert SeriesOf(jobs, sel[j]) == jobs[b].series;
        assert RankOf(jobs, sel[i]) < RankOf(jobs, sel[j]);
      }
      assert BeforeAll(jobs, chosen, x, jobs[b].series);
    }
  }

  lemma NotBoth(jobs: Jobs, numbers: Numbers, chosen: set<JobId>, a: JobId, b: JobId)
    requires a in jobs && b in jobs && a in chosen && b in chosen && ComesFirst(jobs, numbers, chosen, a, b)
    ensures !ComesFirst(jobs, numbers, chosen, b, a)
  {
    if jobs[a].series != jobs[b].series {
      var x :| x in chosen && x in jobs && jobs[x].series == jobs[a].series && BeforeAll(jobs, chosen, x, jobs[b].series);
      forall y | y in chosen && y in jobs && jobs[y].series == jobs[b].series ensures !BeforeAll(jobs, chosen, y, jobs[a].series) {
        assert jobs[x].rank < jobs[y].rank;
      }
    }
  }

  /** In the sorted list. */
  lemma SortedPair(before: Jobs, after: Jobs, numbers: Numbers, chosen: set<JobId>, sel: seq<JobId>, r: seq<JobId>, a: JobId, b: JobId)
    requires Rising(before, sel) && (forall x :: x in sel <==> x in chosen) && (forall x :: x in r <==> x in chosen)
    requires Rising(after, r) && forall i, j :: 0 <= i < j < |r| ==> Sooner(before, numbers, sel, r[i], r[j])
    requires a in chosen && b in chosen && a in before && b in before && a != b
    ensures a in after && b in after && (after[a].rank < after[b].rank <==> ComesFirst(before, numbers, chosen, a, b))
  {
    var i :| 0 <= i < |r| && r[i] == a;
    var j :| 0 <= j < |r| && r[j] == b;
    if i < j {
      assert RankOf(after, a) < RankOf(after, b) && Sooner(before, numbers, sel, r[i], r[j]);
      SoonerComesFirst(before, numbers, chosen, sel, a, b);
    } else {
      assert RankOf(after, b) < RankOf(after, a) && Sooner(before, numbers, sel, r[j], r[i]);
      SoonerComesFirst(before, numbers, chosen, sel, b, a);
      NotBoth(before, numbers, chosen, b, a);
    }
  }

  lemma SortedPairs(s: Jobs, t: Jobs, numbers: Numbers, chosen: set<JobId>, a: JobId, b: JobId)
    requires Distinct(s) && Distinct(t) && SameButRanks(s, t) && chosen <= s.Keys && ChaptersSorted(s, t, numbers, chosen)
    requires a in chosen && b in chosen && a != b
    ensures a in t && b in t && (t[a].rank < t[b].rank <==> ComesFirst(s, numbers, chosen, a, b))
  {
    var sel := Listing(s, chosen);
    var r := ByChapter(s, numbers, sel);
    ListingRises(s, chosen);
    ListingMembers(s, chosen);
    ByChapterOrders(s, numbers, sel);
    SameMembers(r, sel);
    SecondSortIdle(s, t, numbers, chosen);
    ListingRises(t, chosen);
    SortedPair(s, t, numbers, chosen, sel, r, a, b);
  }

  /** The chosen jobs stand as the sort compares them. */
  ghost predicate AllCompare(s: Jobs, t: Jobs, numbers: Numbers, chosen: set<JobId>) {
    forall a, b :: a in chosen && b in chosen && a != b && a in s && b in s && a in t && b in t ==>
      (t[a].rank < t[b].rank <==> ComesFirst(s, numbers, chosen, a, b))
  }

  lemma AllPairs(s: Jobs, t: Jobs, numbers: Numbers, chosen: set<JobId>)
    requires Distinct(s) && Distinct(t) && SameButRanks(s, t) && chosen <= s.Keys && ChaptersSorted(s, t, numbers, chosen)
    ensures AllCompare(s, t, numbers, chosen)
  {
    forall a, b | a in chosen && b in chosen && a != b ensures t[a].rank < t[b].rank <==> ComesFirst(s, numbers, chosen, a, b) {
      SortedPairs(s, t, numbers, chosen, a, b);
    }
  }

  /** They share out the ranks they held. */
  ghost predicate RanksShared(s: Jobs, t: Jobs, chosen: set<JobId>) {
    forall x :: x in chosen && x in t ==> exists y :: y in chosen && y in s && s[y].rank == t[x].rank
  }

  lemma ReusedIsShared(s: Jobs, t: Jobs, chosen: set<JobId>)
    requires RanksReused(s, t, chosen)
    ensures RanksShared(s, t, chosen)
  {
    forall x | x in chosen && x in t ensures exists y :: y in chosen && y in s && s[y].rank == t[x].rank {
      assert RankHeld(s, chosen, t[x].rank);
    }
  }

  /** Only ranks of chosen jobs change. */
  ghost predicate OthersStand(s: Jobs, t: Jobs, chosen: set<JobId>) {
    && t.Keys == s.Keys
    && (forall x :: x in s && x in t ==> t[x] == s[x].(rank := t[x].rank))
    && (forall x :: x in s && x in t && x !in chosen ==> t[x] == s[x])
  }

  lemma SortCompares(s: Snap, t: Snap, numbers: Numbers, ids: seq<JobId>, n: nat)
    requires Sound(s) && Did(s, SortAct(numbers, ids, n), t)
    ensures AllCompare(s.jobs, t.jobs, numbers, WaitingOf(s.jobs, ids))
  {
    WaitingIsSelected(s.jobs, ids);
    AllPairs(s.jobs, t.jobs, numbers, WaitingOf(s.jobs, ids));
  }

  lemma SortShares(s: Snap, t: Snap, numbers: Numbers, ids: seq<JobId>, n: nat)
    requires Did(s, SortAct(numbers, ids, n), t)
    ensures RanksShared(s.jobs, t.jobs, WaitingOf(s.jobs, ids))
  {
    WaitingIsSelected(s.jobs, ids);
    ReusedIsShared(s.jobs, t.jobs, WaitingOf(s.jobs, ids));
  }

  lemma SortStands(s: Snap, t: Snap, numbers: Numbers, ids: seq<JobId>, n: nat)
    requires Did(s, SortAct(numbers, ids, n), t)
    ensures OthersStand(s.jobs, t.jobs, WaitingOf(s.jobs, ids))
    ensures n == |set x | x in s.jobs && x in t.jobs && t.jobs[x] != s.jobs[x]|
    ensures t.revision == s.revision + if n > 0 then 1 else 0
  {
    WaitingIsSelected(s.jobs, ids);
    ChangedRows(s.jobs, t.jobs);
  }

  lemma ChangedRows(s: Jobs, t: Jobs)
    ensures Changed(s, t) == set x | x in s && x in t && t[x] != s[x]
  {
  }

  /**
   SortByChapter: the waiting jobs named share out the ranks they held, the one first that comes first; nothing else
   changes, and the answer is how many rows did.
   */
  lemma SortByRanks(s: Snap, t: Snap, numbers: Numbers, ids: seq<JobId>, n: nat)
    requires Sound(s) && Did(s, SortAct(numbers, ids, n), t)
    ensures AllCompare(s.jobs, t.jobs, numbers, WaitingOf(s.jobs, ids))
    ensures RanksShared(s.jobs, t.jobs, WaitingOf(s.jobs, ids)) && OthersStand(s.jobs, t.jobs, WaitingOf(s.jobs, ids))
    ensures n == |set x | x in s.jobs && x in t.jobs && t.jobs[x] != s.jobs[x]|
    ensures t.revision == s.revision + if n > 0 then 1 else 0
  {
    SortCompares(s, t, numbers, ids, n);
    SortShares(s, t, numbers, ids, n);
    SortStands(s, t, numbers, ids, n);
  }
}
