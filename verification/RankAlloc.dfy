/** Where new ranks come from: the gap an action names, and the renumbering when it is exhausted. */
module RankAlloc {
  import opened Common
  import opened RankOrder

  /** SELECT MIN(rank) over some rows: NULL on no rows. */
  function MinRank(jobs: Jobs, ids: set<JobId>): (r: Option<int>)
    ensures r.None? <==> ids == {}
    ensures r.Some? ==> forall id :: id in ids ==> r.value <= RankOf(jobs, id)
    ensures r.Some? ==> exists id :: id in ids && RankOf(jobs, id) == r.value
  {
    if ids == {} then None else Some(RankOf(jobs, First(jobs, ids)))
  }

  /** SELECT MAX(rank) over some rows: NULL on no rows. */
  function MaxRank(jobs: Jobs, ids: set<JobId>): (r: Option<int>)
    ensures r.None? <==> ids == {}
    ensures r.Some? ==> forall id :: id in ids ==> RankOf(jobs, id) <= r.value
    ensures r.Some? ==> exists id :: id in ids && RankOf(jobs, id) == r.value
  {
    if ids == {} then None else
      var x := First(jobs, ids);
      var rest := MaxRank(jobs, ids - {x});
      if rest.Some? then rest else Some(RankOf(jobs, x))
  }

  function OrZero(edge: Option<int>): int {
    if edge.Some? then edge.value else 0
  }

  function RanksBelow(jobs: Jobs, rank: int): set<JobId> {
    set id | id in jobs && jobs[id].rank < rank
  }

  function RanksAbove(jobs: Jobs, rank: int): set<JobId> {
    set id | id in jobs && jobs[id].rank > rank
  }

  /** The open interval new ranks are taken from. */
  function Gap(jobs: Jobs, action: Action, anchor: JobId, n: nat): (int, int)
    requires !action.Unknown?
    requires (action.Before? || action.After?) ==> anchor in jobs
  {
    match action
    case Top =>
      var high := OrZero(MinRank(jobs, jobs.Keys));
      (high - RANK_STEP * (n + 1), high)
    case Bottom =>
      var low := OrZero(MaxRank(jobs, jobs.Keys));
      (low, low + RANK_STEP * (n + 1))
    case Before =>
      var high := jobs[anchor].rank;
      var edge := MaxRank(jobs, RanksBelow(jobs, high));
      (if edge.Some? then edge.value else high - RANK_STEP * (n + 1), high)
    case After =>
      var low := jobs[anchor].rank;
      var edge := MinRank(jobs, RanksAbove(jobs, low));
      (low, if edge.Some? then edge.value else low + RANK_STEP * (n + 1))
  }

  function Step(gap: (int, int), n: nat): int {
    (gap.1 - gap.0) / (n + 1)
  }

  predicate Usable(gap: (int, int), n: nat) {
    gap.0 > -RANK_LIMIT && gap.1 < RANK_LIMIT && Step(gap, n) > 0
  }

  /** UPDATE ... SET rank = ROW_NUMBER() OVER (ORDER BY rank, id) * step */
  function Renumbered(jobs: Jobs): (r: Jobs)
    ensures SameButRanks(jobs, r)
    ensures forall id :: id in jobs ==> id in Order(jobs) && r[id].rank == (IndexOf(Order(jobs), id) + 1) * RANK_STEP
  {
    ListingMembers(jobs, jobs.Keys);
    map id | id in jobs :: jobs[id].(rank := (IndexOf(Order(jobs), id) + 1) * RANK_STEP)
  }

  lemma IndexOfAt(s: seq<JobId>, i: nat)
    requires i < |s| && forall j :: 0 <= j < i ==> s[j] != s[i]
    ensures IndexOf(s, s[i]) == i
  {
    assert IsIndexOf(s, s[i], i);
  }

  lemma IndexOfAll(jobs: Jobs, o: seq<JobId>)
    requires Rising(jobs, o)
    ensures forall i :: 0 <= i < |o| ==> IndexOf(o, o[i]) == i
  {
    forall i | 0 <= i < |o| ensures IndexOf(o, o[i]) == i {
      IndexOfAt(o, i);
    }
  }

  /** The table after renumbering: the i-th job of the list o is at (i + 1) steps. */
  ghost predicate Evenly(jobs: Jobs, o: seq<JobId>) {
    && (forall id :: id in jobs ==> id in o)
    && (forall i :: 0 <= i < |o| ==> o[i] in jobs && jobs[o[i]].rank == (i + 1) * RANK_STEP)
  }

  lemma EvenlyRises(jobs: Jobs, o: seq<JobId>)
    requires Evenly(jobs, o)
    ensures Rising(jobs, o)
  {
  }

  lemma RenumberedEvenly(jobs: Jobs, o: seq<JobId>)
    requires o == Order(jobs) && Rising(jobs, o)
    ensures Evenly(Renumbered(jobs), o)
  {
    IndexOfAll(jobs, o);
  }

  lemma EvenlyDistinct(jobs: Jobs, o: seq<JobId>)
    requires Evenly(jobs, o)
    ensures Distinct(jobs)
  {
    forall a, b | a in jobs && b in jobs && a != b ensures RankOf(jobs, a) != RankOf(jobs, b) {
      var i :| 0 <= i < |o| && o[i] == a;
      var j :| 0 <= j < |o| && o[j] == b;
    }
  }

  /** Renumbering keeps the list and puts its i-th job at (i + 1) steps. */
  lemma RenumberingKeepsOrder(jobs: Jobs)
    requires Distinct(jobs)
    ensures Order(Renumbered(jobs)) == Order(jobs)
    ensures Distinct(Renumbered(jobs)) && Evenly(Renumbered(jobs), Order(jobs))
  {
    ListingRises(jobs, jobs.Keys);
    RenumberedEvenly(jobs, Order(jobs));
    EvenlyRises(Renumbered(jobs), Order(jobs));
    EvenlyDistinct(Renumbered(jobs), Order(jobs));
    RisingIsListing(Renumbered(jobs), jobs.Keys, Order(jobs));
  }

  // ---- what a usable gap gives ----------------------------------------------

  function Spread(gap: (int, int), n: nat): (r: seq<int>)
    ensures |r| == n
  {
    seq(n, i => gap.0 + Step(gap, n) * (i + 1))
  }

  /** The table has no rank inside the gap, and the gap is where the action says. */
  lemma GapIsEmpty(jobs: Jobs, action: Action, anchor: JobId, n: nat)
    requires !action.Unknown?
    requires (action.Before? || action.After?) ==> anchor in jobs
    ensures forall id :: id in jobs ==>
      if Below(jobs, action, anchor, id) then jobs[id].rank <= Gap(jobs, action, anchor, n).0
      else Gap(jobs, action, anchor, n).1 <= jobs[id].rank
  {
    forall id | id in jobs ensures
      if Below(jobs, action, anchor, id) then jobs[id].rank <= Gap(jobs, action, anchor, n).0
      else Gap(jobs, action, anchor, n).1 <= jobs[id].rank
    {
      assert id in jobs.Keys;
      match action {
        case Top =>
        case Bottom =>
        case Before =>
          assert jobs[id].rank < jobs[anchor].rank ==> id in RanksBelow(jobs, jobs[anchor].rank);
        case After =>
          assert jobs[id].rank > jobs[anchor].rank ==> id in RanksAbove(jobs, jobs[anchor].rank);
      }
    }
  }

  lemma SpreadInside(gap: (int, int), n: nat)
    requires Step(gap, n) > 0
    ensures forall i, j :: 0 <= i < j < n ==> Spread(gap, n)[i] < Spread(gap, n)[j]
    ensures forall i :: 0 <= i < n ==> gap.0 < Spread(gap, n)[i] < gap.1
  {
    var step := Step(gap, n);
    assert step * (n + 1) <= gap.1 - gap.0;
    forall i | 0 <= i < n ensures gap.0 < Spread(gap, n)[i] < gap.1 {
      StepBound(step, i + 1, n + 1);
    }
    forall i, j | 0 <= i < j < n ensures Spread(gap, n)[i] < Spread(gap, n)[j] {
      StepBound(step, i + 1, j + 1);
    }
  }

  lemma StepBound(step: int, i: int, j: int)
    requires 0 < step && 0 < i < j
    ensures 0 < step * i < step * j
  {
    assert step * j == step * i + step * (j - i);
  }

  lemma UsableFills(jobs: Jobs, action: Action, anchor: JobId, n: nat)
    requires !action.Unknown?
    requires (action.Before? || action.After?) ==> anchor in jobs
    requires Usable(Gap(jobs, action, anchor, n), n)
    ensures FillsGap(jobs, action, anchor, Spread(Gap(jobs, action, anchor, n), n))
    ensures forall k :: 0 <= k < n ==> -RANK_LIMIT < Spread(Gap(jobs, action, anchor, n), n)[k] < RANK_LIMIT
  {
    GapIsEmpty(jobs, action, anchor, n);
    SpreadInside(Gap(jobs, action, anchor, n), n);
  }

  // ---- why the second attempt succeeds --------------------------------------

  /** n new ranks in a queue of the given size stay within the allocator's documented bounds. */
  predicate InBounds(size: nat, n: nat) {
    n + 1 <= RANK_STEP && size + n + 1 < 0x1_0000_0000
  }

  lemma EvenGapNextTo(jobs: Jobs, o: seq<JobId>, action: Action, k: nat, n: nat)
    requires Evenly(jobs, o) && k < |o| && (action.Before? || action.After?)
    ensures Gap(jobs, action, o[k], n) ==
      if action.Before? then (if k == 0 then -RANK_STEP * n else k * RANK_STEP, (k + 1) * RANK_STEP)
      else ((k + 1) * RANK_STEP, if k + 1 == |o| then (k + 2 + n) * RANK_STEP else (k + 2) * RANK_STEP)
  {
    EvenIndex(jobs, o);
    var at := jobs[o[k]].rank;
    if action.Before? {
      assert k > 0 ==> o[k - 1] in RanksBelow(jobs, at);
    } else {
      assert k + 1 < |o| ==> o[k + 1] in RanksAbove(jobs, at);
    }
  }

  lemma EvenIndex(jobs: Jobs, o: seq<JobId>)
    requires Evenly(jobs, o)
    ensures forall id :: id in jobs ==> exists i :: 0 <= i < |o| && o[i] == id && jobs[id].rank == (i + 1) * RANK_STEP
  {
  }

  lemma EvenGapAtEnd(jobs: Jobs, o: seq<JobId>, action: Action, n: nat)
    requires Evenly(jobs, o) && (action.Top? || action.Bottom?)
    ensures var gap := Gap(jobs, action, 0, n);
      if action.Top? then gap.1 == (if o == [] then 0 else RANK_STEP) && gap.0 == gap.1 - RANK_STEP * (n + 1)
      else gap == (|o| * RANK_STEP, (|o| + n + 1) * RANK_STEP)
  {
    EvenIndex(jobs, o);
    if o != [] {
      assert o[0] in jobs.Keys;
      assert o[|o| - 1] in jobs.Keys;
    }
  }

  /** After a renumbering every gap is wide enough, within bounds. */
  lemma EvenGapUsable(jobs: Jobs, o: seq<JobId>, action: Action, anchor: JobId, n: nat)
    requires Evenly(jobs, o) && !action.Unknown? && InBounds(|o|, n)
    requires (action.Before? || action.After?) ==> anchor in jobs
    ensures Usable(Gap(jobs, action, anchor, n), n)
  {
    if action.Before? || action.After? {
      var k :| 0 <= k < |o| && o[k] == anchor;
      EvenGapNextTo(jobs, o, action, k, n);
    } else {
      EvenGapAtEnd(jobs, o, action, n);
    }
    var gap := Gap(jobs, action, anchor, n);
    assert gap.1 - gap.0 >= RANK_STEP >= n + 1;
    StepPositive(gap.1 - gap.0, n + 1);
  }

  /** Within bounds the attempt after a renumbering succeeds. */
  lemma SecondAttemptUsable(jobs: Jobs, action: Action, anchor: JobId, n: nat)
    requires Distinct(jobs) && !action.Unknown? && InBounds(|jobs|, n)
    requires (action.Before? || action.After?) ==> anchor in jobs
    ensures Usable(Gap(Renumbered(jobs), action, anchor, n), n)
  {
    RenumberingKeepsOrder(jobs);
    ListingMembers(jobs, jobs.Keys);
    assert |jobs| == |jobs.Keys|;
    EvenGapUsable(Renumbered(jobs), Order(jobs), action, anchor, n);
  }

  /** The table on entry to the allocator's next attempt. */
  ghost predicate Tried(before: Jobs, now: Jobs, attempt: nat, n: nat) {
    && (attempt == 0 ==> now == before)
    && (attempt == 1 ==> now == Renumbered(before))
    && SameButRanks(before, now) && Distinct(now)
    && (attempt >= 2 ==> !InBounds(|before|, n))
  }

  /** What a successful allocation leaves: the same list, and out inside the named gap. */
  ghost predicate Allocated(before: Jobs, now: Jobs, action: Action, anchor: JobId, n: nat, out: seq<int>) {
    && (now == before || now == Renumbered(before))
    && SameButRanks(before, now) && Distinct(now) && Order(now) == Order(before)
    && |out| == n && FillsGap(now, action, anchor, out)
    && Limited(out)
  }

  ghost predicate Limited(out: seq<int>) {
    forall k :: 0 <= k < |out| ==> -RANK_LIMIT < out[k] < RANK_LIMIT
  }

  lemma TriedSucceeds(before: Jobs, now: Jobs, attempt: nat, action: Action, anchor: JobId, n: nat)
    requires Distinct(before) && Tried(before, now, attempt, n) && attempt < 2 && !action.Unknown?
    requires (action.Before? || action.After?) ==> anchor in before
    requires Usable(Gap(now, action, anchor, n), n)
    ensures Allocated(before, now, action, anchor, n, Spread(Gap(now, action, anchor, n), n))
  {
    UsableFills(now, action, anchor, n);
    RenumberingKeepsOrder(before);
  }

  lemma TriedAgain(before: Jobs, now: Jobs, attempt: nat, action: Action, anchor: JobId, n: nat)
    requires Distinct(before) && Tried(before, now, attempt, n) && attempt < 2 && !action.Unknown?
    requires (action.Before? || action.After?) ==> anchor in before
    requires !Usable(Gap(now, action, anchor, n), n)
    ensures Tried(before, Renumbered(now), attempt + 1, n)
  {
    RenumberingKeepsOrder(now);
    if attempt == 1 && InBounds(|before|, n) {
      SecondAttemptUsable(before, action, anchor, n);
    }
  }

  /** A renumbered queue of fewer than 2^32 jobs stays in limit. */
  lemma RenumberedInLimit(jobs: Jobs)
    requires Distinct(jobs) && |jobs| < 0x1_0000_0000
    ensures InLimit(Renumbered(jobs))
  {
    RenumberingKeepsOrder(jobs);
    ListingMembers(jobs, jobs.Keys);
    assert |jobs| == |jobs.Keys|;
  }

  lemma StepPositive(width: int, parts: int)
    requires width >= parts > 0
    ensures width / parts > 0
  {
  }

  // ---- int64 ----------------------------------------------------------------

  predicate FitsInt64(x: int) {
    -0x8000_0000_0000_0000 <= x < 0x8000_0000_0000_0000
  }

  lemma GapFitsInt64(jobs: Jobs, action: Action, anchor: JobId, n: nat)
    requires InLimit(jobs) && n + 1 < 0x1_0000_0000 && !action.Unknown?
    requires (action.Before? || action.After?) ==> anchor in jobs
    ensures var gap := Gap(jobs, action, anchor, n); -2 * RANK_LIMIT < gap.0 < gap.1 < 2 * RANK_LIMIT
  {
  }

  lemma SpreadFitsInt64(gap: (int, int), n: nat)
    requires -2 * RANK_LIMIT < gap.0 < gap.1 < 2 * RANK_LIMIT
    ensures forall i :: 0 <= i < n ==> FitsInt64(Spread(gap, n)[i] - gap.0) && FitsInt64(Spread(gap, n)[i])
  {
    if Step(gap, n) > 0 {
      SpreadInside(gap, n);
    } else {
      assert Step(gap, n) == 0;
      assert forall i :: 0 <= i < n ==> Spread(gap, n)[i] == gap.0;
    }
  }

  /** No sum, product or difference of the allocator leaves int64 while the stored ranks are in limit. */
  lemma NoOverflow(jobs: Jobs, action: Action, anchor: JobId, n: nat)
    requires InLimit(jobs) && n + 1 < 0x1_0000_0000 && !action.Unknown?
    requires (action.Before? || action.After?) ==> anchor in jobs
    ensures FitsInt64(RANK_STEP * (n + 1))
    ensures var gap := Gap(jobs, action, anchor, n);
      && FitsInt64(gap.0) && FitsInt64(gap.1) && FitsInt64(gap.1 - gap.0)
      && forall i :: 0 <= i < n ==> FitsInt64(Spread(gap, n)[i] - gap.0) && FitsInt64(Spread(gap, n)[i])
  {
    GapFitsInt64(jobs, action, anchor, n);
    SpreadFitsInt64(Gap(jobs, action, anchor, n), n);
  }

  lemma AttemptFits(jobs: Jobs, action: Action, anchor: JobId, n: nat)
    requires InLimit(jobs) && n + 1 < 0x1_0000_0000 && !action.Unknown?
    requires (action.Before? || action.After?) ==> anchor in jobs
    ensures AllFit(jobs, action, anchor, n)
  {
    NoOverflow(jobs, action, anchor, n);
  }

  lemma LimitFits(jobs: Jobs)
    requires InLimit(jobs)
    ensures forall id :: id in jobs ==> FitsInt64(jobs[id].rank)
  {
  }

  /** Neither attempt at an allocation overflows, and the ranks a renumbering writes fit. */
  lemma AttemptsFitInt64(jobs: Jobs, action: Action, anchor: JobId, n: nat)
    requires Distinct(jobs) && InLimit(jobs) && |jobs| + n + 1 < 0x1_0000_0000 && !action.Unknown?
    requires (action.Before? || action.After?) ==> anchor in jobs
    ensures AllFit(jobs, action, anchor, n) && AllFit(Renumbered(jobs), action, anchor, n)
    ensures forall id :: id in jobs ==> FitsInt64(Renumbered(jobs)[id].rank)
  {
    RenumberedInLimit(jobs);
    AttemptFits(jobs, action, anchor, n);
    AttemptFits(Renumbered(jobs), action, anchor, n);
    LimitFits(Renumbered(jobs));
  }

  /** Every sum, product and difference of one attempt is an int64. */
  ghost predicate AllFit(jobs: Jobs, action: Action, anchor: JobId, n: nat)
    requires !action.Unknown?
    requires (action.Before? || action.After?) ==> anchor in jobs
  {
    var gap := Gap(jobs, action, anchor, n);
    && FitsInt64(RANK_STEP * (n + 1))
    && FitsInt64(gap.0) && FitsInt64(gap.1) && FitsInt64(gap.1 - gap.0)
    && forall i :: 0 <= i < n ==> FitsInt64(Spread(gap, n)[i] - gap.0) && FitsInt64(Spread(gap, n)[i])
  }
}
