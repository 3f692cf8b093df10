/** Cleanup over time: a run plans first and removes one candidate after another, and anything may change between. */
module CleanupRuns {
  import opened Common
  import opened Sorting
  import opened Cleanup
  import opened CleanupSafety

  // ---- turns ------------------------------------------------------------------------------------

  /** A series, and what the last plan of cleanup asked to remove of it. */
  datatype Work = Work(series: Series, plan: seq<Done>)

  /** Cleanup plans, or removes a candidate of its plan, or something else changes states, files or scope. */
  datatype Turn =
    | Plans(rules: Rules, now: int)
    | Removes(candidate: nat)
    | Changes(to: Series)

  function Turned(w: Work, turn: Turn): Work {
    match turn
    case Plans(r, now) => w.(plan := Evaluated(r, w.series, now).0)
    case Removes(k) => if k < |w.plan| then w.(series := After(w.series, {w.plan[k].chapter.id})) else w
    case Changes(to) => w.(series := to)
  }

  function AfterTurns(s: Series, turns: seq<Turn>): Work {
    if turns == [] then Work(s, []) else
      var n := |turns| - 1;
      Turned(AfterTurns(s, turns[..n]), turns[n])
  }

  /** The last turn that planned. */
  function LastPlan(turns: seq<Turn>): (p: Option<nat>)
    ensures p.Some? ==> p.value < |turns| && turns[p.value].Plans?
  {
    if turns == [] then None else
      var n := |turns| - 1;
      if turns[n].Plans? then Some(n) else LastPlan(turns[..n])
  }

  /** Numbers stay distinct whatever changes. */
  ghost predicate Sound(s: Series, turns: seq<Turn>) {
    Distinct(s.chapters) && forall k :: 0 <= k < |turns| && turns[k].Changes? ==> Distinct(turns[k].to.chapters)
  }

  lemma {:induction false} TurnsDistinct(s: Series, turns: seq<Turn>)
    requires Sound(s, turns)
    ensures Distinct(AfterTurns(s, turns).series.chapters)
  {
    if turns != [] {
      var n := |turns| - 1;
      var before, turn := AfterTurns(s, turns[..n]), turns[n];
      TurnsDistinct(s, turns[..n]);
      if turn.Removes? && turn.candidate < |before.plan| {
        WithoutMembers(before.series.chapters, {before.plan[turn.candidate].chapter.id});
      }
    }
  }

  lemma OneTurn(s: Series, turns: seq<Turn>, k: nat)
    requires k < |turns|
    ensures AfterTurns(s, turns[..k + 1]) == Turned(AfterTurns(s, turns[..k]), turns[k])
  {
    assert turns[..k + 1][..k] == turns[..k];
  }

  // ---- what a plan may ask ----------------------------------------------------------------------

  /** The chapters that have a file. */
  function Files(s: Series): set<Id> {
    set c | c in s.chapters :: c.id
  }

  /** All effective readers, at least one, finished the chapter the grace period before now. */
  predicate Earned(r: Rules, s: Series, id: Id, now: int) {
    var at := FinishedAt(s.states, id, Required(r, s));
    Required(r, s) != [] && at.Some? && now - at.value >= r.graceDays * DAY
  }

  /** KeepLastRead other finished chapters stand above it. */
  ghost predicate Spare(r: Rules, s: Series, id: Id) {
    exists d: Done :: d.chapter.id == id && IsDone(s, Required(r, s), d) && !AmongLast(r, s, d)
  }

  ghost predicate Due(r: Rules, s: Series, id: Id, now: int) {
    r.enabled && s.inScope && Earned(r, s, id, now) && Spare(r, s, id)
  }

  lemma PlannedExactly(r: Rules, s: Series, now: int, id: Id)
    requires Distinct(s.chapters)
    ensures id in IdsOf(Evaluated(r, s, now).0) <==> Due(r, s, id, now)
  {
    if id in IdsOf(Evaluated(r, s, now).0) {
      var d :| d in Evaluated(r, s, now).0 && d.chapter.id == id;
      EvaluateExactly(r, s, now, d);
      assert !AmongLast(r, s, d);
    }
    if Due(r, s, id, now) {
      var d: Done :| d.chapter.id == id && IsDone(s, Required(r, s), d) && !AmongLast(r, s, d);
      EvaluateExactly(r, s, now, d);
      assert Deletable(r, s, now, d);
    }
  }

  // ---- any runs -----------------------------------------------------------------------------------

  /** What a removal works from is the last plan, of the series as it was then. */
  lemma {:induction false} PlanIsLast(s: Series, turns: seq<Turn>)
    ensures LastPlan(turns).None? ==> AfterTurns(s, turns).plan == []
    ensures LastPlan(turns).Some? ==> var p := LastPlan(turns).value;
      AfterTurns(s, turns).plan == Evaluated(turns[p].rules, AfterTurns(s, turns[..p]).series, turns[p].now).0
  {
    if turns != [] {
      var n := |turns| - 1;
      PlanIsLast(s, turns[..n]);
      var p := LastPlan(turns[..n]);
      if p.Some? {
        assert turns[..n][..p.value] == turns[..p.value];
      }
    }
  }

  lemma PlannedDue(s: Series, turns: seq<Turn>, id: Id)
    requires Sound(s, turns) && id in IdsOf(AfterTurns(s, turns).plan)
    ensures var p := LastPlan(turns);
      p.Some? && Due(turns[p.value].rules, AfterTurns(s, turns[..p.value]).series, id, turns[p.value].now)
  {
    PlanIsLast(s, turns);
    var p := LastPlan(turns).value;
    assert Sound(s, turns[..p]);
    TurnsDistinct(s, turns[..p]);
    PlannedExactly(turns[p].rules, AfterTurns(s, turns[..p]).series, turns[p].now, id);
  }

  /** The k-th turn removes a candidate, and the chapter is it. */
  ghost predicate TakenAt(s: Series, turns: seq<Turn>, k: nat, id: Id)
    requires k < |turns|
  {
    var w := AfterTurns(s, turns[..k]);
    turns[k].Removes? && turns[k].candidate < |w.plan| && w.plan[turns[k].candidate].chapter.id == id
  }

  lemma RemovalTakes(w: Work, k: nat, id: Id)
    ensures id in Files(Turned(w, Removes(k)).series) <==>
      id in Files(w.series) && !(k < |w.plan| && w.plan[k].chapter.id == id)
  {
    if k < |w.plan| {
      WithoutMembers(w.series.chapters, {w.plan[k].chapter.id});
    }
  }

  /** Whatever happens between, cleanup takes no file of a chapter that was not earned and spare when it was planned. */
  lemma RunsDeleteOnlyRead(s: Series, turns: seq<Turn>, k: nat, id: Id)
    requires Sound(s, turns) && k < |turns| && turns[k].Removes?
    requires id in Files(AfterTurns(s, turns[..k]).series) && id !in Files(AfterTurns(s, turns[..k + 1]).series)
    ensures var p := LastPlan(turns[..k]);
      p.Some? && Due(turns[p.value].rules, AfterTurns(s, turns[..p.value]).series, id, turns[p.value].now)
  {
    OneTurn(s, turns, k);
    var w := AfterTurns(s, turns[..k]);
    RemovalTakes(w, turns[k].candidate, id);
    assert w.plan[turns[k].candidate] in w.plan;
    PlannedDue(s, turns[..k], id);
    var p := LastPlan(turns[..k]).value;
    assert turns[..k][..p] == turns[..p];
  }

  /** The last finished chapters, by the rules and states of a plan, keep the files they have through its removals. */
  lemma RunsKeepLast(s: Series, turns: seq<Turn>, k: nat, p: nat, d: Done)
    requires Sound(s, turns) && k < |turns| && turns[k].Removes? && LastPlan(turns[..k]) == Some(p)
    requires AmongLast(turns[p].rules, AfterTurns(s, turns[..p]).series, d)
    requires d.chapter.id in Files(AfterTurns(s, turns[..k]).series)
    ensures d.chapter.id in Files(AfterTurns(s, turns[..k + 1]).series)
  {
    if d.chapter.id !in Files(AfterTurns(s, turns[..k + 1]).series) {
      RunsDeleteOnlyRead(s, turns, k, d.chapter.id);
      assert Sound(s, turns[..p]);
      TurnsDistinct(s, turns[..p]);
      LastIsNotSpare(turns[p].rules, AfterTurns(s, turns[..p]).series, d);
    }
  }

  lemma LastIsNotSpare(r: Rules, s: Series, d: Done)
    requires Distinct(s.chapters) && AmongLast(r, s, d)
    ensures !Spare(r, s, d.chapter.id)
  {
    forall x: Done | x.chapter.id == d.chapter.id && IsDone(s, Required(r, s), x) ensures AmongLast(r, s, x) {
      SameChapter(s, x.chapter, d.chapter);
    }
  }

  /** Apart from cleanup nothing gives the chapter a file or takes it. */
  ghost predicate Untouched(s: Series, turns: seq<Turn>, id: Id) {
    forall k :: 0 <= k < |turns| && turns[k].Changes? ==>
      (id in Files(turns[k].to) <==> id in Files(AfterTurns(s, turns[..k]).series))
  }

  ghost predicate NeverTaken(s: Series, turns: seq<Turn>, id: Id) {
    forall k :: 0 <= k < |turns| ==> !TakenAt(s, turns, k, id)
  }

  ghost predicate Takes(w: Work, turn: Turn, id: Id) {
    turn.Removes? && turn.candidate < |w.plan| && w.plan[turn.candidate].chapter.id == id
  }

  lemma AllButLast(s: Series, turns: seq<Turn>, id: Id, front: seq<Turn>, last: Turn)
    requires turns == front + [last]
    ensures AfterTurns(s, turns) == Turned(AfterTurns(s, front), last)
    ensures NeverTaken(s, turns, id) <==> NeverTaken(s, front, id) && !Takes(AfterTurns(s, front), last, id)
    ensures Untouched(s, turns, id) ==> Untouched(s, front, id)
    ensures Untouched(s, turns, id) && last.Changes? ==> (id in Files(last.to) <==> id in Files(AfterTurns(s, front).series))
  {
    var n := |front|;
    assert turns[..n] == front && turns[n] == last;
    forall k | 0 <= k < n ensures front[..k] == turns[..k] && front[k] == turns[k] {
    }
    forall k | 0 <= k < n ensures TakenAt(s, front, k, id) <==> TakenAt(s, turns, k, id) {
    }
    if !NeverTaken(s, turns, id) {
      var k :| 0 <= k < |turns| && TakenAt(s, turns, k, id);
      assert k < n ==> TakenAt(s, front, k, id);
    }
    assert TakenAt(s, turns, n, id) <==> Takes(AfterTurns(s, front), last, id);
  }

  lemma LastTurn(w: Work, turn: Turn, id: Id)
    requires turn.Changes? ==> (id in Files(turn.to) <==> id in Files(w.series))
    ensures id in Files(Turned(w, turn).series) <==> id in Files(w.series) && !Takes(w, turn, id)
  {
    if turn.Removes? {
      RemovalTakes(w, turn.candidate, id);
    }
  }

  /** A chapter has its file at the end exactly when it had it and no removal of a candidate was it. */
  lemma {:induction false} RunsTakeExactly(s: Series, turns: seq<Turn>, id: Id)
    requires Untouched(s, turns, id)
    ensures id in Files(AfterTurns(s, turns).series) <==> id in Files(s) && NeverTaken(s, turns, id)
  {
    if turns != [] {
      var front, last := turns[..|turns| - 1], turns[|turns| - 1];
      AllButLast(s, turns, id, front, last);
      RunsTakeExactly(s, front, id);
      LastTurn(AfterTurns(s, front), last, id);
    }
  }

  // ---- what comes between a plan and a removal -------------------------------------------------------

  lemma {:induction false} ClimbingApart(sorted: seq<Done>, done: seq<Done>, keep: nat)
    requires Climbs(sorted) && keep <= |sorted| && forall x :: x in sorted <==> x in done
    ensures forall x :: x in sorted[|sorted| - keep..] ==> x in done && |Above(done, x)| < keep
  {
    var tail := sorted[|sorted| - keep..];
    forall x | x in tail ensures x in done && |Above(done, x)| < keep {
      var i :| 0 <= i < |tail| && tail[i] == x;
      assert sorted[|sorted| - keep + i] == x;
      AboveInOrder(sorted, |sorted| - keep + i);
      SameAbove(sorted, done, x);
    }
  }

  /** The last few stand above every other finished chapter. */
  lemma LastStandAbove(r: Rules, s: Series, d: Done) returns (last: seq<Done>)
    requires Distinct(s.chapters) && IsDone(s, Required(r, s), d) && !AmongLast(r, s, d)
    ensures Climbs(last) && |last| == Keep(r)
    ensures forall x :: x in last ==> AmongLast(r, s, x) && d.chapter.number < x.chapter.number
  {
    var done := Finished(s, s.chapters, Required(r, s));
    var sorted := StableSort(done, ByNumber);
    FinishedMembers(s, s.chapters, Required(r, s));
    FinishedDistinct(s, s.chapters, Required(r, s));
    SortedClimbs(done);
    assert DoneIn(s, s.chapters, Required(r, s), d);
    last := LastFew(sorted, done, Keep(r), d);
    forall x | x in last ensures AmongLast(r, s, x) {
      assert DoneIn(s, s.chapters, Required(r, s), x);
    }
  }

  lemma LastFew(sorted: seq<Done>, done: seq<Done>, keep: nat, d: Done) returns (last: seq<Done>)
    requires Climbs(sorted) && (forall x :: x in sorted <==> x in done) && d in done && |Above(done, d)| >= keep
    ensures Climbs(last) && |last| == keep
    ensures forall x :: x in last ==> x in done && |Above(done, x)| < keep && d.chapter.number < x.chapter.number
  {
    var i :| 0 <= i < |sorted| && sorted[i] == d;
    AboveInOrder(sorted, i);
    SameAbove(sorted, done, d);
    last := sorted[|sorted| - keep..];
    ClimbingApart(sorted, done, keep);
    forall x | x in last ensures d.chapter.number < x.chapter.number {
      var j :| 0 <= j < |last| && last[j] == x;
      assert sorted[|sorted| - keep + j] == x;
    }
  }

  /** Removing some of a plan leaves the rest of it due: what it keeps above a chapter stays there. */
  lemma StaysDue(r: Rules, s: Series, now: int, gone: set<Id>, id: Id)
    requires Distinct(s.chapters) && gone <= IdsOf(Evaluated(r, s, now).0)
    requires Due(r, s, id, now) && id !in gone
    ensures Due(r, After(s, gone), id, now)
  {
    var d: Done :| d.chapter.id == id && IsDone(s, Required(r, s), d) && !AmongLast(r, s, d);
    var t := After(s, gone);
    WithoutMembers(s.chapters, gone);
    var last := LastStandAbove(r, s, d);
    var above := Above(Finished(t, t.chapters, Required(r, t)), d);
    FinishedMembers(t, t.chapters, Required(r, t));
    forall x | x in last ensures x in above {
      LastOnesStay(r, s, now, gone, x);
      assert DoneIn(t, t.chapters, Required(r, t), x);
    }
    SetOfDistinct(last);
    PartIsSmaller((set x | x in last), above);
    assert !AmongLast(r, t, d);
  }

  /** What the removals take from a plan. */
  function Gone(plan: seq<Done>, removals: seq<Turn>): set<Id> {
    set k | 0 <= k < |removals| && removals[k].Removes? && removals[k].candidate < |plan| :: plan[removals[k].candidate].chapter.id
  }

  ghost predicate AllRemovals(turns: seq<Turn>) {
    forall k :: 0 <= k < |turns| ==> turns[k].Removes?
  }

  lemma GoneLast(plan: seq<Done>, front: seq<Turn>, last: Turn)
    requires last.Removes?
    ensures Gone(plan, front + [last]) ==
      Gone(plan, front) + if last.candidate < |plan| then {plan[last.candidate].chapter.id} else {}
  {
    var all := front + [last];
    assert forall k :: 0 <= k < |front| ==> all[k] == front[k];
    assert all[|front|] == last;
    forall id | id in Gone(plan, front) ensures id in Gone(plan, all) {
      var k :| 0 <= k < |front| && front[k].Removes? && front[k].candidate < |plan| && plan[front[k].candidate].chapter.id == id;
      assert all[k] == front[k];
    }
  }

  /** A plan and then removals only. */
  lemma {:induction false} Undisturbed(s: Series, r: Rules, now: int, removals: seq<Turn>)
    requires AllRemovals(removals)
    ensures var plan := Evaluated(r, s, now).0;
      AfterTurns(s, [Plans(r, now)] + removals) == Work(After(s, Gone(plan, removals)), plan)
  {
    var plan := Evaluated(r, s, now).0;
    if removals == [] {
      OneTurn(s, [Plans(r, now)], 0);
      assert [Plans(r, now)] + removals == [Plans(r, now)] == [Plans(r, now)][..1];
      assert Gone(plan, removals) == {};
      NothingGone(s);
    } else {
      var front, last := removals[..|removals| - 1], removals[|removals| - 1];
      assert removals == front + [last];
      Undisturbed(s, r, now, front);
      GoneLast(plan, front, last);
      var turns := [Plans(r, now)] + removals;
      assert turns[..|turns| - 1] == [Plans(r, now)] + front;
      if last.candidate < |plan| {
        GoneTogether(s.chapters, Gone(plan, front), {plan[last.candidate].chapter.id});
      } else {
        assert Gone(plan, front) + {} == Gone(plan, front);
      }
    }
  }

  /** While nothing else happens, what is still to be removed is earned and spare at the moment it is removed. */
  lemma UndisturbedIsDue(s: Series, r: Rules, now: int, removals: seq<Turn>, id: Id)
    requires Distinct(s.chapters) && AllRemovals(removals)
    requires var w := AfterTurns(s, [Plans(r, now)] + removals); id in IdsOf(w.plan) && id in Files(w.series)
    ensures Due(r, AfterTurns(s, [Plans(r, now)] + removals).series, id, now)
  {
    var plan := Evaluated(r, s, now).0;
    Undisturbed(s, r, now, removals);
    WithoutMembers(s.chapters, Gone(plan, removals));
    PlannedExactly(r, s, now, id);
    GoneArePlanned(plan, removals);
    StaysDue(r, s, now, Gone(plan, removals), id);
  }

  lemma GoneArePlanned(plan: seq<Done>, removals: seq<Turn>)
    ensures Gone(plan, removals) <= IdsOf(plan)
  {
    forall id | id in Gone(plan, removals) ensures id in IdsOf(plan) {
      var k :| 0 <= k < |removals| && removals[k].Removes? && removals[k].candidate < |plan| && plan[removals[k].candidate].chapter.id == id;
      assert plan[removals[k].candidate] in plan;
    }
  }

  /** One chapter that its reader has finished, and the rules that let it go. */
  const READ: Chapter := Chapter(1, 1.0, 1)
  const AT_ONCE: Rules := Rules(true, [1], false, 0, 0)
  const BEFORE: Series := Series(true, [READ], map[1 := map[1 := Progress(true, 1, Some(0), 0)]])

  /** Between the plan and the removal the reader starts over and a new file is imported. */
  const BETWEEN: Series := Series(true, [READ.(file := 2)], map[1 := map[1 := Progress(false, 0, None, 0)]])

  const TURNS: seq<Turn> := [Plans(AT_ONCE, 0), Changes(BETWEEN), Removes(0)]

  lemma PlansIt()
    ensures Evaluated(AT_ONCE, BEFORE, 0).0 == [Done(READ, 0)]
  {
    var readers := AT_ONCE.required;
    assert readers[..0] == [] && BEFORE.chapters[..0] == [];
    assert FinishedAt(BEFORE.states, 1, readers) == Some(0);
    var done := [Done(READ, 0)];
    assert Finished(BEFORE, BEFORE.chapters, readers) == [] + done;
    assert done[..0] == [];
    StableSortMembers(done, ByNumber);
    assert done[..1] == done;
    assert OutOfGrace(AT_ONCE, done, 0) == [] + done;
  }

  lemma NobodyRead(now: int)
    ensures !Earned(AT_ONCE, BETWEEN, 1, now)
  {
    assert AT_ONCE.required[0] == 1;
  }

  lemma LosesIt()
    ensures 1 in Files(BETWEEN) && 1 !in Files(After(BETWEEN, {1}))
  {
    assert READ.(file := 2) in BETWEEN.chapters;
    WithoutMembers(BETWEEN.chapters, {1});
  }

  lemma ThreeTurns()
    ensures AfterTurns(BEFORE, TURNS[..2]).series == BETWEEN
    ensures AfterTurns(BEFORE, TURNS).series == After(BETWEEN, {1})
  {
    PlansIt();
    OneTurn(BEFORE, TURNS, 0);
    OneTurn(BEFORE, TURNS, 1);
    OneTurn(BEFORE, TURNS, 2);
    assert TURNS[..0] == [] && TURNS[..3] == TURNS;
  }

  /** A removal does not look again: it takes the new file, which nobody has read. */
  lemma NewFileIsTaken()
    ensures Sound(BEFORE, TURNS) && AfterTurns(BEFORE, TURNS[..2]).series == BETWEEN
    ensures 1 in Files(BETWEEN) && forall now :: !Earned(AT_ONCE, BETWEEN, 1, now)
    ensures 1 !in Files(AfterTurns(BEFORE, TURNS).series)
  {
    ThreeTurns();
    LosesIt();
    forall now ensures !Earned(AT_ONCE, BETWEEN, 1, now) {
      NobodyRead(now);
    }
  }

  // ---- the shelf ------------------------------------------------------------------------------------

  /** The files of a series and the plan, as cleanup changes them. */
  class Shelf {
    var series: Series
    var plan: seq<Done>

    function Now(): Work reads this { Work(series, plan) }

    constructor (series: Series)
      ensures Now() == Work(series, [])
    {
      this.series, plan := series, [];
    }

    method Plan(r: Rules, now: int)
      modifies this
      ensures Now() == Turned(old(Now()), Plans(r, now))
    {
      var out, reason := Evaluate(r, series, now);
      plan := out;
    }

    /** remove: the chapter of the candidate loses the file it has now. */
    method Remove(candidate: nat)
      requires candidate < |plan|
      modifies this
      ensures Now() == Turned(old(Now()), Removes(candidate))
    {
      series := series.(chapters := Without(series.chapters, {plan[candidate].chapter.id}));
    }

    /** Run with nothing between: plan, and unless it is a dry run remove each candidate; some removals may fail. */
    method Clean(r: Rules, now: int, dryRun: bool, force: bool, failing: set<Id>) returns (deleted: nat)
      requires Distinct(series.chapters)
      modifies this
      ensures plan == Evaluated(r, old(series), now).0
      ensures series == if dryRun && !force then old(series) else After(old(series), IdsOf(plan) - failing)
      ensures deleted == if dryRun && !force then 0 else |IdsOf(plan) - failing|
    {
      PlannedApart(r, series, now);
      Plan(r, now);
      deleted := 0;
      if !dryRun || force {
        deleted := RemoveAll(failing);
      }
    }

    method RemoveAll(failing: set<Id>) returns (deleted: nat)
      requires DistinctIds(plan)
      modifies this
      ensures plan == old(plan)
      ensures series == After(old(series), IdsOf(plan) - failing) && deleted == |IdsOf(plan) - failing|
    {
      deleted := 0;
      ghost var was := series;
      NothingGone(was);
      assert IdsOf(plan[..0]) - failing == {};
      for i := 0 to |plan|
        invariant plan == old(plan)
        invariant series == After(was, IdsOf(plan[..i]) - failing) && deleted == |IdsOf(plan[..i]) - failing|
      {
        OneMoreGone(was, plan, i, failing);
        OneMoreCounted(plan, i, failing);
        if plan[i].chapter.id !in failing {
          Remove(i);
          deleted := deleted + 1;
        }
      }
      assert plan[..|plan|] == plan;
    }
  }
}
