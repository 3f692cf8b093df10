/** What cleanup deletes, told by the readers' progress and the settings. */
module CleanupFields {
  import opened Common
  import opened Sorting
  import opened Cleanup
  import opened CleanupSafety
  import opened CleanupRuns

  /** A reader who counts: required, and where those who have not begun are ignored, one who has completed a chapter or turned a page. */
  ghost predicate Follows(r: Rules, s: Series, x: Id) {
    x in r.required && (r.ignoreNotStarted ==>
      exists c :: c in s.states && x in s.states[c] && (s.states[c][x].completed || s.states[c][x].page > 0))
  }

  ghost predicate ReadByAll(r: Rules, s: Series, chapter: Id) {
    forall x :: Follows(r, s, x) ==> chapter in s.states && x in s.states[chapter] && s.states[chapter][x].completed
  }

  /** It was last read, or where that is not known last heard of, the grace period ago; so was the year 1. */
  ghost predicate LongRead(r: Rules, s: Series, chapter: Id, now: int)
    requires ReadByAll(r, s, chapter)
  {
    && now + 62_135_596_800_000_000_000 >= r.graceDays * 86_400_000_000_000
    && forall x :: Follows(r, s, x) ==>
         var p := s.states[chapter][x];
         now - (if p.readAt.Some? then p.readAt.value else p.syncedAt) >= r.graceDays * 86_400_000_000_000
  }

  /** The chapters with a file above a number that all have read. */
  ghost function ReadAbove(r: Rules, s: Series, number: real): set<Chapter> {
    set c | c in s.chapters && number < c.number && ReadByAll(r, s, c.id)
  }

  /** The chapter may go: all who count, and somebody does, read it long ago, and keepLastRead chapters above it. */
  ghost predicate MayGo(r: Rules, s: Series, now: int, c: Chapter) {
    && r.enabled && s.inScope && (exists x :: Follows(r, s, x))
    && c in s.chapters && ReadByAll(r, s, c.id) && LongRead(r, s, c.id, now)
    && |ReadAbove(r, s, c.number)| >= r.keepLastRead
  }

  // ---- the readers -----------------------------------------------------------------------------

  lemma RequiredFollow(r: Rules, s: Series, x: Id)
    ensures x in Required(r, s) <==> Follows(r, s, x)
  {
    FilteredMembers(r.required, Started(s.states));
  }

  lemma SomebodyFollows(r: Rules, s: Series)
    ensures Required(r, s) != [] <==> exists x :: Follows(r, s, x)
  {
    if Required(r, s) != [] {
      RequiredFollow(r, s, Required(r, s)[0]);
    }
    if x :| Follows(r, s, x) {
      RequiredFollow(r, s, x);
    }
  }

  // ---- when a chapter was finished -------------------------------------------------------------------

  lemma {:induction false} FinishedByEach(states: map<Id, map<Id, Progress>>, chapter: Id, readers: seq<Id>)
    requires forall x :: x in readers ==> chapter in states && x in states[chapter] && states[chapter][x].completed
    ensures FinishedAt(states, chapter, readers).Some?
  {
    if readers != [] {
      var n := |readers| - 1;
      assert forall x :: x in readers[..n] ==> x in readers;
      FinishedByEach(states, chapter, readers[..n]);
      assert readers[n] in readers;
    }
  }

  /** The last time is the zero time or one of the readers'. */
  lemma {:induction false} LastIsOneOf(states: map<Id, map<Id, Progress>>, chapter: Id, readers: seq<Id>)
    requires FinishedAt(states, chapter, readers).Some?
    ensures var at := FinishedAt(states, chapter, readers).value;
      at == ZERO_TIME || exists x :: x in readers && chapter in states && x in states[chapter] && at == ReadTime(states[chapter][x])
  {
    if readers != [] {
      var n := |readers| - 1;
      LastIsOneOf(states, chapter, readers[..n]);
      assert readers[n] in readers && forall x :: x in readers[..n] ==> x in readers;
    }
  }

  lemma FinishedIsRead(r: Rules, s: Series, chapter: Id)
    ensures FinishedAt(s.states, chapter, Required(r, s)).Some? <==> ReadByAll(r, s, chapter)
  {
    var readers := Required(r, s);
    if FinishedAt(s.states, chapter, readers).Some? {
      forall x | Follows(r, s, x)
        ensures chapter in s.states && x in s.states[chapter] && s.states[chapter][x].completed
      {
        RequiredFollow(r, s, x);
        EachFinished(s.states, chapter, readers, x);
      }
    }
    if ReadByAll(r, s, chapter) {
      forall x | x in readers ensures chapter in s.states && x in s.states[chapter] && s.states[chapter][x].completed {
        RequiredFollow(r, s, x);
      }
      FinishedByEach(s.states, chapter, readers);
    }
  }

  lemma GraceIsLong(r: Rules, s: Series, chapter: Id, now: int)
    requires ReadByAll(r, s, chapter) && FinishedAt(s.states, chapter, Required(r, s)).Some?
    ensures now - FinishedAt(s.states, chapter, Required(r, s)).value >= r.graceDays * DAY <==> LongRead(r, s, chapter, now)
  {
    var readers := Required(r, s);
    var at := FinishedAt(s.states, chapter, readers).value;
    FinishedSince(s.states, chapter, readers);
    LastIsOneOf(s.states, chapter, readers);
    if now - at >= r.graceDays * DAY {
      forall x | Follows(r, s, x) ensures now - ReadTime(s.states[chapter][x]) >= r.graceDays * DAY {
        RequiredFollow(r, s, x);
        EachFinished(s.states, chapter, readers, x);
      }
    } else if at != ZERO_TIME {
      var x :| x in readers && chapter in s.states && x in s.states[chapter] && at == ReadTime(s.states[chapter][x]);
      RequiredFollow(r, s, x);
    }
  }

  /** A chapter that all have read, with the time it was finished. */
  lemma ReadIsDone(r: Rules, s: Series, c: Chapter)
    requires c in s.chapters && ReadByAll(r, s, c.id)
    ensures FinishedAt(s.states, c.id, Required(r, s)).Some?
    ensures IsDone(s, Required(r, s), Done(c, FinishedAt(s.states, c.id, Required(r, s)).value))
  {
    FinishedIsRead(r, s, c.id);
  }

  lemma AboveIsReadAbove(r: Rules, s: Series, d: Done)
    ensures |Above(Finished(s, s.chapters, Required(r, s)), d)| == |ReadAbove(r, s, d.chapter.number)|
  {
    var readers := Required(r, s);
    var above := Above(Finished(s, s.chapters, readers), d);
    FinishedMembers(s, s.chapters, readers);
    Chapters(s, readers, d, above);
    forall c ensures c in ChaptersOf(above) <==> c in ReadAbove(r, s, d.chapter.number) {
      FinishedIsRead(r, s, c.id);
      if c in ReadAbove(r, s, d.chapter.number) {
        ReadIsDone(r, s, c);
        var x := Done(c, FinishedAt(s.states, c.id, readers).value);
        assert DoneIn(s, s.chapters, readers, x) && x in above;
      }
      if c in ChaptersOf(above) {
        var x :| x in above && x.chapter == c;
        assert DoneIn(s, s.chapters, readers, x);
      }
    }
    assert ChaptersOf(above) == ReadAbove(r, s, d.chapter.number);
  }

  // ---- exactly what goes -----------------------------------------------------------------------------

  lemma DeletableMayGo(r: Rules, s: Series, now: int, c: Chapter)
    ensures (exists d: Done :: d.chapter == c && Deletable(r, s, now, d)) <==> MayGo(r, s, now, c)
  {
    SomebodyFollows(r, s);
    FinishedIsRead(r, s, c.id);
    if ReadByAll(r, s, c.id) && c in s.chapters {
      var x := Done(c, FinishedAt(s.states, c.id, Required(r, s)).value);
      GraceIsLong(r, s, c.id, now);
      AboveIsReadAbove(r, s, x);
      assert Deletable(r, s, now, x) <==> MayGo(r, s, now, c);
    }
  }

  /** Cleanup plans to delete the chapters that may go, all of them and no others. */
  lemma PlansWhatMayGo(r: Rules, s: Series, now: int, c: Chapter)
    requires Distinct(s.chapters)
    ensures Goes(r, s, now, c) <==> MayGo(r, s, now, c)
  {
    DeletableMayGo(r, s, now, c);
    if Goes(r, s, now, c) {
      var d :| d in Evaluated(r, s, now).0 && d.chapter == c;
      EvaluateExactly(r, s, now, d);
    }
    if d: Done :| d.chapter == c && Deletable(r, s, now, d) {
      EvaluateExactly(r, s, now, d);
    }
  }

  /** What is due is what may go. */
  lemma DueMayGo(r: Rules, s: Series, id: Id, now: int)
    requires Distinct(s.chapters)
    ensures Due(r, s, id, now) <==> exists c: Chapter :: c.id == id && MayGo(r, s, now, c)
  {
    PlannedExactly(r, s, now, id);
    if Due(r, s, id, now) {
      var d :| d in Evaluated(r, s, now).0 && d.chapter.id == id;
      PlansWhatMayGo(r, s, now, d.chapter);
    }
    if c: Chapter :| c.id == id && MayGo(r, s, now, c) {
      PlansWhatMayGo(r, s, now, c);
    }
  }

  /** Why nothing goes: the first of these. */
  ghost predicate NothingGoesFor(r: Rules, s: Series, reason: Reason) {
    var read := set c | c in s.chapters && ReadByAll(r, s, c.id);
    if !r.enabled then reason == Disabled
    else if !s.inScope then reason == OutOfScope
    else if forall x :: !Follows(r, s, x) then reason == NobodyStarted
    else if read == {} then reason == NothingFinished
    else if |read| <= r.keepLastRead then reason == KeepingLast
    else reason == InGrace
  }

  lemma FinishedAreRead(r: Rules, s: Series)
    requires Distinct(s.chapters)
    ensures |Finished(s, s.chapters, Required(r, s))| == |set c | c in s.chapters && ReadByAll(r, s, c.id)|
  {
    var done := Finished(s, s.chapters, Required(r, s));
    var read := set c | c in s.chapters && ReadByAll(r, s, c.id);
    FinishedMembers(s, s.chapters, Required(r, s));
    FinishedDistinct(s, s.chapters, Required(r, s));
    var of := set d | d in done :: d.chapter;
    ChaptersCounted(done);
    forall c ensures c in of <==> c in read {
      FinishedIsRead(r, s, c.id);
      if c in read {
        assert DoneIn(s, s.chapters, Required(r, s), Done(c, FinishedAt(s.states, c.id, Required(r, s)).value));
      }
    }
    assert of == read;
  }

  lemma {:induction false} ChaptersCounted(done: seq<Done>)
    requires DistinctNumbers(done)
    ensures |set d | d in done :: d.chapter| == |done|
  {
    if done != [] {
      var n := |done| - 1;
      var front := done[..n];
      ChaptersCounted(front);
      assert done == front + [done[n]];
      assert (set d | d in done :: d.chapter) == (set d | d in front :: d.chapter) + {done[n].chapter};
    } else {
      assert (set d | d in done :: d.chapter) == {};
    }
  }

  lemma PlanReasons(r: Rules, s: Series, now: int, sorted: seq<Done>)
    requires Distinct(s.chapters) && sorted == StableSort(Finished(s, s.chapters, Required(r, s)), ByNumber)
    requires |sorted| == |Finished(s, s.chapters, Required(r, s))|
    ensures var (out, reason) := Evaluated(r, s, now);
      (reason.None? <==> out != []) && (reason.Some? ==> NothingGoesFor(r, s, reason.value))
  {
    SomebodyFollows(r, s);
    FinishedAreRead(r, s);
  }

  lemma PlanClimbs(r: Rules, sorted: seq<Done>, now: int)
    requires Climbs(sorted)
    ensures Climbs(Selected(r, sorted, now).0)
  {
    if Keep(r) < |sorted| {
      OutOfGraceClimbs(r, sorted[..|sorted| - Keep(r)], now);
    }
  }

  lemma SortedFinished(r: Rules, s: Series) returns (sorted: seq<Done>)
    requires Distinct(s.chapters)
    ensures sorted == StableSort(Finished(s, s.chapters, Required(r, s)), ByNumber) && Climbs(sorted)
    ensures |sorted| == |Finished(s, s.chapters, Required(r, s))|
  {
    var done := Finished(s, s.chapters, Required(r, s));
    FinishedDistinct(s, s.chapters, Required(r, s));
    SortedClimbs(done);
    sorted := StableSort(done, ByNumber);
    StableSortMembers(done, ByNumber);
  }

  /** The plan stands in rising order of the numbers; an empty one has its reason. */
  lemma PlanInOrder(r: Rules, s: Series, now: int)
    requires Distinct(s.chapters)
    ensures Climbs(Evaluated(r, s, now).0)
    ensures var (out, reason) := Evaluated(r, s, now);
      (reason.None? <==> out != []) && (reason.Some? ==> NothingGoesFor(r, s, reason.value))
  {
    var sorted := SortedFinished(r, s);
    PlanReasons(r, s, now, sorted);
    PlanClimbs(r, sorted, now);
  }

  // ---- the last ones ------------------------------------------------------------------------------------

  /** Fewer than keepLastRead chapters that all have read stand above this one, which they have read too. */
  ghost predicate OneOfTheLast(r: Rules, s: Series, c: Chapter) {
    c in s.chapters && ReadByAll(r, s, c.id) && |ReadAbove(r, s, c.number)| < r.keepLastRead
  }

  lemma LastIsAmongLast(r: Rules, s: Series, c: Chapter) returns (d: Done)
    requires OneOfTheLast(r, s, c)
    ensures d.chapter == c && AmongLast(r, s, d)
  {
    ReadIsDone(r, s, c);
    d := Done(c, FinishedAt(s.states, c.id, Required(r, s)).value);
    AboveIsReadAbove(r, s, d);
  }

  /** The last keepLastRead keep their files whatever part of a plan is removed, and are still the last. */
  lemma LastKeepTheirFiles(r: Rules, s: Series, now: int, gone: set<Id>, c: Chapter)
    requires Distinct(s.chapters) && OneOfTheLast(r, s, c) && gone <= IdsOf(Evaluated(r, s, now).0)
    ensures OneOfTheLast(r, After(s, gone), c)
  {
    var d := LastIsAmongLast(r, s, c);
    LastOnesStay(r, s, now, gone, d);
    FinishedIsRead(r, After(s, gone), c.id);
    AboveIsReadAbove(r, After(s, gone), d);
  }

  /** Over any run with anything between, a removal takes only what might go when it was planned. */
  lemma RunsDeleteOnlyWhatMightGo(s: Series, turns: seq<Turn>, k: nat, id: Id) returns (c: Chapter)
    requires Sound(s, turns) && k < |turns| && turns[k].Removes?
    requires id in Files(AfterTurns(s, turns[..k]).series) && id !in Files(AfterTurns(s, turns[..k + 1]).series)
    ensures var p := LastPlan(turns[..k]);
      p.Some? && c.id == id && MayGo(turns[p.value].rules, AfterTurns(s, turns[..p.value]).series, turns[p.value].now, c)
  {
    RunsDeleteOnlyRead(s, turns, k, id);
    var p := LastPlan(turns[..k]).value;
    assert Sound(s, turns[..p]);
    TurnsDistinct(s, turns[..p]);
    DueMayGo(turns[p].rules, AfterTurns(s, turns[..p]).series, id, turns[p].now);
    c :| c.id == id && MayGo(turns[p].rules, AfterTurns(s, turns[..p]).series, turns[p].now, c);
  }

  /** And leaves the last keepLastRead, by the progress and settings of the plan, with the files they have. */
  lemma RunsLeaveTheLast(s: Series, turns: seq<Turn>, k: nat, p: nat, c: Chapter)
    requires Sound(s, turns) && k < |turns| && turns[k].Removes? && LastPlan(turns[..k]) == Some(p)
    requires OneOfTheLast(turns[p].rules, AfterTurns(s, turns[..p]).series, c)
    requires c.id in Files(AfterTurns(s, turns[..k]).series)
    ensures c.id in Files(AfterTurns(s, turns[..k + 1]).series)
  {
    var d := LastIsAmongLast(turns[p].rules, AfterTurns(s, turns[..p]).series, c);
    RunsKeepLast(s, turns, k, p, d);
  }
}
