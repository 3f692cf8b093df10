/** What cleanup deletes, exactly, and what it never does over many runs. */
module CleanupSafety {
  import opened Common
  import opened Sorting
  import opened Cleanup

  /** Chapter ids are keys, and no two chapters of a series share a number. */
  ghost predicate Distinct(chapters: seq<Chapter>) {
    forall i, j :: 0 <= i < j < |chapters| ==> chapters[i].id != chapters[j].id && chapters[i].number != chapters[j].number
  }

  // ---- finished chapters --------------------------------------------------------------------

  /** d is a chapter of the series that all the readers finished, the last of them at d.lastAt. */
  predicate IsDone(s: Series, readers: seq<Id>, d: Done) {
    d.chapter in s.chapters && FinishedAt(s.states, d.chapter.id, readers) == Some(d.lastAt)
  }

  predicate DoneIn(s: Series, chapters: seq<Chapter>, readers: seq<Id>, d: Done) {
    d.chapter in chapters && FinishedAt(s.states, d.chapter.id, readers) == Some(d.lastAt)
  }

  lemma {:induction false} FinishedMembers(s: Series, chapters: seq<Chapter>, readers: seq<Id>)
    ensures forall d :: d in Finished(s, chapters, readers) <==> DoneIn(s, chapters, readers, d)
  {
    if chapters != [] {
      var n := |chapters| - 1;
      FinishedMembers(s, chapters[..n], readers);
      assert chapters == chapters[..n] + [chapters[n]];
    }
  }

  /** Distinct numbers, in a list of finished chapters. */
  ghost predicate DistinctNumbers(done: seq<Done>) {
    forall i, j :: 0 <= i < j < |done| ==> done[i].chapter.number != done[j].chapter.number
  }

  lemma {:induction false} FinishedDistinct(s: Series, chapters: seq<Chapter>, readers: seq<Id>)
    requires Distinct(chapters)
    ensures DistinctNumbers(Finished(s, chapters, readers))
  {
    if chapters != [] {
      var n := |chapters| - 1;
      FinishedDistinct(s, chapters[..n], readers);
      FinishedMembers(s, chapters[..n], readers);
      var f := Finished(s, chapters[..n], readers);
      forall i | 0 <= i < |f| ensures f[i].chapter.number != chapters[n].number {
        assert f[i] in f;
        var k :| 0 <= k < n && chapters[..n][k] == f[i].chapter;
      }
    }
  }

  /** all lt each later one */
  ghost predicate Climbs(done: seq<Done>) {
    forall i, j :: 0 <= i < j < |done| ==> done[i].chapter.number < done[j].chapter.number
  }

  lemma SortedClimbs(done: seq<Done>)
    requires DistinctNumbers(done)
    ensures Climbs(StableSort(done, ByNumber))
    ensures forall d :: d in StableSort(done, ByNumber) <==> d in done
  {
    var r := StableSort(done, ByNumber);
    var tie := (a: Done, b: Done) => a.chapter.number != b.chapter.number;
    StableSortMembers(done, ByNumber);
    StableSortSorts(done, ByNumber, tie);
    forall i, j | 0 <= i < j < |r| ensures r[i].chapter.number < r[j].chapter.number {
      assert Then(ByNumber, tie)(r[i], r[j]);
    }
  }

  lemma {:induction false} OutOfGraceMembers(r: Rules, done: seq<Done>, now: int)
    ensures forall d :: d in OutOfGrace(r, done, now) <==> d in done && GracePassed(r, d, now)
  {
    if done != [] {
      var n := |done| - 1;
      OutOfGraceMembers(r, done[..n], now);
      assert done == done[..n] + [done[n]];
    }
  }

  // ---- how many stand above -----------------------------------------------------------------

  /** The finished chapters numbered above d. */
  function Above(done: seq<Done>, d: Done): set<Done> {
    set x | x in done && d.chapter.number < x.chapter.number
  }

  lemma {:induction false} SetOfDistinct(t: seq<Done>)
    requires Climbs(t)
    ensures |set x | x in t| == |t|
  {
    if t != [] {
      var n := |t| - 1;
      var front := t[..n];
      SetOfDistinct(front);
      assert t == front + [t[n]];
      assert (set x | x in t) == (set x | x in front) + {t[n]};
      assert forall x :: x in front ==> x.chapter.number < t[n].chapter.number;
    } else {
      assert (set x | x in t) == {};
    }
  }

  lemma AboveInOrder(s: seq<Done>, i: nat)
    requires Climbs(s) && i < |s|
    ensures |Above(s, s[i])| == |s| - 1 - i
  {
    var t := s[i + 1..];
    forall x ensures x in Above(s, s[i]) <==> x in t {
      if x in Above(s, s[i]) {
        var k :| 0 <= k < |s| && s[k] == x;
        assert i < k && t[k - i - 1] == x;
      }
      if x in t {
        var k :| 0 <= k < |t| && t[k] == x;
        assert s[k + i + 1] == x;
      }
    }
    assert Above(s, s[i]) == set x | x in t;
    SetOfDistinct(t);
  }

  /** In a climbing list, standing before the last keep is having keep above. */
  lemma BeforeTheLast(s: seq<Done>, keep: nat, d: Done)
    requires Climbs(s) && d in s && keep <= |s|
    ensures d in s[..|s| - keep] <==> |Above(s, d)| >= keep
  {
    var i :| 0 <= i < |s| && s[i] == d;
    AboveInOrder(s, i);
    if i < |s| - keep {
      assert s[..|s| - keep][i] == d;
    } else {
      var part := s[..|s| - keep];
      forall k | 0 <= k < |part| ensures part[k] != d {
        assert s[k].chapter.number < s[i].chapter.number;
      }
    }
  }

  lemma SameAbove(a: seq<Done>, b: seq<Done>, d: Done)
    requires forall x :: x in a <==> x in b
    ensures Above(a, d) == Above(b, d)
  {
  }

  // ---- exactly what may go --------------------------------------------------------------------

  /** d may be deleted: finished by all effective required readers, keepLastRead more finished above it, and out of grace. */
  ghost predicate Deletable(r: Rules, s: Series, now: int, d: Done) {
    var required := Required(r, s);
    && r.enabled && s.inScope && required != []
    && IsDone(s, required, d)
    && |Above(Finished(s, s.chapters, required), d)| >= r.keepLastRead
    && GracePassed(r, d, now)
  }

  /** Evaluate returns the deletable chapters and no others. */
  lemma EvaluateExactly(r: Rules, s: Series, now: int, d: Done)
    requires Distinct(s.chapters)
    ensures d in Evaluated(r, s, now).0 <==> Deletable(r, s, now, d)
  {
    var required := Required(r, s);
    if r.enabled && s.inScope && required != [] {
      var done := Finished(s, s.chapters, required);
      FinishedMembers(s, s.chapters, required);
      FinishedDistinct(s, s.chapters, required);
      SortedClimbs(done);
      SortedExactly(r, done, StableSort(done, ByNumber), now, d);
    }
  }

  lemma SortedExactly(r: Rules, done: seq<Done>, sorted: seq<Done>, now: int, d: Done)
    requires Climbs(sorted) && forall x :: x in sorted <==> x in done
    ensures var out := if sorted == [] || Keep(r) >= |sorted| then [] else OutOfGrace(r, sorted[..|sorted| - Keep(r)], now);
      d in out <==> d in done && |Above(done, d)| >= Keep(r) && GracePassed(r, d, now)
  {
    SameAbove(done, sorted, d);
    if sorted != [] && Keep(r) < |sorted| {
      OutOfGraceMembers(r, sorted[..|sorted| - Keep(r)], now);
      if d in sorted {
        BeforeTheLast(sorted, Keep(r), d);
      }
    } else if d in sorted {
      BeforeTheLast(sorted, |sorted|, d);
    }
  }

  // ---- stricter rules delete less -----------------------------------------------------------------

  lemma {:induction false} MoreReadersFinishLater(states: map<Id, map<Id, Progress>>, chapter: Id, fewer: seq<Id>, more: seq<Id>)
    requires forall x :: x in fewer ==> x in more
    requires FinishedAt(states, chapter, more).Some?
    ensures FinishedAt(states, chapter, fewer).Some?
    ensures FinishedAt(states, chapter, fewer).value <= FinishedAt(states, chapter, more).value
  {
    if fewer == [] {
      FinishedSince(states, chapter, more);
    } else {
      var n := |fewer| - 1;
      assert forall x :: x in fewer[..n] ==> x in fewer;
      MoreReadersFinishLater(states, chapter, fewer[..n], more);
      assert fewer[n] in more;
      EachFinished(states, chapter, more, fewer[n]);
    }
  }

  lemma {:induction false} FinishedSince(states: map<Id, map<Id, Progress>>, chapter: Id, readers: seq<Id>)
    requires FinishedAt(states, chapter, readers).Some?
    ensures ZERO_TIME <= FinishedAt(states, chapter, readers).value
  {
    if readers != [] {
      FinishedSince(states, chapter, readers[..|readers| - 1]);
    }
  }

  /** Each of the readers has finished, none after the time given. */
  lemma {:induction false} EachFinished(states: map<Id, map<Id, Progress>>, chapter: Id, readers: seq<Id>, x: Id)
    requires FinishedAt(states, chapter, readers).Some? && x in readers
    ensures chapter in states && x in states[chapter] && states[chapter][x].completed
    ensures ReadTime(states[chapter][x]) <= FinishedAt(states, chapter, readers).value
  {
    var n := |readers| - 1;
    if readers[n] != x {
      assert readers == readers[..n] + [readers[n]];
      EachFinished(states, chapter, readers[..n], x);
    }
  }

  /** Of this series r2 asks for at least what r1 does: the same effective readers and more, more kept, more grace. */
  predicate Stricter(r1: Rules, r2: Rules, s: Series) {
    && (r2.enabled ==> r1.enabled)
    && Required(r1, s) != [] && (forall x :: x in Required(r1, s) ==> x in Required(r2, s))
    && r1.keepLastRead <= r2.keepLastRead && r1.graceDays <= r2.graceDays
  }

  predicate Goes(r: Rules, s: Series, now: int, c: Chapter) {
    exists d :: d in Evaluated(r, s, now).0 && d.chapter == c
  }

  /** What the stricter rules let go, the looser ones do too: a smaller finished set keeps no fewer of its chapters. */
  lemma CleanupIsAntitone(r1: Rules, r2: Rules, s: Series, now: int, c: Chapter)
    requires Distinct(s.chapters) && Stricter(r1, r2, s) && Goes(r2, s, now, c)
    ensures Goes(r1, s, now, c)
  {
    var d2 :| d2 in Evaluated(r2, s, now).0 && d2.chapter == c;
    EvaluateExactly(r2, s, now, d2);
    var fewer, more := Required(r1, s), Required(r2, s);
    MoreReadersFinishLater(s.states, c.id, fewer, more);
    var d1 := Done(c, FinishedAt(s.states, c.id, fewer).value);
    MoreAbove(s, fewer, more, d1, d2);
    assert r1.graceDays * DAY <= r2.graceDays * DAY;
    EvaluateExactly(r1, s, now, d1);
    assert Deletable(r1, s, now, d1);
  }

  lemma {:induction false} FilteredMembers(readers: seq<Id>, keep: set<Id>)
    ensures forall x :: x in Filtered(readers, keep) <==> x in readers && x in keep
  {
    if readers != [] {
      var n := |readers| - 1;
      FilteredMembers(readers[..n], keep);
      assert readers == readers[..n] + [readers[n]];
    }
  }

  /** Rules of one kind, that both ignore readers who have not started or both do not, compare by their own readers. */
  lemma StricterByRules(r1: Rules, r2: Rules, s: Series)
    requires (r2.enabled ==> r1.enabled) && r1.ignoreNotStarted == r2.ignoreNotStarted
    requires r1.required != [] && forall x :: x in r1.required ==> x in r2.required
    requires r1.ignoreNotStarted ==> exists x :: x in r1.required && x in Started(s.states)
    requires r1.keepLastRead <= r2.keepLastRead && r1.graceDays <= r2.graceDays
    ensures Stricter(r1, r2, s)
  {
    FilteredMembers(r1.required, Started(s.states));
    FilteredMembers(r2.required, Started(s.states));
    if r1.ignoreNotStarted {
      var x :| x in r1.required && x in Started(s.states);
      assert x in Required(r1, s);
    }
  }

  /** Without a reader there is nothing to compare: raising no more than the required readers can let chapters go. */
  lemma MoreReadersCanDelete() returns (r1: Rules, r2: Rules, s: Series, now: int, c: Chapter)
    ensures r2 == r1.(required := r2.required) && forall x :: x in r1.required ==> x in r2.required
    ensures Distinct(s.chapters) && Goes(r2, s, now, c) && !Goes(r1, s, now, c)
  {
    c, now := Chapter(1, 1.0, 1), 0;
    r1 := Rules(true, [], false, 0, 0);
    r2 := r1.(required := [1]);
    s := Series(true, [c], map[1 := map[1 := Progress(true, 1, Some(0), 0)]]);
    var d := Done(c, 0);
    assert FinishedAt(s.states, 1, [1][..0]) == Some(ZERO_TIME);
    assert IsDone(s, [1], d);
    EvaluateExactly(r2, s, now, d);
    assert Deletable(r2, s, now, d);
  }

  lemma MoreAbove(s: Series, fewer: seq<Id>, more: seq<Id>, d1: Done, d2: Done)
    requires forall x :: x in fewer ==> x in more
    requires d1.chapter == d2.chapter
    ensures |Above(Finished(s, s.chapters, more), d2)| <= |Above(Finished(s, s.chapters, fewer), d1)|
  {
    FinishedMembers(s, s.chapters, more);
    FinishedMembers(s, s.chapters, fewer);
    var a, b := Above(Finished(s, s.chapters, more), d2), Above(Finished(s, s.chapters, fewer), d1);
    forall x | x in a ensures exists y :: y in b && y.chapter == x.chapter {
      MoreReadersFinishLater(s.states, x.chapter.id, fewer, more);
      var y := Done(x.chapter, FinishedAt(s.states, x.chapter.id, fewer).value);
      assert DoneIn(s, s.chapters, fewer, y);
      assert y in b;
    }
    Chapters(s, more, d2, a);
    Chapters(s, fewer, d1, b);
    PartIsSmaller(ChaptersOf(a), ChaptersOf(b));
  }

  function ChaptersOf(done: set<Done>): set<Chapter> {
    set d | d in done :: d.chapter
  }

  /** A finished chapter has one finishing time, so counting chapters is counting finished ones. */
  lemma Chapters(s: Series, readers: seq<Id>, d: Done, done: set<Done>)
    requires done == Above(Finished(s, s.chapters, readers), d)
    ensures |ChaptersOf(done)| == |done|
  {
    FinishedMembers(s, s.chapters, readers);
    forall x, y | x in done && y in done && x.chapter == y.chapter ensures x == y {
      assert DoneIn(s, s.chapters, readers, x) && DoneIn(s, s.chapters, readers, y);
    }
    OneEach(done);
  }

  lemma {:induction false} OneEach(done: set<Done>)
    requires forall x, y :: x in done && y in done && x.chapter == y.chapter ==> x == y
    ensures |ChaptersOf(done)| == |done|
  {
    if done != {} {
      var x :| x in done;
      OneEach(done - {x});
      assert ChaptersOf(done) == ChaptersOf(done - {x}) + {x.chapter};
      assert x.chapter !in ChaptersOf(done - {x});
    } else {
      assert ChaptersOf(done) == {};
    }
  }

  // ---- runs ------------------------------------------------------------------------------------------

  function Without(chapters: seq<Chapter>, gone: set<Id>): seq<Chapter> {
    if chapters == [] then [] else
      var n := |chapters| - 1;
      var rest := Without(chapters[..n], gone);
      if chapters[n].id in gone then rest else rest + [chapters[n]]
  }

  /** The series once the files of some chapters are gone: a cleaned chapter has no file, its states stay. */
  function After(s: Series, gone: set<Id>): Series {
    s.(chapters := Without(s.chapters, gone))
  }

  function IdsOf(done: seq<Done>): set<Id> {
    set d | d in done :: d.chapter.id
  }

  lemma {:induction false} WithoutMembers(chapters: seq<Chapter>, gone: set<Id>)
    ensures forall c :: c in Without(chapters, gone) <==> c in chapters && c.id !in gone
    ensures Distinct(chapters) ==> Distinct(Without(chapters, gone))
  {
    if chapters != [] {
      var n := |chapters| - 1;
      WithoutMembers(chapters[..n], gone);
      assert chapters == chapters[..n] + [chapters[n]];
      if Distinct(chapters) {
        var w := Without(chapters[..n], gone);
        forall i | 0 <= i < |w| ensures w[i].id != chapters[n].id && w[i].number != chapters[n].number {
          assert w[i] in w;
          var k :| 0 <= k < n && chapters[..n][k] == w[i];
        }
      }
    }
  }

  /** Fewer files, fewer finished chapters, and fewer above each. */
  lemma AboveShrinks(s: Series, gone: set<Id>, readers: seq<Id>, d: Done)
    ensures var t := After(s, gone);
      && (IsDone(t, readers, d) ==> IsDone(s, readers, d))
      && |Above(Finished(t, t.chapters, readers), d)| <= |Above(Finished(s, s.chapters, readers), d)|
  {
    var t := After(s, gone);
    WithoutMembers(s.chapters, gone);
    FinishedMembers(s, s.chapters, readers);
    FinishedMembers(t, t.chapters, readers);
    var a, b := Above(Finished(t, t.chapters, readers), d), Above(Finished(s, s.chapters, readers), d);
    forall x | x in a ensures x in b {
      assert DoneIn(t, t.chapters, readers, x);
      assert DoneIn(s, s.chapters, readers, x);
    }
    PartIsSmaller(a, b);
  }

  /** Whatever is deleted, somebody had to read it, all who had to did, and each at least the grace period ago. */
  lemma DeletedWasRead(r: Rules, s: Series, now: int, d: Done)
    requires Distinct(s.chapters) && d in Evaluated(r, s, now).0
    ensures Required(r, s) != []
    ensures forall x :: x in Required(r, s) ==>
      && d.chapter.id in s.states && x in s.states[d.chapter.id] && s.states[d.chapter.id][x].completed
      && now - ReadTime(s.states[d.chapter.id][x]) >= r.graceDays * DAY
  {
    EvaluateExactly(r, s, now, d);
    forall x | x in Required(r, s)
      ensures d.chapter.id in s.states && x in s.states[d.chapter.id] && s.states[d.chapter.id][x].completed
        && now - ReadTime(s.states[d.chapter.id][x]) >= r.graceDays * DAY
    {
      EachFinished(s.states, d.chapter.id, Required(r, s), x);
    }
  }

  /** Among the KeepLastRead highest finished chapters that still have files. */
  predicate AmongLast(r: Rules, s: Series, d: Done) {
    var required := Required(r, s);
    IsDone(s, required, d) && |Above(Finished(s, s.chapters, required), d)| < r.keepLastRead
  }

  /** A run, even one that fails to delete some files, leaves the last ones, and they stay the last. */
  lemma LastOnesStay(r: Rules, s: Series, now: int, gone: set<Id>, d: Done)
    requires Distinct(s.chapters) && gone <= IdsOf(Evaluated(r, s, now).0) && AmongLast(r, s, d)
    ensures AmongLast(r, After(s, gone), d)
  {
    AboveShrinks(s, gone, Required(r, s), d);
    WithoutMembers(s.chapters, gone);
    forall x | x in Evaluated(r, s, now).0 ensures x.chapter.id != d.chapter.id {
      EvaluateExactly(r, s, now, x);
      LastIsNotDeletable(r, s, now, d, x);
    }
  }

  lemma LastIsNotDeletable(r: Rules, s: Series, now: int, d: Done, x: Done)
    requires Distinct(s.chapters) && AmongLast(r, s, d) && Deletable(r, s, now, x)
    ensures x.chapter.id != d.chapter.id
  {
    if x.chapter.id == d.chapter.id {
      SameChapter(s, x.chapter, d.chapter);
    }
  }

  lemma SameChapter(s: Series, a: Chapter, b: Chapter)
    requires Distinct(s.chapters) && a in s.chapters && b in s.chapters && a.id == b.id
    ensures a == b
  {
    var i :| 0 <= i < |s.chapters| && s.chapters[i] == a;
    var j :| 0 <= j < |s.chapters| && s.chapters[j] == b;
  }

  /** A second run at the same time finds nothing. */
  lemma SecondRunFindsNothing(r: Rules, s: Series, now: int)
    requires Distinct(s.chapters)
    ensures Evaluated(r, After(s, IdsOf(Evaluated(r, s, now).0)), now).0 == []
  {
    var gone := IdsOf(Evaluated(r, s, now).0);
    var t := After(s, gone);
    WithoutMembers(s.chapters, gone);
    var again := Evaluated(r, t, now).0;
    if again != [] {
      var d := again[0];
      EvaluateExactly(r, t, now, d);
      AboveShrinks(s, gone, Required(r, s), d);
      EvaluateExactly(r, s, now, d);
    }
  }

  lemma OneMoreGone(was: Series, out: seq<Done>, i: nat, failing: set<Id>)
    requires i < |out|
    ensures var s := After(was, IdsOf(out[..i]) - failing);
      After(was, IdsOf(out[..i + 1]) - failing) ==
      if out[i].chapter.id in failing then s else s.(chapters := Without(s.chapters, {out[i].chapter.id}))
  {
    assert out[..i + 1] == out[..i] + [out[i]];
    assert IdsOf(out[..i + 1]) == IdsOf(out[..i]) + {out[i].chapter.id};
    if out[i].chapter.id in failing {
      assert IdsOf(out[..i + 1]) - failing == IdsOf(out[..i]) - failing;
    } else {
      GoneTogether(was.chapters, IdsOf(out[..i]) - failing, {out[i].chapter.id});
      assert IdsOf(out[..i + 1]) - failing == (IdsOf(out[..i]) - failing) + {out[i].chapter.id};
    }
  }

  ghost predicate DistinctIds(done: seq<Done>) {
    forall i, j :: 0 <= i < j < |done| ==> done[i].chapter.id != done[j].chapter.id
  }

  lemma OneMoreCounted(out: seq<Done>, i: nat, failing: set<Id>)
    requires i < |out| && DistinctIds(out)
    ensures |IdsOf(out[..i + 1]) - failing| == |IdsOf(out[..i]) - failing| + if out[i].chapter.id in failing then 0 else 1
  {
    var x := out[i].chapter.id;
    assert out[..i + 1] == out[..i] + [out[i]];
    assert IdsOf(out[..i + 1]) == IdsOf(out[..i]) + {x};
    if x in failing {
      assert IdsOf(out[..i + 1]) - failing == IdsOf(out[..i]) - failing;
    } else {
      assert IdsOf(out[..i + 1]) - failing == (IdsOf(out[..i]) - failing) + {x};
    }
  }

  lemma {:induction false} OutOfGraceClimbs(r: Rules, done: seq<Done>, now: int)
    requires Climbs(done)
    ensures Climbs(OutOfGrace(r, done, now))
  {
    if done != [] {
      var n := |done| - 1;
      var f := OutOfGrace(r, done[..n], now);
      OutOfGraceClimbs(r, done[..n], now);
      OutOfGraceMembers(r, done[..n], now);
      forall i | 0 <= i < |f| ensures f[i].chapter.number < done[n].chapter.number {
        assert f[i] in done[..n];
      }
    }
  }

  /** No chapter is planned twice. */
  lemma PlannedApart(r: Rules, s: Series, now: int)
    requires Distinct(s.chapters)
    ensures DistinctIds(Evaluated(r, s, now).0)
  {
    var out, required := Evaluated(r, s, now).0, Required(r, s);
    if out != [] {
      FinishedDistinct(s, s.chapters, required);
      var sorted := StableSort(Finished(s, s.chapters, required), ByNumber);
      SortedClimbs(Finished(s, s.chapters, required));
      OutOfGraceClimbs(r, sorted[..|sorted| - Keep(r)], now);
      forall i, j | 0 <= i < j < |out| ensures out[i].chapter.id != out[j].chapter.id {
        EvaluateExactly(r, s, now, out[i]);
        EvaluateExactly(r, s, now, out[j]);
        if out[i].chapter.id == out[j].chapter.id {
          SameChapter(s, out[i].chapter, out[j].chapter);
        }
      }
    }
  }

  lemma NothingGone(s: Series)
    ensures After(s, {}) == s
  {
    WithoutNone(s.chapters);
  }

  lemma {:induction false} WithoutNone(chapters: seq<Chapter>)
    ensures Without(chapters, {}) == chapters
  {
    if chapters != [] {
      WithoutNone(chapters[..|chapters| - 1]);
      assert chapters == chapters[..|chapters| - 1] + [chapters[|chapters| - 1]];
    }
  }

  lemma WithoutLast(chapters: seq<Chapter>, c: Chapter, gone: set<Id>)
    ensures Without(chapters + [c], gone) == Without(chapters, gone) + if c.id in gone then [] else [c]
  {
    assert (chapters + [c])[..|chapters|] == chapters;
  }

  lemma {:induction false} GoneTogether(chapters: seq<Chapter>, a: set<Id>, b: set<Id>)
    ensures Without(Without(chapters, a), b) == Without(chapters, a + b)
  {
    if chapters != [] {
      var n := |chapters| - 1;
      GoneTogether(chapters[..n], a, b);
      if chapters[n].id !in a {
        WithoutLast(Without(chapters[..n], a), chapters[n], b);
      }
    }
  }
}
