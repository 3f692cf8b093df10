/** Read-based cleanup: which chapters of a series may be deleted, and what a run deletes. */
module Cleanup {
  import opened Common
  import opened Sorting

  type Id = nat

  /** Times are in nanoseconds; the zero time is year 1. */
  const ZERO_TIME: int := -62_135_596_800_000_000_000
  const DAY: int := 86_400_000_000_000

  /** A reader's progress in one chapter. */
  datatype Progress = Progress(completed: bool, page: int, readAt: Option<int>, syncedAt: int)

  /** A chapter that has a file. */
  datatype Chapter = Chapter(id: Id, number: real, file: Id)

  datatype Rules = Rules(enabled: bool, required: seq<Id>, ignoreNotStarted: bool, keepLastRead: int, graceDays: int)

  /** inScope: the series status is one the rules cover. states is by chapter, then reader. */
  datatype Series = Series(inScope: bool, chapters: seq<Chapter>, states: map<Id, map<Id, Progress>>)

  datatype Reason = Disabled | OutOfScope | NobodyStarted | NothingFinished | KeepingLast | InGrace

  datatype Done = Done(chapter: Chapter, lastAt: int)

  // ---- the rules --------------------------------------------------------------------------

  predicate Begun(p: Progress) { p.completed || p.page > 0 }

  /** The readers who have begun some chapter of the series. */
  function Started(states: map<Id, map<Id, Progress>>): set<Id> {
    set c, r | c in states && r in states[c] && Begun(states[c][r]) :: r
  }

  function Filtered(readers: seq<Id>, keep: set<Id>): seq<Id> {
    if readers == [] then [] else
      var n := |readers| - 1;
      Filtered(readers[..n], keep) + if readers[n] in keep then [readers[n]] else []
  }

  /** The effective required readers. */
  function Required(r: Rules, s: Series): seq<Id> {
    if r.ignoreNotStarted then Filtered(r.required, Started(s.states)) else r.required
  }

  function ReadTime(p: Progress): int {
    if p.readAt.Some? then p.readAt.value else p.syncedAt
  }

  /** When the last of the readers finished the chapter, if all of them have. */
  function FinishedAt(states: map<Id, map<Id, Progress>>, chapter: Id, readers: seq<Id>): Option<int> {
    if readers == [] then Some(ZERO_TIME) else
      var n := |readers| - 1;
      var before := FinishedAt(states, chapter, readers[..n]);
      if before.None? || !(chapter in states && readers[n] in states[chapter] && states[chapter][readers[n]].completed) then None
      else
        var at := ReadTime(states[chapter][readers[n]]);
        Some(if before.value < at then at else before.value)
  }

  function Finished(s: Series, chapters: seq<Chapter>, readers: seq<Id>): seq<Done> {
    if chapters == [] then [] else
      var n := |chapters| - 1;
      var at := FinishedAt(s.states, chapters[n].id, readers);
      Finished(s, chapters[..n], readers) + if at.Some? then [Done(chapters[n], at.value)] else []
  }

  function ByNumber(a: Done, b: Done): bool { a.chapter.number < b.chapter.number }

  function Keep(r: Rules): (n: nat) {
    if r.keepLastRead < 0 then 0 else r.keepLastRead
  }

  predicate GracePassed(r: Rules, d: Done, now: int) {
    now - d.lastAt >= r.graceDays * DAY
  }

  function OutOfGrace(r: Rules, done: seq<Done>, now: int): seq<Done> {
    if done == [] then [] else
      var n := |done| - 1;
      OutOfGrace(r, done[..n], now) + if GracePassed(r, done[n], now) then [done[n]] else []
  }

  function Evaluated(r: Rules, s: Series, now: int): (seq<Done>, Option<Reason>) {
    if !r.enabled then ([], Some(Disabled))
    else if !s.inScope then ([], Some(OutOfScope))
    else
      var required := Required(r, s);
      if required == [] then ([], Some(NobodyStarted))
      else Selected(r, StableSort(Finished(s, s.chapters, required), ByNumber), now)
  }

  /** Of finished chapters in order: all but the last few, out of grace. */
  function Selected(r: Rules, done: seq<Done>, now: int): (seq<Done>, Option<Reason>) {
    if done == [] then ([], Some(NothingFinished))
    else if Keep(r) >= |done| then ([], Some(KeepingLast))
    else
      var out := OutOfGrace(r, done[..|done| - Keep(r)], now);
      (out, if out == [] then Some(InGrace) else None)
  }

  // ---- the loops ------------------------------------------------------------------------------

  method StartedReaders(states: map<Id, map<Id, Progress>>) returns (started: set<Id>)
    ensures started == Started(states)
  {
    started := {};
    var chapters := states.Keys;
    while chapters != {}
      invariant chapters <= states.Keys
      invariant started == set c, r | c in states && c !in chapters && r in states[c] && Begun(states[c][r]) :: r
      decreases |chapters|
    {
      var c :| c in chapters;
      var begun := set r | r in states[c] && Begun(states[c][r]);
      started, chapters := started + begun, chapters - {c};
    }
  }

  method FilterReaders(readers: seq<Id>, keep: set<Id>) returns (kept: seq<Id>)
    ensures kept == Filtered(readers, keep)
  {
    kept := [];
    for i := 0 to |readers|
      invariant kept == Filtered(readers[..i], keep)
    {
      assert readers[..i + 1][..i] == readers[..i];
      if readers[i] in keep {
        kept := kept + [readers[i]];
      }
    }
    assert readers[..|readers|] == readers;
  }

  method LastFinished(states: map<Id, map<Id, Progress>>, chapter: Id, readers: seq<Id>) returns (all: bool, last: int)
    ensures FinishedAt(states, chapter, readers) == if all then Some(last) else None
  {
    all, last := true, ZERO_TIME;
    for i := 0 to |readers|
      invariant all && FinishedAt(states, chapter, readers[..i]) == Some(last)
    {
      assert readers[..i + 1][..i] == readers[..i];
      if !(chapter in states && readers[i] in states[chapter] && states[chapter][readers[i]].completed) {
        NotAllFinished(states, chapter, readers, i + 1);
        return false, last;
      }
      var at := ReadTime(states[chapter][readers[i]]);
      if last < at {
        last := at;
      }
    }
    assert readers[..|readers|] == readers;
  }

  lemma {:induction false} NotAllFinished(states: map<Id, map<Id, Progress>>, chapter: Id, readers: seq<Id>, n: nat)
    requires n <= |readers| && FinishedAt(states, chapter, readers[..n]).None?
    ensures FinishedAt(states, chapter, readers).None?
    decreases |readers|
  {
    if n == |readers| {
      assert readers[..n] == readers;
    } else {
      var m := |readers| - 1;
      assert readers[..m][..n] == readers[..n];
      NotAllFinished(states, chapter, readers[..m], n);
    }
  }

  method FinishedChapters(s: Series, readers: seq<Id>) returns (done: seq<Done>)
    ensures done == Finished(s, s.chapters, readers)
  {
    done := [];
    for i := 0 to |s.chapters|
      invariant done == Finished(s, s.chapters[..i], readers)
    {
      assert s.chapters[..i + 1][..i] == s.chapters[..i];
      var all, last := LastFinished(s.states, s.chapters[i].id, readers);
      if all {
        done := done + [Done(s.chapters[i], last)];
      }
    }
    assert s.chapters[..|s.chapters|] == s.chapters;
  }

  method Evaluate(r: Rules, s: Series, now: int) returns (out: seq<Done>, reason: Option<Reason>)
    ensures (out, reason) == Evaluated(r, s, now)
  {
    if !r.enabled {
      return [], Some(Disabled);
    }
    if !s.inScope {
      return [], Some(OutOfScope);
    }
    var required := r.required;
    if r.ignoreNotStarted {
      var started := StartedReaders(s.states);
      required := FilterReaders(required, started);
    }
    if required == [] {
      return [], Some(NobodyStarted);
    }
    var done := FinishedChapters(s, required);
    out, reason := Select(r, StableSort(done, ByNumber), now);
  }

  method Select(r: Rules, done: seq<Done>, now: int) returns (out: seq<Done>, reason: Option<Reason>)
    ensures (out, reason) == Selected(r, done, now)
  {
    if done == [] {
      return [], Some(NothingFinished);
    }
    if Keep(r) >= |done| {
      return [], Some(KeepingLast);
    }
    out := SkipGrace(r, done[..|done| - Keep(r)], now);
    reason := if out == [] then Some(InGrace) else None;
  }

  method SkipGrace(r: Rules, done: seq<Done>, now: int) returns (out: seq<Done>)
    ensures out == OutOfGrace(r, done, now)
  {
    out := [];
    for i := 0 to |done|
      invariant out == OutOfGrace(r, done[..i], now)
    {
      assert done[..i + 1][..i] == done[..i];
      if GracePassed(r, done[i], now) {
        out := out + [done[i]];
      }
    }
    assert done[..|done|] == done;
  }
}
