/** How each failure leaves a job that is not paused, told by its row, the copy of it and the settings. */
module RetryOutcomes {
  import opened Common
  import R = RankOrder
  import opened Decision
  import opened DecisionFields
  import opened Retry

  /** Queued again at a time, for a release, after so many attempts; nothing else of the row changes. */
  ghost predicate QueuedAgain(s: State, t: State, at: int, attempt: nat, release: Option<Id>) {
    && t.row.status == R.Queued && t.row.notBefore == at && t.row.attempt == attempt && t.row.release == release
    && t.row.kind == s.row.kind
  }

  /** The chapter is asked for again, by a search and as if it were not queued, without what the blocklist now holds. */
  function Asked(w: World, s: State, copy: Row, input: Input): Input {
    var gone := if copy.release.Some? && copy.release.value in w.known then {w.known[copy.release.value]} else {};
    input.(search := true, queued := false, blocklist := s.blocklist + gone)
  }

  /** c is the release to fall back to, and there is one only for a download on a release whose records could be read. */
  ghost predicate FallsBackTo(w: World, s: State, copy: Row, loaded: bool, input: Input, c: Candidate) {
    var asked := Asked(w, s, copy, input);
    && copy.kind == R.Download && copy.release.Some? && loaded
    && ChapterWanted(asked) && FirstChoice(asked, w.cands, c) && WantedOverFile(asked, c)
  }

  /** The failure can only be met with another release: it is permanent, or the attempts are used up, or it is no download. */
  ghost predicate NoMoreTries(w: World, copy: Row, failure: Failure) {
    || failure == Permanent
    || (failure == Ordinary && (copy.attempt + 1 >= (if w.maxAttempts > 0 then w.maxAttempts else 3) || copy.kind != R.Download))
  }

  /** A cancelled attempt leaves everything as it is. */
  lemma CancelledChangesNothing(w: World, s: State, copy: Row, loaded: bool, input: Input, now: int)
    ensures Failing(w, s, copy, Cancelled, loaded, input, now) == s
  {
  }

  /** Trouble of our own never ends a job, however often: it waits five minutes more each time, at most an hour. */
  lemma InfraWaits(w: World, s: State, copy: Row, loaded: bool, input: Input, now: int)
    requires !s.row.status.Paused?
    ensures var t := Failing(w, s, copy, Infra, loaded, input, now);
      && QueuedAgain(s, t, now + (if copy.attempt < 12 then (copy.attempt + 1) * 300 else 3600), copy.attempt + 1, copy.release)
      && t.blocklist == s.blocklist && t.row.isUpgrade == s.row.isUpgrade
  {
  }

  /** Nor does a throttled catalog: the attempt is not counted, and the next is when the cooldown ends. */
  lemma CoolingWaits(w: World, s: State, copy: Row, until: int, loaded: bool, input: Input, now: int)
    requires !s.row.status.Paused?
    ensures var t := Failing(w, s, copy, Cooling(until), loaded, input, now);
      && QueuedAgain(s, t, until, s.row.attempt, copy.release)
      && t.blocklist == s.blocklist && t.row.isUpgrade == s.row.isUpgrade
  {
  }

  /** An ordinary failure of a download with attempts left: again after 30 seconds, two minutes, then ten. */
  lemma OrdinaryTriesAgain(w: World, s: State, copy: Row, loaded: bool, input: Input, now: int)
    requires !s.row.status.Paused? && !NoMoreTries(w, copy, Ordinary)
    ensures var t := Failing(w, s, copy, Ordinary, loaded, input, now);
      && QueuedAgain(s, t, now + (if copy.attempt == 0 then 30 else if copy.attempt == 1 then 120 else 600), copy.attempt + 1, copy.release)
      && t.blocklist == s.blocklist && t.row.isUpgrade == s.row.isUpgrade
  {
  }

  lemma FallbackIs(w: World, s: State, copy: Row, loaded: bool, input: Input, c: Candidate)
    requires DistinctIds(w.cands) && copy.kind == R.Download && copy.release.Some?
    ensures Fallback(w, Blocklist(w, s, copy.release), loaded, input).approved == Some(c) <==> FallsBackTo(w, s, copy, loaded, input, c)
    ensures Fallback(w, Blocklist(w, s, copy.release), loaded, input).approved.Some? ==>
      Fallback(w, Blocklist(w, s, copy.release), loaded, input).isUpgrade == input.file.Some?
  {
    var blocked := Blocklist(w, s, copy.release);
    var asked := Asked(w, s, copy, input);
    assert blocked.blocklist == asked.blocklist;
    assert input.(blocklist := blocked.blocklist).(search := true, queued := false) == asked;
    ApprovedExactly(asked, w.cands, c);
  }

  /** Otherwise the release is blocklisted and the next one tried from the start, at once but for five seconds. */
  lemma FallsBack(w: World, s: State, copy: Row, failure: Failure, loaded: bool, input: Input, now: int, c: Candidate)
    requires !s.row.status.Paused? && NoMoreTries(w, copy, failure) && DistinctIds(w.cands)
    requires FallsBackTo(w, s, copy, loaded, input, c)
    ensures var t := Failing(w, s, copy, failure, loaded, input, now);
      && QueuedAgain(s, t, now + 5, 0, Some(c.release.id))
      && t.blocklist == Asked(w, s, copy, input).blocklist && t.row.isUpgrade == input.file.Some?
  {
    FallbackIs(w, s, copy, loaded, input, c);
  }

  lemma Ends(w: World, s: State, copy: Row, failure: Failure, loaded: bool, input: Input, now: int)
    requires !s.row.status.Paused? && NoMoreTries(w, copy, failure) && DistinctIds(w.cands)
    requires forall c :: !FallsBackTo(w, s, copy, loaded, input, c)
    ensures var t := Failing(w, s, copy, failure, loaded, input, now);
      && t.row == s.row.(status := R.Failed, attempt := copy.attempt + 1)
      && t.blocklist == if copy.kind == R.Download then Asked(w, s, copy, input).blocklist else s.blocklist
  {
    if copy.kind == R.Download && copy.release.Some? {
      var next := Fallback(w, Blocklist(w, s, copy.release), loaded, input).approved;
      if next.Some? {
        FallbackIs(w, s, copy, loaded, input, next.value);
      }
    }
  }

  /** A failure ends a job that is not paused exactly when there is neither another try nor another release. */
  lemma EndsExactly(w: World, s: State, copy: Row, failure: Failure, loaded: bool, input: Input, now: int)
    requires !s.row.status.Paused? && !s.row.status.Failed? && DistinctIds(w.cands)
    ensures var t := Failing(w, s, copy, failure, loaded, input, now);
      && (t.row.status == R.Failed <==> NoMoreTries(w, copy, failure) && forall c :: !FallsBackTo(w, s, copy, loaded, input, c))
      && (t.row.status == R.Failed ==> t.row == s.row.(status := R.Failed, attempt := copy.attempt + 1))
  {
    if NoMoreTries(w, copy, failure) {
      if c :| FallsBackTo(w, s, copy, loaded, input, c) {
        FallsBack(w, s, copy, failure, loaded, input, now, c);
      } else {
        Ends(w, s, copy, failure, loaded, input, now);
      }
    }
  }

  /** What a paused row keeps of a failure: the mark of an upgrade fallen back to, and the blocklist as it would be otherwise. */
  function Kept(s: State, asked: Input, marks: bool): State {
    State(if marks then s.row.(isUpgrade := asked.file.Some?) else s.row, asked.blocklist)
  }

  lemma PausedLastTry(w: World, s: State, copy: Row, failure: Failure, loaded: bool, input: Input, now: int)
    requires s.row.status.Paused? && NoMoreTries(w, copy, failure) && DistinctIds(w.cands)
    requires copy.kind == R.Download && copy.release.Some?
    ensures Failing(w, s, copy, failure, loaded, input, now)
      == Kept(s, Asked(w, s, copy, input), exists c :: FallsBackTo(w, s, copy, loaded, input, c))
  {
    var next := Fallback(w, Blocklist(w, s, copy.release), loaded, input).approved;
    if c :| FallsBackTo(w, s, copy, loaded, input, c) {
      FallbackIs(w, s, copy, loaded, input, c);
    } else if next.Some? {
      FallbackIs(w, s, copy, loaded, input, next.value);
    }
  }

  lemma PausedNoFallback(w: World, s: State, copy: Row, failure: Failure, loaded: bool, input: Input, now: int)
    requires s.row.status.Paused? && !(NoMoreTries(w, copy, failure) && copy.kind == R.Download && copy.release.Some?)
    ensures Failing(w, s, copy, failure, loaded, input, now) == s
  {
  }

  /** On a paused row nothing changes but that mark, with the blocklist: another writer's pause stays. */
  lemma PausedKeeps(w: World, s: State, copy: Row, failure: Failure, loaded: bool, input: Input, now: int)
    requires s.row.status.Paused? && DistinctIds(w.cands)
    ensures Failing(w, s, copy, failure, loaded, input, now) ==
      if NoMoreTries(w, copy, failure) && copy.kind == R.Download && copy.release.Some? then
        Kept(s, Asked(w, s, copy, input), exists c :: FallsBackTo(w, s, copy, loaded, input, c))
      else s
  {
    if NoMoreTries(w, copy, failure) && copy.kind == R.Download && copy.release.Some? {
      PausedLastTry(w, s, copy, failure, loaded, input, now);
    } else {
      PausedNoFallback(w, s, copy, failure, loaded, input, now);
    }
  }

  /** Before an attempt: a job whose release is no candidate any more goes to the first choice, if there is one. */
  lemma PicksAnother(w: World, s: State, copy: Row, input: Input, c: Candidate, upgrade: bool)
    requires DistinctIds(w.cands)
    ensures var asked := input.(search := true, queued := false, blocklist := s.blocklist);
      Picked(w, s, copy, input) == Some((Some(c.release.id), upgrade)) <==>
        && (copy.release.Some? && copy.release.value in w.known ==>
             forall x :: x in w.cands ==> (x.source.id, x.release.url) != w.known[copy.release.value])
        && upgrade == input.file.Some?
        && exists d: Candidate :: d.release.id == c.release.id && ChapterWanted(asked) && FirstChoice(asked, w.cands, d) && WantedOverFile(asked, d)
  {
    var asked := input.(search := true, queued := false, blocklist := s.blocklist);
    assert input.(blocklist := s.blocklist).(search := true, queued := false) == asked;
    var next := Verdicts(asked, w.cands).approved;
    if next.Some? {
      ApprovedExactly(asked, w.cands, next.value);
    }
    forall d ensures next == Some(d) <==> ChapterWanted(asked) && FirstChoice(asked, w.cands, d) && WantedOverFile(asked, d) {
      ApprovedExactly(asked, w.cands, d);
    }
    assert KeysOf(w, copy.release) !! Keys(w.cands) <==> (copy.release.Some? && copy.release.value in w.known ==>
      forall x :: x in w.cands ==> (x.source.id, x.release.url) != w.known[copy.release.value]);
  }
}
