/** A job whose attempts work from older copies of its row can fail more often than one whose attempts do not. */
module RetryExcess {
  import opened Common
  import R = RankOrder
  import opened Decision
  import opened Retry

  // ---- a run, from its end ----------------------------------------------------------------------

  /** The run counts so many failures, so many work from an older copy, and none before the last event ends the job. */
  ghost predicate Yields(d: Desk, events: seq<Event>, counted: nat, stale: nat) {
    Unfinished(TWO, d, events) && CountedIn(TWO, d, events) == counted && StaleIn(TWO, d, events) == stale
  }

  lemma Before(d: Desk, e: Event, t: Desk, events: seq<Event>, counted: nat, stale: nat) returns (more: seq<Event>)
    requires !d.s.row.status.Failed? && t == Happens(TWO, d, e) && Yields(t, events, counted, stale)
    ensures Yields(d, more, counted + OneIf(CountsNow(d, e)), stale + OneIf(StaleNow(d, e)))
  {
    more := [e] + events;
    assert more[1..] == events;
  }

  // ---- where the job is ---------------------------------------------------------------------------

  /** Queued on a release after some attempts; the second copy is of the row as it was at first. */
  ghost predicate Stage(d: Desk, release: Id, attempt: nat, blocked: set<Key>) {
    && d.s.row == Row(R.Queued, R.Download, attempt, Some(release), d.s.row.isUpgrade, d.s.row.notBefore)
    && d.s.blocklist == blocked
    && |d.copies| >= 2 && d.copies[1] == ROW
  }

  /** An attempt on a new reading of the row that fails. */
  function Failed(k: nat): Event { Fails(k, Ordinary, true, ASKED, 0) }

  function Delivered(d: Desk): Desk { Happens(TWO, d, Delivers) }

  function AfterFresh(d: Desk): Desk { Happens(TWO, Delivered(d), Failed(|d.copies|)) }

  lemma FreshFails(d: Desk, release: Id, attempt: nat, blocked: set<Key>, events: seq<Event>, counted: nat, stale: nat)
    returns (more: seq<Event>)
    requires Stage(d, release, attempt, blocked) && Yields(AfterFresh(d), events, counted, stale)
    ensures Yields(d, more, counted + 1, stale)
  {
    var e := Delivered(d);
    assert e == d.(copies := d.copies + [d.s.row], working := d.working + {|d.copies|});
    assert CountsNow(e, Failed(|d.copies|)) && !StaleNow(e, Failed(|d.copies|));
    var last := Before(e, Failed(|d.copies|), AfterFresh(d), events, counted, stale);
    more := Before(d, Delivers, e, last, counted + 1, stale);
  }

  lemma FreshIs(d: Desk, release: Id, attempt: nat, blocked: set<Key>)
    requires Stage(d, release, attempt, blocked)
    ensures AfterFresh(d).s == Failing(TWO, d.s, d.s.row, Ordinary, true, ASKED, 0)
    ensures |AfterFresh(d).copies| >= 2 && AfterFresh(d).copies[1] == ROW
  {
    var e := Delivered(d);
    assert e == d.(copies := d.copies + [d.s.row], working := d.working + {|d.copies|});
    assert e.copies[|d.copies|] == d.s.row && e.copies[1] == ROW;
  }

  lemma FreshRetries(d: Desk, release: Id, attempt: nat, blocked: set<Key>)
    requires Stage(d, release, attempt, blocked) && attempt < 2
    ensures Stage(AfterFresh(d), release, attempt + 1, blocked)
  {
    FreshIs(d, release, attempt, blocked);
    TriedAgain(TWO, d.s, d.s.row, Ordinary, true, ASKED, 0);
  }

  /** After the third failure on the first release the job goes on to the second. */
  lemma FreshFallsBack(d: Desk, blocked: set<Key>)
    requires Stage(d, 0, 2, blocked) && blocked <= {KeyOf(C0)}
    ensures Stage(AfterFresh(d), 1, 0, {KeyOf(C0)})
  {
    FreshIs(d, 0, 2, blocked);
    var asked := ASKED.(blocklist := {KeyOf(C0)});
    assert Blocklist(TWO, d.s, Some(0)).blocklist == {KeyOf(C0)};
    assert C1 in TWO.cands && ReleaseRejection(asked, C1).None?;
    NextExists(asked, TWO.cands, C1);
    NextIsNotBlocklisted(asked, TWO.cands, NextCandidate(asked, TWO.cands).approved.value);
  }

  // ---- the older copy -----------------------------------------------------------------------------

  function Claimed(d: Desk): Desk { Happens(TWO, d, Claims(1)) }

  function AfterStale(d: Desk): Desk { Happens(TWO, Claimed(d), Failed(1)) }

  lemma StaleFails(d: Desk, events: seq<Event>, counted: nat, stale: nat) returns (more: seq<Event>)
    requires Stage(d, 1, 2, {KeyOf(C0)}) && Yields(AfterStale(d), events, counted, stale)
    ensures Yields(d, more, counted + 1, stale + 1)
  {
    var e := Claimed(d);
    assert e.s.row.status.Downloading? && e.copies == d.copies && Works(e, 1);
    var last := Before(e, Failed(1), AfterStale(d), events, counted, stale);
    more := Before(d, Claims(1), e, last, counted + 1, stale + 1);
  }

  /** It puts the job back on the first release. */
  lemma StalePutsBack(d: Desk)
    requires Stage(d, 1, 2, {KeyOf(C0)})
    ensures Stage(AfterStale(d), 0, 1, {KeyOf(C0)})
  {
    var e := Claimed(d);
    assert e.s.row.status.Downloading? && e.copies == d.copies && Works(e, 1);
    TriedAgain(TWO, e.s, ROW, Ordinary, true, ASKED, 0);
  }

  const STOPPED: Event := Fails(1, Cancelled, true, ASKED, 0)

  function AfterStopped(d: Desk): Desk {
    Happens(TWO, Happens(TWO, Claimed(d), STOPPED), Writes(R.Queued))
  }

  /** An attempt on the older copy that is cancelled, and the job queued again: nothing has changed. */
  lemma StaleStops(d: Desk, events: seq<Event>, counted: nat, stale: nat) returns (more: seq<Event>)
    requires Stage(d, 1, 2, {KeyOf(C0)}) && Yields(AfterStopped(d), events, counted, stale)
    ensures Yields(d, more, counted, stale + 1)
  {
    var e := Claimed(d);
    assert e.s.row.status.Downloading? && e.copies == d.copies && Works(e, 1);
    var f := Happens(TWO, e, STOPPED);
    assert f.s == e.s;
    more := Before(f, Writes(R.Queued), AfterStopped(d), events, counted, stale);
    more := Before(e, STOPPED, f, more, counted, stale);
    more := Before(d, Claims(1), e, more, counted, stale + 1);
  }

  lemma StoppedStage(d: Desk)
    requires Stage(d, 1, 2, {KeyOf(C0)})
    ensures Stage(AfterStopped(d), 1, 2, {KeyOf(C0)})
  {
    var e := Claimed(d);
    assert e.s.row.status.Downloading? && e.copies == d.copies && Works(e, 1);
  }

  // ---- the whole run --------------------------------------------------------------------------------

  /** Two more failures on a release. */
  lemma TwoFresh(d: Desk, release: Id, blocked: set<Key>) returns (t: Desk)
    requires Stage(d, release, 0, blocked)
    ensures t == AfterFresh(AfterFresh(d)) && Stage(AfterFresh(d), release, 1, blocked) && Stage(t, release, 2, blocked)
  {
    FreshRetries(d, release, 0, blocked);
    FreshRetries(AfterFresh(d), release, 1, blocked);
    t := AfterFresh(AfterFresh(d));
  }

  /** Three failures end the job on its last release. */
  lemma LastThree(d: Desk) returns (events: seq<Event>)
    requires Stage(d, 1, 0, {KeyOf(C0)})
    ensures Yields(d, events, 3, 0)
  {
    var t := TwoFresh(d, 1, {KeyOf(C0)});
    events := FreshFails(t, 1, 2, {KeyOf(C0)}, [], 0, 0);
    events := FreshFails(AfterFresh(d), 1, 1, {KeyOf(C0)}, events, 1, 0);
    events := FreshFails(d, 1, 0, {KeyOf(C0)}, events, 2, 0);
  }

  /** Put back on the first release, it has five failures ahead. */
  lemma LastFive(d: Desk) returns (events: seq<Event>)
    requires Stage(d, 0, 1, {KeyOf(C0)})
    ensures Yields(d, events, 5, 0)
  {
    FreshRetries(d, 0, 1, {KeyOf(C0)});
    var t := AfterFresh(d);
    FreshFallsBack(t, {KeyOf(C0)});
    events := LastThree(AfterFresh(t));
    events := FreshFails(t, 0, 2, {KeyOf(C0)}, events, 3, 0);
    events := FreshFails(d, 0, 1, {KeyOf(C0)}, events, 4, 0);
  }

  /** At its last attempt, with so many attempts on the older copy to come, it has six. */
  lemma {:induction false} LastSix(d: Desk, stale: nat) returns (events: seq<Event>)
    requires Stage(d, 1, 2, {KeyOf(C0)}) && stale > 0
    ensures Yields(d, events, 6, stale)
    decreases stale
  {
    if stale == 1 {
      StalePutsBack(d);
      events := LastFive(AfterStale(d));
      events := StaleFails(d, events, 5, 0);
    } else {
      StoppedStage(d);
      events := LastSix(AfterStopped(d), stale - 1);
      events := StaleStops(d, events, 6, stale - 1);
    }
  }

  lemma LastEight(d: Desk, stale: nat) returns (events: seq<Event>)
    requires Stage(d, 1, 0, {KeyOf(C0)}) && stale > 0
    ensures Yields(d, events, 8, stale)
  {
    var t := TwoFresh(d, 1, {KeyOf(C0)});
    events := LastSix(t, stale);
    events := FreshFails(AfterFresh(d), 1, 1, {KeyOf(C0)}, events, 6, stale);
    events := FreshFails(d, 1, 0, {KeyOf(C0)}, events, 7, stale);
  }

  lemma Eleven(d: Desk, stale: nat) returns (events: seq<Event>)
    requires Stage(d, 0, 0, {}) && stale > 0
    ensures Yields(d, events, 11, stale)
  {
    var t := TwoFresh(d, 0, {});
    FreshFallsBack(t, {});
    events := LastEight(AfterFresh(t), stale);
    events := FreshFails(t, 0, 2, {}, events, 8, stale);
    events := FreshFails(AfterFresh(d), 0, 1, {}, events, 9, stale);
    events := FreshFails(d, 0, 0, {}, events, 10, stale);
  }

  lemma FromStart(stale: nat) returns (events: seq<Event>)
    requires stale > 0
    ensures Yields(START, events, 11, stale)
  {
    var one := Happens(TWO, START, Reads);
    var two := Happens(TWO, one, Reads);
    assert two == Desk(State(ROW, {}), [ROW, ROW], {});
    events := Eleven(two, stale);
    events := Before(one, Reads, two, events, 11, stale);
    events := Before(START, Reads, one, events, 11, stale);
  }

  /** More failures count than maxAttempts for the first release and each one not yet blocklisted. */
  ghost predicate Exceeds(w: World, d: Desk, events: seq<Event>, stale: nat) {
    && w.Sound() && Unfinished(w, d, events) && StaleIn(w, d, events) == stale
    && CountedIn(w, d, events) > w.Max() * (1 + |Unblocked(w, d.s)|)
  }

  lemma NoneFresh(w: World, d: Desk, events: seq<Event>)
    ensures !Exceeds(w, d, events, 0)
  {
    if Exceeds(w, d, events, 0) {
      LadderTerminates(w, d, events);
    }
  }

  lemma NineAtFirst()
    ensures TWO.Sound() && TWO.Max() == 3 && |Unblocked(TWO, START.s)| == 2
  {
    var two := TWO.cands;
    assert two[0] in two && two[1] in two;
    assert Unblocked(TWO, START.s) == {KeyOf(C0), KeyOf(C1)};
  }

  /** Eleven against nine. */
  lemma StaleExceeds(stale: nat) returns (events: seq<Event>)
    requires stale > 0
    ensures Exceeds(TWO, START, events, stale)
  {
    events := FromStart(stale);
    NineAtFirst();
  }

  ghost predicate CanExceed(stale: nat) {
    exists w, d, events :: Exceeds(w, d, events, stale)
  }

  /** With so many failures on older copies a job can fail more often than that exactly when there is one. */
  lemma ExceedsExactly(stale: nat)
    ensures CanExceed(stale) <==> stale > 0
  {
    if stale == 0 {
      forall w, d, events ensures !Exceeds(w, d, events, 0) {
        NoneFresh(w, d, events);
      }
    } else {
      var events := StaleExceeds(stale);
    }
  }
}
